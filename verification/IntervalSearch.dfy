/** The bracketing minimiser of the rate search: five phases over at most three evaluated points. */
module IntervalSearch {
  /** A place where the objective was evaluated, and the value found there. */
  datatype Point = Point(x: real, val: real)

  /** One constructor per value of next; each carries the points that phase has set. */
  datatype Search =
    | InitMiddle(top: Point, bottom: Point)
    | InitBottom(top: Point, center: Point)
    | InitTop(center: Point, bottom: Point)
    | Top(top: Point, center: Point, bottom: Point)
    | Bottom(top: Point, center: Point, bottom: Point)

  function StartTwo(top: Point, bottom: Point): Search {
    InitMiddle(top, bottom)
  }

  function StartThree(top: Point, center: Point, bottom: Point): Search {
    if center.val <= bottom.val && center.val <= top.val then Top(top, center, bottom)
    else if bottom.val <= top.val then InitBottom(center, bottom)
    else InitTop(top, center)
  }

  /** Where the objective is to be evaluated next. */
  function Suggest(s: Search): real {
    match s
    case InitMiddle(t, b) => (t.x + b.x) / 2.0
    case InitBottom(t, c) => 2.0 * c.x - t.x
    case InitTop(c, b) => 2.0 * c.x - b.x
    case Top(t, c, b) => (t.x + c.x) / 2.0
    case Bottom(t, c, b) => (b.x + c.x) / 2.0
  }

  /** The state after the value at p is known. */
  function Consume(s: Search, p: Point): Search {
    match s
    case InitMiddle(t, b) =>
      if p.val <= b.val && p.val <= t.val then Top(t, p, b)
      else if t.val >= b.val then InitBottom(p, b)
      else InitTop(t, p)
    case InitBottom(t, c) => if p.val >= c.val then Top(t, c, p) else InitBottom(c, p)
    case InitTop(c, b) => if p.val >= c.val then Top(p, c, b) else InitTop(p, c)
    case Top(t, c, b) => if p.val >= c.val then Bottom(p, c, b) else Bottom(t, p, c)
    case Bottom(t, c, b) => if p.val >= c.val then Top(t, c, p) else Top(c, p, b)
  }

  /** True in the two refinement phases, where three points surround a low centre. */
  predicate Bracketed(s: Search) {
    s.Top? || s.Bottom?
  }

  /** The larger distance from the centre of a bracket to its ends. */
  function Gap(s: Search): real
    requires Bracketed(s)
  {
    if Up(s) < Down(s) then Down(s) else Up(s)
  }

  function Up(s: Search): real
    requires Bracketed(s)
  {
    s.top.x - s.center.x
  }

  function Down(s: Search): real
    requires Bracketed(s)
  {
    s.center.x - s.bottom.x
  }

  predicate Done(s: Search, threshold: real) {
    Bracketed(s) && Gap(s) <= threshold
  }

  // ---- runs ----------------------------------------------------------------------------------

  /** The state after answering every suggestion, in turn, with the next of vals. */
  function Run(s: Search, vals: seq<real>): Search {
    if |vals| == 0 then s
    else
      var before := Run(s, vals[..|vals| - 1]);
      Consume(before, Point(Suggest(before), vals[|vals| - 1]))
  }

  /** Every point evaluated up to then, beginning with those in log. */
  function Evaluated(log: seq<Point>, s: Search, vals: seq<real>): seq<Point> {
    if |vals| == 0 then log
    else
      var front := vals[..|vals| - 1];
      Evaluated(log, s, front) + [Point(Suggest(Run(s, front)), vals[|vals| - 1])]
  }

  /** The answers are the values of f. */
  predicate Answers(f: real -> real, s: Search, vals: seq<real>) {
    |vals| == 0 ||
    var front := vals[..|vals| - 1];
    Answers(f, s, front) && vals[|vals| - 1] == f(Suggest(Run(s, front)))
  }

  lemma {:induction false} RunSplits(s: Search, a: seq<real>, b: seq<real>)
    ensures Run(s, a + b) == Run(Run(s, a), b)
  {
    if |b| == 0 {
      assert a + b == a;
    } else {
      assert (a + b)[..|a + b| - 1] == a + b[..|b| - 1];
      RunSplits(s, a, b[..|b| - 1]);
    }
  }

  // ---- the known points ----------------------------------------------------------------------

  /** The known points are strictly ordered. */
  predicate Ordered(s: Search) {
    match s
    case InitMiddle(t, b) => b.x < t.x
    case InitBottom(t, c) => c.x < t.x
    case InitTop(c, b) => b.x < c.x
    case Top(t, c, b) => b.x < c.x < t.x
    case Bottom(t, c, b) => b.x < c.x < t.x
  }

  /** The centre is below its known neighbours, strictly so while the bracket is open. */
  predicate Dips(s: Search) {
    match s
    case InitMiddle(t, b) => true
    case InitBottom(t, c) => c.val < t.val
    case InitTop(c, b) => c.val < b.val
    case Top(t, c, b) => c.val <= t.val && c.val <= b.val
    case Bottom(t, c, b) => c.val <= t.val && c.val <= b.val
  }

  /** An evaluated point, seen from the state: never below the centre, and never strictly between two
      neighbouring known points or beyond the open end. */
  predicate Outside(s: Search, p: Point) {
    match s
    case InitMiddle(t, b) => p == t || p == b
    case InitBottom(t, c) => c.val <= p.val && (p.x == c.x || t.x <= p.x)
    case InitTop(c, b) => c.val <= p.val && (p.x == c.x || p.x <= b.x)
    case Top(t, c, b) => c.val <= p.val && (p.x == c.x || p.x <= b.x || t.x <= p.x)
    case Bottom(t, c, b) => c.val <= p.val && (p.x == c.x || p.x <= b.x || t.x <= p.x)
  }

  function Known(s: Search): set<Point> {
    match s
    case InitMiddle(t, b) => {t, b}
    case InitBottom(t, c) => {t, c}
    case InitTop(c, b) => {c, b}
    case Top(t, c, b) => {t, c, b}
    case Bottom(t, c, b) => {t, c, b}
  }

  /** What the state keeps with respect to the points evaluated so far. */
  predicate Tight(s: Search, log: seq<Point>) {
    Ordered(s) && Dips(s) &&
    (forall p :: p in Known(s) ==> p in log) &&
    forall i :: 0 <= i < |log| ==> Outside(s, log[i])
  }

  lemma ConsumeTight(s: Search, log: seq<Point>, val: real)
    requires Tight(s, log)
    ensures var p := Point(Suggest(s), val); Tight(Consume(s, p), log + [p])
  {
    var p := Point(Suggest(s), val);
    var next, logged := Consume(s, p), log + [p];
    forall q | q in Known(next) ensures q in logged {
      assert q == p || q in Known(s);
      assert logged[|log|] == p;
    }
    forall i | 0 <= i < |logged| ensures Outside(next, logged[i]) {
      assert i < |log| ==> Outside(s, log[i]);
    }
  }

  lemma {:induction false} RunTight(log: seq<Point>, s: Search, vals: seq<real>)
    requires Tight(s, log)
    ensures Tight(Run(s, vals), Evaluated(log, s, vals))
  {
    if |vals| > 0 {
      var front := vals[..|vals| - 1];
      RunTight(log, s, front);
      ConsumeTight(Run(s, front), Evaluated(log, s, front), vals[|vals| - 1]);
    }
  }

  lemma TwoPointsTight(top: Point, bottom: Point)
    requires bottom.x < top.x
    ensures Tight(StartTwo(top, bottom), [top, bottom])
  {
    assert [top, bottom][0] == top && [top, bottom][1] == bottom;
  }

  lemma ThreePointsTight(top: Point, center: Point, bottom: Point)
    requires bottom.x < center.x < top.x
    ensures Tight(StartThree(top, center, bottom), [top, center, bottom])
  {
    var points := [top, center, bottom];
    assert points[0] == top && points[1] == center && points[2] == bottom;
  }

  /** Whatever values come back, after two ordered start points the known points stay strictly ordered,
      and from the first answer on the centre is an evaluated point with the least value of all, with no
      evaluated point between it and its known neighbours. */
  lemma TwoPointRun(top: Point, bottom: Point, vals: seq<real>)
    requires bottom.x < top.x
    ensures var s, log := Run(StartTwo(top, bottom), vals), Evaluated([top, bottom], StartTwo(top, bottom), vals);
            Tight(s, log) &&
            (|vals| > 0 ==> !s.InitMiddle? && s.center in log && forall p :: p in log ==> s.center.val <= p.val)
  {
    var start := StartTwo(top, bottom);
    TwoPointsTight(top, bottom);
    RunTight([top, bottom], start, vals);
    if |vals| > 0 {
      LeavesInitMiddle(start, vals);
      CentreIsLeast(Run(start, vals), Evaluated([top, bottom], start, vals));
    }
  }

  lemma CentreIsLeast(s: Search, log: seq<Point>)
    requires Tight(s, log) && !s.InitMiddle?
    ensures s.center in log && forall p :: p in log ==> s.center.val <= p.val
  {
    assert s.center in Known(s);
    forall p | p in log ensures s.center.val <= p.val {
      assert Outside(s, p);
    }
  }

  lemma {:induction false} LeavesInitMiddle(s: Search, vals: seq<real>)
    requires |vals| > 0 || !s.InitMiddle?
    ensures !Run(s, vals).InitMiddle?
  {
    if |vals| > 1 || (|vals| == 1 && !s.InitMiddle?) {
      LeavesInitMiddle(s, vals[..|vals| - 1]);
    }
  }

  /** The same from three ordered start points, from the start on. */
  lemma ThreePointRun(top: Point, center: Point, bottom: Point, vals: seq<real>)
    requires bottom.x < center.x < top.x
    ensures var start := StartThree(top, center, bottom);
            var s, log := Run(start, vals), Evaluated([top, center, bottom], start, vals);
            Tight(s, log) && !s.InitMiddle? && s.center in log && forall p :: p in log ==> s.center.val <= p.val
  {
    var start, points := StartThree(top, center, bottom), [top, center, bottom];
    ThreePointsTight(top, center, bottom);
    RunTight(points, start, vals);
    LeavesInitMiddle(start, vals);
    CentreIsLeast(Run(start, vals), Evaluated(points, start, vals));
  }

  // ---- accuracy ------------------------------------------------------------------------------

  /** f falls strictly up to m and rises strictly from m on. */
  ghost predicate Unimodal(f: real -> real, m: real) {
    (forall x, y {:trigger f(x), f(y)} :: x < y <= m ==> f(x) > f(y)) &&
    forall x, y {:trigger f(x), f(y)} :: m <= x < y ==> f(x) < f(y)
  }

  /** Every known value is a value of f. */
  ghost predicate Samples(f: real -> real, s: Search) {
    forall p :: p in Known(s) ==> p.val == f(p.x)
  }

  lemma {:induction false} RunSamples(f: real -> real, s: Search, vals: seq<real>)
    requires Samples(f, s) && Answers(f, s, vals)
    ensures Samples(f, Run(s, vals))
  {
    if |vals| > 0 {
      var front := vals[..|vals| - 1];
      RunSamples(f, s, front);
      var before := Run(s, front);
      forall p | p in Known(Run(s, vals)) ensures p.val == f(p.x) {
        assert p == Point(Suggest(before), vals[|vals| - 1]) || p in Known(before);
      }
    }
  }

  /** The minimiser lies strictly inside a bracket, and beyond the centre's known neighbour otherwise. */
  lemma MinimiserInside(f: real -> real, m: real, s: Search)
    requires Unimodal(f, m) && Samples(f, s) && Ordered(s) && Dips(s) && !s.InitMiddle?
    ensures s.InitBottom? || Bracketed(s) ==> m < s.top.x
    ensures s.InitTop? || Bracketed(s) ==> s.bottom.x < m
  {
    assert s.center in Known(s);
    if s.InitBottom? || Bracketed(s) {
      assert s.top in Known(s);
      assert f(s.center.x) <= f(s.top.x);
    }
    if s.InitTop? || Bracketed(s) {
      assert s.bottom in Known(s);
      assert f(s.center.x) <= f(s.bottom.x);
    }
  }

  /** For a strictly unimodal objective every bracket of the run holds the minimiser, and when the search
      reports that it is done the centre is within the threshold of it. */
  lemma Accuracy(f: real -> real, m: real, start: Search, vals: seq<real>, threshold: real)
    requires Unimodal(f, m) && Samples(f, start) && Ordered(start) && Dips(start) && Answers(f, start, vals)
    ensures var s := Run(start, vals);
            (Bracketed(s) ==> s.bottom.x < m < s.top.x) &&
            (Done(s, threshold) ==> -threshold < s.center.x - m < threshold)
  {
    RunSamples(f, start, vals);
    RunKeepsShape(start, vals);
    var s := Run(start, vals);
    if Bracketed(s) {
      MinimiserInside(f, m, s);
    }
  }

  lemma {:induction false} RunKeepsShape(s: Search, vals: seq<real>)
    requires Ordered(s) && Dips(s)
    ensures Ordered(Run(s, vals)) && Dips(Run(s, vals))
  {
    if |vals| > 0 {
      RunKeepsShape(s, vals[..|vals| - 1]);
    }
  }

  /** getBound: a value the next answer should not exceed, when there is one. */
  datatype Trial = Trial(success: bool, result: real)

  function Bound(s: Search): Trial {
    match s
    case InitMiddle(t, b) => Trial(true, if t.val < b.val then b.val else t.val)
    case InitBottom(_, _) => Trial(false, 0.0)
    case InitTop(_, _) => Trial(false, 0.0)
    case Top(t, _, _) => Trial(true, t.val)
    case Bottom(_, _, b) => Trial(true, b.val)
  }

  /** For a strictly unimodal objective the bound is a strict one. */
  lemma BoundHolds(f: real -> real, m: real, s: Search)
    requires Unimodal(f, m) && Samples(f, s) && Ordered(s) && Dips(s)
    ensures Bound(s).success ==> f(Suggest(s)) < Bound(s).result
  {
    var x := Suggest(s);
    match s
    case InitMiddle(t, b) =>
      assert t in Known(s) && b in Known(s);
      if x <= m { assert f(b.x) > f(x); } else { assert f(x) < f(t.x); }
    case Top(t, c, b) =>
      assert t in Known(s) && c in Known(s);
      MinimiserInside(f, m, s);
      if x <= m { assert f(c.x) > f(x); } else { assert f(x) < f(t.x); }
    case Bottom(t, c, b) =>
      assert b in Known(s) && c in Known(s);
      MinimiserInside(f, m, s);
      if x <= m { assert f(b.x) > f(x); } else { assert f(x) < f(c.x); }
    case _ =>
  }

  // ---- termination ---------------------------------------------------------------------------

  lemma {:induction false} StaysBracketed(s: Search, vals: seq<real>)
    requires Bracketed(s) && Ordered(s)
    ensures var r := Run(s, vals); Bracketed(r) && Ordered(r) && Gap(r) <= Gap(s)
  {
    if |vals| > 0 {
      StaysBracketed(s, vals[..|vals| - 1]);
    }
  }

  /** One refinement call halves the distance on its side; the other distance stays or becomes that half. */
  lemma RefinementStep(s: Search, val: real)
    requires Bracketed(s) && Ordered(s)
    ensures var r := Run(s, [val]);
            Bracketed(r) && r.Top? == s.Bottom? && Ordered(r) &&
            if s.Top? then Up(r) == Up(s) / 2.0 && (Down(r) == Down(s) || Down(r) == Up(s) / 2.0)
            else Down(r) == Down(s) / 2.0 && (Up(r) == Up(s) || Up(r) == Down(s) / 2.0)
  {
    RunOne(s, val);
  }

  /** Two refinement calls halve the larger gap, whatever values come back. */
  lemma TwoCallsHalve(s: Search, a: real, b: real)
    requires Bracketed(s) && Ordered(s)
    ensures var r := Run(s, [a, b]); Bracketed(r) && Ordered(r) && Gap(r) <= Gap(s) / 2.0
  {
    assert [a, b] == [a] + [b];
    RunSplits(s, [a], [b]);
    RefinementStep(s, a);
    RefinementStep(Run(s, [a]), b);
  }

  lemma RunOne(s: Search, val: real)
    ensures Run(s, [val]) == Consume(s, Point(Suggest(s), val))
  {
    assert Run(s, [val][..0]) == s;
  }

  /** threshold * 2^n */
  function Doubled(threshold: real, n: nat): real {
    if n == 0 then threshold else 2.0 * Doubled(threshold, n - 1)
  }

  /** A bracket whose larger gap is at most threshold * 2^n is refined to the threshold by 2n answers,
      and stays there. */
  lemma {:induction false} RefinementEnds(s: Search, vals: seq<real>, n: nat, threshold: real)
    requires Bracketed(s) && Ordered(s) && Gap(s) <= Doubled(threshold, n) && |vals| >= 2 * n
    ensures Done(Run(s, vals), threshold)
    decreases n
  {
    if n == 0 {
      StaysBracketed(s, vals);
    } else {
      var two, rest := vals[..2], vals[2..];
      assert two == [vals[0], vals[1]];
      TwoCallsHalve(s, vals[0], vals[1]);
      RefinementEnds(Run(s, two), rest, n - 1, threshold);
      RunSplits(s, two, rest);
      assert two + rest == vals;
    }
  }

  predicate Opening(s: Search) {
    s.InitBottom? || s.InitTop?
  }

  /** The signed distance from the known neighbour to the centre of an open bracket. */
  function Stride(s: Search): real
    requires Opening(s)
  {
    if s.InitBottom? then s.center.x - s.top.x else s.center.x - s.bottom.x
  }

  function Distance(d: real): real {
    if d < 0.0 then -d else d
  }

  /** One answer in an opening phase either closes the bracket, with both gaps equal to the stride, or
      moves on by the same stride to a strictly lower centre. */
  lemma OpeningStep(s: Search, val: real)
    requires Opening(s) && Ordered(s)
    ensures var r := Run(s, [val]);
            Suggest(s) == s.center.x + Stride(s) &&
            if val >= s.center.val
            then r.Top? && Ordered(r) && Gap(r) == Distance(Stride(s)) && r.center == s.center
            else Opening(r) && Ordered(r) && Stride(r) == Stride(s) && r.center == Point(Suggest(s), val)
  {
    RunOne(s, val);
  }

  /** Exactly when an open bracket is still open: the objective keeps falling along the stride. */
  lemma {:induction false} StillOpen(f: real -> real, s: Search, vals: seq<real>)
    requires Opening(s) && Ordered(s) && Samples(f, s) && Answers(f, s, vals)
    ensures var r, c, d := Run(s, vals), s.center.x, Stride(s);
            && (Opening(r) || Bracketed(r))
            && (Opening(r) <==> forall i: nat :: i < |vals| ==> Lower(f, c, d, i))
            && (Opening(r) ==> Ordered(r) && Stride(r) == d && r.center == Point(Along(c, d, |vals|), f(r.center.x)))
  {
    if |vals| == 0 {
      assert s.center in Known(s);
    } else {
      var front, val := vals[..|vals| - 1], vals[|vals| - 1];
      StillOpen(f, s, front);
      var before := Run(s, front);
      if Opening(before) {
        OpeningStep(before, val);
        RunOne(before, val);
        assert before.center.val == f(before.center.x);
        assert Suggest(before) == Along(s.center.x, Stride(s), |vals|);
        assert Lower(f, s.center.x, Stride(s), |front|) <==> val < before.center.val;
      }
    }
  }

  /** f falls over the i-th stride from c. */
  predicate Lower(f: real -> real, c: real, d: real, i: nat) {
    f(Along(c, d, i + 1)) < f(Along(c, d, i))
  }

  /** The place i strides from c. */
  function Along(c: real, d: real, i: nat): real {
    if i == 0 then c else Along(c, d, i - 1) + d
  }

  /** An objective that falls for ever, such as f(x) = x searched downwards from 1 and 0, is never bracketed. */
  lemma {:induction false} NeverBracketed(vals: seq<real>)
    requires Answers(x => x, InitBottom(Point(1.0, 1.0), Point(0.0, 0.0)), vals)
    ensures Run(InitBottom(Point(1.0, 1.0), Point(0.0, 0.0)), vals).InitBottom?
  {
    var f := (x: real) => x;
    var s := InitBottom(Point(1.0, 1.0), Point(0.0, 0.0));
    forall i: nat | i < |vals| ensures Lower(f, 0.0, -1.0, i) {
      assert Along(0.0, -1.0, i + 1) == Along(0.0, -1.0, i) - 1.0;
    }
    StillOpen(f, s, vals);
    StaysDown(s, vals);
  }

  /** A search that goes down never turns to go up. */
  lemma {:induction false} StaysDown(s: Search, vals: seq<real>)
    requires s.InitBottom? || Bracketed(s)
    ensures Run(s, vals).InitBottom? || Bracketed(Run(s, vals))
  {
    if |vals| > 0 {
      StaysDown(s, vals[..|vals| - 1]);
    }
  }

  predicate Naturals(vals: seq<real>) {
    forall i :: 0 <= i < |vals| ==> Natural(vals[i])
  }

  predicate Natural(v: real) {
    v >= 0.0 && v == v.Floor as real
  }

  /** With natural values an open bracket whose centre has value L closes within L + 1 answers, and the
      whole search ends 2n answers later. */
  lemma {:induction false} OpeningEnds(s: Search, vals: seq<real>, n: nat, threshold: real)
    requires Opening(s) && Ordered(s) && Natural(s.center.val) && Naturals(vals)
    requires Distance(Stride(s)) <= Doubled(threshold, n)
    requires |vals| >= s.center.val.Floor + 1 + 2 * n
    ensures Done(Run(s, vals), threshold)
    decreases s.center.val.Floor
  {
    var one, rest := vals[..1], vals[1..];
    assert one == [vals[0]] && one + rest == vals;
    OpeningStep(s, vals[0]);
    RunSplits(s, one, rest);
    var r := Run(s, one);
    assert Natural(vals[0]);
    if r.Top? {
      RefinementEnds(r, rest, n, threshold);
    } else {
      OpeningEnds(r, rest, n, threshold);
    }
  }

  /** From two start points natural values end the search within min(startTopVal, startBottomVal) + 2 + 2n
      answers, when half the starting interval is at most threshold * 2^n. */
  lemma SearchEnds(top: Point, bottom: Point, vals: seq<real>, n: nat, threshold: real)
    requires bottom.x < top.x && Natural(top.val) && Natural(bottom.val) && Naturals(vals)
    requires (top.x - bottom.x) / 2.0 <= Doubled(threshold, n)
    requires |vals| >= (if top.val < bottom.val then top.val else bottom.val).Floor + 2 + 2 * n
    ensures Done(Run(StartTwo(top, bottom), vals), threshold)
  {
    var start := StartTwo(top, bottom);
    var one, rest := vals[..1], vals[1..];
    assert one == [vals[0]] && one + rest == vals;
    RunSplits(start, one, rest);
    RunOne(start, vals[0]);
    var r := Run(start, one);
    if r.Top? {
      RefinementEnds(r, rest, n, threshold);
    } else {
      OpeningEnds(r, rest, n, threshold);
    }
  }

  // ---- the controller ------------------------------------------------------------------------

  datatype Entry = Entry(kind: string, point: Point)

  class IntervalSearchController {
    var pointTop: real
    var pointCenter: real
    var pointBottom: real
    var topVal: real
    var centerVal: real
    var bottomVal: real
    var suggested: real
    var next: string
    var threshold: real
    var searchLog: seq<Entry>

    predicate Valid()
      reads this
    {
      next in {"initMiddle", "initBottom", "initTop", "top", "bottom"}
    }

    ghost function Abs(): Search
      requires Valid()
      reads this
    {
      var top, center, bottom := Point(pointTop, topVal), Point(pointCenter, centerVal), Point(pointBottom, bottomVal);
      if next == "initMiddle" then InitMiddle(top, bottom)
      else if next == "initBottom" then InitBottom(top, center)
      else if next == "initTop" then InitTop(center, bottom)
      else if next == "top" then Top(top, center, bottom)
      else Bottom(top, center, bottom)
    }

    constructor FromTwo(startTop: real, startBottom: real, startTopVal: real, startBottomVal: real, threshold_: real)
      ensures Valid() && threshold == threshold_
      ensures Abs() == StartTwo(Point(startTop, startTopVal), Point(startBottom, startBottomVal))
      ensures searchLog == [Entry("startTop", Point(startTop, startTopVal)),
                            Entry("startBottom", Point(startBottom, startBottomVal))]
    {
      pointTop := startTop;
      pointBottom := startBottom;
      topVal := startTopVal;
      bottomVal := startBottomVal;
      next := "initMiddle";
      threshold := threshold_;
      searchLog := [Entry("startTop", Point(startTop, startTopVal)),
                    Entry("startBottom", Point(startBottom, startBottomVal))];
    }

    constructor FromThree(startTop: real, startCenter: real, startBottom: real,
                          startTopVal: real, startCenterVal: real, startBottomVal: real, threshold_: real)
      ensures Valid() && threshold == threshold_
      ensures Abs() == StartThree(Point(startTop, startTopVal), Point(startCenter, startCenterVal),
                                  Point(startBottom, startBottomVal))
      ensures searchLog == [Entry("startTop", Point(startTop, startTopVal)),
                            Entry("startCenter", Point(startCenter, startCenterVal)),
                            Entry("startBottom", Point(startBottom, startBottomVal))]
    {
      var first;
      if startCenterVal <= startBottomVal && startCenterVal <= startTopVal {
        first := "top";
      } else if startBottomVal <= startTopVal {
        first := "initBottom";
      } else {
        first := "initTop";
      }
      next := first;
      if first == "top" {
        pointTop := startTop;
        pointCenter := startCenter;
        pointBottom := startBottom;
        topVal := startTopVal;
        centerVal := startCenterVal;
        bottomVal := startBottomVal;
      } else if first == "initBottom" {
        pointTop := startCenter;
        pointCenter := startBottom;
        topVal := startCenterVal;
        centerVal := startBottomVal;
      } else {
        pointBottom := startCenter;
        pointCenter := startTop;
        bottomVal := startCenterVal;
        centerVal := startTopVal;
      }
      threshold := threshold_;
      searchLog := [Entry("startTop", Point(startTop, startTopVal)),
                    Entry("startCenter", Point(startCenter, startCenterVal)),
                    Entry("startBottom", Point(startBottom, startBottomVal))];
    }

    method Get() returns (r: real)
      requires Valid()
      modifies this`suggested
      ensures Valid() && Abs() == old(Abs())
      ensures r == suggested == Suggest(Abs())
    {
      if next == "initMiddle" {
        suggested := (pointTop + pointBottom) / 2.0;
      } else if next == "initBottom" {
        suggested := 2.0 * pointCenter - pointTop;
      } else if next == "initTop" {
        suggested := 2.0 * pointCenter - pointBottom;
      } else if next == "top" {
        suggested := (pointTop + pointCenter) / 2.0;
      } else {
        suggested := (pointBottom + pointCenter) / 2.0;
      }
      r := suggested;
    }

    /** The three opening phases of consume. */
    method Bracket(val: real)
      requires Valid() && !Bracketed(Abs())
      modifies this`next, this`pointTop, this`pointCenter, this`pointBottom, this`topVal, this`centerVal, this`bottomVal
      ensures Valid() && Abs() == Consume(old(Abs()), Point(suggested, val))
    {
      if next == "initMiddle" {
        if val <= bottomVal && val <= topVal {
          pointCenter, centerVal := suggested, val;
          next := "top";
        } else if topVal >= bottomVal {
          pointCenter, centerVal := pointBottom, bottomVal;
          pointTop, topVal := suggested, val;
          next := "initBottom";
        } else {
          pointCenter, centerVal := pointTop, topVal;
          pointBottom, bottomVal := suggested, val;
          next := "initTop";
        }
      } else if next == "initBottom" {
        if val >= centerVal {
          pointBottom, bottomVal := suggested, val;
          next := "top";
        } else {
          pointTop, topVal := pointCenter, centerVal;
          pointCenter, centerVal := suggested, val;
        }
      } else if next == "initTop" {
        if val >= centerVal {
          pointTop, topVal := suggested, val;
          next := "top";
        } else {
          pointBottom, bottomVal := pointCenter, centerVal;
          pointCenter, centerVal := suggested, val;
        }
      }
    }

    /** The two refinement phases. */
    method Refine(val: real)
      requires Valid() && Bracketed(Abs())
      modifies this`next, this`pointTop, this`pointCenter, this`pointBottom, this`topVal, this`centerVal, this`bottomVal
      ensures Valid() && Abs() == Consume(old(Abs()), Point(suggested, val))
    {
      if next == "top" {
        if val >= centerVal {
          pointTop, topVal := suggested, val;
        } else {
          pointBottom, bottomVal := pointCenter, centerVal;
          pointCenter, centerVal := suggested, val;
        }
        next := "bottom";
      } else {
        if val >= centerVal {
          pointBottom, bottomVal := suggested, val;
        } else {
          pointTop, topVal := pointCenter, centerVal;
          pointCenter, centerVal := suggested, val;
        }
        next := "top";
      }
    }

    method ConsumeValue(val: real) returns (done: bool)
      requires Valid()
      modifies this
      ensures Valid() && threshold == old(threshold) && suggested == old(suggested)
      ensures Abs() == Consume(old(Abs()), Point(suggested, val))
      ensures searchLog == old(searchLog) + [Entry(old(next), Point(suggested, val))]
      ensures done == Done(Abs(), threshold)
    {
      searchLog := searchLog + [Entry(next, Point(suggested, val))];
      if next == "top" || next == "bottom" {
        Refine(val);
      } else {
        Bracket(val);
      }
      done := (next == "top" || next == "bottom") &&
              pointTop - pointCenter <= threshold && pointCenter - pointBottom <= threshold;
    }
  }
}
