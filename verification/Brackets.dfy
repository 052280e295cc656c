/** Matching brackets across the lines of a cleansed file, forwards and backwards. */
module Brackets {
  datatype Option<T> = None | Some(value: T)

  // ---- one text ------------------------------------------------------------------------------

  function Value(ch: char, o: char, c: char): int {
    if ch == o then 1 else if ch == c then -1 else 0
  }

  /** Openings minus closings in t[a..b]. */
  function Net(t: string, o: char, c: char, a: nat, b: nat): int
    requires a <= b <= |t|
  {
    if a == b then 0 else Net(t, o, c, a, b - 1) + Value(t[b - 1], o, c)
  }

  lemma {:induction false} NetSplit(t: string, o: char, c: char, a: nat, m: nat, b: nat)
    requires a <= m <= b <= |t|
    ensures Net(t, o, c, a, b) == Net(t, o, c, a, m) + Net(t, o, c, m, b)
  {
    if m < b {
      NetSplit(t, o, c, a, m, b - 1);
    }
  }

  /** After s the nesting never returns to zero, up to and including m. */
  predicate StaysOpen(t: string, o: char, c: char, s: nat, m: nat)
    requires s <= m <= |t|
  {
    forall k :: s < k <= m ==> Net(t, o, c, s, k) > 0
  }

  /** The bracket at s is closed by the one at e: the nesting first returns to zero there. */
  predicate Matches(t: string, o: char, c: char, s: nat, e: nat) {
    s < e < |t| && t[s] == o && t[e] == c && Net(t, o, c, s, e + 1) == 0 && StaysOpen(t, o, c, s, e)
  }

  /** The same seen from the closing end: going back, the nesting first returns to zero at s. */
  predicate MatchesBack(t: string, o: char, c: char, s: nat, e: nat) {
    s < e < |t| && t[s] == o && t[e] == c && Net(t, o, c, s, e + 1) == 0 && Below(t, o, c, s + 1, e + 1, 0)
  }

  /** From every place in a..b the nesting up to b is below the given depth. */
  predicate Below(t: string, o: char, c: char, a: nat, b: nat, depth: int)
    requires b <= |t|
  {
    forall k :: a <= k < b ==> Net(t, o, c, k, b) < depth
  }

  lemma SameBothWays(t: string, o: char, c: char, s: nat, e: nat)
    ensures Matches(t, o, c, s, e) <==> MatchesBack(t, o, c, s, e)
  {
    var b := e + 1;
    if s < e < |t| && Net(t, o, c, s, b) == 0 {
      forall k | s < k < b ensures Net(t, o, c, s, k) == -Net(t, o, c, k, b) {
        NetSplit(t, o, c, s, k, b);
      }
    }
  }

  lemma OneClose(t: string, o: char, c: char, s: nat, e: nat, f: nat)
    requires Matches(t, o, c, s, e) && Matches(t, o, c, s, f)
    ensures e == f
  {
    var a, b := e + 1, f + 1;
    assert Net(t, o, c, s, a) == Net(t, o, c, s, b) == 0;
  }

  lemma OneOpen(t: string, o: char, c: char, s: nat, r: nat, e: nat)
    requires Matches(t, o, c, s, e) && Matches(t, o, c, r, e)
    ensures s == r
  {
    SameBothWays(t, o, c, s, e);
    SameBothWays(t, o, c, r, e);
  }

  // ---- one line ------------------------------------------------------------------------------

  /** Scans a line forward from startpos, at nesting `depth`: the place after the first closing bracket at
      which the nesting is zero, or -1 and the nesting at the end of the line. */
  method FindEndOfExpressionInLine(line: string, startpos: nat, depth: int, startchar: char, endchar: char)
    returns (pos: int, newDepth: int)
    requires startchar != endchar && startpos <= |line|
    ensures pos == -1 || (startpos < pos <= |line| && newDepth == 0)
    ensures pos != -1 ==> line[pos - 1] == endchar && depth + Net(line, startchar, endchar, startpos, pos) == 0
    ensures pos == -1 ==> newDepth == depth + Net(line, startchar, endchar, startpos, |line|)
    ensures forall k :: startpos < k <= (if pos == -1 then |line| else pos - 1) && line[k - 1] == endchar ==>
              depth + Net(line, startchar, endchar, startpos, k) != 0
    ensures depth > 0 || (depth == 0 && startpos < |line| && line[startpos] == startchar) ==>
              forall k :: startpos < k <= (if pos == -1 then |line| else pos - 1) ==>
                depth + Net(line, startchar, endchar, startpos, k) > 0
  {
    newDepth := depth;
    for i := startpos to |line|
      invariant newDepth == depth + Net(line, startchar, endchar, startpos, i)
      invariant forall k :: startpos < k <= i && line[k - 1] == endchar ==>
                  depth + Net(line, startchar, endchar, startpos, k) != 0
      invariant depth > 0 || (depth == 0 && startpos < |line| && line[startpos] == startchar) ==>
                  (i > startpos ==> newDepth > 0) &&
                  forall k :: startpos < k <= i ==> depth + Net(line, startchar, endchar, startpos, k) > 0
    {
      if line[i] == startchar {
        newDepth := newDepth + 1;
      } else if line[i] == endchar {
        newDepth := newDepth - 1;
        if newDepth == 0 {
          return i + 1, 0;
        }
      }
    }
    pos := -1;
  }

  /** Scans a line backward from endpos: the place of the first opening bracket at which the nesting is
      zero, or -1 and the nesting at the beginning of the line. */
  method FindStartOfExpressionInLine(line: string, endpos: int, depth: int, startchar: char, endchar: char)
    returns (pos: int, newDepth: int)
    requires startchar != endchar && -1 <= endpos < |line|
    ensures pos == -1 || (0 <= pos <= endpos && newDepth == 0)
    ensures pos != -1 ==> line[pos] == startchar && depth == Net(line, startchar, endchar, pos, endpos + 1)
    ensures pos == -1 ==> newDepth == depth - Net(line, startchar, endchar, 0, endpos + 1)
    ensures forall k :: pos < k <= endpos && line[k] == startchar ==>
              depth != Net(line, startchar, endchar, k, endpos + 1)
    ensures depth > 0 || (depth == 0 && endpos >= 0 && line[endpos] == endchar) ==>
              Below(line, startchar, endchar, pos + 1, endpos + 1, depth)
  {
    newDepth := depth;
    for i := endpos + 1 downto 0
      invariant newDepth == depth - Net(line, startchar, endchar, i, endpos + 1)
      invariant forall k :: i <= k <= endpos && line[k] == startchar ==>
                  depth != Net(line, startchar, endchar, k, endpos + 1)
      invariant depth > 0 || (depth == 0 && endpos >= 0 && line[endpos] == endchar) ==>
                  (i <= endpos ==> newDepth > 0) && Below(line, startchar, endchar, i, endpos + 1, depth)
    {
      NetSplit(line, startchar, endchar, i, i + 1, endpos + 1);
      if line[i] == endchar {
        newDepth := newDepth + 1;
      } else if line[i] == startchar {
        newDepth := newDepth - 1;
        if newDepth == 0 {
          return i, 0;
        }
      }
    }
    pos := -1;
  }

  // ---- all lines -----------------------------------------------------------------------------

  /** The lines one after another. */
  function Flat(lines: seq<string>): string {
    if |lines| == 0 then "" else Flat(lines[..|lines| - 1]) + lines[|lines| - 1]
  }

  /** Where line k begins in the whole text. */
  function At(lines: seq<string>, k: nat): nat
    requires k <= |lines|
  {
    if k == 0 then 0 else At(lines, k - 1) + |lines[k - 1]|
  }

  lemma {:induction false} AtPrefix(lines: seq<string>, n: nat, k: nat)
    requires k <= n <= |lines|
    ensures At(lines[..n], k) == At(lines, k) <= At(lines, n)
    decreases n, k
  {
    if k > 0 {
      AtPrefix(lines, n, k - 1);
    } else if n > 0 {
      AtPrefix(lines, n - 1, 0);
    }
    if 0 < k < n {
      AtPrefix(lines, n - 1, k);
    }
  }

  lemma {:induction false} FlatLine(lines: seq<string>, k: nat)
    requires k < |lines|
    ensures |Flat(lines)| == At(lines, |lines|) && At(lines, k) <= At(lines, k + 1) <= |Flat(lines)|
    ensures Flat(lines)[At(lines, k)..At(lines, k + 1)] == lines[k]
  {
    var n := |lines| - 1;
    var front := lines[..n];
    FlatLength(front);
    AtPrefix(lines, n, n);
    if k < n {
      FlatLine(front, k);
      AtPrefix(lines, n, k);
      AtPrefix(lines, n, k + 1);
      assert Flat(lines)[At(lines, k)..At(lines, k + 1)] == Flat(front)[At(lines, k)..At(lines, k + 1)];
    }
  }

  lemma {:induction false} FlatLength(lines: seq<string>)
    ensures |Flat(lines)| == At(lines, |lines|)
  {
    if |lines| > 0 {
      var n := |lines| - 1;
      FlatLength(lines[..n]);
      AtPrefix(lines, n, n);
    }
  }

  /** A position on a line. */
  datatype Place = Place(line: nat, pos: nat)

  predicate On(lines: seq<string>, p: Place) {
    p.line < |lines| && p.pos < |lines[p.line]|
  }

  function Offset(lines: seq<string>, p: Place): nat
    requires p.line < |lines|
  {
    At(lines, p.line) + p.pos
  }

  lemma {:induction false} AtMonotone(lines: seq<string>, j: nat, k: nat)
    requires j <= k <= |lines|
    ensures At(lines, j) <= At(lines, k)
  {
    if j < k {
      AtMonotone(lines, j, k - 1);
    }
  }

  /** Places and offsets correspond one to one. */
  lemma OffsetUnique(lines: seq<string>, p: Place, q: Place)
    requires On(lines, p) && On(lines, q) && Offset(lines, p) == Offset(lines, q)
    ensures p == q
  {
    if p.line < q.line {
      AtMonotone(lines, p.line + 1, q.line);
    } else if q.line < p.line {
      AtMonotone(lines, q.line + 1, p.line);
    }
  }

  lemma OffsetChar(lines: seq<string>, p: Place)
    requires On(lines, p)
    ensures Offset(lines, p) < |Flat(lines)| && Flat(lines)[Offset(lines, p)] == lines[p.line][p.pos]
  {
    FlatLine(lines, p.line);
    assert Flat(lines)[At(lines, p.line)..At(lines, p.line + 1)][p.pos] == lines[p.line][p.pos];
  }

  lemma {:induction false} NetLine(lines: seq<string>, o: char, c: char, k: nat, a: nat, b: nat)
    requires k < |lines| && a <= b <= |lines[k]| && At(lines, k) + |lines[k]| <= |Flat(lines)|
    ensures Net(Flat(lines), o, c, At(lines, k) + a, At(lines, k) + b) == Net(lines[k], o, c, a, b)
  {
    if a < b {
      NetLine(lines, o, c, k, a, b - 1);
      OffsetChar(lines, Place(k, b - 1));
    }
  }

  /** The nesting from s to position k of line l, continued from position j of that line. */
  lemma NetOn(lines: seq<string>, o: char, c: char, s: nat, l: nat, j: nat, k: nat)
    requires l < |lines| && j <= k <= |lines[l]| && At(lines, l) + |lines[l]| <= |Flat(lines)| && s <= At(lines, l) + j
    ensures Net(Flat(lines), o, c, s, At(lines, l) + k)
            == Net(Flat(lines), o, c, s, At(lines, l) + j) + Net(lines[l], o, c, j, k)
  {
    NetSplit(Flat(lines), o, c, s, At(lines, l) + j, At(lines, l) + k);
    NetLine(lines, o, c, l, j, k);
  }

  /** The nesting from position j of line l to e, continued back from position k of that line. */
  lemma NetBack(lines: seq<string>, o: char, c: char, e: nat, l: nat, j: nat, k: nat)
    requires l < |lines| && j <= k <= |lines[l]| && At(lines, l) + k <= e <= |Flat(lines)|
    requires At(lines, l) + |lines[l]| <= |Flat(lines)|
    ensures Net(Flat(lines), o, c, At(lines, l) + j, e)
            == Net(lines[l], o, c, j, k) + Net(Flat(lines), o, c, At(lines, l) + k, e)
  {
    NetSplit(Flat(lines), o, c, At(lines, l) + j, At(lines, l) + k, e);
    NetLine(lines, o, c, l, j, k);
  }

  // ---- closing and reopening -----------------------------------------------------------------

  function Closer(o: char): char {
    if o == '(' then ')' else if o == '[' then ']' else if o == '{' then '}' else '>'
  }

  function Opener(c: char): char {
    if c == ')' then '(' else if c == ']' then '[' else if c == '}' then '{' else '<'
  }

  predicate IsOpening(ch: char) {
    ch in "({[<"
  }

  predicate IsClosing(ch: char) {
    ch in ")}]>"
  }

  /** The bracket at a, whatever its kind, is closed by the one at b. */
  predicate Closes(lines: seq<string>, a: Place, b: Place) {
    On(lines, a) && On(lines, b) && IsOpening(lines[a.line][a.pos]) &&
    Matches(Flat(lines), lines[a.line][a.pos], Closer(lines[a.line][a.pos]), Offset(lines, a), Offset(lines, b))
  }

  ghost function ClosedBy(lines: seq<string>, a: Place): Option<Place> {
    if b :| Closes(lines, a, b) then Some(b) else None
  }

  ghost function OpenedBy(lines: seq<string>, b: Place): Option<Place> {
    if a :| Closes(lines, a, b) then Some(a) else None
  }

  lemma CloseIsUnique(lines: seq<string>, a: Place, b: Place, d: Place)
    requires Closes(lines, a, b) && Closes(lines, a, d)
    ensures b == d
  {
    var o := lines[a.line][a.pos];
    OneClose(Flat(lines), o, Closer(o), Offset(lines, a), Offset(lines, b), Offset(lines, d));
    OffsetUnique(lines, b, d);
  }

  lemma OpenIsUnique(lines: seq<string>, a: Place, d: Place, b: Place)
    requires Closes(lines, a, b) && Closes(lines, d, b)
    ensures a == d
  {
    var o := lines[a.line][a.pos];
    OneOpen(Flat(lines), o, Closer(o), Offset(lines, a), Offset(lines, d), Offset(lines, b));
    OffsetUnique(lines, a, d);
  }

  /** Closing and reopening are inverse, across any number of lines. */
  lemma Inverse(lines: seq<string>, a: Place, b: Place)
    ensures ClosedBy(lines, a) == Some(b) <==> OpenedBy(lines, b) == Some(a)
  {
    if ClosedBy(lines, a) == Some(b) {
      var d := OpenedBy(lines, b).value;
      OpenIsUnique(lines, a, d, b);
    }
    if OpenedBy(lines, b) == Some(a) {
      var d := ClosedBy(lines, a).value;
      CloseIsUnique(lines, a, b, d);
    }
  }

  /** Scanning forward from a has reached offset x of the text, at nesting `depth`, without a close. */
  ghost predicate Pending(lines: seq<string>, a: Place, x: nat, depth: int)
    requires On(lines, a)
  {
    var t, o, s := Flat(lines), lines[a.line][a.pos], Offset(lines, a);
    s <= x <= |t| && StaysOpen(t, o, Closer(o), s, x) && depth == Net(t, o, Closer(o), s, x)
  }

  /** What a scan of line l from startpos to k contributes. */
  lemma ForwardTo(lines: seq<string>, a: Place, l: nat, startpos: nat, before: int, k: nat)
    requires On(lines, a) && l < |lines| && startpos <= k <= |lines[l]|
    requires Pending(lines, a, At(lines, l) + startpos, before)
    requires var o := lines[a.line][a.pos];
             forall j :: startpos < j <= k ==> before + Net(lines[l], o, Closer(o), startpos, j) > 0
    ensures var o := lines[a.line][a.pos];
            Pending(lines, a, At(lines, l) + k, before + Net(lines[l], o, Closer(o), startpos, k))
  {
    var t, o, s := Flat(lines), lines[a.line][a.pos], Offset(lines, a);
    var x := At(lines, l) + startpos;
    FlatLine(lines, l);
    forall m | x <= m <= At(lines, l) + k
      ensures Net(t, o, Closer(o), s, m) == before + Net(lines[l], o, Closer(o), startpos, m - At(lines, l))
    {
      NetOn(lines, o, Closer(o), s, l, startpos, m - At(lines, l));
    }
  }

  /** The scan of line l found the close at position k. */
  lemma ForwardFound(lines: seq<string>, a: Place, l: nat, startpos: nat, before: int, k: nat)
    requires On(lines, a) && IsOpening(lines[a.line][a.pos]) && l < |lines| && startpos <= k < |lines[l]|
    requires Pending(lines, a, At(lines, l) + startpos, before)
    requires var o := lines[a.line][a.pos];
             (forall j :: startpos < j <= k ==> before + Net(lines[l], o, Closer(o), startpos, j) > 0) &&
             before + Net(lines[l], o, Closer(o), startpos, k + 1) == 0 && lines[l][k] == Closer(o)
    ensures ClosedBy(lines, a) == Some(Place(l, k))
  {
    var t, o, s := Flat(lines), lines[a.line][a.pos], Offset(lines, a);
    var b := Place(l, k);
    ForwardTo(lines, a, l, startpos, before, k);
    OffsetChar(lines, a);
    OffsetChar(lines, b);
    assert Closes(lines, a, b);
    CloseIsUnique(lines, a, b, ClosedBy(lines, a).value);
  }

  lemma NeverClosed(lines: seq<string>, a: Place, depth: int)
    requires On(lines, a) && Pending(lines, a, At(lines, |lines|), depth)
    ensures ClosedBy(lines, a) == None
  {
    FlatLength(lines);
    forall b ensures !Closes(lines, a, b) {
      if On(lines, b) {
        OffsetChar(lines, b);
        var x := Offset(lines, b) + 1;
      }
    }
  }

  /** What CloseExpression returns: past the closing bracket, or one past the last line and -1. */
  ghost predicate CloseResult(lines: seq<string>, a: Place, line: string, l: nat, p: int)
    requires On(lines, a)
  {
    match ClosedBy(lines, a)
    case Some(b) => l == b.line && p == b.pos + 1 && b.line < |lines| && line == lines[l]
    case None =>
      l == |lines| && p == -1 && line == lines[if IsOpening(lines[a.line][a.pos]) then |lines| - 1 else a.line]
  }

  /** Scanning one more line: the close is found, or the nesting at the end of the line is known. */
  method ScanForward(lines: seq<string>, ghost a: Place, l: nat, startpos: nat, depth: int, startchar: char)
    returns (endPos: int, numOpen: int)
    requires On(lines, a) && IsOpening(startchar) && startchar == lines[a.line][a.pos]
    requires l < |lines| && startpos <= |lines[l]| && Pending(lines, a, At(lines, l) + startpos, depth)
    requires depth > 0 || (depth == 0 && startpos < |lines[l]| && lines[l][startpos] == startchar)
    ensures endPos == -1 || 0 < endPos <= |lines[l]|
    ensures endPos != -1 ==> ClosedBy(lines, a) == Some(Place(l, endPos - 1))
    ensures endPos == -1 ==> numOpen > 0
    ensures endPos == -1 ==> Pending(lines, a, At(lines, l) + |lines[l]|, numOpen)
  {
    endPos, numOpen := FindEndOfExpressionInLine(lines[l], startpos, depth, startchar, Closer(startchar));
    if endPos == -1 {
      ForwardTo(lines, a, l, startpos, depth, |lines[l]|);
    } else {
      ForwardFound(lines, a, l, startpos, depth, endPos - 1);
    }
  }

  method CloseExpression(lines: seq<string>, linenum: nat, pos: nat) returns (line: string, l: nat, p: int)
    requires On(lines, Place(linenum, pos))
    ensures CloseResult(lines, Place(linenum, pos), line, l, p)
  {
    line := lines[linenum];
    var startchar := line[pos];
    if !IsOpening(startchar) {
      return line, |lines|, -1;
    }
    ghost var a := Place(linenum, pos);
    OffsetChar(lines, a);
    var endPos, numOpen := ScanForward(lines, a, linenum, pos, 0, startchar);
    if endPos > -1 {
      return line, linenum, endPos;
    }
    l := linenum;
    while l < |lines| - 1
      invariant linenum <= l < |lines| && line == lines[l]
      invariant numOpen > 0 && Pending(lines, a, At(lines, l + 1), numOpen)
    {
      l := l + 1;
      line := lines[l];
      endPos, numOpen := ScanForward(lines, a, l, 0, numOpen, startchar);
      if endPos > -1 {
        return line, l, endPos;
      }
    }
    NeverClosed(lines, a, numOpen);
    return line, |lines|, -1;
  }

  /** Scanning backward from b has come down to offset x of the text, at nesting `depth`, without an opening. */
  ghost predicate PendingBack(lines: seq<string>, b: Place, x: nat, depth: int)
    requires On(lines, b)
  {
    var t, c, e := Flat(lines), lines[b.line][b.pos], Offset(lines, b) + 1;
    x <= e <= |t| && Below(t, Opener(c), c, x, e, 0) && depth == -Net(t, Opener(c), c, x, e)
  }

  lemma BackwardTo(lines: seq<string>, b: Place, l: nat, end: nat, before: int, k: nat)
    requires On(lines, b) && l < |lines| && k <= end <= |lines[l]|
    requires PendingBack(lines, b, At(lines, l) + end, before)
    requires var c := lines[b.line][b.pos]; Below(lines[l], Opener(c), c, k, end, before)
    ensures var c := lines[b.line][b.pos];
            PendingBack(lines, b, At(lines, l) + k, before - Net(lines[l], Opener(c), c, k, end))
  {
    var t, c, e := Flat(lines), lines[b.line][b.pos], Offset(lines, b) + 1;
    FlatLine(lines, l);
    NetBack(lines, Opener(c), c, e, l, k, end);
    StillBelow(lines, Opener(c), c, e, l, k, end, before);
  }

  /** What the line adds keeps the nesting up to e below zero. */
  lemma StillBelow(lines: seq<string>, o: char, c: char, e: nat, l: nat, k: nat, end: nat, before: int)
    requires l < |lines| && k <= end <= |lines[l]| && At(lines, l) + |lines[l]| <= |Flat(lines)|
    requires At(lines, l) + end <= e <= |Flat(lines)| && Below(Flat(lines), o, c, At(lines, l) + end, e, 0)
    requires before == -Net(Flat(lines), o, c, At(lines, l) + end, e) && Below(lines[l], o, c, k, end, before)
    ensures Below(Flat(lines), o, c, At(lines, l) + k, e, 0)
  {
    forall m | At(lines, l) + k <= m < e ensures Net(Flat(lines), o, c, m, e) < 0 {
      if m < At(lines, l) + end {
        NetBack(lines, o, c, e, l, m - At(lines, l), end);
      }
    }
  }

  lemma BackwardFound(lines: seq<string>, b: Place, l: nat, end: nat, before: int, k: nat)
    requires On(lines, b) && IsClosing(lines[b.line][b.pos]) && l < |lines| && k < end <= |lines[l]|
    requires PendingBack(lines, b, At(lines, l) + end, before)
    requires var c := lines[b.line][b.pos];
             Below(lines[l], Opener(c), c, k + 1, end, before) &&
             before == Net(lines[l], Opener(c), c, k, end) && lines[l][k] == Opener(c)
    ensures OpenedBy(lines, b) == Some(Place(l, k))
  {
    var t, c, e := Flat(lines), lines[b.line][b.pos], Offset(lines, b);
    var a := Place(l, k);
    BackwardTo(lines, b, l, end, before, k + 1);
    OffsetChar(lines, a);
    OffsetChar(lines, b);
    NetSplit(t, Opener(c), c, Offset(lines, a), Offset(lines, a) + 1, e + 1);
    NetSplit(lines[l], Opener(c), c, k, k + 1, end);
    SameBothWays(t, Opener(c), c, Offset(lines, a), e);
    assert Closes(lines, a, b);
    OpenIsUnique(lines, a, OpenedBy(lines, b).value, b);
  }

  lemma NeverOpened(lines: seq<string>, b: Place, depth: int)
    requires On(lines, b) && PendingBack(lines, b, 0, depth)
    ensures OpenedBy(lines, b) == None
  {
    forall a ensures !Closes(lines, a, b) {
      if On(lines, a) && IsOpening(lines[a.line][a.pos]) {
        OffsetChar(lines, b);
        var o, c := lines[a.line][a.pos], lines[b.line][b.pos];
        SameBothWays(Flat(lines), o, Closer(o), Offset(lines, a), Offset(lines, b));
      }
    }
  }

  /** What ReverseCloseExpression returns: at the opening bracket, or 0 and -1. */
  ghost predicate ReverseResult(lines: seq<string>, b: Place, line: string, l: nat, p: int)
    requires On(lines, b)
  {
    match OpenedBy(lines, b)
    case Some(a) => l == a.line && p == a.pos && a.line < |lines| && line == lines[l]
    case None => l == 0 && p == -1 && line == lines[if IsClosing(lines[b.line][b.pos]) then 0 else b.line]
  }

  /** Scanning one more line backward, from its first `end` characters. */
  method ScanBackward(lines: seq<string>, ghost b: Place, l: nat, end: nat, depth: int, endchar: char)
    returns (startPos: int, numOpen: int)
    requires On(lines, b) && IsClosing(endchar) && endchar == lines[b.line][b.pos]
    requires l < |lines| && end <= |lines[l]| && PendingBack(lines, b, At(lines, l) + end, depth)
    requires depth > 0 || (depth == 0 && end > 0 && lines[l][end - 1] == endchar)
    ensures startPos == -1 || 0 <= startPos < end
    ensures startPos != -1 ==> OpenedBy(lines, b) == Some(Place(l, startPos))
    ensures startPos == -1 ==> numOpen > 0 && PendingBack(lines, b, At(lines, l), numOpen)
  {
    startPos, numOpen := FindStartOfExpressionInLine(lines[l], end - 1, depth, Opener(endchar), endchar);
    if startPos == -1 {
      BackwardTo(lines, b, l, end, depth, 0);
    } else {
      BackwardFound(lines, b, l, end, depth, startPos);
    }
  }

  method ReverseCloseExpression(lines: seq<string>, linenum: nat, pos: nat) returns (line: string, l: nat, p: int)
    requires On(lines, Place(linenum, pos))
    ensures ReverseResult(lines, Place(linenum, pos), line, l, p)
  {
    line := lines[linenum];
    ghost var b := Place(linenum, pos);
    OffsetChar(lines, b);
    var endchar := line[pos];
    if !IsClosing(endchar) {
      NotAClose(lines, b);
      return line, 0, -1;
    }
    var startPos, numOpen := ScanBackward(lines, b, linenum, pos + 1, 0, endchar);
    if startPos > -1 {
      return line, linenum, startPos;
    }
    l := linenum;
    while l > 0
      invariant 0 <= l <= linenum && line == lines[l]
      invariant numOpen > 0 && PendingBack(lines, b, At(lines, l), numOpen)
    {
      l := l - 1;
      line := lines[l];
      startPos, numOpen := ScanBackward(lines, b, l, |line|, numOpen, endchar);
      if startPos > -1 {
        return line, l, startPos;
      }
    }
    NeverOpened(lines, b, numOpen);
    return line, 0, -1;
  }

  lemma NotAClose(lines: seq<string>, b: Place)
    requires On(lines, b) && !IsClosing(lines[b.line][b.pos])
    ensures OpenedBy(lines, b) == None
  {
    forall a ensures !Closes(lines, a, b) {
      OffsetChar(lines, b);
    }
  }

  /** Reopening one before where closing ended leads back to the starting line and column. */
  lemma CloseThenReverse(lines: seq<string>, a: Place, line: string, l: nat, p: int, back: string, m: nat, q: int)
    requires On(lines, a) && CloseResult(lines, a, line, l, p) && p != -1
    ensures p >= 1 && On(lines, Place(l, p - 1))
    ensures ReverseResult(lines, Place(l, p - 1), back, m, q) <==> back == lines[a.line] && m == a.line && q == a.pos
  {
    Inverse(lines, a, Place(l, p - 1));
  }

  /** Closing from where reopening ended leads to one past the starting column. */
  lemma ReverseThenClose(lines: seq<string>, b: Place, line: string, l: nat, p: int, back: string, m: nat, q: int)
    requires On(lines, b) && ReverseResult(lines, b, line, l, p) && p != -1
    ensures p >= 0 && On(lines, Place(l, p))
    ensures CloseResult(lines, Place(l, p), back, m, q) <==> back == lines[b.line] && m == b.line && q == b.pos + 1
  {
    Inverse(lines, Place(l, p), b);
  }
}
