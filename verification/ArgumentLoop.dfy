/** The loop that shares command-line strings out between options, positionals and extras.  Where the strings
    go is written down in a ledger of pieces, which is determined by the strings alone. */
module ArgumentLoop {
  import opened NargsPattern
  import opened ArgumentCounts

  // ---- reading the strings -------------------------------------------------------------------

  /** No "--" before index i. */
  predicate NoDashes(args: seq<string>, i: nat)
    requires i <= |args|
  {
    forall j :: 0 <= j < i ==> args[j] != "--"
  }

  function KindAt(args: seq<string>, options: Options, i: nat): char
    requires i < |args|
  {
    if !NoDashes(args, i) then 'A'
    else if args[i] == "--" then '-'
    else if options.parse(args[i]).Some? then 'O'
    else 'A'
  }

  /** The pattern and the options by index: after "--" everything is an argument. */
  method BuildPattern(args: seq<string>, options: Options) returns (pattern: string, indices: map<nat, OptionTuple>)
    ensures |pattern| == |args|
    ensures forall i :: 0 <= i < |args| ==> pattern[i] == KindAt(args, options, i)
    ensures forall i: nat :: i in indices <==> i < |args| && pattern[i] == 'O'
    ensures forall i: nat :: i in indices ==> options.parse(args[i]) == Some(indices[i])
  {
    pattern := "";
    indices := map[];
    var seen := false;
    for i := 0 to |args|
      invariant |pattern| == i && (seen <==> !NoDashes(args, i))
      invariant forall j :: 0 <= j < i ==> pattern[j] == KindAt(args, options, j)
      invariant forall j: nat :: j in indices <==> j < i && pattern[j] == 'O'
      invariant forall j: nat :: j in indices ==> options.parse(args[j]) == Some(indices[j])
    {
      if seen {
        pattern := pattern + "A";
      } else if args[i] == "--" {
        pattern := pattern + "-";
        seen := true;
      } else {
        var tuple := options.parse(args[i]);
        if tuple.Some? {
          indices := indices[i := tuple.value];
          pattern := pattern + "O";
        } else {
          pattern := pattern + "A";
        }
      }
    }
  }

  /** One command line: its strings, their pattern, and the options found. */
  datatype CommandLine = CommandLine(args: seq<string>, pattern: string, indices: map<nat, OptionTuple>,
                                     options: Options)
  {
    ghost predicate Valid() {
      |pattern| == |args| && forall i: nat :: i in indices <==> i < |args| && pattern[i] == 'O'
    }
  }

  // ---- the ledger ----------------------------------------------------------------------------

  /** take_action was called. */
  datatype Call = Call(action: Action, strings: seq<string>)

  /** A call together with the strings from..to that it was given. */
  datatype Given = Given(call: Call, from: nat, to: nat)

  /** Where strings go: to a known option with its arguments, to the extras as an unknown option, to as many
      of the offered positionals as match, or to the extras because nobody wants them. */
  datatype Place = KnownOption | UnknownOption | Positionals(offered: seq<Action>, counts: seq<nat>) | Extra

  /** Strings start..stop went to one place, with these calls. */
  datatype Piece = Piece(start: nat, stop: nat, place: Place, given: seq<Given>)

  function Slice(args: seq<string>, from: nat, to: nat): seq<string> {
    if from <= to <= |args| then args[from..to] else []
  }

  /** The calls of an option read at `start`: every combined flag without strings, then the last action. */
  function OptionGiven(c: CommandLine, r: Reading, start: nat): (g: seq<Given>)
    ensures |g| == |r.flags| + 1
  {
    var next := start + 1;
    seq(|r.flags|, i requires 0 <= i < |r.flags| => Given(Call(r.flags[i], []), next, next))
    + [if r.explicit.Some? then Given(Call(r.last, [r.explicit.value]), next, next)
       else Given(Call(r.last, Slice(c.args, next, next + r.count)), next, next + r.count)]
  }

  /** Where the j-th of consecutive slices begins. */
  function Offset(counts: seq<nat>, start: nat, j: nat): nat
    requires j <= |counts|
  {
    if j == 0 then start else Offset(counts, start, j - 1) + counts[j - 1]
  }

  /** The call of the j-th of consecutive positionals. */
  function SliceAt(c: CommandLine, actions: seq<Action>, counts: seq<nat>, start: nat, j: nat): Given
    requires j < |actions| == |counts|
  {
    var from, to := Offset(counts, start, j), Offset(counts, start, j + 1);
    Given(Call(actions[j], Slice(c.args, from, to)), from, to)
  }

  /** The calls of consecutive positionals from `start` on. */
  function SliceGiven(c: CommandLine, actions: seq<Action>, counts: seq<nat>, start: nat): (g: seq<Given>)
    requires |actions| == |counts|
    ensures |g| == |actions|
    ensures forall j :: 0 <= j < |g| ==> g[j] == SliceAt(c, actions, counts, start, j)
  {
    seq(|actions|, j requires 0 <= j < |actions| => SliceAt(c, actions, counts, start, j))
  }

  predicate NoOption(c: CommandLine, from: nat, to: nat) {
    forall i: nat :: from <= i < to ==> i !in c.indices
  }

  /** What the option at index `start` asks for. */
  function ReadAt(c: CommandLine, start: nat): Option<Reading>
    requires start in c.indices && c.indices[start].action.Some? && start < |c.pattern|
  {
    var t := c.indices[start];
    ReadOption(c.options, t.action.value, t.optionString, t.explicitArg, c.pattern[start + 1..])
  }

  /** The pieces of a run, the last one outermost. */
  datatype Ledger = Blank | Entry(before: Ledger, piece: Piece)

  /** Whose turn it is: options and positionals, only the extras, or nobody's. */
  datatype Turn = Open | ExtrasDue | Over

  /** After positionals that took no strings, or behind which no option is to come, what is left is for the
      extras; extras that reach the end end the run. */
  function TurnAfter(c: CommandLine, p: Piece): Turn {
    if p.place.Extra? && p.stop == |c.args| then Over
    else if p.place.Positionals? && (p.stop == p.start || NoOption(c, p.start, |c.args|)) then ExtrasDue
    else Open
  }

  function TurnOf(c: CommandLine, l: Ledger): Turn {
    if l.Blank? then Open else TurnAfter(c, l.piece)
  }

  /** The piece that may come next at this turn while these positionals are left.  An option takes its string,
      every flag combined in it and exactly the strings counted for it; strings that are no option are offered
      to the positionals, which take their greedy match; extras reach up to the next option. */
  ghost predicate Legal(c: CommandLine, turn: Turn, left: seq<Action>, p: Piece) {
    && p.start <= p.stop <= |c.args| == |c.pattern|
    && turn == (if p.place.Extra? then ExtrasDue else Open)
    && match p.place
       case KnownOption =>
         && p.start in c.indices && c.indices[p.start].action.Some? && p.start < |c.args|
         && ReadAt(c, p.start).Some? && p == KnownPiece(c, ReadAt(c, p.start).value, p.start)
       case UnknownOption =>
         p.start in c.indices && c.indices[p.start].action.None? && p == UnknownPiece(p.start)
       case Positionals(offered, counts) =>
         && p.start !in c.indices && PartialMatch(left, c.pattern[p.start..], counts)
         && p == PositionalPiece(c, left, counts, p.start)
       case Extra =>
         NoOption(c, p.start, p.stop) && (p.stop == |c.args| || p.stop in c.indices) && p == ExtraPiece(p.start, p.stop)
  }

  function KnownPiece(c: CommandLine, r: Reading, start: nat): Piece {
    Piece(start, start + 1 + r.count, KnownOption, OptionGiven(c, r, start))
  }

  function UnknownPiece(start: nat): Piece {
    Piece(start, start + 1, UnknownOption, [])
  }

  function PositionalPiece(c: CommandLine, left: seq<Action>, counts: seq<nat>, start: nat): Piece
    requires |counts| <= |left|
  {
    Piece(start, Offset(counts, start, |counts|), Positionals(left, counts),
        SliceGiven(c, left[..|counts|], counts, start))
  }

  function ExtraPiece(start: nat, stop: nat): Piece {
    Piece(start, stop, Extra, [])
  }

  /** The positionals that one more piece leaves. */
  function LeftAfter(left: seq<Action>, p: Piece): seq<Action> {
    if p.place.Positionals? && |p.place.counts| <= |left| then left[|p.place.counts|..] else left
  }

  /** The positionals that these pieces have not served. */
  function Left(initial: seq<Action>, l: Ledger): seq<Action> {
    if l.Blank? then initial else LeftAfter(Left(initial, l.before), l.piece)
  }

  /** The index to which a run with these pieces has come; None when a piece could not follow. */
  ghost function Reach(c: CommandLine, initial: seq<Action>, l: Ledger): Option<nat> {
    if l.Blank? then Some(0)
    else if Reach(c, initial, l.before) == Some(l.piece.start)
            && Legal(c, TurnOf(c, l.before), Left(initial, l.before), l.piece) then Some(l.piece.stop)
    else None
  }

  function CallsIn(given: seq<Given>): (r: seq<Call>)
    ensures |r| == |given|
  {
    seq(|given|, i requires 0 <= i < |given| => given[i].call)
  }

  /** All calls, in order. */
  function CallsOf(l: Ledger): seq<Call> {
    if l.Blank? then [] else CallsOf(l.before) + CallsIn(l.piece.given)
  }

  function ExtrasIn(c: CommandLine, p: Piece): seq<string> {
    if p.place.Extra? || p.place.UnknownOption? then Slice(c.args, p.start, p.stop) else []
  }

  /** The strings left over, in order. */
  function Extras(c: CommandLine, l: Ledger): seq<string> {
    if l.Blank? then [] else Extras(c, l.before) + ExtrasIn(c, l.piece)
  }

  function ServedIn(p: Piece): seq<Action> {
    if p.place.Positionals? && |p.place.counts| <= |p.place.offered| then p.place.offered[..|p.place.counts|] else []
  }

  /** The positionals that were served, in order. */
  function ServedBy(l: Ledger): seq<Action> {
    if l.Blank? then [] else ServedBy(l.before) + ServedIn(l.piece)
  }

  /** What a run has to show after some pieces. */
  datatype Books = Books(at: Option<nat>, turn: Turn, calls: seq<Call>, extras: seq<string>, left: seq<Action>)

  ghost function BooksOf(c: CommandLine, initial: seq<Action>, l: Ledger): Books {
    Books(Reach(c, initial, l), TurnOf(c, l), CallsOf(l), Extras(c, l), Left(initial, l))
  }

  /** The run came to the end and every positional was served. */
  ghost predicate Parsed(c: CommandLine, initial: seq<Action>, l: Ledger, at: nat) {
    Reach(c, initial, l) == Some(at) && TurnOf(c, l) == Over && Left(initial, l) == []
  }

  /** The run raises: positionals are left at the end, or the option at hand cannot be read. */
  ghost predicate Raised(c: CommandLine, initial: seq<Action>, l: Ledger, at: nat) {
    && Reach(c, initial, l) == Some(at)
    && ((TurnOf(c, l) == Over && Left(initial, l) != []) || (TurnOf(c, l) == Open && Unreadable(c, at)))
  }

  predicate Unreadable(c: CommandLine, at: nat) {
    at in c.indices && c.indices[at].action.Some? && at < |c.pattern| && ReadAt(c, at).None?
  }

  // ---- the ledger is determined by the strings -------------------------------------------------

  lemma {:induction false} LegalUnique(c: CommandLine, turn: Turn, left: seq<Action>, p: Piece, q: Piece)
    requires Legal(c, turn, left, p) && Legal(c, turn, left, q) && p.start == q.start
    ensures p == q
  {
    if p.place.Positionals? && q.place.Positionals? {
      PartialUnique(left, c.pattern[p.start..], p.place.counts, q.place.counts);
    }
  }

  function Size(l: Ledger): nat {
    if l.Blank? then 0 else Size(l.before) + 1
  }

  /** The ledger with its first n pieces. */
  function First(l: Ledger, n: nat): (r: Ledger)
    ensures Size(r) <= n && (n <= Size(l) ==> Size(r) == n)
  {
    if Size(l) <= n then l else First(l.before, n)
  }

  /** Of two ledgers of one command line the shorter begins the longer. */
  lemma {:induction false} LedgerUnique(c: CommandLine, initial: seq<Action>, p: Ledger, q: Ledger)
    requires Reach(c, initial, p).Some? && Reach(c, initial, q).Some? && Size(p) <= Size(q)
    ensures p == First(q, Size(p))
    decreases Size(q)
  {
    if Size(p) < Size(q) {
      LedgerUnique(c, initial, p, q.before);
    } else if p.Entry? {
      LedgerUnique(c, initial, p.before, q.before);
      LegalUnique(c, TurnOf(c, p.before), Left(initial, p.before), p.piece, q.piece);
    }
  }

  /** The piece that follows the shorter of two ledgers. */
  lemma {:induction false} Continues(c: CommandLine, initial: seq<Action>, p: Ledger, q: Ledger) returns (x: Piece)
    requires Reach(c, initial, q).Some? && p == First(q, Size(p)) && Size(p) < Size(q)
    ensures Reach(c, initial, Entry(p, x)).Some?
    decreases Size(q)
  {
    if Size(q) == Size(p) + 1 {
      x := q.piece;
    } else {
      x := Continues(c, initial, p, q.before);
    }
  }

  /** Nothing follows a run that raised. */
  lemma {:induction false} RaisedIsFinal(c: CommandLine, initial: seq<Action>, l: Ledger, at: nat, p: Piece)
    requires Raised(c, initial, l, at) && p.start == at
    ensures !Legal(c, TurnOf(c, l), Left(initial, l), p)
  {
  }

  lemma {:induction false} OutcomeFinal(c: CommandLine, initial: seq<Action>, p: Ledger, at: nat, q: Ledger)
    requires Parsed(c, initial, p, at) || Raised(c, initial, p, at)
    requires Reach(c, initial, q).Some? && Size(p) <= Size(q)
    ensures p == q
  {
    LedgerUnique(c, initial, p, q);
    if Size(p) < Size(q) {
      var x := Continues(c, initial, p, q);
      if Raised(c, initial, p, at) {
        RaisedIsFinal(c, initial, p, at, x);
      }
    }
  }

  /** A command line either parses or raises, never both, and it does so in one way only. */
  lemma OutcomeUnique(c: CommandLine, initial: seq<Action>, p: Ledger, at: nat, q: Ledger, bt: nat)
    requires Parsed(c, initial, p, at) || Raised(c, initial, p, at)
    requires Parsed(c, initial, q, bt) || Raised(c, initial, q, bt)
    ensures p == q && at == bt
  {
    if Size(p) <= Size(q) {
      OutcomeFinal(c, initial, p, at, q);
    } else {
      OutcomeFinal(c, initial, q, bt, p);
    }
  }

  // ---- what a ledger says ----------------------------------------------------------------------

  /** How often index i was given to one of the first n calls. */
  function TimesGiven(given: seq<Given>, n: nat, i: nat): nat
    requires n <= |given|
  {
    if n == 0 then 0 else TimesGiven(given, n - 1, i) + if given[n - 1].from <= i < given[n - 1].to then 1 else 0
  }

  /** How many places index i has in a piece: as an option string, among the extras, and in calls. */
  function PlacesIn(p: Piece, i: nat): nat {
    (if p.place.KnownOption? && i == p.start then 1 else 0)
    + (if (p.place.Extra? || p.place.UnknownOption?) && p.start <= i < p.stop then 1 else 0)
    + TimesGiven(p.given, |p.given|, i)
  }

  function Places(l: Ledger, i: nat): nat {
    if l.Blank? then 0 else Places(l.before, i) + PlacesIn(l.piece, i)
  }

  lemma {:induction false} SliceTimes(c: CommandLine, actions: seq<Action>, counts: seq<nat>, start: nat, n: nat,
                                      i: nat)
    requires n <= |actions| == |counts|
    ensures start <= Offset(counts, start, n)
    ensures TimesGiven(SliceGiven(c, actions, counts, start), n, i)
      == if start <= i < Offset(counts, start, n) then 1 else 0
  {
    if n > 0 {
      SliceTimes(c, actions, counts, start, n - 1, i);
    }
  }

  lemma {:induction false} EmptyTimes(given: seq<Given>, n: nat, i: nat)
    requires n <= |given| && forall j :: 0 <= j < n ==> given[j].from == given[j].to
    ensures TimesGiven(given, n, i) == 0
  {
    if n > 0 {
      EmptyTimes(given, n - 1, i);
    }
  }

  lemma {:induction false} ReadingCount(o: Options, a: Action, s: string, explicit: Option<string>, rest: string)
    requires ReadOption(o, a, s, explicit, rest).Some?
    ensures var r := ReadOption(o, a, s, explicit, rest).value; r.count <= |rest| && (r.explicit.Some? ==> r.count == 0)
  {
    if explicit.Some? {
      ReadingSpelled(o, a, s, explicit.value, rest);
    }
  }

  lemma {:induction false} OptionTimes(c: CommandLine, r: Reading, start: nat, i: nat)
    requires r.explicit.Some? ==> r.count == 0
    ensures var g := OptionGiven(c, r, start); TimesGiven(g, |g|, i) == if start < i < start + 1 + r.count then 1 else 0
  {
    EmptyTimes(OptionGiven(c, r, start), |r.flags|, i);
  }

  lemma {:induction false} PieceTimes(c: CommandLine, turn: Turn, left: seq<Action>, p: Piece, i: nat)
    requires Legal(c, turn, left, p)
    ensures PlacesIn(p, i) == if p.start <= i < p.stop then 1 else 0
  {
    match p.place
    case KnownOption =>
      var t := c.indices[p.start];
      ReadingCount(c.options, t.action.value, t.optionString, t.explicitArg, c.pattern[p.start + 1..]);
      OptionTimes(c, ReadAt(c, p.start).value, p.start, i);
    case Positionals(offered, counts) => SliceTimes(c, left[..|counts|], counts, p.start, |counts|, i);
    case _ =>
  }

  lemma {:induction false} LedgerPlaces(c: CommandLine, initial: seq<Action>, l: Ledger, i: nat)
    requires Reach(c, initial, l).Some?
    ensures Places(l, i) == if i < Reach(c, initial, l).value then 1 else 0
  {
    if l.Entry? {
      LedgerPlaces(c, initial, l.before, i);
      PieceTimes(c, TurnOf(c, l.before), Left(initial, l.before), l.piece, i);
    }
  }

  /** When a command line parses, every string has exactly one place, be it as an option string, in one
      action's slice or among the extras, and the positionals were served in order, each once. */
  lemma EachInOnePlace(c: CommandLine, initial: seq<Action>, l: Ledger, at: nat)
    requires Parsed(c, initial, l, at)
    ensures at == |c.args| && forall i: nat :: Places(l, i) == if i < |c.args| then 1 else 0
    ensures ServedBy(l) == initial
  {
    forall i: nat ensures Places(l, i) == if i < |c.args| then 1 else 0 {
      LedgerPlaces(c, initial, l, i);
    }
    ServedInOrder(c, initial, l);
  }

  lemma {:induction false} ServedInOrder(c: CommandLine, initial: seq<Action>, l: Ledger)
    requires Reach(c, initial, l).Some?
    ensures ServedBy(l) + Left(initial, l) == initial
  {
    if l.Entry? {
      ServedInOrder(c, initial, l.before);
      PieceServes(c, TurnOf(c, l.before), Left(initial, l.before), l.piece);
      Regroup(ServedBy(l.before), ServedIn(l.piece), LeftAfter(Left(initial, l.before), l.piece));
    }
  }

  lemma {:induction false} PieceServes(c: CommandLine, turn: Turn, left: seq<Action>, p: Piece)
    requires Legal(c, turn, left, p)
    ensures ServedIn(p) + LeftAfter(left, p) == left
  {
  }

  lemma Regroup(a: seq<Action>, b: seq<Action>, c: seq<Action>)
    ensures (a + b) + c == a + (b + c)
  {
  }

  /** A call has exactly the strings it was given, and they suit its action; a call given none has either no
      strings or the rest of the option string, which counts as one argument. */
  predicate GivenWell(c: CommandLine, g: Given) {
    && g.from <= g.to <= |c.args| == |c.pattern|
    && ((g.call.strings == c.args[g.from..g.to] && Suits(g.call.action, c.pattern[g.from..g.to]))
        || (g.from == g.to && |g.call.strings| == 1 && Suits(g.call.action, "A")))
  }

  /** The slices of a suitable match. */
  lemma {:induction false} SlicesSuit(actions: seq<Action>, counts: seq<nat>, s: string, start: nat, j: nat)
    requires start <= |s| && j < |actions| && AllSuit(actions, counts, s[start..])
    ensures start <= Offset(counts, start, j) <= Offset(counts, start, j + 1) <= |s|
    ensures Suits(actions[j], s[Offset(counts, start, j)..Offset(counts, start, j + 1)])
  {
    var stop := start + counts[0];
    SubSlice(s, start, counts[0]);
    if j > 0 {
      SlicesSuit(actions[1..], counts[1..], s, stop, j - 1);
      OffsetShift(counts, start, j);
      OffsetShift(counts, start, j + 1);
    }
  }

  lemma {:induction false} SubSlice(s: string, start: nat, k: nat)
    requires start + k <= |s|
    ensures s[start..][..k] == s[start..start + k] && s[start..][k..] == s[start + k..]
  {
  }

  lemma {:induction false} OffsetShift(counts: seq<nat>, start: nat, j: nat)
    requires 0 < j <= |counts|
    ensures Offset(counts, start, j) == Offset(counts[1..], start + counts[0], j - 1)
  {
    if j > 1 {
      OffsetShift(counts, start, j - 1);
    }
  }

  lemma {:induction false} FlagsTakeNothing(o: Options, a: Action, s: string, explicit: Option<string>, rest: string)
    requires ReadOption(o, a, s, explicit, rest).Some?
    ensures var r := ReadOption(o, a, s, explicit, rest).value;
            && (forall i :: 0 <= i < |r.flags| ==> Suits(r.flags[i], ""))
            && r.count <= |rest| && Suits(r.last, if r.explicit.Some? then "A" else rest[..r.count])
  {
    if explicit.Some? {
      ReadingSpelled(o, a, s, explicit.value, rest);
      var r := ReadOption(o, a, s, explicit, rest).value;
      forall i | 0 <= i < |r.flags| ensures Suits(r.flags[i], "") {
        assert MatchArgument(r.flags[i], "A") == Some(0) && "A"[..0] == "";
      }
      assert "A"[..1] == "A";
    }
  }

  lemma {:induction false} OptionSuits(c: CommandLine, r: Reading, start: nat, j: nat)
    requires start < |c.args| == |c.pattern| && r.count <= |c.args| - start - 1 && j <= |r.flags|
    requires forall i :: 0 <= i < |r.flags| ==> Suits(r.flags[i], "")
    requires Suits(r.last, if r.explicit.Some? then "A" else c.pattern[start + 1..][..r.count])
    requires r.explicit.Some? ==> r.count == 0
    ensures GivenWell(c, OptionGiven(c, r, start)[j])
  {
    var next := start + 1;
    SubSlice(c.pattern, next, r.count);
    assert c.args[next..next] == [] && c.pattern[next..next] == "";
  }

  lemma {:induction false} KnownSuits(c: CommandLine, start: nat, j: nat)
    requires |c.args| == |c.pattern| && start < |c.args| && start in c.indices && c.indices[start].action.Some?
    requires ReadAt(c, start).Some? && j <= |ReadAt(c, start).value.flags|
    ensures GivenWell(c, OptionGiven(c, ReadAt(c, start).value, start)[j])
  {
    var t, rest := c.indices[start], c.pattern[start + 1..];
    FlagsTakeNothing(c.options, t.action.value, t.optionString, t.explicitArg, rest);
    ReadingCount(c.options, t.action.value, t.optionString, t.explicitArg, rest);
    OptionSuits(c, ReadAt(c, start).value, start, j);
  }

  lemma {:induction false} SlicesWell(c: CommandLine, left: seq<Action>, counts: seq<nat>, start: nat, j: nat)
    requires |c.args| == |c.pattern| && start <= |c.args| && PartialMatch(left, c.pattern[start..], counts)
        && j < |counts|
    ensures GivenWell(c, SliceAt(c, left[..|counts|], counts, start, j))
  {
    PartialSuits(left, c.pattern[start..], counts);
    SlicesSuit(left[..|counts|], counts, c.pattern, start, j);
  }

  /** Every call of a legal piece is well given. */
  lemma {:induction false} CallsSuit(c: CommandLine, turn: Turn, left: seq<Action>, p: Piece, j: nat)
    requires Legal(c, turn, left, p) && j < |p.given|
    ensures GivenWell(c, p.given[j])
  {
    match p.place
    case KnownOption => KnownSuits(c, p.start, j);
    case Positionals(offered, counts) => SlicesWell(c, left, counts, p.start, j);
  }

  // ---- the loop ------------------------------------------------------------------------------

  /** The books after one more piece. */
  lemma {:induction false} BooksAfter(c: CommandLine, initial: seq<Action>, l: Ledger, p: Piece, b: Books)
    requires b == BooksOf(c, initial, l) && b.at == Some(p.start) && Legal(c, b.turn, b.left, p)
    ensures BooksOf(c, initial, Entry(l, p)) ==
            Books(Some(p.stop), TurnAfter(c, p), b.calls + CallsIn(p.given), b.extras + ExtrasIn(c, p),
                LeftAfter(b.left, p))
  {
  }

  /** Calls of combined flags, none of which takes a string. */
  function FlagCalls(flags: seq<Action>): (r: seq<Call>)
    ensures |r| == |flags|
  {
    seq(|flags|, i requires 0 <= i < |flags| => Call(flags[i], []))
  }

  /** The calls of an option, given the strings that follow it. */
  function ReadingCalls(r: Reading, following: seq<string>): seq<Call>
    requires r.count <= |following|
  {
    FlagCalls(r.flags) + [Call(r.last, if r.explicit.Some? then [r.explicit.value] else following[..r.count])]
  }

  lemma {:induction false} OptionCalls(c: CommandLine, r: Reading, start: nat)
    requires start + 1 + r.count <= |c.args|
    ensures CallsIn(OptionGiven(c, r, start)) == ReadingCalls(r, c.args[start + 1..])
  {
    assert c.args[start + 1..][..r.count] == Slice(c.args, start + 1, start + 1 + r.count);
  }

  lemma FlagsSnoc(flags: seq<Action>, a: Action)
    ensures FlagCalls(flags + [a]) == FlagCalls(flags) + [Call(a, [])]
  {
  }

  /** The loop over one option string: the calls it asks for, and how many following strings they use. */
  method ReadTuples(o: Options, a: Action, optionStr: string, explicit: Option<string>, rest: string,
                    following: seq<string>)
    returns (ok: bool, tuples: seq<Call>, count: nat)
    requires |rest| == |following|
    ensures ok <==> ReadOption(o, a, optionStr, explicit, rest).Some?
    ensures ok ==> var r := ReadOption(o, a, optionStr, explicit, rest).value;
                   r.count <= |following| && count == r.count && tuples == ReadingCalls(r, following)
  {
    var action, optionString, explicitArg := a, optionStr, explicit;
    ghost var whole := ReadOption(o, a, optionStr, explicit, rest);
    ghost var flags: seq<Action> := [];
    tuples := [];
    AfterNothing(whole);
    while true
      invariant tuples == FlagCalls(flags)
      invariant whole == After(flags, ReadOption(o, action, optionString, explicitArg, rest))
      decreases if explicitArg.Some? then |explicitArg.value| + 1 else 0
    {
      if explicitArg.Some? {
        var text := explicitArg.value;
        var argCount := MatchArgument(action, "A");
        if argCount == Some(0) && |optionString| >= 2 && optionString[1] !in o.prefixChars {
          tuples := tuples + [Call(action, [])];
          if |text| == 0 {
            return false, tuples, 0;
          }
          var next := [optionString[0], text[0]];
          if next !in o.actions {
            return false, tuples, 0;
          }
          AfterAfter(flags, [action], ReadOption(o, o.actions[next], next, Tail(text), rest));
          FlagsSnoc(flags, action);
          flags := flags + [action];
          action, optionString, explicitArg := o.actions[next], next, Tail(text);
        } else if argCount == Some(1) {
          LastRead(flags, action, explicitArg, 0, following);
          return true, tuples + [Call(action, [text])], 0;
        } else {
          return false, tuples, 0;
        }
      } else {
        var argCount := MatchArgument(action, rest);
        if argCount.None? {
          return false, tuples, 0;
        }
        LastRead(flags, action, None, argCount.value, following);
        return true, tuples + [Call(action, following[..argCount.value])], argCount.value;
      }
    }
  }

  lemma {:induction false} LastRead(flags: seq<Action>, last: Action, explicit: Option<string>, count: nat,
                                    following: seq<string>)
    requires count <= |following|
    ensures var r := After(flags, Some(Reading([], last, explicit, count)));
            && r == Some(Reading(flags, last, explicit, count))
            && ReadingCalls(r.value, following)
               == FlagCalls(flags) + [Call(last, if explicit.Some? then [explicit.value] else following[..count])]
  {
    assert flags + [] == flags;
  }

  lemma {:induction false} KnownLegal(c: CommandLine, left: seq<Action>, start: nat, r: Reading)
    requires c.Valid() && start in c.indices && c.indices[start].action.Some? && ReadAt(c, start) == Some(r)
    ensures start + 1 + r.count <= |c.args| && Legal(c, Open, left, KnownPiece(c, r, start))
  {
    var t := c.indices[start];
    ReadingCount(c.options, t.action.value, t.optionString, t.explicitArg, c.pattern[start + 1..]);
  }

  lemma {:induction false} PositionalLegal(c: CommandLine, left: seq<Action>, start: nat, counts: seq<nat>)
    requires c.Valid() && start <= |c.args| && start !in c.indices && PartialMatch(left, c.pattern[start..], counts)
    ensures start <= Offset(counts, start, |counts|) <= |c.args|
    ensures Legal(c, Open, left, PositionalPiece(c, left, counts, start))
  {
    PartialSuits(left, c.pattern[start..], counts);
    if |counts| > 0 {
      SlicesSuit(left[..|counts|], counts, c.pattern, start, |counts| - 1);
    }
  }

  lemma {:induction false} UnknownBooks(c: CommandLine, initial: seq<Action>, l: Ledger, start: nat, b: Books)
    requires c.Valid() && b == BooksOf(c, initial, l) && b.at == Some(start) && b.turn == Open
    requires start in c.indices && c.indices[start].action.None?
    ensures BooksOf(c, initial, Entry(l, UnknownPiece(start)))
        == b.(at := Some(start + 1), extras := b.extras + [c.args[start]])
  {
    BooksAfter(c, initial, l, UnknownPiece(start), b);
    assert ExtrasIn(c, UnknownPiece(start)) == [c.args[start]];
    assert b.calls + CallsIn([]) == b.calls;
  }

  lemma {:induction false} KnownBooks(c: CommandLine, initial: seq<Action>, l: Ledger, start: nat, b: Books, r: Reading,
                                      tuples: seq<Call>, p: Piece)
    requires c.Valid() && b == BooksOf(c, initial, l) && b.at == Some(start) && b.turn == Open
    requires start in c.indices && c.indices[start].action.Some? && ReadAt(c, start) == Some(r)
    requires r.count <= |c.args| - start - 1 && tuples == ReadingCalls(r, c.args[start + 1..])
    requires p == KnownPiece(c, r, start)
    ensures p.stop == start + 1 + r.count
    ensures BooksOf(c, initial, Entry(l, p)) == b.(at := Some(p.stop), calls := b.calls + tuples)
  {
    KnownLegal(c, b.left, start, r);
    LegalReach(c, initial, l, p);
    OptionCalls(c, r, start);
    KnownEntry(c, initial, l, start, r);
  }

  lemma {:induction false} LegalReach(c: CommandLine, initial: seq<Action>, l: Ledger, p: Piece)
    requires Reach(c, initial, l) == Some(p.start) && Legal(c, TurnOf(c, l), Left(initial, l), p)
    ensures Reach(c, initial, Entry(l, p)) == Some(p.stop)
  {
  }

  lemma {:induction false} KnownEntry(c: CommandLine, initial: seq<Action>, l: Ledger, start: nat, r: Reading)
    ensures var m := Entry(l, KnownPiece(c, r, start));
            && TurnOf(c, m) == Open && CallsOf(m) == CallsOf(l) + CallsIn(OptionGiven(c, r, start))
            && Extras(c, m) == Extras(c, l) && Left(initial, m) == Left(initial, l)
  {
    assert ExtrasIn(c, KnownPiece(c, r, start)) == [];
  }

  /** What reading the option at `start` comes to: the calls, the piece, or an error. */
  datatype Taken = Taken(calls: seq<Call>, piece: Piece) | Refused

  ghost function TakenAt(c: CommandLine, start: nat): Taken {
    if start in c.indices && c.indices[start].action.Some? && start < |c.args| == |c.pattern| && ReadAt(c, start).Some?
       && ReadAt(c, start).value.count <= |c.args| - start - 1
    then
      var r := ReadAt(c, start).value;
      Taken(ReadingCalls(r, c.args[start + 1..]), KnownPiece(c, r, start))
    else Refused
  }

  method ReadTuplesAt(c: CommandLine, start: nat) returns (ok: bool, tuples: seq<Call>, stop: nat, ghost p: Piece)
    requires c.Valid() && start in c.indices && c.indices[start].action.Some?
    ensures !ok ==> Unreadable(c, start)
    ensures ok ==> start < stop == p.stop && TakenAt(c, start) == Taken(tuples, p)
  {
    var t := c.indices[start];
    var count;
    ok, tuples, count := ReadTuples(c.options, t.action.value, t.optionString, t.explicitArg,
                                    c.pattern[start + 1..], c.args[start + 1..]);
    stop := start + 1 + count;
    if ok {
      p := KnownPiece(c, ReadAt(c, start).value, start);
    } else {
      p := UnknownPiece(start);
    }
  }

  lemma {:induction false} TakenBooks(c: CommandLine, initial: seq<Action>, l: Ledger, start: nat, b: Books,
                                      tuples: seq<Call>, p: Piece)
    requires c.Valid() && b == BooksOf(c, initial, l) && b.at == Some(start) && b.turn == Open
    requires TakenAt(c, start) == Taken(tuples, p)
    ensures p.stop <= |c.args| && BooksOf(c, initial, Entry(l, p)) == b.(at := Some(p.stop), calls := b.calls + tuples)
  {
    KnownBooks(c, initial, l, start, b, ReadAt(c, start).value, tuples, p);
  }

  class KnownArgs {
    const args: seq<string>
    const options: Options
    const pattern: string
    const indices: map<nat, OptionTuple>
    var extras: seq<string>
    var positionals: seq<Action>
    var calls: seq<Call>
    ghost const initial: seq<Action>
    ghost var ledger: Ledger

    function Line(): CommandLine {
      CommandLine(args, pattern, indices, options)
    }

    /** The run has come to `index`: calls, extras and remaining positionals are those of its ledger. */
    ghost predicate At(index: nat, turn: Turn)
      reads this
    {
      && Line().Valid() && index <= |args|
      && BooksOf(Line(), initial, ledger) == Books(Some(index), turn, calls, extras, positionals)
    }

    constructor (strings: seq<string>, opts: Options, pat: string, found: map<nat, OptionTuple>, actions: seq<Action>)
      requires CommandLine(strings, pat, found, opts).Valid()
      ensures At(0, Open) && Line() == CommandLine(strings, pat, found, opts) && initial == actions && ledger == Blank
    {
      args, options, pattern, indices := strings, opts, pat, found;
      extras, positionals, calls := [], actions, [];
      initial, ledger := actions, Blank;
    }

    /** Consumes the option at start, the flags combined in it and its arguments; it raises exactly when the
        option cannot be read. */
    method ConsumeOptional(start: nat) returns (ok: bool, stop: nat)
      requires At(start, Open) && start in indices
      modifies this`extras, this`calls, this`ledger
      ensures !ok ==> At(start, Open) && ledger == old(ledger) && Unreadable(Line(), start)
      ensures ok ==> start < stop && At(stop, Open) && ledger.Entry? && ledger.before == old(ledger)
    {
      stop := start;
      ghost var b := BooksOf(Line(), initial, ledger);
      if indices[start].action.None? {
        UnknownBooks(Line(), initial, ledger, start, b);
        extras := extras + [args[start]];
        ledger := Entry(ledger, UnknownPiece(start));
        return true, start + 1;
      }
      ok, stop := TakeOption(start);
    }

    /** Consumes a known option. */
    method TakeOption(start: nat) returns (ok: bool, stop: nat)
      requires At(start, Open) && start in indices && indices[start].action.Some?
      modifies this`calls, this`ledger
      ensures !ok ==> At(start, Open) && ledger == old(ledger) && Unreadable(Line(), start)
      ensures ok ==> start < stop && At(stop, Open) && ledger.Entry? && ledger.before == old(ledger)
    {
      var tuples;
      ghost var p;
      ok, tuples, stop, p := ReadTuplesAt(Line(), start);
      if ok {
        TakenBooks(Line(), initial, ledger, start, BooksOf(Line(), initial, ledger), tuples, p);
        calls := calls + tuples;
        ledger := Entry(ledger, p);
      }
    }

    /** Offers the strings from start on to the positionals: as many as match together take their slices. */
    method ConsumePositionals(start: nat) returns (stop: nat)
      requires At(start, Open) && start !in indices
      modifies this
      ensures start <= stop && ledger.Entry? && ledger.before == old(ledger)
      ensures At(stop, if stop == start || NoOption(Line(), start, |args|) then ExtrasDue else Open)
    {
      var counts := MatchArgumentsPartial(positionals, pattern[start..]);
      ghost var b := BooksOf(Line(), initial, ledger);
      ghost var p := PositionalPiece(Line(), positionals, counts, start);
      PositionalLegal(Line(), positionals, start, counts);
      BooksAfter(Line(), initial, ledger, p, b);
      stop := TakeSlices(positionals[..|counts|], counts, start);
      ledger := Entry(ledger, p);
      positionals := positionals[|counts|..];
    }

    /** take_action for each of the matched positionals with its slice. */
    method TakeSlices(actions: seq<Action>, counts: seq<nat>, start: nat) returns (stop: nat)
      requires |actions| == |counts| && Offset(counts, start, |counts|) <= |args|
      modifies this`calls
      ensures stop == Offset(counts, start, |counts|)
      ensures calls == old(calls) + CallsIn(SliceGiven(Line(), actions, counts, start))
    {
      ghost var made := CallsIn(SliceGiven(Line(), actions, counts, start));
      stop := start;
      for i := 0 to |counts|
        invariant stop == Offset(counts, start, i) && calls == old(calls) + made[..i]
      {
        OffsetGrows(counts, start, i + 1);
        var next := stop + counts[i];
        assert made[..i + 1] == made[..i] + [Call(actions[i], args[stop..next])];
        calls := calls + [Call(actions[i], args[stop..next])];
        stop := next;
      }
      assert made[..|counts|] == made;
    }

    /** Nobody wants the strings up to the next option, or to the end. */
    method LeaveExtras(start: nat, stop: nat)
      requires At(start, ExtrasDue) && start <= stop <= |args|
      requires NoOption(Line(), start, stop) && (stop == |args| || stop in indices)
      modifies this`extras, this`ledger
      ensures At(stop, if stop == |args| then Over else Open) && ledger == Entry(old(ledger), ExtraPiece(start, stop))
    {
      BooksAfter(Line(), initial, ledger, ExtraPiece(start, stop), BooksOf(Line(), initial, ledger));
      extras := extras + args[start..stop];
      ledger := Entry(ledger, ExtraPiece(start, stop));
    }

    /** The least option index from start on. */
    method NextOption(start: nat, last: nat) returns (next: nat)
      requires start <= last && last in indices
      ensures next in indices && start <= next <= last && NoOption(Line(), start, next)
    {
      next := start;
      while next !in indices
        invariant start <= next <= last && NoOption(Line(), start, next)
        decreases last - next
      {
        next := next + 1;
      }
    }

    method LastOption() returns (last: int)
      requires Line().Valid()
      ensures last == -1 || (last >= 0 && last in indices)
      ensures forall i: nat :: i in indices ==> i <= last
    {
      last := -1;
      for i := 0 to |args|
        invariant last == -1 || (last >= 0 && last in indices)
        invariant forall j: nat :: j in indices && j < i ==> j <= last
      {
        if i in indices {
          last := i;
        }
      }
    }

    /** The whole loop.  It terminates; it succeeds exactly when the command line parses, and then the calls
        and extras are those of its one ledger. */
    method ParseKnownArgs() returns (ok: bool, ghost at: nat, ghost turn: Turn)
      requires At(0, Open)
      requires ledger == Blank
      modifies this
      ensures At(at, turn)
      ensures if ok then Parsed(Line(), initial, ledger, at) else Raised(Line(), initial, ledger, at)
    {
      var start := 0;
      var last := LastOption();
      while start <= last
        invariant At(start, Open)
        decreases |args| - start
      {
        var next := NextOption(start, last);
        if start != next {
          var end := ConsumePositionals(start);
          if end > start {
            start := end;
            continue;
          }
        }
        if start !in indices {
          LeaveExtras(start, next);
          start := next;
        }
        var stop;
        ok, stop := ConsumeOptional(start);
        if !ok {
          return false, start, Open;
        }
        start := stop;
      }
      var stop := ConsumePositionals(start);
      LeaveExtras(stop, |args|);
      ok, at, turn := positionals == [], |args|, Over;
    }
  }

  lemma {:induction false} OffsetGrows(counts: seq<nat>, start: nat, j: nat)
    requires j <= |counts|
    ensures start <= Offset(counts, start, j) <= Offset(counts, start, |counts|)
    decreases |counts| - j, j
  {
    if j < |counts| {
      OffsetGrows(counts, start, j + 1);
    }
    OffsetFromStart(counts, start, j);
  }

  lemma {:induction false} OffsetFromStart(counts: seq<nat>, start: nat, j: nat)
    requires j <= |counts|
    ensures start <= Offset(counts, start, j)
  {
    if j > 0 {
      OffsetFromStart(counts, start, j - 1);
    }
  }
}
