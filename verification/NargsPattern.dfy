/** How many command-line strings an action takes: the regular expressions built from nargs, and greedy
    backtracking matching of them against a pattern of 'A' (argument), 'O' (option) and '-' ("--"). */
module NargsPattern {
  datatype Option<T> = None | Some(value: T)

  datatype Nargs = Single | Optional | ZeroOrMore | OneOrMore | Remainder | Parser | Exactly(n: nat)

  datatype Action = Action(name: string, nargs: Nargs, hasOptionStrings: bool)

  /** A character class with its repetition: X (once), X? (atMost 1) or X* (unbounded). */
  datatype Item = Item(chars: set<char>, once: bool, bounded: bool)

  const Dashes := Item({'-'}, false, false)
  const A := Item({'A'}, true, true)

  /** n arguments with dashes before each and after the last. */
  function Arguments(n: nat): seq<Item> {
    if n == 0 then [Dashes] else [Dashes, A] + Arguments(n - 1)
  }

  /** _get_nargs_pattern for a positional. */
  function PositionalPattern(nargs: Nargs): seq<Item> {
    match nargs
    case Single => [Dashes, A, Dashes]
    case Optional => [Dashes, Item({'A'}, false, true), Dashes]
    case ZeroOrMore => [Dashes, Item({'A', '-'}, false, false)]
    case OneOrMore => [Dashes, A, Item({'A', '-'}, false, false)]
    case Remainder => [Item({'-', 'A', 'O'}, false, false)]
    case Parser => [Dashes, A, Item({'-', 'A', 'O'}, false, false)]
    case Exactly(n) => if n == 0 then [Dashes, Dashes] else Arguments(n)
  }

  /** For an option "--" is not allowed: dashes are taken out of the pattern. */
  function WithoutDashes(items: seq<Item>): seq<Item> {
    if |items| == 0 then []
    else Undashed(items[0]) + WithoutDashes(items[1..])
  }

  function Undashed(item: Item): seq<Item> {
    if item.chars == {'-'} then [] else [item.(chars := item.chars - {'-'})]
  }

  function Pattern(a: Action): seq<Item> {
    if a.hasOptionStrings then WithoutDashes(PositionalPattern(a.nargs)) else PositionalPattern(a.nargs)
  }

  // ---- matching ------------------------------------------------------------------------------

  /** The longest prefix of s made of these characters. */
  function RunLength(chars: set<char>, s: string): (k: nat)
    ensures k <= |s|
  {
    if |s| > 0 && s[0] in chars then 1 + RunLength(chars, s[1..]) else 0
  }

  function Most(item: Item, s: string): (k: nat)
    ensures k <= |s|
  {
    var run := RunLength(item.chars, s);
    if item.bounded && run > 1 then 1 else run
  }

  /** Greedy backtracking: the lengths of the pieces the items match at the front of s. */
  function Match(items: seq<Item>, s: string): Option<seq<nat>>
    decreases |items|, 2, 0
  {
    if |items| == 0 then Some([]) else MatchFrom(items, s, Most(items[0], s))
  }

  /** The first item takes k characters, or fewer when the rest does not match. */
  function MatchFrom(items: seq<Item>, s: string, k: nat): Option<seq<nat>>
    requires |items| > 0 && k <= |s|
    decreases |items|, 1, k
  {
    if items[0].once && k == 0 then None
    else
      match Match(items[1..], s[k..])
      case Some(rest) => Some([k] + rest)
      case None => if k == 0 then None else MatchFrom(items, s, k - 1)
  }

  predicate Fits(item: Item, s: string, k: nat) {
    k <= |s| && (item.once ==> k >= 1) && (item.bounded ==> k <= 1) && forall i :: 0 <= i < k ==> s[i] in item.chars
  }

  /** The lengths cut the front of s into pieces that fit the items. */
  predicate Split(items: seq<Item>, s: string, lens: seq<nat>) {
    |lens| == |items| &&
    (|items| > 0 ==> Fits(items[0], s, lens[0]) && Split(items[1..], s[lens[0]..], lens[1..]))
  }

  /** a is at least b at the first place where they differ. */
  predicate NoShorter(a: seq<nat>, b: seq<nat>) {
    |a| == 0 || |b| == 0 || a[0] > b[0] || (a[0] == b[0] && NoShorter(a[1..], b[1..]))
  }

  lemma {:induction false} RunLengthIs(chars: set<char>, s: string, k: nat)
    requires k <= |s|
    ensures (forall i :: 0 <= i < k ==> s[i] in chars) <==> k <= RunLength(chars, s)
  {
    if k > 0 {
      if s[0] in chars {
        RunLengthIs(chars, s[1..], k - 1);
        assert forall i :: 1 <= i < k ==> s[i] == s[1..][i - 1];
      }
    }
  }

  lemma FitsIs(item: Item, s: string, k: nat)
    requires k <= |s|
    ensures Fits(item, s, k) <==> k <= Most(item, s) && (item.once ==> k >= 1)
  {
    RunLengthIs(item.chars, s, k);
  }

  /** A match is a split of the front of s, no other split is greedier, and without a match there is none. */
  lemma {:induction false} MatchIsGreediest(items: seq<Item>, s: string, other: seq<nat>)
    ensures Match(items, s).Some? ==> Split(items, s, Match(items, s).value)
    ensures Split(items, s, other) ==> Match(items, s).Some? && NoShorter(Match(items, s).value, other)
    decreases |items|, 2, 0
  {
    if |items| > 0 {
      MatchFromIsGreediest(items, s, Most(items[0], s), other);
      if |other| > 0 && other[0] <= |s| {
        FitsIs(items[0], s, other[0]);
      }
    }
  }

  lemma {:induction false} MatchFromIsGreediest(items: seq<Item>, s: string, k: nat, other: seq<nat>)
    requires |items| > 0 && k <= Most(items[0], s)
    ensures MatchFrom(items, s, k).Some? ==> Split(items, s, MatchFrom(items, s, k).value)
    ensures Split(items, s, other) && other[0] <= k ==>
              MatchFrom(items, s, k).Some? && NoShorter(MatchFrom(items, s, k).value, other)
    decreases |items|, 1, k
  {
    FitsIs(items[0], s, k);
    if !(items[0].once && k == 0) {
      var rest := if |other| > 0 then other[1..] else [];
      MatchIsGreediest(items[1..], s[k..], rest);
      match Match(items[1..], s[k..])
      case Some(m) =>
        assert ([k] + m)[1..] == m;
      case None =>
        if k > 0 {
          MatchFromIsGreediest(items, s, k - 1, other);
        }
    }
  }

  function Total(lens: seq<nat>): nat {
    if |lens| == 0 then 0 else lens[0] + Total(lens[1..])
  }

  lemma {:induction false} SplitInside(items: seq<Item>, s: string, lens: seq<nat>)
    requires Split(items, s, lens)
    ensures Total(lens) <= |s|
  {
    if |items| > 0 {
      SplitInside(items[1..], s[lens[0]..], lens[1..]);
    }
  }

  // ---- what an action receives ---------------------------------------------------------------

  function CountOf(ch: char, s: string): nat {
    if |s| == 0 then 0 else CountOf(ch, s[1..]) + if s[0] == ch then 1 else 0
  }

  /** The strings an action is given, by kind: as many arguments as nargs asks for, options only for the
      two kinds that take everything, and "--" never for an option. */
  predicate Suits(a: Action, s: string) {
    var args := CountOf('A', s);
    && (a.nargs.Remainder? || a.nargs.Parser? || CountOf('O', s) == 0)
    && (a.hasOptionStrings ==> CountOf('-', s) == 0)
    && match a.nargs
       case Single => args == 1
       case Optional => args <= 1
       case ZeroOrMore => true
       case OneOrMore => args >= 1
       case Remainder => true
       case Parser => args >= 1
       case Exactly(n) => args == n
  }

  lemma {:induction false} CountSplit(ch: char, s: string, k: nat)
    requires k <= |s|
    ensures CountOf(ch, s) == CountOf(ch, s[..k]) + CountOf(ch, s[k..])
  {
    if k > 0 {
      CountSplit(ch, s[1..], k - 1);
      assert s[..k][1..] == s[1..][..k - 1] && s[1..][k - 1..] == s[k..];
    } else {
      assert s[..0] == [] && s[0..] == s;
    }
  }

  lemma {:induction false} CountNone(ch: char, s: string, chars: set<char>)
    requires forall i :: 0 <= i < |s| ==> s[i] in chars
    ensures ch !in chars ==> CountOf(ch, s) == 0
    ensures chars == {ch} ==> CountOf(ch, s) == |s|
  {
    if |s| > 0 {
      CountNone(ch, s[1..], chars);
    }
  }

  /** How many of ch the items may contribute: at least lo, and at most hi unless unbounded. */
  function AtLeast(ch: char, items: seq<Item>): nat {
    if |items| == 0 then 0
    else AtLeast(ch, items[1..]) + Low(ch, items[0])
  }

  function AtMost(ch: char, items: seq<Item>): Option<nat> {
    if |items| == 0 then Some(0)
    else High(ch, items[0], AtMost(ch, items[1..]))
  }

  function High(ch: char, item: Item, others: Option<nat>): Option<nat> {
    if ch !in item.chars || others.None? then others
    else if item.bounded then Some(others.value + 1)
    else None
  }

  function Low(ch: char, item: Item): nat {
    if item.once && item.chars == {ch} then 1 else 0
  }

  lemma PieceCounts(ch: char, item: Item, s: string)
    requires Fits(item, s, |s|)
    ensures CountOf(ch, s) >= Low(ch, item)
    ensures ch !in item.chars ==> CountOf(ch, s) == 0
    ensures item.bounded ==> CountOf(ch, s) <= 1
  {
    CountNone(ch, s, item.chars);
    CountBounded(ch, s);
  }

  lemma {:induction false} SplitCounts(ch: char, items: seq<Item>, s: string, lens: seq<nat>)
    requires Split(items, s, lens)
    ensures Total(lens) <= |s|
    ensures CountOf(ch, s[..Total(lens)]) >= AtLeast(ch, items)
    ensures AtMost(ch, items).Some? ==> CountOf(ch, s[..Total(lens)]) <= AtMost(ch, items).value
  {
    SplitInside(items, s, lens);
    if |items| > 0 {
      var k := lens[0];
      var piece, rest := s[..k], s[k..];
      SplitCounts(ch, items[1..], rest, lens[1..]);
      var whole := s[..Total(lens)];
      CountSplit(ch, whole, k);
      assert whole[..k] == piece && whole[k..] == rest[..Total(lens[1..])];
      PieceCounts(ch, items[0], piece);
    }
  }

  lemma {:induction false} CountBounded(ch: char, s: string)
    ensures CountOf(ch, s) <= |s|
  {
    if |s| > 0 {
      CountBounded(ch, s[1..]);
    }
  }

  lemma {:induction false} AbsentFrom(ch: char, items: seq<Item>)
    requires forall i :: 0 <= i < |items| ==> ch !in items[i].chars
    ensures AtMost(ch, items) == Some(0)
  {
    if |items| > 0 {
      AbsentFrom(ch, items[1..]);
    }
  }

  lemma ConsCounts(ch: char, item: Item, rest: seq<Item>)
    ensures AtLeast(ch, [item] + rest) == AtLeast(ch, rest) + Low(ch, item)
    ensures AtMost(ch, [item] + rest) == High(ch, item, AtMost(ch, rest))
  {
    assert ([item] + rest)[1..] == rest;
  }

  lemma {:induction false} WithoutDashesCounts(ch: char, items: seq<Item>)
    requires ch != '-' && forall i :: 0 <= i < |items| && items[i].once ==> items[i].chars == {'A'}
    ensures AtLeast(ch, WithoutDashes(items)) == AtLeast(ch, items)
    ensures AtMost(ch, WithoutDashes(items)) == AtMost(ch, items)
    ensures forall i :: 0 <= i < |WithoutDashes(items)| ==> '-' !in WithoutDashes(items)[i].chars
  {
    if |items| > 0 {
      WithoutDashesCounts(ch, items[1..]);
      if items[0].chars == {'-'} {
        assert WithoutDashes(items) == WithoutDashes(items[1..]);
      } else {
        var first, rest := items[0].(chars := items[0].chars - {'-'}), WithoutDashes(items[1..]);
        assert items[0].once ==> first.chars == items[0].chars;
        assert WithoutDashes(items) == [first] + rest;
        ConsCounts(ch, first, rest);
      }
    }
  }

  lemma {:induction false} ArgumentsCounts(n: nat)
    ensures AtLeast('A', Arguments(n)) == n && AtMost('A', Arguments(n)) == Some(n)
        && AtMost('O', Arguments(n)) == Some(0)
    ensures forall i :: 0 <= i < |Arguments(n)| && Arguments(n)[i].once ==> Arguments(n)[i].chars == {'A'}
  {
    if n > 0 {
      ArgumentsCounts(n - 1);
      var items, rest := Arguments(n), Arguments(n - 1);
      assert items[1..] == [A] + rest && items[1..][1..] == rest;
    }
  }

  lemma FewCounts(ch: char, items: seq<Item>)
    requires 1 <= |items| <= 3
    ensures AtLeast(ch, items) == Low(ch, items[0]) + (if |items| > 1 then Low(ch, items[1]) else 0)
                                  + if |items| > 2 then Low(ch, items[2]) else 0
    ensures var z := if |items| > 2 then High(ch, items[2], Some(0)) else Some(0);
            var y := if |items| > 1 then High(ch, items[1], z) else z;
            AtMost(ch, items) == High(ch, items[0], y)
  {
    var t := items[1..];
    if |items| > 1 {
      var u := t[1..];
      assert t[0] == items[1];
      if |items| > 2 {
        assert u[0] == items[2] && u[1..] == [];
      }
    }
  }

  /** What the positional pattern of each kind demands. */
  lemma PositionalCounts(nargs: Nargs)
    ensures var items := PositionalPattern(nargs);
            && (forall i :: 0 <= i < |items| && items[i].once ==> items[i].chars == {'A'})
            && (nargs.Remainder? || nargs.Parser? || AtMost('O', items) == Some(0))
            && match nargs
               case Single => AtLeast('A', items) == 1 && AtMost('A', items) == Some(1)
               case Optional => AtMost('A', items) == Some(1)
               case OneOrMore => AtLeast('A', items) >= 1
               case Parser => AtLeast('A', items) >= 1
               case Exactly(n) => AtLeast('A', items) == n && AtMost('A', items) == Some(n)
               case _ => true
  {
    var items := PositionalPattern(nargs);
    if nargs.Exactly? {
      ArgumentsCounts(nargs.n);
      if nargs.n == 0 {
        assert items[1..] == [Dashes] && items[1..][1..] == [];
      }
    } else {
      FewCounts('A', items);
      FewCounts('O', items);
    }
  }

  /** An action is never handed strings that its nargs does not allow. */
  lemma MatchSuits(a: Action, s: string, lens: seq<nat>)
    requires Split(Pattern(a), s, lens)
    ensures Total(lens) <= |s| && Suits(a, s[..Total(lens)])
  {
    var items := PositionalPattern(a.nargs);
    PositionalCounts(a.nargs);
    SplitCounts('A', Pattern(a), s, lens);
    SplitCounts('O', Pattern(a), s, lens);
    if a.hasOptionStrings {
      WithoutDashesCounts('A', items);
      WithoutDashesCounts('O', items);
      AbsentFrom('-', Pattern(a));
      SplitCounts('-', Pattern(a), s, lens);
    }
  }

  // ---- the count an option takes -------------------------------------------------------------

  /** By kind: how many of the strings that follow an option belong to it; None raises. */
  function OptionCount(nargs: Nargs, s: string): Option<nat> {
    var args := RunLength({'A'}, s);
    match nargs
    case Single => if args >= 1 then Some(1) else None
    case Optional => Some(if args >= 1 then 1 else 0)
    case ZeroOrMore => Some(args)
    case OneOrMore => if args >= 1 then Some(args) else None
    case Remainder => Some(RunLength({'A', 'O'}, s))
    case Parser => if args >= 1 then Some(RunLength({'A', 'O'}, s)) else None
    case Exactly(n) => if args >= n then Some(n) else None
  }

  function Sum(m: Option<seq<nat>>): Option<nat> {
    if m.Some? then Some(Total(m.value)) else None
  }

  /** A single repeated class takes its longest run. */
  lemma MatchStar(item: Item, s: string)
    requires !item.once
    ensures Sum(Match([item], s)) == Some(Most(item, s))
  {
    var k := Most(item, s);
    FitsIs(item, s, k);
    var none: seq<Item> := [];
    assert [item][1..] == none && Match(none, s[k..]) == Some([]);
    assert MatchFrom([item], s, k) == Some([k] + []);
    assert [k] + [] == [k] && Total([k]) == k;
  }

  /** One argument first, then whatever the rest takes. */
  lemma {:induction false} MatchCons(items: seq<Item>, s: string)
    ensures Sum(Match([A] + items, s)) ==
            if |s| == 0 || s[0] != 'A' || Match(items, s[1..]).None? then None
            else Some(1 + Sum(Match(items, s[1..])).value)
  {
    var all := [A] + items;
    assert all[0] == A && all[1..] == items;
    var k := Most(A, s);
    assert k == if |s| > 0 && s[0] == 'A' then 1 else 0;
    assert Match(all, s) == MatchFrom(all, s, k);
    if k == 1 {
      assert MatchFrom(all, s, 0) == None;
      if Match(items, s[1..]).Some? {
        TotalCons(1, Match(items, s[1..]).value);
      }
    }
  }

  lemma {:induction false} TotalCons(k: nat, rest: seq<nat>)
    ensures Total([k] + rest) == k + Total(rest)
  {
    assert ([k] + rest)[1..] == rest;
  }

  function Ones(n: nat): (r: seq<Item>)
    ensures |r| == n
  {
    if n == 0 then [] else [A] + Ones(n - 1)
  }

  lemma {:induction false} OnesAre(n: nat)
    ensures WithoutDashes(Arguments(n)) == Ones(n)
  {
    var items := Arguments(n);
    if n > 0 {
      OnesAre(n - 1);
      assert items[1..] == [A] + Arguments(n - 1) && items[1..][1..] == Arguments(n - 1);
      assert A.(chars := A.chars - {'-'}) == A;
    }
  }

  lemma {:induction false} MatchOnes(n: nat, s: string)
    ensures Sum(Match(Ones(n), s)) == if RunLength({'A'}, s) >= n then Some(n) else None
  {
    if n > 0 {
      MatchCons(Ones(n - 1), s);
      if |s| > 0 {
        MatchOnes(n - 1, s[1..]);
      }
    }
  }

  lemma OptionPatterns(a: Action)
    requires a.hasOptionStrings
    ensures Pattern(a) ==
            match a.nargs
            case Single => [A]
            case Optional => [Item({'A'}, false, true)]
            case ZeroOrMore => [Item({'A'}, false, false)]
            case OneOrMore => [A] + [Item({'A'}, false, false)]
            case Remainder => [Item({'A', 'O'}, false, false)]
            case Parser => [A] + [Item({'A', 'O'}, false, false)]
            case Exactly(n) => Ones(n)
  {
    var items := PositionalPattern(a.nargs);
    assert {'A', '-'} - {'-'} == {'A'} && {'-', 'A', 'O'} - {'-'} == {'A', 'O'} && {'A'} - {'-'} == {'A'};
    if a.nargs.Exactly? && a.nargs.n > 0 {
      OnesAre(a.nargs.n);
    } else {
      var t := items[1..];
      if |t| > 0 {
        var u := t[1..];
        assert |u| > 0 ==> u[0] == items[2] && WithoutDashes(u) == Undashed(items[2]) + [];
        assert WithoutDashes(t) == Undashed(items[1]) + WithoutDashes(u);
      }
    }
  }

  /** What _match_argument counts for an option is exactly that number, and it raises exactly without one. */
  lemma OptionMatch(a: Action, s: string)
    requires a.hasOptionStrings
    ensures Sum(Match(Pattern(a), s)) == OptionCount(a.nargs, s)
  {
    OptionPatterns(a);
    match a.nargs
    case Single =>
      assert [A] == [A] + [];
      MatchCons([], s);
    case OneOrMore => MatchCons(Pattern(a)[1..], s); if |s| > 0 { MatchStar(Pattern(a)[1], s[1..]); }
    case Parser => MatchCons(Pattern(a)[1..], s); if |s| > 0 { MatchStar(Pattern(a)[1], s[1..]); }
    case Exactly(n) => MatchOnes(n, s);
    case _ => MatchStar(Pattern(a)[0], s);
  }
}
