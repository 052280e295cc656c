/** How many strings the actions of a command line take: options one at a time, with flags combined in one
    string, and leading positionals together. */
module ArgumentCounts {
  import opened NargsPattern

  /** An option found in the strings: its action if it is known, and the text after '=' or a short flag. */
  datatype OptionTuple = OptionTuple(action: Option<Action>, optionString: string, explicitArg: Option<string>)

  /** The parser: how a string reads as an option, and the actions by option string. */
  datatype Options = Options(parse: string -> Option<OptionTuple>, actions: map<string, Action>, prefixChars: set<char>)

  /** _match_argument; None raises. */
  function MatchArgument(a: Action, s: string): (r: Option<nat>)
    ensures r == Sum(Match(Pattern(a), s))
    ensures r.Some? ==> r.value <= |s| && Suits(a, s[..r.value])
  {
    var m := Match(Pattern(a), s);
    if m.None? then None
    else
      MatchIsGreediest(Pattern(a), s, []);
      MatchSuits(a, s, m.value);
      Some(Total(m.value))
  }

  // ---- an option and the flags combined with it ------------------------------------------------

  /** What an option string asks for: leading flags that take nothing, and a last action with either the
      rest of the string as its argument or `count` of the strings that follow. */
  datatype Reading = Reading(flags: seq<Action>, last: Action, explicit: Option<string>, count: nat)

  /** The text left after one flag. */
  function Tail(explicit: string): Option<string> {
    if |explicit| > 1 then Some(explicit[1..]) else None
  }

  /** Whether the first character of `explicit` may be tried as a further flag. */
  predicate MayCombine(o: Options, optionString: string, explicit: string) {
    |optionString| >= 2 && optionString[1] !in o.prefixChars && |explicit| > 0
    && [optionString[0], explicit[0]] in o.actions
  }

  /** Reading an option string for action a, `rest` being the pattern that follows; None raises. */
  function ReadOption(o: Options, a: Action, optionString: string, explicit: Option<string>,
                      rest: string): Option<Reading>
    decreases if explicit.Some? then |explicit.value| + 1 else 0
  {
    if explicit.None? then
      var k := MatchArgument(a, rest);
      if k.None? then None else Some(Reading([], a, None, k.value))
    else
      var text, k := explicit.value, MatchArgument(a, "A");
      if k == Some(1) then Some(Reading([], a, explicit, 0))
      else if k == Some(0) && MayCombine(o, optionString, text) then
        var next := [optionString[0], text[0]];
        After([a], ReadOption(o, o.actions[next], next, Tail(text), rest))
      else None
  }

  /** The same reading behind further flags. */
  function After(flags: seq<Action>, r: Option<Reading>): Option<Reading> {
    if r.None? then None else Some(r.value.(flags := flags + r.value.flags))
  }

  lemma AfterNothing(r: Option<Reading>)
    ensures After([], r) == r
  {
    if r.Some? {
      assert [] + r.value.flags == r.value.flags;
    }
  }

  lemma AfterAfter(a: seq<Action>, b: seq<Action>, r: Option<Reading>)
    ensures After(a, After(b, r)) == After(a + b, r)
  {
    if r.Some? {
      assert a + (b + r.value.flags) == (a + b) + r.value.flags;
    }
  }

  /** The i-th action of a reading. */
  function ActionAt(r: Reading, i: nat): Action
    requires i <= |r.flags|
  {
    if i == |r.flags| then r.last else r.flags[i]
  }

  /** Combined flags are spelled out: each further action is the one whose option string is the prefix
      character and the next character of the text; all but the last take no argument; the last takes what
      is left of the text when something is left, and otherwise as many following strings as match. */
  lemma {:induction false} ReadingSpelled(o: Options, a: Action, optionString: string, text: string, rest: string)
    requires ReadOption(o, a, optionString, Some(text), rest).Some?
    ensures var r := ReadOption(o, a, optionString, Some(text), rest).value;
            && |r.flags| <= |text| && ActionAt(r, 0) == a
            && (|r.flags| > 0 ==> |optionString| >= 2 && optionString[1] !in o.prefixChars)
            && (forall i :: 0 <= i < |r.flags| ==>
                  MatchArgument(r.flags[i], "A") == Some(0) && [optionString[0], text[i]] in o.actions
                  && ActionAt(r, i + 1) == o.actions[[optionString[0], text[i]]])
            && (if r.explicit.Some?
                then r.explicit.value == text[|r.flags|..] && r.count == 0 && MatchArgument(r.last, "A") == Some(1)
                else |r.flags| == |text| > 0 && MatchArgument(r.last, rest) == Some(r.count))
    decreases |text|
  {
    if MatchArgument(a, "A") == Some(0) {
      var next := [optionString[0], text[0]];
      var inner := ReadOption(o, o.actions[next], next, Tail(text), rest).value;
      var r := ReadOption(o, a, optionString, Some(text), rest).value;
      assert r.flags == [a] + inner.flags;
      if |text| > 1 {
        ReadingSpelled(o, o.actions[next], next, text[1..], rest);
      }
      forall i | 0 <= i < |r.flags|
        ensures MatchArgument(r.flags[i], "A") == Some(0) && [optionString[0], text[i]] in o.actions
                && ActionAt(r, i + 1) == o.actions[[optionString[0], text[i]]]
      {
        if i > 0 {
          assert r.flags[i] == inner.flags[i - 1] && ActionAt(r, i + 1) == ActionAt(inner, i);
          assert text[1..][i - 1] == text[i];
        }
      }
    }
  }

  // ---- leading positionals -------------------------------------------------------------------

  function Concat(actions: seq<Action>): seq<Item> {
    if |actions| == 0 then [] else Pattern(actions[0]) + Concat(actions[1..])
  }

  /** The group lengths of a match of several actions' patterns. */
  function Groups(actions: seq<Action>, lens: seq<nat>): (r: seq<nat>)
    requires |lens| == |Concat(actions)|
    ensures |r| == |actions|
  {
    if |actions| == 0 then []
    else
      var k := |Pattern(actions[0])|;
      [Total(lens[..k])] + Groups(actions[1..], lens[k..])
  }

  /** Counts that suit the actions, one after another. */
  predicate AllSuit(actions: seq<Action>, counts: seq<nat>, s: string) {
    |counts| == |actions| &&
    (|actions| > 0 ==>
       counts[0] <= |s| && Suits(actions[0], s[..counts[0]]) && AllSuit(actions[1..], counts[1..], s[counts[0]..]))
  }

  lemma Drop(s: string, k: nat, m: nat)
    requires k + m <= |s|
    ensures s[k..][m..] == s[k + m..]
  {
  }

  /** A match of two patterns in a row is a match of each, one behind the other. */
  lemma {:induction false} SplitAppend(a: seq<Item>, b: seq<Item>, s: string, la: seq<nat>, lb: seq<nat>)
    requires |la| == |a| && Split(a + b, s, la + lb)
    ensures Split(a, s, la) && Total(la) <= |s| && Split(b, s[Total(la)..], lb)
  {
    if |a| == 0 {
      assert a + b == b && la + lb == lb && s[0..] == s;
    } else {
      var k := la[0];
      assert (a + b)[0] == a[0] && (a + b)[1..] == a[1..] + b;
      assert (la + lb)[0] == k && (la + lb)[1..] == la[1..] + lb;
      SplitAppend(a[1..], b, s[k..], la[1..], lb);
      Drop(s, k, Total(la[1..]));
    }
  }

  lemma {:induction false} GroupsSuit(actions: seq<Action>, s: string, lens: seq<nat>)
    requires Split(Concat(actions), s, lens)
    ensures AllSuit(actions, Groups(actions, lens), s)
  {
    if |actions| > 0 {
      var first := Pattern(actions[0]);
      var mine, others := lens[..|first|], lens[|first|..];
      assert lens == mine + others;
      SplitAppend(first, Concat(actions[1..]), s, mine, others);
      MatchSuits(actions[0], s, mine);
      GroupsSuit(actions[1..], s[Total(mine)..], others);
    }
  }

  /** The counts of a greedy match of as many leading actions as match together. */
  predicate PartialMatch(actions: seq<Action>, s: string, counts: seq<nat>) {
    && |counts| <= |actions|
    && (forall j :: |counts| < j <= |actions| ==> Match(Concat(actions[..j]), s).None?)
    && (|counts| > 0 ==>
          var m := Match(Concat(actions[..|counts|]), s);
          m.Some? && |m.value| == |Concat(actions[..|counts|])| && counts == Groups(actions[..|counts|], m.value))
  }

  /** There is only one. */
  lemma PartialUnique(actions: seq<Action>, s: string, a: seq<nat>, b: seq<nat>)
    requires PartialMatch(actions, s, a) && PartialMatch(actions, s, b)
    ensures a == b
  {
  }

  /** It suits the actions, one after another. */
  lemma PartialSuits(actions: seq<Action>, s: string, counts: seq<nat>)
    requires PartialMatch(actions, s, counts)
    ensures AllSuit(actions[..|counts|], counts, s)
  {
    if |counts| > 0 {
      var front := actions[..|counts|];
      MatchIsGreediest(Concat(front), s, []);
      GroupsSuit(front, s, Match(Concat(front), s).value);
    }
  }

  /** As many leading actions as match together, with the group lengths of the greedy match. */
  method MatchArgumentsPartial(actions: seq<Action>, s: string) returns (counts: seq<nat>)
    ensures PartialMatch(actions, s, counts)
  {
    for i := |actions| downto 0
      invariant forall j :: i < j <= |actions| ==> Match(Concat(actions[..j]), s).None?
    {
      var front := actions[..i + 1];
      var m := Match(Concat(front), s);
      if m.Some? {
        MatchIsGreediest(Concat(front), s, []);
        return Groups(front, m.value);
      }
    }
    counts := [];
  }
}
