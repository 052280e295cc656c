/** What the word-topic table returns to FastDocSampler while the owners of documents update it: every owner's
    initial counts and some prefix of its updates.  Such a row is never short of a token, so every draw is the
    dense choice. */
module FastDocTable {
  import opened SparseRow
  import opened Sums
  import opened Gibbs
  import opened FastDocSampler

  // ---- owners --------------------------------------------------------------------------------

  /** One token resampled to topic `to`. */
  datatype Visit = Visit(token: nat, to: int)

  /** All tokens of one owner, their topics when the table was filled, and everything it resampled since. */
  datatype Owner = Owner(words: seq<nat>, topics: seq<int>, visits: seq<Visit>) {
    ghost predicate Valid(K: nat) {
      && |words| == |topics| && InRange(topics, K)
      && forall i :: 0 <= i < |visits| ==> visits[i].token < |topics| && 0 <= visits[i].to < K
    }
  }

  predicate Visits(visits: seq<Visit>, n: nat) {
    forall i :: 0 <= i < |visits| ==> visits[i].token < n
  }

  /** The topics after some visits. */
  function Assigned(topics: seq<int>, visits: seq<Visit>): (r: seq<int>)
    requires Visits(visits, |topics|)
    ensures |r| == |topics|
  {
    if |visits| == 0 then topics
    else
      var m := |visits| - 1;
      Assigned(topics, visits[..m])[visits[m].token := visits[m].to]
  }

  /** The updates sent by some visits: one for each that changed a topic. */
  function Sent(words: seq<nat>, topics: seq<int>, visits: seq<Visit>): seq<TopicMove>
    requires |words| == |topics| && Visits(visits, |topics|)
  {
    if |visits| == 0 then []
    else
      var m := |visits| - 1;
      var v, before := visits[m], Assigned(topics, visits[..m])[visits[m].token];
      Sent(words, topics, visits[..m]) + (if before != v.to then [TopicMove(words[v.token], before, v.to)] else [])
  }

  /** Initial counts plus updates sent are the counts of the topics now assigned. */
  lemma {:induction false} SentTally(words: seq<nat>, topics: seq<int>, visits: seq<Visit>, w: nat, k: int)
    requires |words| == |topics| && Visits(visits, |topics|)
    ensures Tokens(words, topics, w, k) + Net(Sent(words, topics, visits), w, k)
            == Tokens(words, Assigned(topics, visits), w, k)
  {
    if |visits| > 0 {
      var m := |visits| - 1;
      var front, v := visits[..m], visits[m];
      var now := Assigned(topics, front);
      SentTally(words, topics, front, w, k);
      TokensUpdate(words, now, v.token, v.to, w, k);
      if now[v.token] != v.to {
        NetSnoc(Sent(words, topics, front), TopicMove(words[v.token], now[v.token], v.to), w, k);
      } else {
        assert Sent(words, topics, front) + [] == Sent(words, topics, front);
      }
    }
  }

  lemma {:induction false} NetSnoc(moves: seq<TopicMove>, m: TopicMove, w: nat, k: int)
    ensures Net(moves + [m], w, k)
            == Net(moves, w, k) + if m.word == w then Hits(k, m.to) - Hits(k, m.from) else 0
  {
    assert (moves + [m])[..|moves|] == moves;
  }

  /** Every prefix of the updates is what some prefix of the visits sent. */
  lemma {:induction false} SentPrefix(words: seq<nat>, topics: seq<int>, visits: seq<Visit>, q: nat) returns (n: nat)
    requires |words| == |topics| && Visits(visits, |topics|) && q <= |Sent(words, topics, visits)|
    ensures n <= |visits| && Sent(words, topics, visits)[..q] == Sent(words, topics, visits[..n])
  {
    n := |visits|;
    var all := Sent(words, topics, visits);
    if q == |all| {
      assert all[..q] == all && visits[..n] == visits;
    } else {
      var front := visits[..n - 1];
      n := SentPrefix(words, topics, front, q);
      assert all[..q] == Sent(words, topics, front)[..q] && front[..n] == visits[..n];
    }
  }

  /** A document resampled from its first token to its last. */
  function InOrder(news: seq<int>): (r: seq<Visit>)
    ensures |r| == |news| && forall i :: 0 <= i < |r| ==> r[i] == Visit(i, news[i])
  {
    seq(|news|, i requires 0 <= i < |news| => Visit(i, news[i]))
  }

  lemma {:induction false} AssignedInOrder(olds: seq<int>, news: seq<int>)
    requires |news| <= |olds|
    ensures Assigned(olds, InOrder(news)) == news + olds[|news|..]
  {
    if |news| > 0 {
      var m := |news| - 1;
      assert InOrder(news)[..m] == InOrder(news[..m]);
      AssignedInOrder(olds, news[..m]);
    }
  }

  /** The updates SampleOneDoc sends are those of visiting the document's tokens in order. */
  lemma {:induction false} DocumentSends(words: seq<nat>, olds: seq<int>, news: seq<int>)
    requires |news| <= |olds| == |words|
    ensures MovesOf(words, olds, news) == Sent(words, olds, InOrder(news))
  {
    if |news| > 0 {
      var m := |news| - 1;
      assert InOrder(news)[..m] == InOrder(news[..m]);
      DocumentSends(words, olds, news[..m]);
      AssignedInOrder(olds, news[..m]);
    }
  }

  // ---- rows ----------------------------------------------------------------------------------

  /** How many updates of each owner a Get has seen. */
  type View = seq<nat>

  ghost predicate ValidView(K: nat, owners: seq<Owner>, view: View) {
    && |view| == |owners|
    && forall j :: 0 <= j < |owners| ==>
         owners[j].Valid(K) && view[j] <= |Sent(owners[j].words, owners[j].topics, owners[j].visits)|
  }

  /** What an owner's first q updates, with its initial counts, contribute to an entry. */
  function Shown(o: Owner, w: nat, k: int, q: nat): int
    requires |o.words| == |o.topics| && Visits(o.visits, |o.topics|) && q <= |Sent(o.words, o.topics, o.visits)|
  {
    Tokens(o.words, o.topics, w, k) + Net(Sent(o.words, o.topics, o.visits)[..q], w, k)
  }

  /** A contribution counts the owner's tokens at an earlier moment, so it is never negative. */
  lemma ShownNatural(K: nat, o: Owner, w: nat, k: int, q: nat)
    requires o.Valid(K) && q <= |Sent(o.words, o.topics, o.visits)|
    ensures Shown(o, w, k, q) >= 0
    ensures q == |Sent(o.words, o.topics, o.visits)| ==>
              Shown(o, w, k, q) == Tokens(o.words, Assigned(o.topics, o.visits), w, k)
  {
    var n := SentPrefix(o.words, o.topics, o.visits, q);
    SentTally(o.words, o.topics, o.visits[..n], w, k);
    TokensNatural(o.words, Assigned(o.topics, o.visits[..n]), w, k);
    SentTally(o.words, o.topics, o.visits, w, k);
    var all := Sent(o.words, o.topics, o.visits);
    assert all[..|all|] == all;
  }

  ghost function Contributions(K: nat, owners: seq<Owner>, w: nat, k: int, view: View): (r: seq<int>)
    requires ValidView(K, owners, view)
    ensures |r| == |owners| && forall j :: 0 <= j < |r| ==> r[j] == Shown(owners[j], w, k, view[j])
  {
    seq(|owners|, j requires 0 <= j < |owners| => Shown(owners[j], w, k, view[j]))
  }

  /** The row a Get with this view returns: entries that are zero are not stored. */
  ghost function Fetched(K: nat, owners: seq<Owner>, w: nat, view: View): (r: Row)
    requires ValidView(K, owners, view)
    ensures NoZeros(r) && RowTopics(r, K)
    ensures forall k :: 0 <= k < K ==> Count(r, k) == Sum(Contributions(K, owners, w, k, view))
  {
    map k | 0 <= k < K && Sum(Contributions(K, owners, w, k, view)) != 0 :: Sum(Contributions(K, owners, w, k, view))
  }

  /** A row as the table stores it, with no negative count. */
  ghost predicate Natural(row: Row, K: nat) {
    NoZeros(row) && RowTopics(row, K) && forall k :: Count(row, k) >= 0
  }

  lemma FetchedNatural(K: nat, owners: seq<Owner>, w: nat, view: View)
    requires ValidView(K, owners, view)
    ensures Natural(Fetched(K, owners, w, view), K)
  {
    forall k | 0 <= k < K ensures Count(Fetched(K, owners, w, view), k) >= 0 {
      NaturalSum(K, owners, w, k, view);
    }
  }

  lemma NaturalSum(K: nat, owners: seq<Owner>, w: nat, k: int, view: View)
    requires ValidView(K, owners, view)
    ensures Sum(Contributions(K, owners, w, k, view)) >= 0
  {
    forall j | 0 <= j < |owners| ensures Contributions(K, owners, w, k, view)[j] >= 0 {
      ShownNatural(K, owners[j], w, k, view[j]);
    }
    if |owners| > 0 {
      SumAtLeast(Contributions(K, owners, w, k, view), 0);
    }
  }

  /** The order matters: of a token moved from topic 0 to 1 and on to 2, the second update without the first
      shows topic 1 minus once. */
  lemma {:induction false} SkippedUpdate()
    ensures var sent := Sent([0], [0], [Visit(0, 1), Visit(0, 2)]);
            |sent| == 2 && Tokens([0], [0], 0, 1) + Net(sent[1..], 0, 1) == -1
  {
    var visits := [Visit(0, 1), Visit(0, 2)];
    assert visits[..1] == [Visit(0, 1)] && visits[..1][..0] == [];
    assert Assigned([0], visits[..1]) == [1] && Sent([0], [0], visits[..1]) == [TopicMove(0, 0, 1)];
    var sent := Sent([0], [0], visits);
    assert sent == [TopicMove(0, 0, 1), TopicMove(0, 1, 2)] && sent[1..] == [TopicMove(0, 1, 2)];
    NetSnoc([], TopicMove(0, 1, 2), 0, 1);
    assert [] + [TopicMove(0, 1, 2)] == [TopicMove(0, 1, 2)];
  }

  // ---- draws ---------------------------------------------------------------------------------

  lemma NaturalDrawIsDense(p: Params, n: seq<int>, d: seq<int>, row: Row, t: int, dart: real)
    requires Counts(p, n, d) && Natural(row, p.K) && 0.0 <= dart < 1.0
    ensures RowDraw(p, n, d, row, t, dart) == RowChoice(p, n, d, row, t, dart)
  {
    assert Count(row, t) >= 0;
    RemovableDrawIsDense(p, n, d, row, t, dart);
  }

  /** Whatever the view, own updates visible or not, a draw is the dense choice of the fetched row. */
  lemma FetchedDrawIsDense(p: Params, n: seq<int>, d: seq<int>, owners: seq<Owner>, w: nat, view: View, t: int,
                           dart: real)
    requires Counts(p, n, d) && ValidView(p.K, owners, view) && 0.0 <= dart < 1.0
    ensures var row := Fetched(p.K, owners, w, view);
            RowDraw(p, n, d, row, t, dart) == RowChoice(p, n, d, row, t, dart)
  {
    FetchedNatural(p.K, owners, w, view);
    NaturalDrawIsDense(p, n, d, Fetched(p.K, owners, w, view), t, dart);
  }

  /** When the view holds all updates of the owner of the token, the row without the token counts the owner's
      other tokens as they are now and what the view shows of the others. */
  lemma OwnTokenTakenOut(K: nat, owners: seq<Owner>, view: View, j: nat, i: nat, k: int)
    requires ValidView(K, owners, view) && j < |owners| && i < |owners[j].words| && 0 <= k < K
    requires view[j] == |Sent(owners[j].words, owners[j].topics, owners[j].visits)|
    requires 0 <= Assigned(owners[j].topics, owners[j].visits)[i] < K
    ensures var now := Assigned(owners[j].topics, owners[j].visits);
            var w := owners[j].words[i];
            Count(Without(Clamped(Fetched(K, owners, w, view)), now[i]), k)
            == Tokens(owners[j].words, now, w, k) - Hits(k, now[i])
               + Sum(Contributions(K, owners, w, k, view)[j := 0])
  {
    var o := owners[j];
    var now, w := Assigned(o.topics, o.visits), o.words[i];
    var t := now[i];
    OwnPart(K, owners, view, j, w, k);
    OwnPart(K, owners, view, j, w, t);
    TokenCountsItself(o.words, now, i);
    FetchedNatural(K, owners, w, view);
    var row := Fetched(K, owners, w, view);
    assert Count(row, t) >= 1 && Count(row, k) >= 0;
  }

  lemma OwnPart(K: nat, owners: seq<Owner>, view: View, j: nat, w: nat, k: int)
    requires ValidView(K, owners, view) && j < |owners| && 0 <= k < K
    requires view[j] == |Sent(owners[j].words, owners[j].topics, owners[j].visits)|
    ensures Count(Fetched(K, owners, w, view), k)
            == Tokens(owners[j].words, Assigned(owners[j].topics, owners[j].visits), w, k)
               + Sum(Contributions(K, owners, w, k, view)[j := 0])
    ensures Sum(Contributions(K, owners, w, k, view)[j := 0]) >= 0
  {
    var xs := Contributions(K, owners, w, k, view);
    ShownNatural(K, owners[j], w, k, view[j]);
    SumUpdate(xs, j, 0);
    var others := xs[j := 0];
    forall i | 0 <= i < |others| ensures others[i] >= 0 {
      ShownNatural(K, owners[i], w, k, view[i]);
    }
    SumAtLeast(others, 0);
  }

  /** The dense choices of the tokens of a document, each with the earlier ones moved. */
  ghost function Choosable(p: Params, base: seq<int>, rows: seq<Row>, olds: seq<int>, news: seq<int>,
                           darts: seq<real>): seq<iset<int>>
    requires |base| == p.K && |news| <= |olds| == |rows| == |darts| && p.Valid()
    requires (forall k :: 0 <= k < p.K ==> base[k] >= 0)
  {
    if |news| == 0 then []
    else
      var m := |news| - 1;
      var d := DocCounts(p.K, news[..m] + olds[m + 1..]);
      Choosable(p, base, rows, olds, news[..m], darts)
      + [RowChoice(p, Total(base, d), d, rows[m], olds[m], darts[m])]
  }

  /** With natural rows every token of a document goes where its dart chooses in the dense conditional. */
  lemma {:induction false} DocumentIsDense(p: Params, base: seq<int>, rows: seq<Row>, olds: seq<int>, news: seq<int>,
                                           darts: seq<real>)
    requires |base| == p.K && |news| <= |olds| == |rows| == |darts| && p.Valid()
    requires forall k :: 0 <= k < p.K ==> base[k] >= 0
    requires forall i :: 0 <= i < |rows| ==> Natural(rows[i], p.K) && 0.0 <= darts[i] < 1.0
    ensures Draws(p, base, rows, olds, news, darts) == Choosable(p, base, rows, olds, news, darts)
    ensures AllDrawn(p, base, rows, olds, news, darts) ==>
              Choosable(p, base, rows, olds, news, darts) == Singletons(news)
  {
    if |news| > 0 {
      var m := |news| - 1;
      var d := DocCounts(p.K, news[..m] + olds[m + 1..]);
      DocumentIsDense(p, base, rows, olds, news[..m], darts);
      NaturalDrawIsDense(p, Total(base, d), d, rows[m], olds[m], darts[m]);
    }
  }
}
