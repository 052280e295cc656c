/** Whole-run theorems about the push/pull protocol: no CHECK fails, tokens are conserved, cached rows are
    the client's own tokens plus published counts of the others. */
module ProtocolSafety {
  import opened SparseRow
  import opened Sums
  import opened SamplerCache
  import opened Protocol

  // ---- logs ----------------------------------------------------------------------------------

  lemma {:induction false} LogCountAppend(a: seq<Batch>, b: seq<Batch>, r: nat, k: int)
    ensures LogCount(a + b, r, k) == LogCount(a, r, k) + LogCount(b, r, k)
  {
    if |b| == 0 {
      assert a + b == a;
    } else {
      assert (a + b)[..|a + b| - 1] == a + b[..|b| - 1];
      LogCountAppend(a, b[..|b| - 1], r, k);
    }
  }

  /** A prefix of the batches of one half carries, for a row of that half, nothing or the whole pending
      row; for a row of the other half nothing. */
  lemma {:induction false} BatchesCount(V: nat, d: seq<Row>, sched: seq<nat>, half: bool, w: nat, h: bool, k: int)
    requires |d| == V && w < V && forall i :: 0 <= i < |sched| ==> sched[i] < V
    ensures LogCount(Batches(V, d, sched, half), TableRow(V, w, h), k)
            == if h == half && w in sched then Count(d[w], k) else 0
  {
    if |sched| > 0 {
      var m := |sched| - 1;
      BatchesCount(V, d, sched[..m], half, w, h, k);
      var b := Batches(V, d, sched, half);
      assert b[..|b| - 1] == Batches(V, d, sched[..m], half);
      MemberSnoc(sched, w);
    }
  }

  lemma MemberSnoc(sched: seq<nat>, w: nat)
    requires |sched| > 0
    ensures w in sched <==> w in sched[..|sched| - 1] || w == sched[|sched| - 1]
  {
  }

  lemma {:induction false} BatchesPrefix(V: nat, d: seq<Row>, sched: seq<nat>, half: bool, q: nat)
    requires |d| == V && q <= |sched| && forall i :: 0 <= i < |sched| ==> sched[i] < V
    ensures Batches(V, d, sched, half)[..q] == Batches(V, d, sched[..q], half)
  {
    if q == |sched| {
      assert sched[..q] == sched;
    } else {
      BatchesPrefix(V, d, sched[..|sched| - 1], half, q);
      assert sched[..|sched| - 1][..q] == sched[..q];
    }
  }

  lemma {:induction false} DeliverCount(table: seq<Row>, bs: seq<Batch>, r: nat, k: int)
    requires r < |table| && forall i :: 0 <= i < |bs| ==> bs[i].row < |table|
    ensures Count(Deliver(table, bs)[r], k) == Count(table[r], k) + LogCount(bs, r, k)
  {
    if |bs| > 0 {
      DeliverCount(table, bs[..|bs| - 1], r, k);
    }
  }

  // ---- contributions -------------------------------------------------------------------------

  /** Logs only grow, so what a view sees never changes. */
  lemma ContributionsStable(cfg: Config, a: seq<Client>, b: seq<Client>, w: nat, half: bool, k: int, view: View)
    requires |a| == |b| && ValidView(a, view)
    requires forall j :: 0 <= j < |a| ==> a[j].init == b[j].init && a[j].log <= b[j].log
    ensures ValidView(b, view)
    ensures Contributions(cfg, a, w, half, k, view) == Contributions(cfg, b, w, half, k, view)
  {
    forall j | 0 <= j < |a|
      ensures view[j] <= |b[j].log|
      ensures Published(cfg, a[j], w, half, k, view[j]) == Published(cfg, b[j], w, half, k, view[j])
    {
      assert a[j].log[..view[j]] == b[j].log[..view[j]];
    }
  }

  lemma OthersNonNegative(cfg: Config, s: State, cid: nat, w: nat, half: bool, k: int, view: View)
    requires Inv(cfg, s) && cid < |s.clients| && ValidView(s.clients, view)
    requires w < cfg.V && UsedHalf(cfg, half) && 0 <= k < cfg.K
    ensures Sum(Contributions(cfg, s.clients, w, half, k, view)[cid := 0]) >= 0
    ensures |s.clients| == 1 ==> Sum(Contributions(cfg, s.clients, w, half, k, view)[cid := 0]) == 0
  {
    var xs := Contributions(cfg, s.clients, w, half, k, view);
    forall j | 0 <= j < |xs| ensures xs[j] >= 0 {
      assert ClientInv(cfg, s.clients[j]);
    }
    SumAtLeast(xs[cid := 0], 0);
    if |s.clients| == 1 {
      SumZero(xs[cid := 0]);
    }
  }

  /** A cached count is never below the client's own tokens, and is exactly that for a single client. */
  lemma CachedCoversOwn(cfg: Config, s: State, cid: nat, w: nat, k: int)
    requires Inv(cfg, s) && cid < |s.clients| && w < cfg.V && 0 <= k < cfg.K
    ensures Count(s.clients[cid].cache.vals[w], k) >= Own(s.clients[cid], w, k)
    ensures |s.clients| == 1 ==> Count(s.clients[cid].cache.vals[w], k) == Own(s.clients[cid], w, k)
  {
    assert CachedInv(cfg, s.clients, cid);
    OthersNonNegative(cfg, s, cid, w, OwnHalf(cfg, s.clients[cid].id), k, s.clients[cid].seen[w]);
  }

  // ---- the initial state ---------------------------------------------------------------------

  lemma InitCached(cfg: Config, s: State, j: nat, w: nat, k: int)
    requires Init(cfg, s) && j < |s.clients| && w < cfg.V && 0 <= k < cfg.K
    ensures var c := s.clients[j];
            Count(c.cache.vals[w], k)
            == Own(c, w, k) + Sum(Contributions(cfg, s.clients, w, OwnHalf(cfg, s.clients[j].id), k, c.seen[w])[j := 0])
  {
    var full, c := FullView(s.clients), s.clients[j];
    var xs := Contributions(cfg, s.clients, w, false, k, full);
    var ys := Contributions(cfg, s.clients, w, OwnHalf(cfg, s.clients[j].id), k, full);
    forall i | 0 <= i < |xs| ensures xs[i] == ys[i] {
      assert s.clients[i].log == [];
    }
    assert xs == ys;
    SumUpdate(ys, j, 0);
    assert c.log[..0] == [];
  }

  lemma {:induction false} InitClient(cfg: Config, s: State, j: nat)
    requires Init(cfg, s) && j < |s.clients|
    ensures ClientInv(cfg, s.clients[j])
  {
  }

  lemma {:induction false} InitInv(cfg: Config, s: State)
    requires Init(cfg, s)
    ensures Inv(cfg, s)
  {
    forall j | 0 <= j < |s.clients| ensures CachedInv(cfg, s.clients, j) {
      var c := s.clients[j];
      forall w, k | 0 <= w < cfg.V && 0 <= k < cfg.K
        ensures Count(c.cache.vals[w], k)
                == Own(c, w, k) + Sum(Contributions(cfg, s.clients, w, OwnHalf(cfg, c.id), k, c.seen[w])[j := 0])
      {
        InitCached(cfg, s, j, w, k);
      }
    }
    forall j | 0 <= j < |s.clients| ensures ClientInv(cfg, s.clients[j]) {
      InitClient(cfg, s, j);
    }
  }

  // ---- Sample --------------------------------------------------------------------------------

  lemma SampleChecksHold(cfg: Config, s: State, cid: nat, i: nat)
    requires Inv(cfg, s) && cid < |s.clients| && i < |s.clients[cid].tokens|
    ensures var t := s.clients[cid].tokens[i];
            SampleChecks(s.clients[cid].cache, t.word, t.topic)
  {
    var c := s.clients[cid];
    var t := c.tokens[i];
    assert t in multiset(c.tokens);
    CachedCoversOwn(cfg, s, cid, t.word, t.topic);
    var row := c.cache.vals[t.word];
    var r := Bump(row, t.topic, -1);
    forall k | k in r ensures r[k] > 0 {
      assert Clean(row, cfg.K);
      assert Count(r, k) == r[k];
      assert NoZeros(r);
    }
  }

  lemma SampleShape(cfg: Config, s: State, cid: nat, i: nat, topic: int)
    requires Inv(cfg, s) && Enabled(cfg, s, Sample(cid, i, topic))
    ensures var t := s.clients[cid].tokens[i];
            Shaped(cfg, MoveToken(cfg, s.clients[cid].cache, t.word, t.topic, topic))
  {
    var c := s.clients[cid];
    var t := c.tokens[i];
    SampleChecksHold(cfg, s, cid, i);
    RecordKeepsShape(cfg, c.cache, t.word, t.topic, -1);
    RecordKeepsShape(cfg, Record(cfg, c.cache, t.word, t.topic, -1), t.word, topic, 1);
  }

  lemma MoveCounts(cfg: Config, id: nat, c: Cache, w: nat, old_: int, new_: int, v: nat, half: bool, k: int)
    requires Shaped(cfg, c) && w < cfg.V && v < cfg.V && UsedHalf(cfg, half)
    ensures var d := if v == w then (if k == new_ then 1 else 0) - (if k == old_ then 1 else 0) else 0;
            && Count(MoveToken(cfg, c, w, old_, new_).vals[v], k) == Count(c.vals[v], k) + d
            && Count(Pending(cfg, id, MoveToken(cfg, c, w, old_, new_), v, half), k)
               == Count(Pending(cfg, id, c, v, half), k) + d
  {
  }

  lemma OwnAfterMove(c: Client, i: nat, topic: int, v: nat, k: int)
    requires i < |c.tokens|
    ensures var t := c.tokens[i];
            Own(c.(tokens := c.tokens[i := Token(t.word, topic)]), v, k)
            == Own(c, v, k) + if v == t.word then (if k == topic then 1 else 0) - (if k == t.topic then 1 else 0) else 0
  {
    var t := c.tokens[i];
    assert t in multiset(c.tokens);
    assert multiset(c.tokens[i := Token(t.word, topic)])
        == multiset(c.tokens) - multiset{t} + multiset{Token(t.word, topic)};
  }

  lemma {:induction false} SampleKeeps(cfg: Config, s: State, cid: nat, i: nat, topic: int)
    requires Inv(cfg, s) && Enabled(cfg, s, Sample(cid, i, topic))
    ensures Exec(cfg, s, Sample(cid, i, topic)).Next? && Inv(cfg, Exec(cfg, s, Sample(cid, i, topic)).s)
  {
    SampleChecksHold(cfg, s, cid, i);
    SampleShape(cfg, s, cid, i, topic);
    var s' := Exec(cfg, s, Sample(cid, i, topic)).s;
    var c, c' := s.clients[cid], s'.clients[cid];
    var t := c.tokens[i];
    assert WellFormed(cfg, s');
    assert ClientInv(cfg, c') by {
      assert ClientInv(cfg, c);
      forall w, half, k | 0 <= w < cfg.V && UsedHalf(cfg, half) && 0 <= k < cfg.K
        ensures Published(cfg, c', w, half, k, |c'.log|)
            + Count(Pending(cfg, s.clients[cid].id, c'.cache, w, half), k) == Own(c', w, k)
      {
        MoveCounts(cfg, s.clients[cid].id, c.cache, t.word, t.topic, topic, w, half, k);
        OwnAfterMove(c, i, topic, w, k);
        assert Published(cfg, c, w, half, k, |c.log|) + Count(Pending(cfg, s.clients[cid].id, c.cache, w, half), k)
            == Own(c, w, k);
      }
      forall w, half, k, p | 0 <= w < cfg.V && UsedHalf(cfg, half) && 0 <= k < cfg.K && 0 <= p <= |c'.log|
        ensures Published(cfg, c', w, half, k, p) >= 0
      {
        assert Published(cfg, c, w, half, k, p) >= 0;
      }
    }
    forall j | 0 <= j < |s'.clients| ensures CachedInv(cfg, s'.clients, j) {
      SampleCached(cfg, s, cid, i, topic, s', j);
    }
    SameLogsTable(cfg, s, s');
  }

  lemma {:induction false} SampleCached(cfg: Config, s: State, cid: nat, i: nat, topic: int, s': State, j: nat)
    requires Inv(cfg, s) && Enabled(cfg, s, Sample(cid, i, topic)) && WellFormed(cfg, s')
    requires Exec(cfg, s, Sample(cid, i, topic)) == Next(s') && j < |s.clients|
    ensures CachedInv(cfg, s'.clients, j)
  {
    assert CachedInv(cfg, s.clients, j);
    var c, c', half := s.clients[j], s'.clients[j], OwnHalf(cfg, s.clients[j].id);
    forall w | 0 <= w < cfg.V ensures ValidView(s'.clients, c'.seen[w]) {
      ContributionsStable(cfg, s.clients, s'.clients, w, false, 0, c.seen[w]);
    }
    forall w, k | 0 <= w < cfg.V && 0 <= k < cfg.K
      ensures Count(c'.cache.vals[w], k) == Own(c', w, k)
          + Sum(Contributions(cfg, s'.clients, w, half, k, c'.seen[w])[j := 0])
    {
      ContributionsStable(cfg, s.clients, s'.clients, w, half, k, c.seen[w]);
      SampleDifference(cfg, s, cid, i, topic, s', j, w, k);
    }
  }

  /** A Sample step changes a cached count by as much as the client's own count. */
  lemma {:induction false} SampleDifference(cfg: Config, s: State, cid: nat, i: nat, topic: int, s': State, j: nat,
                                            w: nat, k: int)
    requires WellFormed(cfg, s) && Enabled(cfg, s, Sample(cid, i, topic)) && WellFormed(cfg, s')
    requires Exec(cfg, s, Sample(cid, i, topic)) == Next(s') && j < |s.clients| && w < cfg.V && 0 <= k < cfg.K
    ensures Count(s'.clients[j].cache.vals[w], k) - Count(s.clients[j].cache.vals[w], k)
            == Own(s'.clients[j], w, k) - Own(s.clients[j], w, k)
  {
    if j == cid {
      var c := s.clients[j];
      var t := c.tokens[i];
      MoveCounts(cfg, c.id, c.cache, t.word, t.topic, topic, w, OwnHalf(cfg, c.id), k);
      OwnAfterMove(c, i, topic, w, k);
    }
  }

  // ---- Push ----------------------------------------------------------------------------------

  lemma {:induction false} ConcatPrefix(a: seq<Batch>, b: seq<Batch>, q: nat)
    requires q <= |a| + |b|
    ensures (a + b)[..q] == if q <= |a| then a[..q] else a + b[..q - |a|]
  {
  }

  /** A prefix of one half's batches carries nothing or all that is pending for a row of that half. */
  lemma {:induction false} PrefixCount(V: nat, d: seq<Row>, sched: seq<nat>, half: bool, w: nat, h: bool, k: int,
                                       q: nat)
    requires (sched != [] ==> |d| == V) && (h == half ==> |d| == V) && w < V && q <= |sched|
    requires forall i :: 0 <= i < |sched| ==> sched[i] < V
    requires forall i :: 0 <= i < |sched| ==> sched[i] < |d|
    ensures LogCount(Batches(V, d, sched, half)[..q], TableRow(V, w, h), k)
            == if h == half && w in sched[..q] then Count(d[w], k) else 0
  {
    if sched != [] {
      BatchesPrefix(V, d, sched, half, q);
      BatchesCount(V, d, sched[..q], half, w, h, k);
    }
  }

  /** What a row of the given half has pending, if the schedule of that half names it. */
  function Carried(c: Cache, so: seq<nat>, s: seq<nat>, own: bool, w: nat, half: bool, k: int): int
    requires w < |c.delta| && (half != own ==> w < |c.other|)
  {
    if half == own then (if w in s then Count(c.delta[w], k) else 0)
    else if w in so then Count(c.other[w], k)
    else 0
  }

  /** The whole of a push carries, for a row of a half, what is pending for it exactly when it is scheduled. */
  lemma {:induction false} PushedWhole(V: nat, c: Cache, so: seq<nat>, s: seq<nat>, own: bool, w: nat, half: bool,
                                       k: int)
    requires |c.delta| == V && w < V && (half != own ==> |c.other| == V) && (so != [] ==> |c.other| == V)
    requires (forall i :: 0 <= i < |so| ==> so[i] < V) && (forall i :: 0 <= i < |s| ==> s[i] < V)
    ensures LogCount(TwoBatches(V, c, so, s, own), TableRow(V, w, half), k) == Carried(c, so, s, own, w, half, k)
  {
    PushedOwn(V, c, so, s, own, w, half, k, |s|);
    WholePrefix(TwoBatches(V, c, so, s, own));
    WholeSchedule(s);
  }

  /** The same for the first q batches of the other half. */
  lemma {:induction false} PushedOther(V: nat, c: Cache, so: seq<nat>, s: seq<nat>, own: bool, w: nat, half: bool,
                                       k: int, q: nat)
    requires |c.delta| == V && w < V && (half != own ==> |c.other| == V) && (so != [] ==> |c.other| == V)
    requires (forall i :: 0 <= i < |so| ==> so[i] < V) && (forall i :: 0 <= i < |s| ==> s[i] < V)
    requires q <= |so|
    ensures LogCount(TwoBatches(V, c, so, s, own)[..q], TableRow(V, w, half), k)
            == if half != own && w in so[..q] then Count(c.other[w], k) else 0
  {
    ConcatPrefix(Batches(V, c.other, so, !own), Batches(V, c.delta, s, own), q);
    PrefixCount(V, c.other, so, !own, w, half, k, q);
  }

  /** And for all of those with the first r of the client's own. */
  lemma {:induction false} PushedOwn(V: nat, c: Cache, so: seq<nat>, s: seq<nat>, own: bool, w: nat, half: bool,
                                     k: int, r: nat)
    requires |c.delta| == V && w < V && (half != own ==> |c.other| == V) && (so != [] ==> |c.other| == V)
    requires (forall i :: 0 <= i < |so| ==> so[i] < V) && (forall i :: 0 <= i < |s| ==> s[i] < V)
    requires r <= |s|
    ensures LogCount(TwoBatches(V, c, so, s, own)[..|so| + r], TableRow(V, w, half), k)
            == Carried(c, so, s[..r], own, w, half, k)
  {
    var bo, b := Batches(V, c.other, so, !own), Batches(V, c.delta, s, own);
    ConcatPrefix(bo, b, |so| + r);
    WholePrefix(bo);
    WholeSchedule(so);
    LogCountAppend(bo, b[..r], TableRow(V, w, half), k);
    PrefixCount(V, c.other, so, !own, w, half, k, |so|);
    PrefixCount(V, c.delta, s, own, w, half, k, r);
  }

  lemma WholePrefix(b: seq<Batch>)
    ensures b[..|b|] == b
  {
  }

  lemma WholeSchedule(s: seq<nat>)
    ensures s[..|s|] == s
  {
  }

  /** One push, seen from one row: the batches carry what was pending or nothing, and what was pending is
      carried exactly when the row is scheduled. */
  lemma {:induction false} TwoBatchesCount(V: nat, c: Cache, so: seq<nat>, s: seq<nat>, own: bool, w: nat, half: bool,
                                           k: int, q: nat)
    requires |c.delta| == V && w < V && (half != own ==> |c.other| == V) && (so != [] ==> |c.other| == V)
    requires (forall i :: 0 <= i < |so| ==> so[i] < V) && (forall i :: 0 <= i < |s| ==> s[i] < V)
    requires q <= |so| + |s|
    ensures var bs := TwoBatches(V, c, so, s, own);
            var pend := Count(if half == own then c.delta[w] else c.other[w], k);
            var n := LogCount(bs[..q], TableRow(V, w, half), k);
            && LogCount(bs, TableRow(V, w, half), k)
               == (if (if half == own then w in s else w in so) then pend else 0)
            && (n == 0 || n == pend)
  {
    PushedWhole(V, c, so, s, own, w, half, k);
    if q <= |so| {
      PushedOther(V, c, so, s, own, w, half, k, q);
    } else {
      PushedOwn(V, c, so, s, own, w, half, k, q - |so|);
    }
  }

  lemma PublishedGrows(cfg: Config, c: Client, c': Client, bs: seq<Batch>, w: nat, half: bool, k: int, q: nat)
    requires c'.init == c.init && c'.log == c.log + bs && q <= |bs|
    ensures Published(cfg, c', w, half, k, |c.log| + q)
            == Published(cfg, c, w, half, k, |c.log|) + LogCount(bs[..q], TableRow(cfg.V, w, half), k)
  {
    assert c'.log[..|c.log| + q] == c.log + bs[..q] && c.log[..|c.log|] == c.log;
    LogCountAppend(c.log, bs[..q], TableRow(cfg.V, w, half), k);
  }

  /** Flushing one client's scheduled rows into its log. */
  ghost predicate Flushed(cfg: Config, c: Client, c': Client, so: seq<nat>, s: seq<nat>)
    requires Shaped(cfg, c.cache)
    requires (forall i :: 0 <= i < |so| ==> so[i] < |c.cache.other|) && (forall i :: 0 <= i < |s| ==> s[i] < cfg.V)
  {
    && c'.id == c.id && c'.init == c.init && c'.tokens == c.tokens
    && c'.cache.vals == c.cache.vals
    && c'.cache.delta == Flush(c.cache.delta, s) && c'.cache.other == Flush(c.cache.other, so)
    && c'.log == c.log + TwoBatches(cfg.V, c.cache, so, s, OwnHalf(cfg, c.id))
  }

  lemma {:induction false} FlushedAccounts(cfg: Config, c: Client, c': Client, so: seq<nat>, s: seq<nat>, w: nat,
                                           half: bool, k: int)
    requires Shaped(cfg, c.cache) && cfg.Valid() && Accounts(cfg, c)
    requires (forall i :: 0 <= i < |so| ==> so[i] < |c.cache.other|) && (forall i :: 0 <= i < |s| ==> s[i] < cfg.V)
    requires Flushed(cfg, c, c', so, s)
    requires w < cfg.V && UsedHalf(cfg, half) && 0 <= k < cfg.K
    ensures Published(cfg, c', w, half, k, |c'.log|) + Count(Pending(cfg, c.id, c'.cache, w, half), k) == Own(c', w, k)
  {
    var own := OwnHalf(cfg, c.id);
    var bs := TwoBatches(cfg.V, c.cache, so, s, own);
    assert Published(cfg, c, w, half, k, |c.log|) + Count(Pending(cfg, c.id, c.cache, w, half), k) == Own(c, w, k);
    TwoBatchesCount(cfg.V, c.cache, so, s, own, w, half, k, |bs|);
    PublishedGrows(cfg, c, c', bs, w, half, k, |bs|);
    assert bs[..|bs|] == bs;
  }

  lemma {:induction false} FlushedNonNegative(cfg: Config, c: Client, c': Client, so: seq<nat>, s: seq<nat>, w: nat,
                                              half: bool, k: int)
    requires Shaped(cfg, c.cache) && cfg.Valid() && Accounts(cfg, c)
    requires (forall i :: 0 <= i < |so| ==> so[i] < |c.cache.other|) && (forall i :: 0 <= i < |s| ==> s[i] < cfg.V)
    requires Flushed(cfg, c, c', so, s)
    requires w < cfg.V && UsedHalf(cfg, half) && 0 <= k < cfg.K
    ensures forall p :: 0 <= p <= |c'.log| ==> Published(cfg, c', w, half, k, p) >= 0
  {
    var own := OwnHalf(cfg, c.id);
    var bs := TwoBatches(cfg.V, c.cache, so, s, own);
    assert Published(cfg, c, w, half, k, |c.log|) + Count(Pending(cfg, c.id, c.cache, w, half), k) == Own(c, w, k);
    assert Published(cfg, c, w, half, k, |c.log|) >= 0;
    forall p | 0 <= p <= |c'.log| ensures Published(cfg, c', w, half, k, p) >= 0 {
      if p <= |c.log| {
        assert c'.log[..p] == c.log[..p];
        assert Published(cfg, c, w, half, k, p) >= 0;
      } else {
        TwoBatchesCount(cfg.V, c.cache, so, s, own, w, half, k, p - |c.log|);
        PublishedGrows(cfg, c, c', bs, w, half, k, p - |c.log|);
      }
    }
  }

  lemma PushShape(cfg: Config, s: State, cid: nat, item: Item, iter: nat, s': State)
    requires Inv(cfg, s) && Enabled(cfg, s, Push(cid, item, iter))
    requires Exec(cfg, s, Push(cid, item, iter)) == Next(s')
    ensures WellFormed(cfg, s')
  {
    FlushShape(cfg, s.clients[cid].cache, OtherSchedule(cfg, item), OwnSchedule(cfg, s.clients[cid].id, item, iter));
  }

  lemma FlushedInv(cfg: Config, c: Client, c': Client, so: seq<nat>, s: seq<nat>)
    requires cfg.Valid() && Shaped(cfg, c.cache) && Accounts(cfg, c)
    requires (forall i :: 0 <= i < |so| ==> so[i] < |c.cache.other|) && (forall i :: 0 <= i < |s| ==> s[i] < cfg.V)
    requires Shaped(cfg, c'.cache) && Flushed(cfg, c, c', so, s)
    ensures Accounts(cfg, c')
  {
    forall w, half, k | 0 <= w < cfg.V && UsedHalf(cfg, half) && 0 <= k < cfg.K
      ensures Published(cfg, c', w, half, k, |c'.log|) + Count(Pending(cfg, c.id, c'.cache, w, half), k)
          == Own(c', w, k)
    {
      FlushedAccounts(cfg, c, c', so, s, w, half, k);
    }
    forall w, half, k, p | 0 <= w < cfg.V && UsedHalf(cfg, half) && 0 <= k < cfg.K && 0 <= p <= |c'.log|
      ensures Published(cfg, c', w, half, k, p) >= 0
    {
      FlushedNonNegative(cfg, c, c', so, s, w, half, k);
    }
  }

  lemma PushClient(cfg: Config, c: Client, item: Item, iter: nat)
    requires cfg.Valid() && Shaped(cfg, c.cache) && ClientInv(cfg, c)
    ensures Shaped(cfg, PushedClient(cfg, c, item, iter).cache)
    ensures ClientInv(cfg, PushedClient(cfg, c, item, iter))
  {
    var so, s := OtherSchedule(cfg, item), OwnSchedule(cfg, c.id, item, iter);
    FlushShape(cfg, c.cache, so, s);
    FlushedInv(cfg, c, PushedClient(cfg, c, item, iter), so, s);
  }

  lemma DeliveredCount(cfg: Config, clients: seq<Client>, table: seq<Row>, cid: nat, c': Client, bs: seq<Batch>,
                       w: nat, half: bool, k: int)
    requires cid < |clients| && c'.init == clients[cid].init && c'.log == clients[cid].log + bs
    requires TableRow(cfg.V, w, half) < |table| && forall i :: 0 <= i < |bs| ==> bs[i].row < |table|
    requires Count(table[TableRow(cfg.V, w, half)], k)
        == Sum(Contributions(cfg, clients, w, half, k, FullView(clients)))
    ensures var clients' := clients[cid := c'];
            Count(Deliver(table, bs)[TableRow(cfg.V, w, half)], k)
            == Sum(Contributions(cfg, clients', w, half, k, FullView(clients')))
  {
    DeliverCount(table, bs, TableRow(cfg.V, w, half), k);
    ContributionGrows(cfg, clients, cid, c', bs, w, half, k);
  }

  lemma ContributionGrows(cfg: Config, clients: seq<Client>, cid: nat, c': Client, bs: seq<Batch>, w: nat,
                          half: bool, k: int)
    requires cid < |clients| && c'.init == clients[cid].init && c'.log == clients[cid].log + bs
    ensures var clients' := clients[cid := c'];
            Sum(Contributions(cfg, clients', w, half, k, FullView(clients')))
            == Sum(Contributions(cfg, clients, w, half, k, FullView(clients)))
               + LogCount(bs, TableRow(cfg.V, w, half), k)
  {
    var clients' := clients[cid := c'];
    var xs, ys := Contributions(cfg, clients, w, half, k, FullView(clients)),
                  Contributions(cfg, clients', w, half, k, FullView(clients'));
    var more := LogCount(bs, TableRow(cfg.V, w, half), k);
    forall j | 0 <= j < |xs| ensures ys[j] == if j == cid then xs[j] + more else xs[j] {
      assert xs[j] == Published(cfg, clients[j], w, half, k, |clients[j].log|);
      assert ys[j] == Published(cfg, clients'[j], w, half, k, |clients'[j].log|);
      if j == cid {
        PublishedGrows(cfg, clients[cid], c', bs, w, half, k, |bs|);
        assert bs[..|bs|] == bs;
      }
    }
    SumOfOne(xs, ys, cid, more);
  }

  lemma SumOfOne(xs: seq<int>, ys: seq<int>, i: nat, more: int)
    requires i < |xs| == |ys| && forall j :: 0 <= j < |xs| ==> ys[j] == if j == i then xs[j] + more else xs[j]
    ensures Sum(ys) == Sum(xs) + more
  {
    SumUpdate(xs, i, xs[i] + more);
    assert ys == xs[i := xs[i] + more];
  }

  lemma {:induction false} PushKeeps(cfg: Config, s: State, cid: nat, item: Item, iter: nat)
    requires Inv(cfg, s) && Enabled(cfg, s, Push(cid, item, iter))
    ensures Exec(cfg, s, Push(cid, item, iter)).Next? && Inv(cfg, Exec(cfg, s, Push(cid, item, iter)).s)
  {
    var s' := Exec(cfg, s, Push(cid, item, iter)).s;
    PushShape(cfg, s, cid, item, iter, s');
    PushClient(cfg, s.clients[cid], item, iter);
    PushBatchesFit(cfg, s.clients[cid].id, s.clients[cid].cache, item, iter);
    var bs := PushBatches(cfg, s.clients[cid].id, s.clients[cid].cache, item, iter);
    forall w, half, k | 0 <= w < cfg.V && UsedHalf(cfg, half) && 0 <= k < cfg.K
      ensures Count(s'.table[TableRow(cfg.V, w, half)], k)
              == Sum(Contributions(cfg, s'.clients, w, half, k, FullView(s'.clients)))
    {
      DeliveredCount(cfg, s.clients, s.table, cid, s'.clients[cid], bs, w, half, k);
    }
    forall j | 0 <= j < |s'.clients| ensures CachedInv(cfg, s'.clients, j) {
      LogsGrowCached(cfg, s.clients, s'.clients, j);
    }
  }

  /** A client's cached rows are not affected by anybody's pushes. */
  lemma LogsGrowCached(cfg: Config, a: seq<Client>, b: seq<Client>, j: nat)
    requires |a| == |b| && j < |a|
    requires forall i :: 0 <= i < |a| ==> a[i].init == b[i].init && a[i].log <= b[i].log
    requires Shaped(cfg, a[j].cache) && |a[j].seen| == cfg.V && CachedInv(cfg, a, j)
    requires Shaped(cfg, b[j].cache)
    requires b[j].id == a[j].id && b[j].tokens == a[j].tokens
    requires b[j].cache.vals == a[j].cache.vals && b[j].seen == a[j].seen
    ensures CachedInv(cfg, b, j)
  {
    var half := OwnHalf(cfg, a[j].id);
    forall w | 0 <= w < cfg.V ensures ValidView(b, b[j].seen[w]) {
      ContributionsStable(cfg, a, b, w, half, 0, a[j].seen[w]);
    }
    forall w, k | 0 <= w < cfg.V && 0 <= k < cfg.K
      ensures Count(b[j].cache.vals[w], k)
              == Own(b[j], w, k) + Sum(Contributions(cfg, b, w, half, k, b[j].seen[w])[j := 0])
    {
      ContributionsStable(cfg, a, b, w, half, k, a[j].seen[w]);
      assert Count(a[j].cache.vals[w], k)
             == Own(a[j], w, k) + Sum(Contributions(cfg, a, w, half, k, a[j].seen[w])[j := 0]);
    }
  }

  // ---- Pull ----------------------------------------------------------------------------------

  /** What a fetched count is: the client's own tokens, all of them pushed, plus what the view shows of
      the others. */
  lemma FetchedCount(cfg: Config, s: State, cid: nat, w: nat, k: int, view: View)
    requires Inv(cfg, s) && cid < |s.clients| && w < cfg.V && 0 <= k < cfg.K
    requires ValidView(s.clients, view) && view[cid] == |s.clients[cid].log|
    requires s.clients[cid].cache.delta[w] == map[]
    ensures var half := OwnHalf(cfg, s.clients[cid].id);
            Count(Fetched(cfg, s.clients, w, half, view), k)
            == Own(s.clients[cid], w, k) + Sum(Contributions(cfg, s.clients, w, half, k, view)[cid := 0])
  {
    var half := OwnHalf(cfg, s.clients[cid].id);
    assert ClientInv(cfg, s.clients[cid]);
    SumUpdate(Contributions(cfg, s.clients, w, half, k, view), cid, 0);
  }

  /** A fetched row has no non-positive count, and for a single client is the cached row. */
  lemma FetchedClean(cfg: Config, s: State, cid: nat, w: nat, view: View)
    requires Inv(cfg, s) && cid < |s.clients| && w < cfg.V
    requires ValidView(s.clients, view) && view[cid] == |s.clients[cid].log|
    requires s.clients[cid].cache.delta[w] == map[]
    ensures Clean(Fetched(cfg, s.clients, w, OwnHalf(cfg, s.clients[cid].id), view), cfg.K)
    ensures |s.clients| == 1 ==>
              Fetched(cfg, s.clients, w, OwnHalf(cfg, s.clients[cid].id), view) == s.clients[cid].cache.vals[w]
  {
    var half := OwnHalf(cfg, s.clients[cid].id);
    var r := Fetched(cfg, s.clients, w, half, view);
    forall k | 0 <= k < cfg.K
      ensures Count(r, k) >= 0
      ensures |s.clients| == 1 ==> Count(r, k) == Count(s.clients[cid].cache.vals[w], k)
    {
      FetchedCount(cfg, s, cid, w, k, view);
      OthersNonNegative(cfg, s, cid, w, half, k, view);
      CachedCoversOwn(cfg, s, cid, w, k);
    }
    forall k | k in r ensures r[k] > 0 {
      assert Count(r, k) == r[k] && 0 <= k < cfg.K;
    }
    if |s.clients| == 1 {
      SameCountsSameRow(r, s.clients[cid].cache.vals[w]);
    }
  }

  lemma PullChecksHold(cfg: Config, s: State, cid: nat, views: seq<View>)
    requires Inv(cfg, s) && Enabled(cfg, s, Pull(cid, views))
    ensures var c := s.clients[cid];
            var sched := OwnSchedule(cfg, s.clients[cid].id, c.phase.item, c.phase.iter);
            var fetched := FetchedRows(cfg, s.clients, sched, OwnHalf(cfg, s.clients[cid].id), views);
            && (forall i :: 0 <= i < |sched| ==> Clean(fetched[i], cfg.K))
            && PullChecks(|s.clients| == 1, c.cache.vals, sched, fetched)
  {
    var c := s.clients[cid];
    var sched := OwnSchedule(cfg, s.clients[cid].id, c.phase.item, c.phase.iter);
    var fetched := FetchedRows(cfg, s.clients, sched, OwnHalf(cfg, s.clients[cid].id), views);
    assert ClientInv(cfg, c);
    forall i | 0 <= i < |sched|
      ensures Clean(fetched[i], cfg.K)
      ensures |s.clients| == 1 ==> fetched[i] == c.cache.vals[sched[i]]
    {
      assert sched[i] in sched;
      FetchedClean(cfg, s, cid, sched[i], views[i]);
    }
    var solo := |s.clients| == 1;
    forall i | 0 <= i < |sched|
      ensures PullCheck(solo, c.cache.vals, sched, fetched, i)
    {
      var h := OverwriteAt(c.cache.vals, sched[..i], fetched[..i], sched[i]);
      assert Clean(c.cache.vals[sched[i]], cfg.K);
    }
  }

  /** The row a pull leaves in the cache is accounted for by the view recorded with it. */
  lemma PulledRow(cfg: Config, s: State, cid: nat, views: seq<View>, w: nat)
    requires Inv(cfg, s) && Enabled(cfg, s, Pull(cid, views)) && w < cfg.V
    ensures var c := s.clients[cid];
            var half := OwnHalf(cfg, s.clients[cid].id);
            var sched := OwnSchedule(cfg, s.clients[cid].id, c.phase.item, c.phase.iter);
            var row := Overwrite(c.cache.vals, sched, FetchedRows(cfg, s.clients, sched, half, views))[w];
            var view := Overwrite(c.seen, sched, views)[w];
            && ValidView(s.clients, view)
            && forall k :: 0 <= k < cfg.K ==>
                 Count(row, k) == Own(c, w, k) + Sum(Contributions(cfg, s.clients, w, half, k, view)[cid := 0])
  {
    var c := s.clients[cid];
    var half := OwnHalf(cfg, s.clients[cid].id);
    var sched := OwnSchedule(cfg, s.clients[cid].id, c.phase.item, c.phase.iter);
    var fetched := FetchedRows(cfg, s.clients, sched, half, views);
    var i := OverwriteAt(c.cache.vals, sched, fetched, w);
    var i' := OverwriteAt(c.seen, sched, views, w);
    assert CachedInv(cfg, s.clients, cid);
    if w in sched {
      assert i == i';
      assert ClientInv(cfg, c);
      forall k | 0 <= k < cfg.K
        ensures Count(fetched[i], k) == Own(c, w, k)
            + Sum(Contributions(cfg, s.clients, w, half, k, views[i])[cid := 0])
      {
        FetchedCount(cfg, s, cid, w, k, views[i]);
      }
    }
  }

  lemma PullCached(cfg: Config, s: State, cid: nat, views: seq<View>, s': State)
    requires Inv(cfg, s) && Enabled(cfg, s, Pull(cid, views))
    requires Exec(cfg, s, Pull(cid, views)) == Next(s') && WellFormed(cfg, s')
    ensures CachedInv(cfg, s'.clients, cid)
  {
    var c' := s'.clients[cid];
    var half := OwnHalf(cfg, s.clients[cid].id);
    forall w | 0 <= w < cfg.V ensures ValidView(s'.clients, c'.seen[w]) {
      PulledRow(cfg, s, cid, views, w);
      ContributionsStable(cfg, s.clients, s'.clients, w, half, 0, c'.seen[w]);
    }
    forall w, k | 0 <= w < cfg.V && 0 <= k < cfg.K
      ensures Count(c'.cache.vals[w], k)
              == Own(c', w, k) + Sum(Contributions(cfg, s'.clients, w, half, k, c'.seen[w])[cid := 0])
    {
      PulledRow(cfg, s, cid, views, w);
      ContributionsStable(cfg, s.clients, s'.clients, w, half, k, c'.seen[w]);
    }
  }

  lemma PullClient(cfg: Config, s: State, cid: nat, views: seq<View>, s': State)
    requires Inv(cfg, s) && Enabled(cfg, s, Pull(cid, views))
    requires Exec(cfg, s, Pull(cid, views)) == Next(s')
    ensures WellFormed(cfg, s') && ClientInv(cfg, s'.clients[cid])
  {
    PullChecksHold(cfg, s, cid, views);
    var c, c' := s.clients[cid], s'.clients[cid];
    var sched := OwnSchedule(cfg, s.clients[cid].id, c.phase.item, c.phase.iter);
    var fetched := FetchedRows(cfg, s.clients, sched, OwnHalf(cfg, s.clients[cid].id), views);
    forall w | 0 <= w < cfg.V ensures Clean(c'.cache.vals[w], cfg.K) {
      var i := OverwriteAt(c.cache.vals, sched, fetched, w);
      assert Clean(c.cache.vals[w], cfg.K);
    }
    SameAccounts(cfg, c, c');
  }

  /** The accounts of a client involve only its tokens, its pending changes and its log. */
  lemma SameAccounts(cfg: Config, c: Client, c': Client)
    requires cfg.Valid() && Shaped(cfg, c.cache) && Shaped(cfg, c'.cache) && ClientInv(cfg, c)
    requires c'.id == c.id && c'.init == c.init && c'.tokens == c.tokens && c'.log == c.log && c'.phase.Sampling?
    requires c'.cache.delta == c.cache.delta && c'.cache.other == c.cache.other
    ensures ClientInv(cfg, c')
  {
    forall w, half, k | 0 <= w < cfg.V && UsedHalf(cfg, half) && 0 <= k < cfg.K
      ensures Published(cfg, c', w, half, k, |c'.log|) + Count(Pending(cfg, c.id, c'.cache, w, half), k)
          == Own(c', w, k)
    {
      assert Published(cfg, c, w, half, k, |c.log|) + Count(Pending(cfg, c.id, c.cache, w, half), k) == Own(c, w, k);
    }
    forall w, half, k, p | 0 <= w < cfg.V && UsedHalf(cfg, half) && 0 <= k < cfg.K && 0 <= p <= |c'.log|
      ensures Published(cfg, c', w, half, k, p) >= 0
    {
      assert Published(cfg, c, w, half, k, p) >= 0;
    }
  }

  lemma PullKeeps(cfg: Config, s: State, cid: nat, views: seq<View>)
    requires Inv(cfg, s) && Enabled(cfg, s, Pull(cid, views))
    ensures Exec(cfg, s, Pull(cid, views)).Next? && Inv(cfg, Exec(cfg, s, Pull(cid, views)).s)
  {
    PullChecksHold(cfg, s, cid, views);
    var s' := Exec(cfg, s, Pull(cid, views)).s;
    PullClient(cfg, s, cid, views, s');
    forall j | 0 <= j < |s'.clients| ensures CachedInv(cfg, s'.clients, j) {
      if j == cid {
        PullCached(cfg, s, cid, views, s');
      } else {
        LogsGrowCached(cfg, s.clients, s'.clients, j);
      }
    }
    SameLogsTable(cfg, s, s');
  }

  /** The table keeps its account when no log changes. */
  lemma SameLogsTable(cfg: Config, s: State, s': State)
    requires WellFormed(cfg, s) && WellFormed(cfg, s') && TableInv(cfg, s)
    requires s'.table == s.table && |s'.clients| == |s.clients|
    requires forall j :: 0 <= j < |s.clients| ==>
               s'.clients[j].init == s.clients[j].init && s'.clients[j].log == s.clients[j].log
    ensures TableInv(cfg, s')
  {
    assert FullView(s'.clients) == FullView(s.clients);
    forall w, half, k | 0 <= w < cfg.V && UsedHalf(cfg, half) && 0 <= k < cfg.K
      ensures Count(s'.table[TableRow(cfg.V, w, half)], k)
              == Sum(Contributions(cfg, s'.clients, w, half, k, FullView(s'.clients)))
    {
      ContributionsStable(cfg, s.clients, s'.clients, w, half, k, FullView(s.clients));
      assert Count(s.table[TableRow(cfg.V, w, half)], k)
             == Sum(Contributions(cfg, s.clients, w, half, k, FullView(s.clients)));
    }
  }

  // ---- main results --------------------------------------------------------------------------

  lemma StepKeeps(cfg: Config, s: State, step: Step)
    requires Inv(cfg, s) && Enabled(cfg, s, step)
    ensures Exec(cfg, s, step).Next? && Inv(cfg, Exec(cfg, s, step).s)
  {
    match step
    case Sample(cid, i, topic) => SampleKeeps(cfg, s, cid, i, topic);
    case Push(cid, item, iter) => PushKeeps(cfg, s, cid, item, iter);
    case Pull(cid, views) => PullKeeps(cfg, s, cid, views);
  }

  lemma {:induction false} TraceInv(cfg: Config, states: seq<State>, steps: seq<Step>, n: nat)
    requires Trace(cfg, states, steps) && n < |states|
    ensures Inv(cfg, states[n])
  {
    if n == 0 {
      InitInv(cfg, states[0]);
    } else {
      TraceInv(cfg, states, steps, n - 1);
      StepKeeps(cfg, states[n - 1], steps[n - 1]);
      assert Exec(cfg, states[n - 1], steps[n - 1]) == Next(states[n]);
    }
  }

  /** Safety: after any run, whatever is done next, no CHECK fails. */
  lemma NoCheckEverFails(cfg: Config, states: seq<State>, steps: seq<Step>, step: Step)
    requires Trace(cfg, states, steps) && Enabled(cfg, states[|steps|], step)
    ensures Exec(cfg, states[|steps|], step) != CheckFailed
  {
    TraceInv(cfg, states, steps, |steps|);
    StepKeeps(cfg, states[|steps|], step);
  }

  function PendingCounts(cfg: Config, clients: seq<Client>, w: nat, half: bool, k: int): (r: seq<int>)
    requires forall j :: 0 <= j < |clients| ==>
      w < |clients[j].cache.delta| && (half != OwnHalf(cfg, clients[j].id) ==> w < |clients[j].cache.other|)
    ensures |r| == |clients|
  {
    seq(|clients|, j requires 0 <= j < |clients| => Count(Pending(cfg, clients[j].id, clients[j].cache, w, half), k))
  }

  lemma NothingPending(cfg: Config, clients: seq<Client>, w: nat, half: bool, k: int)
    requires forall j :: 0 <= j < |clients| ==>
               w < |clients[j].cache.delta| && w < |clients[j].cache.other|
               && clients[j].cache.delta[w] == clients[j].cache.other[w] == map[]
    ensures Sum(PendingCounts(cfg, clients, w, half, k)) == 0
  {
    SumZero(PendingCounts(cfg, clients, w, half, k));
  }

  function OwnCounts(clients: seq<Client>, w: nat, k: int): (r: seq<int>)
    ensures |r| == |clients|
  {
    seq(|clients|, j requires 0 <= j < |clients| => Own(clients[j], w, k))
  }

  /** Conservation: at every moment of every run, for each half, word and topic, the shared row plus all
      pending changes is the number of tokens so assigned; and the shared row is never negative. */
  lemma Conservation(cfg: Config, states: seq<State>, steps: seq<Step>, n: nat, w: nat, half: bool, k: int)
    requires Trace(cfg, states, steps) && n < |states|
    requires w < cfg.V && UsedHalf(cfg, half) && 0 <= k < cfg.K
    ensures WellFormed(cfg, states[n])
    ensures Count(states[n].table[TableRow(cfg.V, w, half)], k) + Sum(PendingCounts(cfg, states[n].clients, w, half, k))
            == Sum(OwnCounts(states[n].clients, w, k))
    ensures Count(states[n].table[TableRow(cfg.V, w, half)], k) >= 0
  {
    TraceInv(cfg, states, steps, n);
    var s := states[n];
    var xs := Contributions(cfg, s.clients, w, half, k, FullView(s.clients));
    forall j | 0 <= j < |s.clients|
      ensures xs[j] >= 0
      ensures xs[j] + PendingCounts(cfg, s.clients, w, half, k)[j] == OwnCounts(s.clients, w, k)[j]
    {
      assert ClientInv(cfg, s.clients[j]);
    }
    SumPointwise(xs, PendingCounts(cfg, s.clients, w, half, k), OwnCounts(s.clients, w, k));
    SumAtLeast(xs, 0);
  }

  /** The view behind a cached row never changes under later steps, so a cached count is the client's own
      tokens as they are now plus, for every other client, a non-negative amount it had published. */
  lemma CachedRows(cfg: Config, states: seq<State>, steps: seq<Step>, n: nat, cid: nat, w: nat, k: int)
    requires Trace(cfg, states, steps) && n < |states| && cid < |states[n].clients|
    requires w < cfg.V && 0 <= k < cfg.K
    ensures WellFormed(cfg, states[n])
    ensures ValidView(states[n].clients, states[n].clients[cid].seen[w])
    ensures var c := states[n].clients[cid];
            var half := OwnHalf(cfg, c.id);
            var others := Contributions(cfg, states[n].clients, w, half, k, c.seen[w])[cid := 0];
            && Count(c.cache.vals[w], k) == Own(c, w, k) + Sum(others)
            && Sum(others) >= 0
            && (forall j :: 0 <= j < |others| ==> others[j] >= 0)
  {
    TraceInv(cfg, states, steps, n);
    var s := states[n];
    assert CachedInv(cfg, s.clients, cid);
    OthersNonNegative(cfg, s, cid, w, OwnHalf(cfg, states[n].clients[cid].id), k, s.clients[cid].seen[w]);
    forall j | 0 <= j < |s.clients|
      ensures Published(cfg, s.clients[j], w, OwnHalf(cfg, s.clients[cid].id), k, s.clients[cid].seen[w][j]) >= 0
    {
      assert ClientInv(cfg, s.clients[j]);
    }
  }

  /** A half of the table holds the exact counts of every word for which nothing is pending. */
  lemma {:induction false} HalfExact(cfg: Config, states: seq<State>, steps: seq<Step>, n: nat, w: nat, half: bool,
                                     k: int)
    requires Trace(cfg, states, steps) && n < |states| && cfg.localSync && w < cfg.V && 0 <= k < cfg.K
    requires forall j :: 0 <= j < |states[n].clients| ==>
               w < |states[n].clients[j].cache.delta| && w < |states[n].clients[j].cache.other|
               && states[n].clients[j].cache.delta[w] == states[n].clients[j].cache.other[w] == map[]
    ensures |states[n].table| == 2 * cfg.V
    ensures Count(states[n].table[TableRow(cfg.V, w, half)], k) == Sum(OwnCounts(states[n].clients, w, k))
  {
    Conservation(cfg, states, steps, n, w, half, k);
    NothingPending(cfg, states[n].clients, w, half, k);
  }

  /** Under local sync the two halves of the table agree on every word for which nothing is pending. */
  lemma {:induction false} HalvesAgree(cfg: Config, states: seq<State>, steps: seq<Step>, n: nat, w: nat, k: int)
    requires Trace(cfg, states, steps) && n < |states| && cfg.localSync && w < cfg.V && 0 <= k < cfg.K
    requires forall j :: 0 <= j < |states[n].clients| ==>
               w < |states[n].clients[j].cache.delta| && w < |states[n].clients[j].cache.other|
               && states[n].clients[j].cache.delta[w] == states[n].clients[j].cache.other[w] == map[]
    ensures |states[n].table| == 2 * cfg.V
    ensures Count(states[n].table[w], k) == Count(states[n].table[w + cfg.V], k)
        == Sum(OwnCounts(states[n].clients, w, k))
  {
    HalfExact(cfg, states, steps, n, w, false, k);
    HalfExact(cfg, states, steps, n, w, true, k);
  }

  /** A single client's cache is at every moment exactly the tally of its own tokens. */
  lemma SingleClientTally(cfg: Config, states: seq<State>, steps: seq<Step>, n: nat, w: nat, k: int)
    requires Trace(cfg, states, steps) && n < |states| && |states[n].clients| == 1 && w < cfg.V && 0 <= k < cfg.K
    ensures WellFormed(cfg, states[n])
    ensures Count(states[n].clients[0].cache.vals[w], k) == Own(states[n].clients[0], w, k)
  {
    TraceInv(cfg, states, steps, n);
    CachedCoversOwn(cfg, states[n], 0, w, k);
  }

  // ---- documents -----------------------------------------------------------------------------

  function Words(ts: seq<Token>): (r: seq<nat>)
    ensures |r| == |ts| && forall i :: 0 <= i < |ts| ==> r[i] == ts[i].word
  {
    seq(|ts|, i requires 0 <= i < |ts| => ts[i].word)
  }

  function Topics(ts: seq<Token>): (r: seq<int>)
    ensures |r| == |ts| && forall i :: 0 <= i < |ts| ==> r[i] == ts[i].topic
  {
    seq(|ts|, i requires 0 <= i < |ts| => ts[i].topic)
  }

  /** The cache after the tokens ts[start..] have moved to the topics `news`. */
  function MoveDocument(cfg: Config, c: Cache, ts: seq<Token>, start: nat, news: seq<int>): (r: Cache)
    requires start + |news| <= |ts| && forall i :: 0 <= i < |ts| ==> ts[i].word < cfg.V
    requires |c.vals| == |c.delta| == cfg.V && (cfg.localSync ==> |c.other| == cfg.V)
    ensures |r.vals| == |c.vals| && |r.delta| == |c.delta| && |r.other| == |c.other|
  {
    var doc := Document(ts, start, |news|);
    MoveAll(cfg, c, Words(doc), Topics(doc), news)
  }

  /** The tokens after those from `start` on have taken the topics `news`. */
  function Retopic(ts: seq<Token>, start: nat, news: seq<int>): (r: seq<Token>)
    requires start + |news| <= |ts|
    ensures |r| == |ts|
    ensures forall i :: 0 <= i < |ts| ==>
              r[i] == if start <= i < start + |news| then Token(ts[i].word, news[i - start]) else ts[i]
  {
    seq(|ts|, i requires 0 <= i < |ts| =>
      if start <= i < start + |news| then Token(ts[i].word, news[i - start]) else ts[i])
  }

  lemma RetopicSnoc(ts: seq<Token>, start: nat, front: seq<int>, t: int, i: nat)
    requires i == start + |front| < |ts|
    ensures Retopic(ts, start, front)[i] == ts[i]
    ensures Retopic(ts, start, front + [t]) == Retopic(ts, start, front)[i := Token(ts[i].word, t)]
  {
  }

  /** The n tokens from `start` on. */
  function Document(ts: seq<Token>, start: nat, n: nat): (r: seq<Token>)
    requires start + n <= |ts|
    ensures |r| == n && forall i :: 0 <= i < n ==> r[i] == ts[start + i]
  {
    ts[start..start + n]
  }

  lemma DocumentSnoc(ts: seq<Token>, start: nat, n: nat, i: nat)
    requires i == start + n < |ts|
    ensures Words(Document(ts, start, n + 1)) == Words(Document(ts, start, n)) + [ts[i].word]
    ensures Topics(Document(ts, start, n + 1)) == Topics(Document(ts, start, n)) + [ts[i].topic]
  {
  }

  /** The state after a client resampled one document of its own. */
  function AfterDocument(cfg: Config, s: State, cid: nat, start: nat, news: seq<int>): (r: State)
    requires cid < |s.clients| && start + |news| <= |s.clients[cid].tokens|
    requires forall i :: 0 <= i < |s.clients[cid].tokens| ==> s.clients[cid].tokens[i].word < cfg.V
    requires |s.clients[cid].cache.vals| == |s.clients[cid].cache.delta| == cfg.V
    requires cfg.localSync ==> |s.clients[cid].cache.other| == cfg.V
    ensures |r.clients| == |s.clients| && r.clients[cid].phase == s.clients[cid].phase
    ensures |r.clients[cid].tokens| == |s.clients[cid].tokens|
    ensures forall i :: 0 <= i < |r.clients[cid].tokens| ==> r.clients[cid].tokens[i].word < cfg.V
    ensures |r.clients[cid].cache.vals| == |r.clients[cid].cache.delta| == cfg.V
    ensures cfg.localSync ==> |r.clients[cid].cache.other| == cfg.V
  {
    var c := s.clients[cid];
    s.(clients := s.clients[cid := c.(tokens := Retopic(c.tokens, start, news),
                                      cache := MoveDocument(cfg, c.cache, c.tokens, start, news))])
  }

  /** The state after one token was resampled. */
  function AfterToken(cfg: Config, s: State, cid: nat, i: nat, topic: int): State
    requires cid < |s.clients| && i < |s.clients[cid].tokens| && s.clients[cid].tokens[i].word < cfg.V
    requires |s.clients[cid].cache.vals| == |s.clients[cid].cache.delta| == cfg.V
    requires cfg.localSync ==> |s.clients[cid].cache.other| == cfg.V
  {
    var c := s.clients[cid];
    var t := c.tokens[i];
    s.(clients := s.clients[cid := c.(tokens := c.tokens[i := Token(t.word, topic)],
                                      cache := MoveToken(cfg, c.cache, t.word, t.topic, topic))])
  }

  lemma AfterTokenInv(cfg: Config, s: State, cid: nat, i: nat, topic: int, next: State)
    requires Inv(cfg, s) && cid < |s.clients| && s.clients[cid].phase.Sampling?
    requires i < |s.clients[cid].tokens| && 0 <= topic < cfg.K
    requires next == AfterToken(cfg, s, cid, i, topic)
    ensures Exec(cfg, s, Sample(cid, i, topic)) == Next(next) && Inv(cfg, next)
  {
    SampleKeeps(cfg, s, cid, i, topic);
  }

  lemma {:induction false} AfterDocumentStep(cfg: Config, s: State, cid: nat, start: nat, front: seq<int>, t: int,
                                             i: nat)
    requires cid < |s.clients| && i == start + |front| < |s.clients[cid].tokens|
    requires forall j :: 0 <= j < |s.clients[cid].tokens| ==> s.clients[cid].tokens[j].word < cfg.V
    requires |s.clients[cid].cache.vals| == |s.clients[cid].cache.delta| == cfg.V
    requires cfg.localSync ==> |s.clients[cid].cache.other| == cfg.V
    ensures AfterDocument(cfg, s, cid, start, front + [t])
        == AfterToken(cfg, AfterDocument(cfg, s, cid, start, front), cid, i, t)
  {
    RetopicSnoc(s.clients[cid].tokens, start, front, t, i);
    MoveDocumentSnoc(cfg, s.clients[cid].cache, s.clients[cid].tokens, start, front, t, i);
  }

  lemma AfterNothing(cfg: Config, s: State, cid: nat, start: nat, news: seq<int>)
    requires WellFormed(cfg, s) && cid < |s.clients| && news == [] && start <= |s.clients[cid].tokens|
    ensures AfterDocument(cfg, s, cid, start, news) == s
  {
    assert Retopic(s.clients[cid].tokens, start, news) == s.clients[cid].tokens;
  }

  lemma {:induction false} MoveDocumentSnoc(cfg: Config, c: Cache, ts: seq<Token>, start: nat, front: seq<int>,
                                            t: int, i: nat)
    requires i == start + |front| < |ts| && forall j :: 0 <= j < |ts| ==> ts[j].word < cfg.V
    requires |c.vals| == |c.delta| == cfg.V && (cfg.localSync ==> |c.other| == cfg.V)
    ensures MoveDocument(cfg, c, ts, start, front + [t])
            == MoveToken(cfg, MoveDocument(cfg, c, ts, start, front), ts[i].word, ts[i].topic, t)
  {
    DocumentSnoc(ts, start, |front|, i);
    MoveDocumentOf(cfg, c, Document(ts, start, |front| + 1), Document(ts, start, |front|),
      ts[i], front + [t], front, t);
  }

  lemma {:induction false} MoveDocumentOf(cfg: Config, c: Cache, doc: seq<Token>, front: seq<Token>, last: Token,
                                          news: seq<int>, newFront: seq<int>, t: int)
    requires |c.vals| == |c.delta| == cfg.V && (cfg.localSync ==> |c.other| == cfg.V)
    requires |front| == |newFront| && last.word < cfg.V && forall i :: 0 <= i < |front| ==> front[i].word < cfg.V
    requires Words(doc) == Words(front) + [last.word] && Topics(doc) == Topics(front) + [last.topic]
        && news == newFront + [t]
    ensures MoveAll(cfg, c, Words(doc), Topics(doc), news)
            == MoveToken(cfg, MoveAll(cfg, c, Words(front), Topics(front), newFront), last.word, last.topic, t)
  {
    MoveAllSnoc(cfg, c, Words(front), Topics(front), newFront, last.word, last.topic, t);
  }

  lemma {:induction false} MoveAllSnoc(cfg: Config, c: Cache, words: seq<nat>, olds: seq<int>, news: seq<int>,
                                       w: nat, old_: int, new_: int)
    requires |words| == |olds| == |news| && w < cfg.V && forall i :: 0 <= i < |words| ==> words[i] < cfg.V
    requires |c.vals| == |c.delta| == cfg.V && (cfg.localSync ==> |c.other| == cfg.V)
    ensures MoveAll(cfg, c, words + [w], olds + [old_], news + [new_])
            == MoveToken(cfg, MoveAll(cfg, c, words, olds, news), w, old_, new_)
  {
    var m := |words|;
    assert (words + [w])[..m] == words && (olds + [old_])[..m] == olds && (news + [new_])[..m] == news;
  }

  datatype Condition = Safe | Unsafe

  ghost function ConditionOf(cfg: Config, s: State): Condition {
    if Inv(cfg, s) then Safe else Unsafe
  }

  lemma AfterTokenSafe(cfg: Config, s: State, cid: nat, i: nat, topic: int, next: State)
    requires ConditionOf(cfg, s).Safe? && cid < |s.clients| && s.clients[cid].phase.Sampling?
    requires i < |s.clients[cid].tokens| && 0 <= topic < cfg.K && s.clients[cid].tokens[i].word < cfg.V
    requires |s.clients[cid].cache.vals| == |s.clients[cid].cache.delta| == cfg.V
    requires cfg.localSync ==> |s.clients[cid].cache.other| == cfg.V
    requires next == AfterToken(cfg, s, cid, i, topic)
    ensures ConditionOf(cfg, next).Safe?
  {
    AfterTokenInv(cfg, s, cid, i, topic, next);
  }

  lemma {:induction false} DocumentSafe(cfg: Config, s: State, cid: nat, start: nat, news: seq<int>)
    requires WellFormed(cfg, s) && cid < |s.clients| && s.clients[cid].phase.Sampling?
    requires start + |news| <= |s.clients[cid].tokens| && forall i :: 0 <= i < |news| ==> 0 <= news[i] < cfg.K
    requires ConditionOf(cfg, s).Safe?
    ensures ConditionOf(cfg, AfterDocument(cfg, s, cid, start, news)).Safe?
  {
    if |news| == 0 {
      AfterNothing(cfg, s, cid, start, news);
    } else {
      var m := |news| - 1;
      var front, t := news[..m], news[m];
      assert news == front + [t];
      DocumentSafe(cfg, s, cid, start, front);
      AfterDocumentStep(cfg, s, cid, start, front, t, start + m);
      AfterTokenSafe(cfg, AfterDocument(cfg, s, cid, start, front), cid, start + m, t,
          AfterDocument(cfg, s, cid, start, news));
    }
  }

  /** Resampling a document is a run of Sample steps, so it keeps the invariant, whatever topics are drawn:
      the cache may move exactly as SampleOneDoc moves it. */
  lemma DocumentSampled(cfg: Config, s: State, cid: nat, start: nat, news: seq<int>)
    requires Inv(cfg, s) && cid < |s.clients| && s.clients[cid].phase.Sampling?
    requires start + |news| <= |s.clients[cid].tokens| && forall i :: 0 <= i < |news| ==> 0 <= news[i] < cfg.K
    ensures Inv(cfg, AfterDocument(cfg, s, cid, start, news))
  {
    DocumentSafe(cfg, s, cid, start, news);
  }

  /** The CHECK at the next token of the document passes, however many have been resampled: SampleOneDoc
      always processes the whole document. */
  lemma DocumentNeverStops(cfg: Config, s: State, cid: nat, start: nat, news: seq<int>)
    requires Inv(cfg, s) && cid < |s.clients| && s.clients[cid].phase.Sampling?
    requires start + |news| < |s.clients[cid].tokens| && forall i :: 0 <= i < |news| ==> 0 <= news[i] < cfg.K
    ensures var next := s.clients[cid].tokens[start + |news|];
            next.topic in MoveDocument(cfg, s.clients[cid].cache, s.clients[cid].tokens, start, news).vals[next.word]
  {
    DocumentSampled(cfg, s, cid, start, news);
    SampleChecksHold(cfg, AfterDocument(cfg, s, cid, start, news), cid, start + |news|);
  }
}
