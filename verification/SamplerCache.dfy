/** The cached word-topic state of FastDocSamplerVirtual as a value, and the effect of moving a token,
    pushing a schedule of rows and pulling a schedule of rows.  The class FastDocSamplerVirtual is proved
    against these functions; the protocol of N clients is built from them. */
module SamplerCache {
  import opened SparseRow

  /** num_topics, num_vocabs, and the two schedule flags. */
  datatype Config = Config(K: nat, V: nat, localSync: bool, bipartite: bool) {
    predicate Valid() { K > 0 && V > 0 }
  }

  /** RowUpdateItem: a block of rows, counted cyclically from `first`. */
  datatype Item = Item(first: nat, numRows: nat)

  /** One BatchInc on the shared table. */
  datatype Batch = Batch(row: nat, delta: Row)

  /** word_topic_vals_, word_topic_delta_ and word_topic_delta_other_ (the last only under local sync). */
  datatype Cache = Cache(vals: seq<Row>, delta: seq<Row>, other: seq<Row>)

  ghost predicate Shaped(cfg: Config, c: Cache) {
    && |c.vals| == |c.delta| == cfg.V
    && |c.other| == (if cfg.localSync then cfg.V else 0)
    && (forall w :: 0 <= w < cfg.V ==> Clean(c.vals[w], cfg.K))
    && (forall w :: 0 <= w < cfg.V ==> NoZeros(c.delta[w]) && TopicsBelow(c.delta[w], cfg.K))
    && (forall w :: 0 <= w < |c.other| ==> NoZeros(c.other[w]) && TopicsBelow(c.other[w], cfg.K))
  }

  // ---- moving a token ------------------------------------------------------------------------

  function BumpAt(rows: seq<Row>, w: nat, k: int, d: int): (r: seq<Row>)
    requires w < |rows|
    ensures |r| == |rows|
  {
    rows[w := Bump(rows[w], k, d)]
  }

  /** The change `d` of topic k at word w, recorded in the cache and in every delta map. */
  function Record(cfg: Config, c: Cache, w: nat, k: int, d: int): (r: Cache)
    requires w < |c.vals| && w < |c.delta| && (cfg.localSync ==> w < |c.other|)
    ensures |r.vals| == |c.vals| && |r.delta| == |c.delta| && |r.other| == |c.other|
  {
    Cache(BumpAt(c.vals, w, k, d), BumpAt(c.delta, w, k, d),
          if cfg.localSync then BumpAt(c.other, w, k, d) else c.other)
  }

  function MoveToken(cfg: Config, c: Cache, w: nat, old_: int, new_: int): (r: Cache)
    requires w < |c.vals| && w < |c.delta| && (cfg.localSync ==> w < |c.other|)
    ensures |r.vals| == |c.vals| && |r.delta| == |c.delta| && |r.other| == |c.other|
  {
    Record(cfg, Record(cfg, c, w, old_, -1), w, new_, 1)
  }

  /** Moving tokens one after another: the i-th from topic olds[i] to topic news[i] at word words[i]. */
  function MoveAll(cfg: Config, c: Cache, words: seq<nat>, olds: seq<int>, news: seq<int>): (r: Cache)
    requires |words| == |olds| == |news| && forall i :: 0 <= i < |words| ==> words[i] < cfg.V
    requires |c.vals| == |c.delta| == cfg.V && (cfg.localSync ==> |c.other| == cfg.V)
    ensures |r.vals| == |c.vals| && |r.delta| == |c.delta| && |r.other| == |c.other|
  {
    if |words| == 0 then c
    else
      var m := |words| - 1;
      MoveToken(cfg, MoveAll(cfg, c, words[..m], olds[..m], news[..m]), words[m], olds[m], news[m])
  }

  lemma RecordKeepsShape(cfg: Config, c: Cache, w: nat, k: int, d: int)
    requires Shaped(cfg, c) && w < cfg.V && 0 <= k < cfg.K
    requires Count(c.vals[w], k) + d >= 0
    ensures Shaped(cfg, Record(cfg, c, w, k, d))
  {
    var r := Record(cfg, c, w, k, d);
    forall v | 0 <= v < cfg.V ensures Clean(r.vals[v], cfg.K) {
      if v == w {
        forall j | j in r.vals[w] ensures r.vals[w][j] > 0 && 0 <= j < cfg.K {
          assert Count(r.vals[w], j) == r.vals[w][j];
          assert j == k || j in c.vals[w];
          assert NoZeros(r.vals[w]);
        }
      }
    }
  }

  // ---- schedules -----------------------------------------------------------------------------

  function RowOf(x: nat, V: nat): (r: nat)
    requires V > 0
    ensures 0 <= r < V
  {
    x % V
  }

  /** Rows first, first+1, ... taken cyclically. */
  function WrapRows(V: nat, first: nat, n: nat): (r: seq<nat>)
    requires V > 0
    ensures |r| == n && forall i :: 0 <= i < n ==> r[i] == RowOf(first + i, V)
  {
    seq<nat>(n, i requires 0 <= i < n => RowOf(first + i, V))
  }

  /** The rows i below n for which i + parity is even, in order. */
  function EvenRows(n: nat, parity: nat): (r: seq<nat>)
    ensures forall w: nat :: w in r <==> w < n && (w + parity) % 2 == 0
    ensures forall i :: 0 <= i < |r| ==> r[i] < n
  {
    if n == 0 then []
    else EvenRows(n - 1, parity) + (if (n - 1 + parity) % 2 == 1 then [] else [n - 1])
  }

  /** The rows push sends from word_topic_delta_ and pull fetches. */
  function OwnSchedule(cfg: Config, clientId: nat, item: Item, iter: nat): (r: seq<nat>)
    requires cfg.V > 0
    ensures forall i :: 0 <= i < |r| ==> r[i] < cfg.V
  {
    if cfg.localSync then EvenRows(cfg.V, iter)
    else WrapRows(cfg.V, item.first, item.numRows) + (if cfg.bipartite then EvenRows(cfg.V, clientId) else [])
  }

  /** The rows push sends from word_topic_delta_other_. */
  function OtherSchedule(cfg: Config, item: Item): (r: seq<nat>)
    requires cfg.V > 0
    ensures forall i :: 0 <= i < |r| ==> r[i] < cfg.V
  {
    if cfg.localSync then WrapRows(cfg.V, item.first, item.numRows) else []
  }

  /** True when the client works on the second half [V, 2V) of the table. */
  predicate OwnHalf(cfg: Config, clientId: nat) {
    cfg.localSync && clientId % 2 == 1
  }

  function TableRow(V: nat, w: nat, half: bool): nat {
    w + (if half then V else 0)
  }

  // ---- pushing and pulling -------------------------------------------------------------------

  /** The delta maps after the scheduled rows have been pushed. */
  function Flush(d: seq<Row>, sched: seq<nat>): (r: seq<Row>)
    ensures |r| == |d|
    ensures forall w :: 0 <= w < |d| ==> r[w] == if w in sched then map[] else d[w]
  {
    seq(|d|, w requires 0 <= w < |d| => if w in sched then map[] else d[w])
  }

  /** The BatchInc calls of pushing the scheduled rows in order; a repeated row has nothing left to send. */
  function Batches(V: nat, d: seq<Row>, sched: seq<nat>, half: bool): (r: seq<Batch>)
    requires forall i :: 0 <= i < |sched| ==> sched[i] < |d|
    ensures |r| == |sched|
  {
    if |sched| == 0 then []
    else
      var m := |sched| - 1;
      Batches(V, d, sched[..m], half) + [Batch(TableRow(V, sched[m], half), Flush(d, sched[..m])[sched[m]])]
  }

  /** The cached rows after the scheduled rows were overwritten by fetched ones, in order. */
  function Overwrite<T>(rows: seq<T>, sched: seq<nat>, fetched: seq<T>): (r: seq<T>)
    requires |fetched| == |sched| && forall i :: 0 <= i < |sched| ==> sched[i] < |rows|
    ensures |r| == |rows|
  {
    if |sched| == 0 then rows
    else
      var m := |sched| - 1;
      Overwrite(rows, sched[..m], fetched[..m])[sched[m] := fetched[m]]
  }

  /** After overwriting, a scheduled row holds one of the rows fetched for it; the others are untouched. */
  lemma {:induction false} OverwriteAt<T>(rows: seq<T>, sched: seq<nat>, fetched: seq<T>, w: nat) returns (i: nat)
    requires |fetched| == |sched| && w < |rows| && forall j :: 0 <= j < |sched| ==> sched[j] < |rows|
    ensures w !in sched ==> Overwrite(rows, sched, fetched)[w] == rows[w]
    ensures w in sched ==> i < |sched| && sched[i] == w && Overwrite(rows, sched, fetched)[w] == fetched[i]
    ensures w in sched ==> forall j :: i < j < |sched| ==> sched[j] != w
  {
    i := 0;
    if |sched| > 0 {
      var m := |sched| - 1;
      if sched[m] == w {
        i := m;
      } else {
        assert w in sched ==> w in sched[..m];
        i := OverwriteAt(rows, sched[..m], fetched[..m], w);
      }
    }
  }

  /** The CHECKs of pullRow for the i-th scheduled row: old and new counts are positive and, for a single
      client, the row did not change in the background. */
  ghost predicate PullCheck(solo: bool, vals: seq<Row>, sched: seq<nat>, fetched: seq<Row>, i: nat)
    requires i < |fetched| == |sched| && forall j :: 0 <= j < |sched| ==> sched[j] < |vals|
  {
    var old_ := Overwrite(vals, sched[..i], fetched[..i])[sched[i]];
    Positive(old_) && Positive(fetched[i]) && (solo ==> old_ == fetched[i])
  }

  ghost predicate PullChecks(solo: bool, vals: seq<Row>, sched: seq<nat>, fetched: seq<Row>)
    requires |fetched| == |sched| && forall i :: 0 <= i < |sched| ==> sched[i] < |vals|
  {
    forall i :: 0 <= i < |sched| ==> PullCheck(solo, vals, sched, fetched, i)
  }

  /** The BatchIncs of pushing `so` from the other delta map and then `s` from the client's own. */
  function TwoBatches(V: nat, c: Cache, so: seq<nat>, s: seq<nat>, half: bool): (r: seq<Batch>)
    requires forall i :: 0 <= i < |so| ==> so[i] < |c.other|
    requires forall i :: 0 <= i < |s| ==> s[i] < |c.delta|
    ensures |r| == |so| + |s|
  {
    Batches(V, c.other, so, !half) + Batches(V, c.delta, s, half)
  }

  /** All BatchIncs of one push: the other half first, then the client's own. */
  function PushBatches(cfg: Config, cid: nat, c: Cache, item: Item, iter: nat): seq<Batch>
    requires cfg.Valid() && |c.delta| == cfg.V && (cfg.localSync ==> |c.other| == cfg.V)
  {
    TwoBatches(cfg.V, c, OtherSchedule(cfg, item), OwnSchedule(cfg, cid, item, iter), OwnHalf(cfg, cid))
  }

  lemma FlushShape(cfg: Config, c: Cache, so: seq<nat>, s: seq<nat>)
    requires Shaped(cfg, c)
    ensures Shaped(cfg, c.(delta := Flush(c.delta, s), other := Flush(c.other, so)))
  {
  }
}
