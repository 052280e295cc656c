/** What the cache of a FastDocSamplerVirtual remembers: any sequence of recorded changes, pushes and pulls,
    in any order and with repeated rows in the schedules. */
module CacheHistory {
  import opened SparseRow
  import opened SamplerCache

  /** A change recorded by SampleOneDoc, a push of two schedules, or a pull of one. */
  datatype Op =
    | Change(word: nat, topic: int, amount: int)
    | PushRows(others: seq<nat>, own: seq<nat>)
    | PullRows(rows: seq<nat>, fetched: seq<Row>)

  predicate Fits(cfg: Config, op: Op) {
    match op
    case Change(w, _, _) => w < cfg.V
    case PushRows(_, _) => true
    case PullRows(rows, fetched) => |fetched| == |rows| && forall i :: 0 <= i < |rows| ==> rows[i] < cfg.V
  }

  predicate Sized(cfg: Config, c: Cache) {
    |c.vals| == |c.delta| == cfg.V && |c.other| == if cfg.localSync then cfg.V else 0
  }

  function Apply(cfg: Config, c: Cache, op: Op): (r: Cache)
    requires Sized(cfg, c) && Fits(cfg, op)
    ensures Sized(cfg, r)
  {
    match op
    case Change(w, k, d) => Record(cfg, c, w, k, d)
    case PushRows(so, s) => c.(delta := Flush(c.delta, s), other := Flush(c.other, so))
    case PullRows(rows, fetched) => c.(vals := Overwrite(c.vals, rows, fetched))
  }

  function Run(cfg: Config, c: Cache, ops: seq<Op>): (r: Cache)
    requires Sized(cfg, c) && forall i :: 0 <= i < |ops| ==> Fits(cfg, ops[i])
    ensures Sized(cfg, r)
  {
    if |ops| == 0 then c else Apply(cfg, Run(cfg, c, ops[..|ops| - 1]), ops[|ops| - 1])
  }

  /** What one pull leaves in row w. */
  function LastOf(rows: seq<nat>, fetched: seq<Row>, w: nat, before: Row): Row
    requires |fetched| == |rows|
  {
    if |rows| == 0 then before
    else
      var m := |rows| - 1;
      if rows[m] == w then fetched[m] else LastOf(rows[..m], fetched[..m], w, before)
  }

  /** The row last fetched for w, or the one it started with. */
  function LastFetched(start: Row, ops: seq<Op>, w: nat): Row
    requires forall i :: 0 <= i < |ops| && ops[i].PullRows? ==> |ops[i].fetched| == |ops[i].rows|
  {
    if |ops| == 0 then start
    else
      var front, op := ops[..|ops| - 1], ops[|ops| - 1];
      if op.PullRows? then LastOf(op.rows, op.fetched, w, LastFetched(start, front, w))
      else LastFetched(start, front, w)
  }

  /** The changes of topic k of word w recorded since the row was last fetched, or last pushed. */
  function Recorded(ops: seq<Op>, w: nat, k: int, since: Boundary): int {
    if |ops| == 0 then 0
    else
      var front, op := ops[..|ops| - 1], ops[|ops| - 1];
      if Ends(op, w, since) then 0
      else Recorded(front, w, k, since) + if op.Change? && op.word == w && op.topic == k then op.amount else 0
  }

  datatype Boundary = Fetch | OwnPush | OtherPush

  predicate Ends(op: Op, w: nat, since: Boundary) {
    match since
    case Fetch => op.PullRows? && w in op.rows
    case OwnPush => op.PushRows? && w in op.own
    case OtherPush => op.PushRows? && w in op.others
  }

  lemma {:induction false} OverwriteIsLast(vals: seq<Row>, rows: seq<nat>, fetched: seq<Row>, w: nat)
    requires |fetched| == |rows| && w < |vals| && forall i :: 0 <= i < |rows| ==> rows[i] < |vals|
    ensures Overwrite(vals, rows, fetched)[w] == LastOf(rows, fetched, w, vals[w])
    ensures w !in rows ==> LastOf(rows, fetched, w, vals[w]) == vals[w]
    ensures w in rows ==> forall other :: LastOf(rows, fetched, w, other) == LastOf(rows, fetched, w, vals[w])
  {
    if |rows| > 0 {
      var m := |rows| - 1;
      assert w in rows <==> w in rows[..m] || w == rows[m];
      OverwriteIsLast(vals, rows[..m], fetched[..m], w);
    }
  }

  /** Each cached row equals the row last fetched for it plus every change recorded since, whether that was
      pushed meanwhile or is still pending. */
  lemma {:induction false} CachedRow(cfg: Config, c: Cache, ops: seq<Op>, w: nat, k: int)
    requires Sized(cfg, c) && w < cfg.V && forall i :: 0 <= i < |ops| ==> Fits(cfg, ops[i])
    ensures Count(Run(cfg, c, ops).vals[w], k) == Count(LastFetched(c.vals[w], ops, w), k) + Recorded(ops, w, k, Fetch)
  {
    if |ops| > 0 {
      var front, op := ops[..|ops| - 1], ops[|ops| - 1];
      CachedRow(cfg, c, front, w, k);
      if op.PullRows? {
        var before := Run(cfg, c, front);
        OverwriteIsLast(before.vals, op.rows, op.fetched, w);
        LastOfAbsent(op.rows, op.fetched, w, LastFetched(c.vals[w], front, w));
      }
    }
  }

  lemma {:induction false} LastOfAbsent(rows: seq<nat>, fetched: seq<Row>, w: nat, before: Row)
    requires |fetched| == |rows|
    ensures w !in rows ==> LastOf(rows, fetched, w, before) == before
  {
    if |rows| > 0 {
      var m := |rows| - 1;
      assert w in rows <==> w in rows[..m] || w == rows[m];
      LastOfAbsent(rows[..m], fetched[..m], w, before);
    }
  }

  /** From empty deltas, each delta map holds exactly what was recorded since its row was last pushed, and
      never a zero. */
  lemma {:induction false} PendingRow(cfg: Config, c: Cache, ops: seq<Op>, w: nat, k: int)
    requires Sized(cfg, c) && w < cfg.V && forall i :: 0 <= i < |ops| ==> Fits(cfg, ops[i])
    requires c.delta[w] == map[] && (cfg.localSync ==> c.other[w] == map[])
    ensures var r := Run(cfg, c, ops);
            && Count(r.delta[w], k) == Recorded(ops, w, k, OwnPush) && NoZeros(r.delta[w])
            && (cfg.localSync ==> Count(r.other[w], k) == Recorded(ops, w, k, OtherPush) && NoZeros(r.other[w]))
  {
    if |ops| > 0 {
      PendingRow(cfg, c, ops[..|ops| - 1], w, k);
    }
  }

  // ---- resampling as a sequence of changes ---------------------------------------------------

  /** Each token is taken out under its old topic and put back under its new one. */
  function Moves(words: seq<nat>, olds: seq<int>, news: seq<int>): (r: seq<Op>)
    requires |words| == |olds| == |news|
    ensures forall i :: 0 <= i < |r| ==> r[i].Change? && r[i].word in words
  {
    if |words| == 0 then []
    else
      var m := |words| - 1;
      Moves(words[..m], olds[..m], news[..m]) + [Change(words[m], olds[m], -1), Change(words[m], news[m], 1)]
  }

  lemma RunTwo(cfg: Config, c: Cache, ops: seq<Op>, a: Op, b: Op)
    requires Sized(cfg, c) && Fits(cfg, a) && Fits(cfg, b) && forall i :: 0 <= i < |ops| ==> Fits(cfg, ops[i])
    ensures Run(cfg, c, ops + [a, b]) == Apply(cfg, Apply(cfg, Run(cfg, c, ops), a), b)
  {
    var all := ops + [a, b];
    assert all[..|all| - 1] == ops + [a] && (ops + [a])[..|ops|] == ops;
  }

  /** What SampleOneDoc does to the cache is the run of its changes. */
  lemma {:induction false} MoveAllIsRun(cfg: Config, c: Cache, words: seq<nat>, olds: seq<int>, news: seq<int>)
    requires Sized(cfg, c) && |words| == |olds| == |news| && forall i :: 0 <= i < |words| ==> words[i] < cfg.V
    ensures forall i :: 0 <= i < |Moves(words, olds, news)| ==> Fits(cfg, Moves(words, olds, news)[i])
    ensures MoveAll(cfg, c, words, olds, news) == Run(cfg, c, Moves(words, olds, news))
  {
    if |words| > 0 {
      var m := |words| - 1;
      MoveAllIsRun(cfg, c, words[..m], olds[..m], news[..m]);
      RunTwo(cfg, c, Moves(words[..m], olds[..m], news[..m]), Change(words[m], olds[m], -1),
          Change(words[m], news[m], 1));
    }
  }
}
