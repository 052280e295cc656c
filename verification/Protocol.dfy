/** N clients that sample their own tokens against a private copy of the word-topic table, push their
    pending changes to the shared table and pull rows back, possibly seeing the pushes of others late. */
module Protocol {
  import opened SparseRow
  import opened Sums
  import opened SamplerCache

  datatype Token = Token(word: nat, topic: int)

  /** A pull follows the push with the same item and iteration. */
  datatype Phase = Sampling | Pushed(item: Item, iter: nat)

  /** How many pushes of each client a Get has seen. */
  type View = seq<nat>

  /** One sampler thread.  `id` is the client id of its process, which several threads may share.  `init`,
      `log` (all its BatchIncs) and `seen` (the view behind each cached row) are history: no step decides
      anything by them except which rows a Get may return. */
  datatype Client = Client(id: nat, init: seq<Token>, tokens: seq<Token>, cache: Cache, log: seq<Batch>,
                           phase: Phase, seen: seq<View>)

  datatype State = State(clients: seq<Client>, table: seq<Row>)

  datatype Step =
    | Sample(cid: nat, i: nat, topic: int)
    | Push(cid: nat, item: Item, iter: nat)
    | Pull(cid: nat, views: seq<View>)

  datatype Outcome = Next(s: State) | CheckFailed

  // ---- counting ------------------------------------------------------------------------------

  /** The client's own tokens of word w now assigned to topic k. */
  function Own(c: Client, w: nat, k: int): nat {
    multiset(c.tokens)[Token(w, k)]
  }

  function LogCount(log: seq<Batch>, r: nat, k: int): int {
    if |log| == 0 then 0
    else
      var b := log[|log| - 1];
      LogCount(log[..|log| - 1], r, k) + (if b.row == r then Count(b.delta, k) else 0)
  }

  /** What the first p pushes of a client, with its initial counts, contribute to a table row. */
  function Published(cfg: Config, c: Client, w: nat, half: bool, k: int, p: nat): int
    requires p <= |c.log|
  {
    multiset(c.init)[Token(w, k)] + LogCount(c.log[..p], TableRow(cfg.V, w, half), k)
  }

  ghost predicate ValidView(clients: seq<Client>, view: View) {
    |view| == |clients| && forall j :: 0 <= j < |view| ==> view[j] <= |clients[j].log|
  }

  function Contributions(cfg: Config, clients: seq<Client>, w: nat, half: bool, k: int, view: View): (r: seq<int>)
    requires ValidView(clients, view)
    ensures |r| == |clients|
    ensures forall j :: 0 <= j < |r| ==> r[j] == Published(cfg, clients[j], w, half, k, view[j])
  {
    seq(|clients|, j requires 0 <= j < |clients| => Published(cfg, clients[j], w, half, k, view[j]))
  }

  function FullView(clients: seq<Client>): (v: View)
    ensures ValidView(clients, v)
  {
    seq(|clients|, j requires 0 <= j < |clients| => |clients[j].log|)
  }

  predicate UsedHalf(cfg: Config, half: bool) {
    half ==> cfg.localSync
  }

  /** The changes a client has not yet pushed to the given half. */
  function Pending(cfg: Config, id: nat, c: Cache, w: nat, half: bool): Row
    requires w < |c.delta| && (half != OwnHalf(cfg, id) ==> w < |c.other|)
  {
    if half == OwnHalf(cfg, id) then c.delta[w] else c.other[w]
  }

  // ---- steps ---------------------------------------------------------------------------------

  ghost predicate WellFormed(cfg: Config, s: State) {
    && cfg.Valid() && |s.clients| > 0
    && |s.table| == (if cfg.localSync then 2 * cfg.V else cfg.V)
    && forall j :: 0 <= j < |s.clients| ==>
         && Shaped(cfg, s.clients[j].cache)
         && |s.clients[j].seen| == cfg.V
         && forall i :: 0 <= i < |s.clients[j].tokens| ==>
              s.clients[j].tokens[i].word < cfg.V && 0 <= s.clients[j].tokens[i].topic < cfg.K
  }

  ghost predicate Enabled(cfg: Config, s: State, step: Step) {
    && WellFormed(cfg, s) && step.cid < |s.clients|
    && var c := s.clients[step.cid];
       match step
       case Sample(_, i, topic) => c.phase.Sampling? && i < |c.tokens| && 0 <= topic < cfg.K
       case Push(_, item, _) => c.phase.Sampling? && item.first <= cfg.V
       case Pull(cid, views) =>
         && c.phase.Pushed?
         && |views| == |OwnSchedule(cfg, s.clients[cid].id, c.phase.item, c.phase.iter)|
         && forall j :: 0 <= j < |views| ==> ValidView(s.clients, views[j]) && views[j][cid] == |c.log|
  }

  /** The row a Get with this view returns: no zero entries. */
  function Fetched(cfg: Config, clients: seq<Client>, w: nat, half: bool, view: View): (r: Row)
    requires ValidView(clients, view)
    ensures NoZeros(r) && TopicsBelow(r, cfg.K)
    ensures forall k :: 0 <= k < cfg.K ==> Count(r, k) == Sum(Contributions(cfg, clients, w, half, k, view))
  {
    map k | 0 <= k < cfg.K && Sum(Contributions(cfg, clients, w, half, k, view)) != 0
      :: Sum(Contributions(cfg, clients, w, half, k, view))
  }

  function FetchedRows(cfg: Config, clients: seq<Client>, sched: seq<nat>, half: bool, views: seq<View>): (r: seq<Row>)
    requires |views| == |sched| && forall j :: 0 <= j < |views| ==> ValidView(clients, views[j])
    ensures |r| == |sched|
    ensures forall i :: 0 <= i < |r| ==> r[i] == Fetched(cfg, clients, sched[i], half, views[i])
  {
    seq(|sched|, i requires 0 <= i < |sched| => Fetched(cfg, clients, sched[i], half, views[i]))
  }

  function Deliver(table: seq<Row>, bs: seq<Batch>): (r: seq<Row>)
    requires forall i :: 0 <= i < |bs| ==> bs[i].row < |table|
    ensures |r| == |table|
  {
    if |bs| == 0 then table
    else
      var b := bs[|bs| - 1];
      var t := Deliver(table, bs[..|bs| - 1]);
      t[b.row := Plus(t[b.row], b.delta)]
  }

  function PushedClient(cfg: Config, c: Client, item: Item, iter: nat): Client
    requires cfg.Valid() && |c.cache.delta| == cfg.V && (cfg.localSync ==> |c.cache.other| == cfg.V)
  {
    c.(cache := c.cache.(delta := Flush(c.cache.delta, OwnSchedule(cfg, c.id, item, iter)),
                         other := Flush(c.cache.other, OtherSchedule(cfg, item))),
       log := c.log + PushBatches(cfg, c.id, c.cache, item, iter),
       phase := Pushed(item, iter))
  }

  lemma {:induction false} BatchRows(cfg: Config, d: seq<Row>, sched: seq<nat>, half: bool)
    requires |d| == cfg.V && forall i :: 0 <= i < |sched| ==> sched[i] < cfg.V
    ensures forall i :: 0 <= i < |sched| ==> Batches(cfg.V, d, sched, half)[i].row == TableRow(cfg.V, sched[i], half)
  {
    if |sched| > 0 {
      BatchRows(cfg, d, sched[..|sched| - 1], half);
    }
  }

  lemma PushBatchesFit(cfg: Config, id: nat, c: Cache, item: Item, iter: nat)
    requires cfg.Valid() && |c.delta| == cfg.V && (cfg.localSync ==> |c.other| == cfg.V)
    ensures forall i :: 0 <= i < |PushBatches(cfg, id, c, item, iter)| ==>
              PushBatches(cfg, id, c, item, iter)[i].row < (if cfg.localSync then 2 * cfg.V else cfg.V)
  {
    if cfg.localSync {
      BatchRows(cfg, c.other, OtherSchedule(cfg, item), !OwnHalf(cfg, id));
    }
    BatchRows(cfg, c.delta, OwnSchedule(cfg, id, item, iter), OwnHalf(cfg, id));
  }

  /** The CHECKs of SampleOneDoc at one token: the topic to remove is there, and no count left in the
      row is non-positive. */
  ghost predicate SampleChecks(c: Cache, w: nat, old_: int)
    requires w < |c.vals|
  {
    old_ in c.vals[w] && Positive(Bump(c.vals[w], old_, -1))
  }

  ghost function Exec(cfg: Config, s: State, step: Step): Outcome
    requires Enabled(cfg, s, step)
  {
    var c := s.clients[step.cid];
    match step
    case Sample(cid, i, topic) =>
      var t := c.tokens[i];
      if !SampleChecks(c.cache, t.word, t.topic) then CheckFailed
      else
        var c' := c.(tokens := c.tokens[i := Token(t.word, topic)],
                     cache := MoveToken(cfg, c.cache, t.word, t.topic, topic));
        Next(s.(clients := s.clients[cid := c']))
    case Push(cid, item, iter) =>
      PushBatchesFit(cfg, s.clients[cid].id, c.cache, item, iter);
      Next(State(s.clients[cid := PushedClient(cfg, c, item, iter)],
                 Deliver(s.table, PushBatches(cfg, s.clients[cid].id, c.cache, item, iter))))
    case Pull(cid, views) =>
      var sched := OwnSchedule(cfg, s.clients[cid].id, c.phase.item, c.phase.iter);
      var fetched := FetchedRows(cfg, s.clients, sched, OwnHalf(cfg, s.clients[cid].id), views);
      if !PullChecks(|s.clients| == 1, c.cache.vals, sched, fetched) then CheckFailed
      else
        var c' := c.(cache := c.cache.(vals := Overwrite(c.cache.vals, sched, fetched)),
                     phase := Sampling, seen := Overwrite(c.seen, sched, views));
        Next(s.(clients := s.clients[cid := c']))
  }

  /** The start: both halves of the table, and every cached row, hold the clients' initial counts. */
  ghost predicate Init(cfg: Config, s: State) {
    && WellFormed(cfg, s)
    && (forall j :: 0 <= j < |s.clients| ==>
          var c := s.clients[j];
          && c.init == c.tokens && c.log == [] && c.phase.Sampling?
          && (forall w :: 0 <= w < cfg.V ==> c.cache.delta[w] == map[] && c.seen[w] == FullView(s.clients))
          && (forall w :: 0 <= w < |c.cache.other| ==> c.cache.other[w] == map[])
          && (forall w, k :: 0 <= w < cfg.V && 0 <= k < cfg.K ==>
                Count(c.cache.vals[w], k) == Sum(Contributions(cfg, s.clients, w, false, k, FullView(s.clients)))))
    && (forall w, half, k :: 0 <= w < cfg.V && UsedHalf(cfg, half) && 0 <= k < cfg.K ==>
          Count(s.table[TableRow(cfg.V, w, half)], k)
          == Sum(Contributions(cfg, s.clients, w, half, k, FullView(s.clients))))
  }

  /** A run: from an initial state, every step enabled and completed. */
  ghost predicate Trace(cfg: Config, states: seq<State>, steps: seq<Step>) {
    && |states| == |steps| + 1 && Init(cfg, states[0])
    && forall i :: 0 <= i < |steps| ==>
         Enabled(cfg, states[i], steps[i]) && Exec(cfg, states[i], steps[i]) == Next(states[i + 1])
  }

  // ---- the invariant -------------------------------------------------------------------------

  /** What a client published plus what it has pending is what it owns; and no prefix of its pushes
      ever contributes a negative count. */
  ghost predicate Accounts(cfg: Config, c: Client)
    requires Shaped(cfg, c.cache) && cfg.Valid()
  {
    && (forall w, half, k :: 0 <= w < cfg.V && UsedHalf(cfg, half) && 0 <= k < cfg.K ==>
          Published(cfg, c, w, half, k, |c.log|) + Count(Pending(cfg, c.id, c.cache, w, half), k) == Own(c, w, k))
    && (forall w, half, k, p :: 0 <= w < cfg.V && UsedHalf(cfg, half) && 0 <= k < cfg.K && 0 <= p <= |c.log| ==>
          Published(cfg, c, w, half, k, p) >= 0)
  }

  /** Between a push and its pull nothing is pending for the rows about to be fetched. */
  ghost predicate ClientInv(cfg: Config, c: Client)
    requires Shaped(cfg, c.cache) && cfg.Valid()
  {
    && Accounts(cfg, c)
    && (c.phase.Pushed? ==>
          forall w :: w in OwnSchedule(cfg, c.id, c.phase.item, c.phase.iter) ==> c.cache.delta[w] == map[])
  }

  /** The cached count of a client: its own tokens now, plus what every other client had published
      when the row was last fetched. */
  ghost predicate CachedInv(cfg: Config, clients: seq<Client>, cid: nat)
    requires cid < |clients| && Shaped(cfg, clients[cid].cache) && |clients[cid].seen| == cfg.V
  {
    var c := clients[cid];
    && (forall w :: 0 <= w < cfg.V ==> ValidView(clients, c.seen[w]))
    && (forall w, k :: 0 <= w < cfg.V && 0 <= k < cfg.K ==>
          Count(c.cache.vals[w], k)
          == Own(c, w, k) + Sum(Contributions(cfg, clients, w, OwnHalf(cfg, clients[cid].id), k, c.seen[w])[cid := 0]))
  }

  ghost predicate TableInv(cfg: Config, s: State)
    requires WellFormed(cfg, s)
  {
    forall w, half, k :: 0 <= w < cfg.V && UsedHalf(cfg, half) && 0 <= k < cfg.K ==>
      Count(s.table[TableRow(cfg.V, w, half)], k)
      == Sum(Contributions(cfg, s.clients, w, half, k, FullView(s.clients)))
  }

  ghost predicate Inv(cfg: Config, s: State) {
    && WellFormed(cfg, s)
    && (forall j :: 0 <= j < |s.clients| ==> ClientInv(cfg, s.clients[j]))
    && (forall j :: 0 <= j < |s.clients| ==> CachedInv(cfg, s.clients, j))
    && TableInv(cfg, s)
  }
}
