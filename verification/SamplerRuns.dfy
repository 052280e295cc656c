/** The class that edits a cache in place, run as one client of the protocol: started from the filled table it
    has the cache the protocol starts with, and neither sampling, pushing nor pulling ever stops it. */
module SamplerRuns {
  import opened SparseRow
  import opened Sums
  import opened SamplerCache
  import opened Protocol
  import opened ProtocolSafety
  import Gibbs
  import FastDocSamplerVirtual

  // ---- the start -----------------------------------------------------------------------------

  /** Clients with their tokens, before any cache is built. */
  function Bare(ids: seq<nat>, tokens: seq<seq<Token>>): (r: seq<Client>)
    requires |ids| == |tokens|
    ensures |r| == |ids|
    ensures forall j :: 0 <= j < |r| ==> r[j].id == ids[j] && r[j].init == r[j].tokens == tokens[j] && r[j].log == []
  {
    seq(|ids|, j requires 0 <= j < |ids| =>
      Client(ids[j], tokens[j], tokens[j], Cache([], [], []), [], Sampling, []))
  }

  /** The filled half of the table: every client's tokens counted, zeros not stored. */
  function FilledHalf(cfg: Config, clients: seq<Client>, half: bool): (r: seq<Row>)
    ensures |r| == cfg.V
    ensures forall w :: 0 <= w < cfg.V ==> r[w] == Fetched(cfg, clients, w, half, FullView(clients))
  {
    seq(cfg.V, w requires 0 <= w < cfg.V => Fetched(cfg, clients, w, half, FullView(clients)))
  }

  function NoChanges(n: nat): (r: seq<Row>)
    ensures |r| == n && forall w :: 0 <= w < n ==> r[w] == map[]
  {
    seq(n, w requires 0 <= w < n => map[])
  }

  function FirstCache(cfg: Config, clients: seq<Client>): Cache {
    Cache(FilledHalf(cfg, clients, false), NoChanges(cfg.V), NoChanges(if cfg.localSync then cfg.V else 0))
  }

  function FirstViews(cfg: Config, clients: seq<Client>): (r: seq<View>)
    ensures |r| == cfg.V && forall w :: 0 <= w < cfg.V ==> r[w] == FullView(clients)
  {
    seq(cfg.V, w requires 0 <= w < cfg.V => FullView(clients))
  }

  function FirstClients(cfg: Config, clients: seq<Client>): (r: seq<Client>)
    ensures |r| == |clients|
    ensures forall j :: 0 <= j < |r| ==>
              r[j] == clients[j].(cache := FirstCache(cfg, clients), seen := FirstViews(cfg, clients))
  {
    seq(|clients|, j requires 0 <= j < |clients| =>
      clients[j].(cache := FirstCache(cfg, clients), seen := FirstViews(cfg, clients)))
  }

  /** The table filled with these tokens and every client's cache read from its first half. */
  function Started(cfg: Config, ids: seq<nat>, tokens: seq<seq<Token>>): State
    requires |ids| == |tokens|
  {
    var bare := Bare(ids, tokens);
    State(FirstClients(cfg, bare),
          FilledHalf(cfg, bare, false) + (if cfg.localSync then FilledHalf(cfg, bare, true) else []))
  }

  ghost predicate Corpus(cfg: Config, ids: seq<nat>, tokens: seq<seq<Token>>) {
    && cfg.Valid() && |ids| == |tokens| > 0
    && forall j, i :: 0 <= j < |tokens| && 0 <= i < |tokens[j]| ==>
         tokens[j][i].word < cfg.V && 0 <= tokens[j][i].topic < cfg.K
  }

  /** The initial counts of one client are natural. */
  lemma BareNatural(cfg: Config, clients: seq<Client>, w: nat, half: bool, k: int)
    requires forall j :: 0 <= j < |clients| ==> clients[j].log == []
    ensures Sum(Contributions(cfg, clients, w, half, k, FullView(clients))) >= 0
    ensures Sum(Contributions(cfg, clients, w, half, k, FullView(clients)))
            == Sum(Contributions(cfg, clients, w, false, k, FullView(clients)))
  {
    var xs := Contributions(cfg, clients, w, half, k, FullView(clients));
    forall j | 0 <= j < |xs| ensures xs[j] == multiset(clients[j].init)[Token(w, k)] >= 0 {
      assert clients[j].log[..0] == [];
    }
    assert xs == Contributions(cfg, clients, w, false, k, FullView(clients));
    if |xs| > 0 {
      SumAtLeast(xs, 0);
    }
  }

  lemma FilledClean(cfg: Config, clients: seq<Client>, half: bool, w: nat)
    requires w < cfg.V && forall j :: 0 <= j < |clients| ==> clients[j].log == []
    ensures Clean(FilledHalf(cfg, clients, half)[w], cfg.K)
  {
    var row := FilledHalf(cfg, clients, half)[w];
    forall k | k in row ensures row[k] > 0 {
      BareNatural(cfg, clients, w, half, k);
      assert Count(row, k) == row[k] && 0 <= k < cfg.K;
    }
  }

  lemma FirstShaped(cfg: Config, clients: seq<Client>)
    requires forall j :: 0 <= j < |clients| ==> clients[j].log == []
    ensures Shaped(cfg, FirstCache(cfg, clients))
  {
    forall w | 0 <= w < cfg.V ensures Clean(FirstCache(cfg, clients).vals[w], cfg.K) {
      FilledClean(cfg, clients, false, w);
    }
  }

  lemma SameContributions(cfg: Config, clients: seq<Client>, w: nat, half: bool, k: int)
    ensures FullView(FirstClients(cfg, clients)) == FullView(clients)
    ensures Contributions(cfg, FirstClients(cfg, clients), w, half, k, FullView(clients))
            == Contributions(cfg, clients, w, half, k, FullView(clients))
  {
    ContributionsStable(cfg, clients, FirstClients(cfg, clients), w, half, k, FullView(clients));
  }

  lemma StartedWellFormed(cfg: Config, ids: seq<nat>, tokens: seq<seq<Token>>)
    requires Corpus(cfg, ids, tokens)
    ensures WellFormed(cfg, Started(cfg, ids, tokens))
  {
    FirstShaped(cfg, Bare(ids, tokens));
  }

  lemma FilledCount(cfg: Config, clients: seq<Client>, w: nat, half: bool, k: int)
    requires w < cfg.V && 0 <= k < cfg.K
    ensures Count(FilledHalf(cfg, clients, half)[w], k)
            == Sum(Contributions(cfg, FirstClients(cfg, clients), w, half, k, FullView(FirstClients(cfg, clients))))
  {
    SameContributions(cfg, clients, w, half, k);
  }

  lemma HalfRow(a: seq<Row>, b: seq<Row>, V: nat, w: nat, half: bool)
    requires |a| == V && w < V && (half ==> |b| == V)
    ensures TableRow(V, w, half) < |a + b| && (a + b)[TableRow(V, w, half)] == (if half then b else a)[w]
  {
  }

  lemma {:induction false} StartedTable(cfg: Config, bare: seq<Client>, w: nat, half: bool, k: int, s: State)
    requires w < cfg.V && UsedHalf(cfg, half) && 0 <= k < cfg.K && s.clients == FirstClients(cfg, bare)
    requires s.table == FilledHalf(cfg, bare, false) + (if cfg.localSync then FilledHalf(cfg, bare, true) else [])
    ensures Count(s.table[TableRow(cfg.V, w, half)], k)
            == Sum(Contributions(cfg, s.clients, w, half, k, FullView(s.clients)))
  {
    HalfRow(FilledHalf(cfg, bare, false), if cfg.localSync then FilledHalf(cfg, bare, true) else [], cfg.V, w, half);
    FilledCount(cfg, bare, w, half, k);
  }

  lemma {:induction false} StartedCount(cfg: Config, bare: seq<Client>, j: nat, w: nat, k: int, clients: seq<Client>)
    requires j < |bare| && w < cfg.V && 0 <= k < cfg.K && clients == FirstClients(cfg, bare)
    ensures Count(clients[j].cache.vals[w], k)
            == Sum(Contributions(cfg, clients, w, false, k, FullView(clients)))
  {
    FilledCount(cfg, bare, w, false, k);
  }

  /** Whatever tokens the clients hold, the table filled with them and the caches read from it are a start of
      the protocol. */
  lemma {:induction false} StartedInit(cfg: Config, ids: seq<nat>, tokens: seq<seq<Token>>)
    requires Corpus(cfg, ids, tokens)
    ensures Init(cfg, Started(cfg, ids, tokens))
  {
    var bare, s := Bare(ids, tokens), Started(cfg, ids, tokens);
    StartedWellFormed(cfg, ids, tokens);
    SameContributions(cfg, bare, 0, false, 0);
    forall w, half, k | 0 <= w < cfg.V && UsedHalf(cfg, half) && 0 <= k < cfg.K
      ensures Count(s.table[TableRow(cfg.V, w, half)], k)
              == Sum(Contributions(cfg, s.clients, w, half, k, FullView(s.clients)))
    {
      StartedTable(cfg, bare, w, half, k, s);
    }
    forall j, w, k | 0 <= j < |s.clients| && 0 <= w < cfg.V && 0 <= k < cfg.K
      ensures Count(s.clients[j].cache.vals[w], k)
              == Sum(Contributions(cfg, s.clients, w, false, k, FullView(s.clients)))
    {
      StartedCount(cfg, bare, j, w, k, s.clients);
    }
  }

  // ---- one client ----------------------------------------------------------------------------

  /** The sampler is client cid of the state. */
  ghost predicate Runs(sampler: FastDocSamplerVirtual.Sampler, cfg: Config, s: State, cid: nat)
    reads sampler
  {
    && cid < |s.clients| && sampler.Valid() && sampler.cfg == cfg && sampler.clientId == s.clients[cid].id
    && sampler.solo == (|s.clients| == 1) && sampler.Abs() == s.clients[cid].cache
  }

  /** Building the cache from the filled table never finds a non-positive count. */
  method Start(sampler: FastDocSamplerVirtual.Sampler, fetched: seq<Row>, ghost cfg: Config, ghost ids: seq<nat>,
               ghost tokens: seq<seq<Token>>, ghost cid: nat)
    returns (ok: bool)
    requires Corpus(cfg, ids, tokens) && cid < |ids| && sampler.Usable() && sampler.cfg == cfg
    requires sampler.clientId == ids[cid] && sampler.solo == (|ids| == 1)
    requires fetched == Started(cfg, ids, tokens).table[..cfg.V]
    modifies sampler
    ensures ok && Init(cfg, Started(cfg, ids, tokens)) && Runs(sampler, cfg, Started(cfg, ids, tokens), cid)
  {
    ghost var bare := Bare(ids, tokens);
    StartedInit(cfg, ids, tokens);
    assert fetched == FilledHalf(cfg, bare, false);
    forall w | 0 <= w < cfg.V ensures Clean(fetched[w], cfg.K) {
      FilledClean(cfg, bare, false, w);
    }
    ok := sampler.BuildGlobalCache(fetched);
    assert sampler.Abs() == FirstCache(cfg, bare);
  }

  /** The tokens from `start` on have these words and topics. */
  predicate IsDocument(ts: seq<Token>, start: nat, words: seq<nat>, topics: seq<int>)
    requires start + |words| <= |ts|
  {
    Words(Document(ts, start, |words|)) == words && Topics(Document(ts, start, |words|)) == topics
  }

  lemma DocumentFits(cfg: Config, ts: seq<Token>, start: nat, words: seq<nat>, topics: seq<int>)
    requires start + |words| <= |ts| && IsDocument(ts, start, words, topics)
    requires forall i :: 0 <= i < |ts| ==> ts[i].word < cfg.V && 0 <= ts[i].topic < cfg.K
    ensures |topics| == |words|
    ensures forall i :: 0 <= i < |words| ==> words[i] < cfg.V && 0 <= topics[i] < cfg.K
  {
    var doc := Document(ts, start, |words|);
    forall i | 0 <= i < |words| ensures words[i] < cfg.V && 0 <= topics[i] < cfg.K {
      assert Words(doc)[i] == doc[i].word && Topics(doc)[i] == doc[i].topic && doc[i] == ts[start + i];
    }
  }

  /** Resampling a document of the client: every token is processed, and the state is again one the protocol
      may be in. */
  method SampleDocument(sampler: FastDocSamplerVirtual.Sampler, words: seq<nat>, topics: array<int>, darts: seq<real>,
                        ghost cfg: Config, ghost s: State, ghost cid: nat, ghost start: nat)
    returns (done: nat, ghost next: State)
    requires Inv(cfg, s) && Runs(sampler, cfg, s, cid) && s.clients[cid].phase.Sampling?
    requires |words| == topics.Length == |darts| && start + |words| <= |s.clients[cid].tokens|
    requires IsDocument(s.clients[cid].tokens, start, words, topics[..])
    requires forall i :: 0 <= i < |words| ==> 0.0 <= darts[i] < 1.0
    modifies sampler, topics
    ensures done == |words| && next == AfterDocument(cfg, s, cid, start, topics[..])
    ensures Inv(cfg, next) && Runs(sampler, cfg, next, cid)
  {
    ghost var olds := topics[..];
    DocumentFits(cfg, s.clients[cid].tokens, start, words, olds);
    done := Resample(sampler, words, topics, darts, s.clients[cid].cache);
    next := Finished(cfg, s, cid, start, words, olds, topics[..done], sampler.Abs());
    assert topics[..done] == topics[..];
  }

  /** What SampleOneDoc does to the cache and the topics. */
  method Resample(sampler: FastDocSamplerVirtual.Sampler, words: seq<nat>, topics: array<int>, darts: seq<real>,
                  ghost c: Cache)
    returns (done: nat)
    requires sampler.Valid() && c == sampler.Abs() && |words| == topics.Length == |darts|
    requires forall i :: 0 <= i < |words| ==> words[i] < sampler.cfg.V && 0.0 <= darts[i] < 1.0
    requires Gibbs.InRange(topics[..], sampler.cfg.K)
    modifies sampler, topics
    ensures done <= |words| && Gibbs.InRange(topics[..done], sampler.cfg.K) && (done == |words| ==> sampler.Valid())
    ensures sampler.Abs() == MoveAll(sampler.cfg, c, words[..done], old(topics[..])[..done], topics[..done])
    ensures done < |words| ==> old(topics[..])[done] !in sampler.Abs().vals[words[done]]
  {
    assert forall i :: 0 <= i < |words| ==> topics[..][i] == topics[i];
    done := sampler.SampleOneDoc(words, topics, darts);
  }

  /** A document that was left early would have a next token that is not cached. */
  lemma Finished(cfg: Config, s: State, cid: nat, start: nat, words: seq<nat>, olds: seq<int>, news: seq<int>,
                 a: Cache)
    returns (next: State)
    requires Inv(cfg, s) && cid < |s.clients| && s.clients[cid].phase.Sampling?
    requires |news| <= |words| == |olds| && start + |words| <= |s.clients[cid].tokens|
    requires IsDocument(s.clients[cid].tokens, start, words, olds)
    requires forall i :: 0 <= i < |words| ==> words[i] < cfg.V
    requires Gibbs.InRange(news, cfg.K)
    requires a == MoveAll(cfg, s.clients[cid].cache, words[..|news|], olds[..|news|], news)
    requires |news| < |words| ==> olds[|news|] !in a.vals[words[|news|]]
    ensures |news| == |words| && next == AfterDocument(cfg, s, cid, start, news)
    ensures Inv(cfg, next) && next.clients[cid] == s.clients[cid].(tokens := next.clients[cid].tokens, cache := a)
    ensures |next.clients| == |s.clients|
  {
    Stretch(cfg, s.clients[cid].cache, s.clients[cid].tokens, start, words, olds, news);
    NotEarly(cfg, s, cid, start, words, olds, news, a);
    DocumentSampled(cfg, s, cid, start, news);
    next := AfterDocument(cfg, s, cid, start, news);
  }

  lemma {:induction false} NotEarly(cfg: Config, s: State, cid: nat, start: nat, words: seq<nat>, olds: seq<int>,
                                    news: seq<int>, a: Cache)
    requires Inv(cfg, s) && cid < |s.clients| && s.clients[cid].phase.Sampling?
    requires |news| <= |words| == |olds| && start + |words| <= |s.clients[cid].tokens|
    requires IsDocument(s.clients[cid].tokens, start, words, olds) && Gibbs.InRange(news, cfg.K)
    requires a == MoveDocument(cfg, s.clients[cid].cache, s.clients[cid].tokens, start, news)
    requires |news| < |words| ==> words[|news|] < |a.vals| && olds[|news|] !in a.vals[words[|news|]]
    ensures |news| == |words|
  {
    if |news| < |words| {
      TokenAt(s.clients[cid].tokens, start, words, olds, |news|);
      NextIsCached(cfg, s, cid, start, words, olds, news, a);
    }
  }

  /** The words and topics of a stretch of tokens are those handed to the class. */
  lemma Stretch(cfg: Config, c: Cache, ts: seq<Token>, start: nat, words: seq<nat>, olds: seq<int>, news: seq<int>)
    requires |news| <= |words| == |olds| && start + |words| <= |ts|
    requires IsDocument(ts, start, words, olds) && forall i :: 0 <= i < |ts| ==> ts[i].word < cfg.V
    requires forall i :: 0 <= i < |words| ==> words[i] < cfg.V
    requires |c.vals| == |c.delta| == cfg.V && (cfg.localSync ==> |c.other| == cfg.V)
    ensures MoveDocument(cfg, c, ts, start, news) == MoveAll(cfg, c, words[..|news|], olds[..|news|], news)
  {
    var doc, whole := Document(ts, start, |news|), Document(ts, start, |words|);
    assert doc == whole[..|news|];
    assert Words(doc) == Words(whole)[..|news|] && Topics(doc) == Topics(whole)[..|news|];
  }

  lemma TokenAt(ts: seq<Token>, start: nat, words: seq<nat>, olds: seq<int>, n: nat)
    requires n < |words| == |olds| && start + |words| <= |ts| && IsDocument(ts, start, words, olds)
    ensures ts[start + n] == Token(words[n], olds[n])
  {
    var doc := Document(ts, start, |words|);
    assert Words(doc)[n] == doc[n].word && Topics(doc)[n] == doc[n].topic && doc[n] == ts[start + n];
  }

  /** DocumentNeverStops, in terms of what was handed to the class. */
  lemma {:induction false} NextIsCached(cfg: Config, s: State, cid: nat, start: nat, words: seq<nat>, olds: seq<int>,
                                        news: seq<int>, a: Cache)
    requires Inv(cfg, s) && cid < |s.clients| && s.clients[cid].phase.Sampling?
    requires |news| < |words| == |olds| && start + |words| <= |s.clients[cid].tokens|
    requires s.clients[cid].tokens[start + |news|] == Token(words[|news|], olds[|news|])
    requires Gibbs.InRange(news, cfg.K)
    requires a == MoveDocument(cfg, s.clients[cid].cache, s.clients[cid].tokens, start, news)
    ensures words[|news|] < |a.vals| && olds[|news|] in a.vals[words[|news|]]
  {
    DocumentNeverStops(cfg, s, cid, start, news);
  }

  /** Pushing: the batches sent are those of the client's step. */
  method PushRows(sampler: FastDocSamplerVirtual.Sampler, item: Item, iter: nat,
                  ghost cfg: Config, ghost s: State, ghost cid: nat)
    returns (bs: seq<Batch>, ghost next: State)
    requires Inv(cfg, s) && Runs(sampler, cfg, s, cid) && Enabled(cfg, s, Push(cid, item, iter))
    modifies sampler
    ensures Exec(cfg, s, Push(cid, item, iter)) == Next(next) && Inv(cfg, next) && Runs(sampler, cfg, next, cid)
    ensures bs == PushBatches(cfg, s.clients[cid].id, s.clients[cid].cache, item, iter)
    ensures next.clients[cid].phase == Pushed(item, iter)
  {
    PushKeeps(cfg, s, cid, item, iter);
    next := Exec(cfg, s, Push(cid, item, iter)).s;
    bs := sampler.Push(item, iter);
  }

  /** Pulling: whatever the views, no CHECK fails. */
  method PullRows(sampler: FastDocSamplerVirtual.Sampler, item: Item, iter: nat, fetched: seq<Row>,
                  ghost cfg: Config, ghost s: State, ghost cid: nat, ghost views: seq<View>)
    returns (ok: bool, ghost next: State)
    requires Inv(cfg, s) && Runs(sampler, cfg, s, cid) && Enabled(cfg, s, Pull(cid, views))
    requires s.clients[cid].phase == Pushed(item, iter) && item.first <= cfg.V
    requires var id := s.clients[cid].id;
             fetched == FetchedRows(cfg, s.clients, OwnSchedule(cfg, id, item, iter), OwnHalf(cfg, id), views)
    modifies sampler
    ensures ok && Exec(cfg, s, Pull(cid, views)) == Next(next) && Inv(cfg, next) && Runs(sampler, cfg, next, cid)
  {
    PullKeeps(cfg, s, cid, views);
    PullChecksHold(cfg, s, cid, views);
    next := Exec(cfg, s, Pull(cid, views)).s;
    ok := sampler.Pull(item, iter, fetched);
  }

  // ---- other clients in between ----------------------------------------------------------------

  /** A stretch of a run. */
  ghost predicate Path(cfg: Config, states: seq<State>, steps: seq<Step>) {
    && |states| == |steps| + 1
    && forall i :: 0 <= i < |steps| ==>
         Enabled(cfg, states[i], steps[i]) && Exec(cfg, states[i], steps[i]) == Next(states[i + 1])
  }

  /** A stretch of a run in which only the other clients move. */
  ghost predicate Meanwhile(cfg: Config, states: seq<State>, steps: seq<Step>, cid: nat) {
    Path(cfg, states, steps) && forall i :: 0 <= i < |steps| ==> steps[i].cid != cid
  }

  lemma {:induction false} OthersMove(cfg: Config, states: seq<State>, steps: seq<Step>, cid: nat, n: nat)
    requires Meanwhile(cfg, states, steps, cid) && n < |states| && Inv(cfg, states[0]) && cid < |states[0].clients|
    ensures Inv(cfg, states[n]) && |states[n].clients| == |states[0].clients|
    ensures states[n].clients[cid] == states[0].clients[cid]
  {
    if n > 0 {
      OthersMove(cfg, states, steps, cid, n - 1);
      StepKeeps(cfg, states[n - 1], steps[n - 1]);
      assert Exec(cfg, states[n - 1], steps[n - 1]) == Next(states[n]);
      OneOther(cfg, states[n - 1], steps[n - 1], states[n], cid);
    }
  }

  lemma OneOther(cfg: Config, s: State, step: Step, next: State, cid: nat)
    requires Enabled(cfg, s, step) && Exec(cfg, s, step) == Next(next) && step.cid != cid < |s.clients|
    ensures |next.clients| == |s.clients| && next.clients[cid] == s.clients[cid]
  {
  }

  /** A push, any steps of the other clients, and the pull that follows: it never stops. */
  method Exchange(sampler: FastDocSamplerVirtual.Sampler, item: Item, iter: nat, fetched: seq<Row>,
                  ghost cfg: Config, ghost s: State, ghost cid: nat, ghost states: seq<State>, ghost steps: seq<Step>,
                  ghost views: seq<View>)
    returns (bs: seq<Batch>, ok: bool, ghost next: State)
    requires Inv(cfg, s) && Runs(sampler, cfg, s, cid) && Enabled(cfg, s, Push(cid, item, iter))
    requires Meanwhile(cfg, states, steps, cid) && Exec(cfg, s, Push(cid, item, iter)) == Next(states[0])
    requires Enabled(cfg, states[|steps|], Pull(cid, views))
    requires var id := s.clients[cid].id;
             var sched := OwnSchedule(cfg, id, item, iter);
             |views| == |sched|
             && fetched == FetchedRows(cfg, states[|steps|].clients, sched, OwnHalf(cfg, id), views)
    modifies sampler
    ensures ok && Exec(cfg, states[|steps|], Pull(cid, views)) == Next(next)
    ensures Inv(cfg, next) && Runs(sampler, cfg, next, cid)
    ensures bs == PushBatches(cfg, s.clients[cid].id, s.clients[cid].cache, item, iter)
  {
    ghost var pushed;
    bs, pushed := PushRows(sampler, item, iter, cfg, s, cid);
    OthersMove(cfg, states, steps, cid, |steps|);
    ok, next := PullRows(sampler, item, iter, fetched, cfg, states[|steps|], cid, views);
  }

  // ---- a document with other clients in between ------------------------------------------------

  /** The steps of one client, in order. */
  function Mine(steps: seq<Step>, cid: nat): seq<Step> {
    if |steps| == 0 then []
    else
      var m := |steps| - 1;
      Mine(steps[..m], cid) + (if steps[m].cid == cid then [steps[m]] else [])
  }

  /** Resampling the tokens from `start` on, one after another. */
  function SamplesOf(cid: nat, start: nat, news: seq<int>): (r: seq<Step>)
    ensures |r| == |news| && forall i :: 0 <= i < |r| ==> r[i] == Sample(cid, start + i, news[i])
  {
    seq(|news|, i requires 0 <= i < |news| => Sample(cid, start + i, news[i]))
  }

  /** What a step does to client cid. */
  predicate Touched(cfg: Config, c: Client, step: Step, cid: nat, next: Client) {
    if step.cid != cid then next == c
    else step.Sample? ==>
      && step.i < |c.tokens| && c.tokens[step.i].word < |c.cache.vals| == |c.cache.delta|
      && (cfg.localSync ==> |c.cache.other| == |c.cache.vals|)
      && next == Moved(cfg, c, step.i, step.topic)
  }

  /** The client after its token i took a topic. */
  function Moved(cfg: Config, c: Client, i: nat, topic: int): Client
    requires i < |c.tokens| && c.tokens[i].word < |c.cache.vals| == |c.cache.delta|
    requires cfg.localSync ==> |c.cache.other| == |c.cache.vals|
  {
    var t := c.tokens[i];
    c.(tokens := c.tokens[i := Token(t.word, topic)], cache := MoveToken(cfg, c.cache, t.word, t.topic, topic))
  }

  predicate Sized(cfg: Config, c: Client) {
    && (forall i :: 0 <= i < |c.tokens| ==> c.tokens[i].word < cfg.V)
    && |c.cache.vals| == |c.cache.delta| == cfg.V && (cfg.localSync ==> |c.cache.other| == cfg.V)
  }

  /** The client after its tokens from `start` on took the topics `news`. */
  function Resampled(cfg: Config, c: Client, start: nat, news: seq<int>): Client
    requires Sized(cfg, c) && start + |news| <= |c.tokens|
  {
    c.(tokens := Retopic(c.tokens, start, news), cache := MoveDocument(cfg, c.cache, c.tokens, start, news))
  }

  lemma {:induction false} ResampledSnoc(cfg: Config, c: Client, start: nat, front: seq<int>, t: int, step: Step,
                                         cid: nat, next: Client)
    requires Sized(cfg, c) && start + |front| < |c.tokens| && step == Sample(cid, start + |front|, t)
    requires Touched(cfg, Resampled(cfg, c, start, front), step, cid, next)
    ensures next == Resampled(cfg, c, start, front + [t])
  {
    RetopicSnoc(c.tokens, start, front, t, start + |front|);
    MoveDocumentSnoc(cfg, c.cache, c.tokens, start, front, t, start + |front|);
  }

  lemma LastSample(before: seq<Step>, last: Step, cid: nat, start: nat, news: seq<int>)
    returns (front: seq<int>, t: int)
    requires Mine(before + [last], cid) == SamplesOf(cid, start, news) && last.cid == cid
    ensures news == front + [t] && last == Sample(cid, start + |front|, t)
    ensures Mine(before, cid) == SamplesOf(cid, start, front)
  {
    assert (before + [last])[..|before|] == before;
    var all, n := SamplesOf(cid, start, news), |news| - 1;
    assert all == Mine(before, cid) + [last];
    front, t := news[..n], news[n];
    assert all[n] == last && all[..n] == Mine(before, cid);
  }

  lemma OtherLast(front: seq<Step>, last: Step, cid: nat)
    requires last.cid != cid
    ensures Mine(front + [last], cid) == Mine(front, cid)
  {
    assert (front + [last])[..|front|] == front;
  }

  lemma OneStep(cfg: Config, s: State, step: Step, next: State, cid: nat)
    requires Enabled(cfg, s, step) && Exec(cfg, s, step) == Next(next) && cid < |s.clients|
    ensures |next.clients| == |s.clients| && Touched(cfg, s.clients[cid], step, cid, next.clients[cid])
  {
    if step.cid != cid {
      OneOther(cfg, s, step, next, cid);
    }
  }

  lemma {:induction false} SameClients(cfg: Config, states: seq<State>, steps: seq<Step>, cid: nat, n: nat)
    requires Path(cfg, states, steps) && n < |states| && cid < |states[0].clients|
    ensures |states[n].clients| == |states[0].clients|
  {
    if n > 0 {
      SameClients(cfg, states, steps, cid, n - 1);
      OneStep(cfg, states[n - 1], steps[n - 1], states[n], cid);
    }
  }

  /** Client cid in the states of a stretch. */
  lemma Watched(cfg: Config, states: seq<State>, steps: seq<Step>, cid: nat) returns (cs: seq<Client>)
    requires Path(cfg, states, steps) && cid < |states[0].clients|
    ensures |cs| == |states|
    ensures forall n :: 0 <= n < |cs| ==> cid < |states[n].clients| && cs[n] == states[n].clients[cid]
    ensures forall n :: 0 <= n < |steps| ==> Touched(cfg, cs[n], steps[n], cid, cs[n + 1])
  {
    forall n | 0 <= n < |states| ensures |states[n].clients| == |states[0].clients| {
      SameClients(cfg, states, steps, cid, n);
    }
    cs := seq(|states|, n requires 0 <= n < |states| => states[n].clients[cid]);
    forall n | 0 <= n < |steps| ensures Touched(cfg, cs[n], steps[n], cid, cs[n + 1]) {
      OneStep(cfg, states[n], steps[n], states[n + 1], cid);
    }
  }

  lemma {:induction false} ClientMoves(cfg: Config, cs: seq<Client>, steps: seq<Step>, n: nat, cid: nat, start: nat,
                                       news: seq<int>)
    requires |cs| == |steps| + 1 && n <= |steps| && Mine(steps[..n], cid) == SamplesOf(cid, start, news)
    requires Sized(cfg, cs[0]) && start + |news| <= |cs[0].tokens|
    requires forall i :: 0 <= i < |steps| ==> Touched(cfg, cs[i], steps[i], cid, cs[i + 1])
    ensures cs[n] == Resampled(cfg, cs[0], start, news)
  {
    if n == 0 {
      assert Retopic(cs[0].tokens, start, news) == cs[0].tokens;
    } else {
      var m := n - 1;
      assert steps[..n] == steps[..m] + [steps[m]];
      assert Touched(cfg, cs[m], steps[m], cid, cs[m + 1]);
      if steps[m].cid == cid {
        var front, t := LastSample(steps[..m], steps[m], cid, start, news);
        ClientMoves(cfg, cs, steps, m, cid, start, front);
        ResampledSnoc(cfg, cs[0], start, front, t, steps[m], cid, cs[n]);
      } else {
        OtherLast(steps[..m], steps[m], cid);
        ClientMoves(cfg, cs, steps, m, cid, start, news);
      }
    }
  }

  /** However the steps of the other clients fall between the tokens of a document, the client ends as if it
      had been left alone. */
  lemma Interleaved(cfg: Config, states: seq<State>, steps: seq<Step>, cid: nat, start: nat, news: seq<int>)
    requires Path(cfg, states, steps) && WellFormed(cfg, states[0]) && cid < |states[0].clients|
    requires start + |news| <= |states[0].clients[cid].tokens| && Mine(steps, cid) == SamplesOf(cid, start, news)
    ensures |states[|steps|].clients| == |states[0].clients|
    ensures states[|steps|].clients[cid] == AfterDocument(cfg, states[0], cid, start, news).clients[cid]
  {
    assert steps[..|steps|] == steps;
    SameClients(cfg, states, steps, cid, |steps|);
    var cs := Watched(cfg, states, steps, cid);
    ClientMoves(cfg, cs, steps, |steps|, cid, start, news);
  }
}
