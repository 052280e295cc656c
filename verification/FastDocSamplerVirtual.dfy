/** FastDocSamplerVirtual: the sampler that works on a private copy of the word-topic table.  Its summary
    row and its s bucket are derived from the cached rows; all of them are edited in place per token. */
module FastDocSamplerVirtual {
  import opened SparseRow
  import opened Sums
  import opened SamplerCache
  import opened Gibbs

  // ---- the derived summary row ---------------------------------------------------------------

  function Column(vals: seq<Row>, k: int): (r: seq<int>)
    ensures |r| == |vals| && forall w :: 0 <= w < |vals| ==> r[w] == Count(vals[w], k)
  {
    seq(|vals|, w requires 0 <= w < |vals| => Count(vals[w], k))
  }

  /** The summary row a rebuild computes: column sums of the cached rows. */
  function Summary(vals: seq<Row>, K: nat): (r: seq<int>)
    ensures |r| == K && forall k :: 0 <= k < K ==> r[k] == Sum(Column(vals, k))
  {
    seq(K, k requires 0 <= k < K => Sum(Column(vals, k)))
  }

  lemma SummaryBump(vals: seq<Row>, w: nat, k: nat, d: int, K: nat)
    requires w < |vals| && k < K
    ensures Summary(BumpAt(vals, w, k, d), K) == Summary(vals, K)[k := Summary(vals, K)[k] + d]
  {
    var vals' := BumpAt(vals, w, k, d);
    forall j | 0 <= j < K
      ensures Sum(Column(vals', j)) == Sum(Column(vals, j)) + (if j == k then d else 0)
    {
      var c := Column(vals, j);
      assert Column(vals', j) == c[w := Count(vals'[w], j)];
      SumUpdate(c, w, Count(vals'[w], j));
    }
  }

  lemma SummaryNonNegative(cfg: Config, c: Cache)
    requires Shaped(cfg, c)
    ensures forall k :: 0 <= k < cfg.K ==> Summary(c.vals, cfg.K)[k] >= 0
  {
    forall k | 0 <= k < cfg.K ensures Sum(Column(c.vals, k)) >= 0 {
      if cfg.V > 0 {
        forall w | 0 <= w < cfg.V ensures Column(c.vals, k)[w] >= 0 {
          assert Clean(c.vals[w], cfg.K);
        }
        SumAtLeast(Column(c.vals, k), 0);
      }
    }
  }

  /** Replacing a row changes each column sum by the difference of the rows. */
  lemma SummaryReplace(vals: seq<Row>, w: nat, row: Row, k: int)
    requires w < |vals|
    ensures Sum(Column(vals[w := row], k)) == Sum(Column(vals, k)) - Count(vals[w], k) + Count(row, k)
  {
    assert Column(vals[w := row], k) == Column(vals, k)[w := Count(row, k)];
    SumUpdate(Column(vals, k), w, Count(row, k));
  }

  // ---- the document cache --------------------------------------------------------------------

  /** docTopicVector, docTopicSet, q_coeffs, r_vector and r_total. */
  datatype DocCache = DocCache(counts: seq<int>, topics: set<int>, qCoeffs: seq<real>, rVec: seq<real>, rTotal: real)

  /** The cache of a document with these counts, against summary row n. */
  ghost predicate DocOk(p: Params, n: seq<int>, dc: DocCache) {
    && Counts(p, n, dc.counts)
    && (forall k :: k in dc.topics ==> 0 <= k < p.K)
    && (forall k :: 0 <= k < p.K && dc.counts[k] != 0 ==> k in dc.topics)
    && dc.qCoeffs == QCoeffs(p, n, dc.counts)
    && dc.rVec == RVec(p, n, dc.counts)
    && dc.rTotal == RSum(dc.rVec)
  }

  function TopicSet(topics: seq<int>): set<int> {
    set t | t in topics
  }

  /** The topics a dart may choose when the counts are those of the rows `vals` and of the document (none
      if a column sum is negative). */
  ghost function DenseChoice(p: Params, vals: seq<Row>, w: nat, d: seq<int>, seen: set<int>, dart: real): iset<int>
    requires p.Valid() && w < |vals| && |d| == p.K
  {
    var n := Summary(vals, p.K);
    if exists k :: 0 <= k < p.K && n[k] < 0 then iset{}
    else
      var q, r, s := QVec(p, n, d, vals[w]), RVec(p, n, d), SVec(p, n);
      Choices(Sorted(p.K, vals[w].Keys), Sorted(p.K, seen), AllTopics(p.K), q, r, s,
              ScaleDart(dart, RSum(q) + RSum(r) + RSum(s)))
  }

  lemma DocBuckets(p: Params, n: seq<int>, d: seq<int>, topics: set<int>)
    requires Counts(p, n, d) && (forall k :: 0 <= k < p.K && d[k] != 0 ==> k in topics)
    ensures Bucket(Sorted(p.K, topics), RVec(p, n, d))
    ensures Bucket(AllTopics(p.K), SVec(p, n))
    ensures RSum(SVec(p, n)) > 0.0
  {
    var s := SVec(p, n);
    forall k | 0 <= k < p.K ensures k in AllTopics(p.K) {
      assert AllTopics(p.K)[k] == k;
    }
    RSumNonNegative(s);
    RSumSnoc(s, 0);
    assert s[..0] == [] && RSum(s[..1]) <= RSum(s);
  }

  /** The cached masses of one topic follow a change of its two counts. */
  method Recount(p: Params, ghost n: seq<int>, dc: DocCache, k: nat, m: int, d: int) returns (r: DocCache)
    requires DocOk(p, n, dc) && k < p.K && m >= 0 && dc.counts[k] + d >= 0
    requires dc.counts[k] + d == 0 || k in dc.topics
    ensures DocOk(p, n[k := m], r)
    ensures r.counts == Adjust(dc.counts, k, d) && r.topics == dc.topics
  {
    var counts := Adjust(dc.counts, k, d);
    var mass := RMass(p, m, counts[k]);
    RSumUpdate(dc.rVec, k, mass);
    r := DocCache(counts, dc.topics, dc.qCoeffs[k := QCoeff(p, m, counts[k])], dc.rVec[k := mass],
                  dc.rTotal - dc.rVec[k] + mass);
    assert r.qCoeffs == QCoeffs(p, n[k := m], counts);
    assert r.rVec == RVec(p, n[k := m], counts);
  }

  /** A vector restricted to the listed topics. */
  function Masked(vec: seq<real>, list: seq<int>): (r: seq<real>)
    ensures |r| == |vec| && forall k :: 0 <= k < |vec| ==> r[k] == if k in list then vec[k] else 0.0
  {
    seq(|vec|, k requires 0 <= k < |vec| => if k in list then vec[k] else 0.0)
  }

  lemma MaskedSnoc(vec: seq<real>, list: seq<int>, t: nat)
    requires t < |vec| && t !in list
    ensures Masked(vec, list + [t]) == Masked(vec, list)[t := vec[t]]
    ensures RSum(Masked(vec, list + [t])) == RSum(Masked(vec, list)) + vec[t]
  {
    assert Masked(vec, list + [t]) == Masked(vec, list)[t := vec[t]];
    RSumUpdate(Masked(vec, list), t, vec[t]);
  }

  lemma MaskedAll(p: Params, n: seq<int>, d: seq<int>, row: Row)
    requires Counts(p, n, d)
    ensures Masked(QVec(p, n, d, row), Sorted(p.K, row.Keys)) == QVec(p, n, d, row)
  {
    forall k | 0 <= k < p.K && k !in row ensures QVec(p, n, d, row)[k] == 0.0 {
      assert QMass(p, n[k], d[k], 0) == 0.0;
    }
  }

  lemma QEntry(p: Params, n: seq<int>, dc: DocCache, row: Row, t: nat)
    requires DocOk(p, n, dc) && t < p.K && t in row
    ensures Times(dc.qCoeffs[t], row[t]) == QVec(p, n, dc.counts, row)[t]
  {
    assert QVec(p, n, dc.counts, row)[t] == QMass(p, n[t], dc.counts[t], row[t]);
  }

  /** The loop over a word's stored topics: each entry of the q vector and their running total. */
  method AccumulateQ(list: seq<int>, coeffs: seq<real>, row: Row, ghost full: seq<real>)
    returns (q: seq<real>, qTotal: real)
    requires |coeffs| == |full| && forall i, j :: 0 <= i < j < |list| ==> list[i] < list[j]
    requires forall i :: 0 <= i < |list| ==>
               0 <= list[i] < |full| && list[i] in row && Times(coeffs[list[i]], row[list[i]]) == full[list[i]]
    ensures q == Masked(full, list) && qTotal == RSum(q)
  {
    q := seq(|coeffs|, k => 0.0);
    qTotal := 0.0;
    RSumZero(q);
    assert q == Masked(full, list[..0]);
    for i := 0 to |list|
      invariant q == Masked(full, list[..i]) && qTotal == RSum(q)
    {
      var topic := list[i];
      MaskedSnoc(full, list[..i], topic);
      assert list[..i + 1] == list[..i] + [topic];
      q := q[topic := Times(coeffs[topic], row[topic])];
      qTotal := qTotal + q[topic];
    }
    assert list[..|list|] == list;
  }

  /** Building the q vector of a word over its stored topics. */
  method BuildQ(p: Params, ghost n: seq<int>, dc: DocCache, row: Row)
    returns (q: seq<real>, qTotal: real, wordTopics: seq<int>)
    requires DocOk(p, n, dc) && Clean(row, p.K)
    ensures q == QVec(p, n, dc.counts, row) && qTotal == RSum(q)
    ensures wordTopics == Sorted(p.K, row.Keys)
  {
    wordTopics := Sorted(p.K, row.Keys);
    forall i | 0 <= i < |wordTopics|
      ensures wordTopics[i] in row
              && Times(dc.qCoeffs[wordTopics[i]], row[wordTopics[i]]) == QVec(p, n, dc.counts, row)[wordTopics[i]]
    {
      assert wordTopics[i] in wordTopics;
      QEntry(p, n, dc, row, wordTopics[i]);
    }
    q, qTotal := AccumulateQ(wordTopics, dc.qCoeffs, row, QVec(p, n, dc.counts, row));
    MaskedAll(p, n, dc.counts, row);
  }

  /** The dart, given the derived state. */
  method DrawDense(p: Params, n: seq<int>, dc: DocCache, row: Row, sVec: seq<real>, sTotal: real, dart: real)
      returns (t: int)
    requires DocOk(p, n, dc) && Clean(row, p.K) && sVec == SVec(p, n) && sTotal == RSum(sVec) && 0.0 <= dart < 1.0
    ensures 0 <= t < p.K
    ensures var q, r, s := QVec(p, n, dc.counts, row), RVec(p, n, dc.counts), SVec(p, n);
            Choices(Sorted(p.K, row.Keys), Sorted(p.K, dc.topics), AllTopics(p.K), q, r, s,
                    ScaleDart(dart, RSum(q) + RSum(r) + RSum(s))) == iset{t}
  {
    var q, qTotal, wordTopics := BuildQ(p, n, dc, row);
    var docTopics := Sorted(p.K, dc.topics);
    WordBucket(p, n, dc.counts, row);
    DocBuckets(p, n, dc.counts, dc.topics);
    t := Draw(wordTopics, docTopics, AllTopics(p.K), q, dc.rVec, sVec, qTotal, dc.rTotal, sTotal, dart);
  }

  /** Tallying a document before it is sampled. */
  method BuildDocCache(p: Params, n: seq<int>, topics: seq<int>) returns (dc: DocCache)
    requires p.Valid() && |n| == p.K && forall k :: 0 <= k < p.K ==> n[k] >= 0
    requires forall i :: 0 <= i < |topics| ==> 0 <= topics[i] < p.K
    ensures DocOk(p, n, dc) && dc.counts == DocCounts(p.K, topics)
    ensures dc.topics == TopicSet(topics)
  {
    var counts, seen := TallyTopics(p.K, topics);
    forall k | 0 <= k < p.K && counts[k] != 0 ensures k in seen {
      assert k in multiset(topics);
    }
    dc := BuildMasses(p, n, counts, seen);
  }

  /** The loop over the occurrences of a document. */
  method TallyTopics(K: nat, topics: seq<int>) returns (counts: seq<int>, seen: set<int>)
    requires forall i :: 0 <= i < |topics| ==> 0 <= topics[i] < K
    ensures counts == DocCounts(K, topics) && seen == TopicSet(topics)
  {
    counts, seen := seq(K, k => 0), {};
    for i := 0 to |topics|
      invariant |counts| == K && forall k :: 0 <= k < K ==> counts[k] == multiset(topics[..i])[k]
      invariant seen == TopicSet(topics[..i])
    {
      var t := topics[i];
      assert topics[..i + 1] == topics[..i] + [t];
      counts := counts[t := counts[t] + 1];
      seen := seen + {t};
    }
    assert topics[..|topics|] == topics;
  }

  /** The loop over the topics. */
  method BuildMasses(p: Params, n: seq<int>, counts: seq<int>, seen: set<int>) returns (dc: DocCache)
    requires Counts(p, n, counts) && (forall k :: k in seen ==> 0 <= k < p.K)
    requires forall k :: 0 <= k < p.K && counts[k] != 0 ==> k in seen
    ensures DocOk(p, n, dc) && dc.counts == counts && dc.topics == seen
  {
    var q, r, rTotal := seq(p.K, k => 0.0), seq(p.K, k => 0.0), 0.0;
    RSumZero(r);
    for k := 0 to p.K
      invariant |q| == |r| == p.K
      invariant forall j :: 0 <= j < k ==> q[j] == QCoeff(p, n[j], counts[j]) && r[j] == RMass(p, n[j], counts[j])
      invariant forall j :: k <= j < p.K ==> r[j] == 0.0
      invariant rTotal == RSum(r)
    {
      q := q[k := QCoeff(p, n[k], counts[k])];
      if k in seen {
        RSumUpdate(r, k, RMass(p, n[k], counts[k]));
        r := r[k := RMass(p, n[k], counts[k])];
        rTotal := rTotal + r[k];
      }
    }
    dc := DocCache(counts, seen, q, r, rTotal);
  }

  /** The i-th token of a document was resampled from its old topic to news[i]: with the first i moves made
      and the token itself taken out, the dart chooses news[i]. */
  ghost predicate PickedAt(cfg: Config, p: Params, c: Cache, words: seq<nat>, olds: seq<int>, news: seq<int>,
                           dart: real, i: nat)
    requires i < |news| <= |words| == |olds| && forall j :: 0 <= j < |words| ==> words[j] < cfg.V
    requires |c.vals| == |c.delta| == cfg.V && (cfg.localSync ==> |c.other| == cfg.V)
    requires p.Valid() && p.V == cfg.V && p.K == cfg.K
  {
    var r := Record(cfg, MoveAll(cfg, c, words[..i], olds[..i], news[..i]), words[i], olds[i], -1);
    && olds[i] in MoveAll(cfg, c, words[..i], olds[..i], news[..i]).vals[words[i]]
    && DenseChoice(p, r.vals, words[i], DocCounts(p.K, news[..i] + olds[i + 1..]),
                   TopicSet(olds) + TopicSet(news[..i]), dart) == iset{news[i]}
  }

  /** All of the new topics were picked that way, one after another. */
  ghost predicate AllPicked(cfg: Config, p: Params, c: Cache, words: seq<nat>, olds: seq<int>, news: seq<int>,
                            darts: seq<real>)
    requires |news| <= |words| == |olds| == |darts| && forall j :: 0 <= j < |words| ==> words[j] < cfg.V
    requires |c.vals| == |c.delta| == cfg.V && (cfg.localSync ==> |c.other| == cfg.V)
    requires p.Valid() && p.V == cfg.V && p.K == cfg.K
    decreases |news|
  {
    |news| > 0 ==>
      var m := |news| - 1;
      AllPicked(cfg, p, c, words, olds, news[..m], darts) && PickedAt(cfg, p, c, words, olds, news, darts[m], m)
  }

  // ---- the sampler ---------------------------------------------------------------------------

  predicate AllPositive(row: Row) {
    forall k | k in row :: row[k] > 0
  }

  class Sampler {
    const cfg: Config
    const clientId: nat
    /** One client with one table thread: rows must not change in the background. */
    const solo: bool
    const alpha: real
    const beta: real

    var summaryVals: seq<int>
    var wordTopicVals: seq<Row>
    var wordTopicDelta: seq<Row>
    var wordTopicDeltaOther: seq<Row>
    var sVector: seq<real>
    var sTotal: real

    ghost function Abs(): Cache
      reads this
    {
      Cache(wordTopicVals, wordTopicDelta, wordTopicDeltaOther)
    }

    function P(): Params {
      Params(cfg.K, cfg.V, alpha, beta)
    }

    ghost predicate Usable() {
      cfg.Valid() && alpha > 0.0 && beta > 0.0
    }

    /** Everything derived agrees with a rebuild from the cached rows. */
    ghost predicate Derived()
      reads this
    {
      && Usable()
      && summaryVals == Summary(wordTopicVals, cfg.K)
      && (forall k :: 0 <= k < cfg.K ==> summaryVals[k] >= 0)
      && sVector == SVec(P(), summaryVals)
      && sTotal == RSum(sVector)
    }

    ghost predicate Valid()
      reads this
    {
      Usable() && Shaped(cfg, Abs()) && Derived()
    }

    constructor (cfg: Config, clientId: nat, solo: bool, alpha: real, beta: real)
      requires cfg.Valid() && alpha > 0.0 && beta > 0.0
      ensures this.cfg == cfg && this.clientId == clientId && this.solo == solo && this.alpha == alpha
          && this.beta == beta
      ensures Usable()
    {
      this.cfg, this.clientId, this.solo, this.alpha, this.beta := cfg, clientId, solo, alpha, beta;
      summaryVals, wordTopicVals, wordTopicDelta, wordTopicDeltaOther, sVector, sTotal := [], [], [], [], [], 0.0;
    }

    method BuildSBucket()
      requires Usable() && |summaryVals| == cfg.K && forall k :: 0 <= k < cfg.K ==> summaryVals[k] >= 0
      modifies `sVector, `sTotal
      ensures sVector == SVec(P(), summaryVals) && sTotal == RSum(sVector)
    {
      sVector, sTotal := [], 0.0;
      for i := 0 to cfg.K
        invariant sVector == SVec(P(), summaryVals)[..i] && sTotal == RSum(sVector)
      {
        var val := SMass(P(), summaryVals[i]);
        RSumSnoc(SVec(P(), summaryVals), i);
        sVector := sVector + [val];
        sTotal := sTotal + val;
      }
    }

    /** Filling the cache from the rows fetched for every word.  Fails when a count is not positive. */
    method BuildGlobalCache(fetched: seq<Row>) returns (ok: bool)
      requires Usable() && |fetched| == cfg.V && forall w :: 0 <= w < cfg.V ==> TopicsBelow(fetched[w], cfg.K)
      modifies this
      ensures ok <==> forall w :: 0 <= w < cfg.V ==> Positive(fetched[w])
      ensures ok ==> Valid() && wordTopicVals == fetched
      ensures ok ==> forall w :: 0 <= w < cfg.V ==> wordTopicDelta[w] == map[]
      ensures ok ==> forall w :: 0 <= w < |wordTopicDeltaOther| ==> wordTopicDeltaOther[w] == map[]
    {
      wordTopicVals, wordTopicDelta, wordTopicDeltaOther := [], [], [];
      for w := 0 to cfg.V
        invariant wordTopicVals == fetched[..w] && |wordTopicDelta| == w
        invariant |wordTopicDeltaOther| == if cfg.localSync then w else 0
        invariant forall v :: 0 <= v < w ==> Positive(fetched[v]) && wordTopicDelta[v] == map[]
        invariant forall v :: 0 <= v < |wordTopicDeltaOther| ==> wordTopicDeltaOther[v] == map[]
      {
        if !AllPositive(fetched[w]) {
          assert !Positive(fetched[w]);
          return false;
        }
        wordTopicVals := wordTopicVals + [fetched[w]];
        wordTopicDelta := wordTopicDelta + [map[]];
        if cfg.localSync {
          wordTopicDeltaOther := wordTopicDeltaOther + [map[]];
        }
      }
      BuildSummary();
      SummaryNonNegative(cfg, Abs());
      BuildSBucket();
      ok := true;
    }

    method BuildSummary()
      requires |wordTopicVals| == cfg.V
      modifies `summaryVals
      ensures summaryVals == Summary(wordTopicVals, cfg.K)
    {
      summaryVals := [];
      for i := 0 to cfg.K
        invariant |summaryVals| == i && forall k :: 0 <= k < i ==> summaryVals[k] == Sum(Column(wordTopicVals, k))
      {
        var total := 0;
        ghost var done := summaryVals;
        for j := 0 to cfg.V
          invariant summaryVals == done
          invariant total == Sum(Column(wordTopicVals, i)[..j])
        {
          SumSnoc(Column(wordTopicVals, i), j);
          if i in wordTopicVals[j] {
            total := total + wordTopicVals[j][i];
          }
        }
        assert Column(wordTopicVals, i)[..cfg.V] == Column(wordTopicVals, i);
        summaryVals := summaryVals + [total];
      }
    }

    /** s_total_ and s_vector_ after the summary of one topic changed. */
    method RefreshS(k: nat, ghost n: seq<int>)
      requires Usable() && k < cfg.K && |n| == |summaryVals| == cfg.K
      requires (forall j :: 0 <= j < cfg.K ==> n[j] >= 0 && summaryVals[j] >= 0) && n == summaryVals[k := n[k]]
      requires sVector == SVec(P(), n) && sTotal == RSum(sVector)
      modifies `sVector, `sTotal
      ensures sVector == SVec(P(), summaryVals) && sTotal == RSum(sVector)
    {
      sTotal := sTotal - sVector[k];
      RSumUpdate(sVector, k, SMass(P(), summaryVals[k]));
      sVector := sVector[k := SMass(P(), summaryVals[k])];
      sTotal := sTotal + sVector[k];
      assert sVector == SVec(P(), summaryVals);
    }

    /** The pending changes of word w, topic k. */
    method RecordDelta(w: nat, k: nat, d: int)
      requires |wordTopicDelta| == cfg.V && |wordTopicDeltaOther| == (if cfg.localSync then cfg.V else 0) && w < cfg.V
      modifies `wordTopicDelta, `wordTopicDeltaOther
      ensures wordTopicDelta == BumpAt(old(wordTopicDelta), w, k, d)
      ensures wordTopicDeltaOther
              == if cfg.localSync then BumpAt(old(wordTopicDeltaOther), w, k, d) else old(wordTopicDeltaOther)
    {
      wordTopicDelta := wordTopicDelta[w := Bump(wordTopicDelta[w], k, d)];
      if cfg.localSync {
        wordTopicDeltaOther := wordTopicDeltaOther[w := Bump(wordTopicDeltaOther[w], k, d)];
      }
    }

    /** The derived state after a change of d at word w, topic k, has been recorded in the rows. */
    lemma StillShaped(c: Cache, w: nat, k: nat, d: int)
      requires cfg.Valid() && Shaped(cfg, c) && w < cfg.V && k < cfg.K && Count(c.vals[w], k) + d >= 0
      ensures Shaped(cfg, Record(cfg, c, w, k, d))
      ensures Summary(Record(cfg, c, w, k, d).vals, cfg.K)
              == Summary(c.vals, cfg.K)[k := Summary(c.vals, cfg.K)[k] + d]
      ensures forall j :: 0 <= j < cfg.K ==> Summary(Record(cfg, c, w, k, d).vals, cfg.K)[j] >= 0
      ensures forall j :: 0 <= j < cfg.K ==> Summary(c.vals, cfg.K)[j] >= 0
    {
      RecordKeepsShape(cfg, c, w, k, d);
      SummaryBump(c.vals, w, k, d, cfg.K);
      SummaryNonNegative(cfg, c);
      SummaryNonNegative(cfg, Record(cfg, c, w, k, d));
    }

    /** The rest of an edit once the summary entry and the cached row are changed: the delta maps and the
        s bucket. */
    method FinishEdit(w: nat, k: nat, d: int, ghost c: Cache)
      requires Usable() && Shaped(cfg, c) && w < cfg.V && k < cfg.K && Count(c.vals[w], k) + d >= 0
      requires forall j :: 0 <= j < cfg.K ==> Summary(c.vals, cfg.K)[j] >= 0
      requires wordTopicVals == BumpAt(c.vals, w, k, d)
      requires wordTopicDelta == c.delta && wordTopicDeltaOther == c.other
      requires summaryVals == Summary(c.vals, cfg.K)[k := Summary(c.vals, cfg.K)[k] + d]
      requires sVector == SVec(P(), Summary(c.vals, cfg.K)) && sTotal == RSum(sVector)
      modifies `wordTopicDelta, `wordTopicDeltaOther, `sVector, `sTotal
      ensures Valid() && Abs() == Record(cfg, c, w, k, d)
    {
      StillShaped(c, w, k, d);
      RecordDelta(w, k, d);
      assert Abs() == Record(cfg, c, w, k, d);
      RefreshS(k, Summary(c.vals, cfg.K));
    }

    /** Taking a token's assignment out.  Fails when the topic is not in the cached row. */
    method RemoveToken(w: nat, k: nat) returns (ok: bool)
      requires Valid() && w < cfg.V && k < cfg.K
      modifies this
      ensures ok <==> k in old(wordTopicVals)[w]
      ensures ok ==> Valid() && Abs() == Record(cfg, old(Abs()), w, k, -1)
      ensures ok ==> summaryVals == old(summaryVals)[k := old(summaryVals)[k] - 1]
      ensures !ok ==> Abs() == old(Abs())
    {
      ghost var c := Abs();
      summaryVals := summaryVals[k := summaryVals[k] - 1];
      if k !in wordTopicVals[w] {
        return false;
      }
      assert Clean(c.vals[w], cfg.K);
      var row := wordTopicVals[w][k := wordTopicVals[w][k] - 1];
      if row[k] == 0 {
        row := row - {k};
      }
      assert row == Bump(c.vals[w], k, -1);
      wordTopicVals := wordTopicVals[w := row];
      FinishEdit(w, k, -1, c);
      ok := true;
    }

    method AddToken(w: nat, k: nat)
      requires Valid() && w < cfg.V && k < cfg.K
      modifies this
      ensures Valid() && Abs() == Record(cfg, old(Abs()), w, k, 1)
      ensures summaryVals == old(summaryVals)[k := old(summaryVals)[k] + 1]
    {
      ghost var c := Abs();
      assert Clean(c.vals[w], cfg.K);
      summaryVals := summaryVals[k := summaryVals[k] + 1];
      var row := wordTopicVals[w][k := Count(wordTopicVals[w], k) + 1];
      assert row == Bump(c.vals[w], k, 1);
      wordTopicVals := wordTopicVals[w := row];
      FinishEdit(w, k, 1, c);
    }

    /** One draw with the current token taken out of all counts. */
    method DrawTopic(w: nat, dc: DocCache, dart: real) returns (t: int)
      requires Valid() && w < cfg.V && DocOk(P(), summaryVals, dc) && 0.0 <= dart < 1.0
      ensures 0 <= t < cfg.K && DenseChoice(P(), wordTopicVals, w, dc.counts, dc.topics, dart) == iset{t}
    {
      assert Clean(wordTopicVals[w], cfg.K);
      t := DrawDense(P(), summaryVals, dc, wordTopicVals[w], sVector, sTotal, dart);
    }

    /** Adding the token back under its new topic, which may be new to the document. */
    method PutBack(w: nat, k: nat, dc: DocCache) returns (dc': DocCache)
      requires Valid() && w < cfg.V && k < cfg.K && DocOk(P(), summaryVals, dc)
      modifies this
      ensures Valid() && Abs() == Record(cfg, old(Abs()), w, k, 1) && DocOk(P(), summaryVals, dc')
      ensures dc'.counts == Adjust(dc.counts, k, 1) && dc'.topics == dc.topics + {k}
    {
      ghost var n := summaryVals;
      AddToken(w, k);
      dc' := dc.(topics := dc.topics + {k});
      dc' := Recount(P(), n, dc', k, summaryVals[k], 1);
    }

    /** One token of SampleOneDoc. */
    method SampleToken(w: nat, old_: nat, dart: real, dc: DocCache) returns (ok: bool, new_: int, dc': DocCache)
      requires Valid() && w < cfg.V && old_ < cfg.K && DocOk(P(), summaryVals, dc) && 0.0 <= dart < 1.0
      requires dc.counts[old_] >= 1
      modifies this
      ensures ok <==> old_ in old(wordTopicVals)[w]
      ensures !ok ==> Abs() == old(Abs())
      ensures ok ==> Valid() && DocOk(P(), summaryVals, dc') && 0 <= new_ < cfg.K
      ensures ok ==> Abs() == MoveToken(cfg, old(Abs()), w, old_, new_)
      ensures ok ==> dc'.counts == Adjust(Adjust(dc.counts, old_, -1), new_, 1) && dc'.topics == dc.topics + {new_}
      ensures ok ==> DenseChoice(P(), Record(cfg, old(Abs()), w, old_, -1).vals, w, Adjust(dc.counts, old_, -1),
                                 dc.topics, dart) == iset{new_}
    {
      new_, dc' := -1, dc;
      ghost var n := summaryVals;
      ok := RemoveToken(w, old_);
      if !ok {
        return;
      }
      dc' := Recount(P(), n, dc, old_, summaryVals[old_], -1);
      new_ := DrawTopic(w, dc', dart);
      dc' := PutBack(w, new_, dc');
    }

    /** Token i of a document whose topics are now `now`. */
    method ResampleAt(words: seq<nat>, ghost now: seq<int>, old_: nat, darts: seq<real>, i: nat, dc: DocCache,
                      ghost c: Cache, ghost olds: seq<int>)
      returns (ok: bool, new_: int, dc': DocCache)
      requires i < |words| == |darts| && Valid() && DocOk(P(), summaryVals, dc)
      requires StageOf(cfg, P(), c, words, olds, now, i, darts, dc, Abs()).AsSpecified?
      requires i < |now| && old_ == now[i]
      modifies this
      ensures !ok ==> Abs() == old(Abs()) && words[i] < |wordTopicVals| && old_ !in wordTopicVals[words[i]]
      ensures ok ==> Valid() && DocOk(P(), summaryVals, dc')
      ensures ok ==> StageOf(cfg, P(), c, words, olds, now[i := new_], i + 1, darts, dc', Abs()).AsSpecified?
    {
      ghost var a := Abs();
      assert now[i] in multiset(now);
      ok, new_, dc' := SampleToken(words[i], old_, darts[i], dc);
      if ok {
        StageStep(cfg, P(), c, words, olds, now, i, darts, dc, a, new_, dc');
      }
    }

    /** The same with the new topic stored in the document. */
    method ResampleInPlace(words: seq<nat>, topics: array<int>, darts: seq<real>, i: nat, dc: DocCache,
                           ghost c: Cache, ghost olds: seq<int>)
      returns (ok: bool, dc': DocCache)
      requires i < |words| == |darts| == topics.Length && Valid() && DocOk(P(), summaryVals, dc)
      requires StageOf(cfg, P(), c, words, olds, topics[..], i, darts, dc, Abs()).AsSpecified?
      modifies this, topics
      ensures !ok ==> Abs() == old(Abs()) && topics[..] == old(topics[..])
      ensures !ok ==> words[i] < |wordTopicVals| && topics[i] !in wordTopicVals[words[i]]
      ensures ok ==> Valid() && DocOk(P(), summaryVals, dc')
      ensures ok ==> StageOf(cfg, P(), c, words, olds, topics[..], i + 1, darts, dc', Abs()).AsSpecified?
    {
      ghost var now := topics[..];
      InRangeTopic(cfg, P(), c, words, olds, now, i, darts, dc, Abs());
      var new_;
      ok, new_, dc' := ResampleAt(words, now, topics[i], darts, i, dc, c, olds);
      if ok {
        topics[i] := new_;
        assert topics[..] == now[i := new_];
      }
    }

    /** The loop over the tokens of a document whose topics have been tallied. */
    method ResampleAll(words: seq<nat>, topics: array<int>, darts: seq<real>, dc0: DocCache,
                       ghost c: Cache, ghost olds: seq<int>)
      returns (done: nat, dc: DocCache)
      requires |words| == |darts| == topics.Length && Valid() && DocOk(P(), summaryVals, dc0)
      requires StageOf(cfg, P(), c, words, olds, topics[..], 0, darts, dc0, Abs()).AsSpecified?
      modifies this, topics
      ensures done <= |words| && (done == |words| ==> Valid())
      ensures StageOf(cfg, P(), c, words, olds, topics[..], done, darts, dc, Abs()).AsSpecified?
      ensures done < |words| ==> words[done] < |wordTopicVals| && topics[done] !in wordTopicVals[words[done]]
    {
      done, dc := 0, dc0;
      while done < |words|
        invariant done <= |words| && Valid() && DocOk(P(), summaryVals, dc)
        invariant StageOf(cfg, P(), c, words, olds, topics[..], done, darts, dc, Abs()).AsSpecified?
      {
        var ok, next := ResampleInPlace(words, topics, darts, done, dc, c, olds);
        if !ok {
          return;
        }
        done, dc := done + 1, next;
      }
    }

    /** Resampling a document: `words` gives the word of every token in the order of the occurrence
        iterator, `topics` is edited in place, `darts` are the random numbers.  `done` tokens are processed;
        when it stops early the next token's CHECK failed. */
    method SampleOneDoc(words: seq<nat>, topics: array<int>, darts: seq<real>) returns (done: nat)
      requires Valid() && |words| == topics.Length == |darts|
      requires forall i :: 0 <= i < |words| ==> words[i] < cfg.V && 0 <= topics[i] < cfg.K && 0.0 <= darts[i] < 1.0
      modifies this, topics
      ensures done <= |words| && topics[done..] == old(topics[done..])
      ensures Abs() == MoveAll(cfg, old(Abs()), words[..done], old(topics[..])[..done], topics[..done])
      ensures done < |words| ==> old(topics[done]) !in Abs().vals[words[done]]
      ensures done == |words| ==> Valid()
      ensures InRange(topics[..done], cfg.K)
      ensures AllPicked(cfg, P(), old(Abs()), words, old(topics[..]), topics[..done], darts)
    {
      ghost var c, olds := Abs(), topics[..];
      var dc := BuildDocCache(P(), summaryVals, topics[..]);
      StageStart(cfg, P(), c, words, olds, darts, dc);
      done, dc := ResampleAll(words, topics, darts, dc, c, olds);
      StageResult(cfg, P(), c, words, olds, topics[..], done, darts, dc, Abs());
      assert topics[..done] == topics[..][..done] && topics[done..] == topics[..][done..];
    }

    // ---- push and pull -------------------------------------------------------------------------

    /** Sending the pending changes of one row; `other` selects the second half of the table. */
    method PushRow(index: nat, other: bool) returns (b: Batch)
      requires index < |wordTopicDelta|
      modifies `wordTopicDelta
      ensures b == Batch(TableRow(cfg.V, index, other), old(wordTopicDelta)[index])
      ensures wordTopicDelta == old(wordTopicDelta)[index := map[]]
    {
      b := Batch(index + (if other then cfg.V else 0), wordTopicDelta[index]);
      wordTopicDelta := wordTopicDelta[index := map[]];
    }

    method PushRowOther(index: nat, other: bool) returns (b: Batch)
      requires index < |wordTopicDeltaOther|
      modifies `wordTopicDeltaOther
      ensures b == Batch(TableRow(cfg.V, index, other), old(wordTopicDeltaOther)[index])
      ensures wordTopicDeltaOther == old(wordTopicDeltaOther)[index := map[]]
    {
      b := Batch(index + (if other then cfg.V else 0), wordTopicDeltaOther[index]);
      wordTopicDeltaOther := wordTopicDeltaOther[index := map[]];
    }

    method PushMany(indices: seq<nat>, other: bool) returns (bs: seq<Batch>)
      requires forall i :: 0 <= i < |indices| ==> indices[i] < |wordTopicDelta|
      modifies `wordTopicDelta
      ensures bs == Batches(cfg.V, old(wordTopicDelta), indices, other)
      ensures wordTopicDelta == Flush(old(wordTopicDelta), indices)
    {
      ghost var d := wordTopicDelta;
      bs := [];
      for i := 0 to |indices|
        invariant wordTopicDelta == Flush(d, indices[..i])
        invariant bs == Batches(cfg.V, d, indices[..i], other)
      {
        FlushSnoc(d, indices, i);
        assert indices[..i + 1][..i] == indices[..i];
        var b := PushRow(indices[i], other);
        bs := bs + [b];
      }
      assert indices[..|indices|] == indices;
    }

    method PushManyOther(indices: seq<nat>, other: bool) returns (bs: seq<Batch>)
      requires forall i :: 0 <= i < |indices| ==> indices[i] < |wordTopicDeltaOther|
      modifies `wordTopicDeltaOther
      ensures bs == Batches(cfg.V, old(wordTopicDeltaOther), indices, other)
      ensures wordTopicDeltaOther == Flush(old(wordTopicDeltaOther), indices)
    {
      ghost var d := wordTopicDeltaOther;
      bs := [];
      for i := 0 to |indices|
        invariant wordTopicDeltaOther == Flush(d, indices[..i])
        invariant bs == Batches(cfg.V, d, indices[..i], other)
      {
        FlushSnoc(d, indices, i);
        assert indices[..i + 1][..i] == indices[..i];
        var b := PushRowOther(indices[i], other);
        bs := bs + [b];
      }
      assert indices[..|indices|] == indices;
    }

    /** The rows of an item, wrapping at the end of the vocabulary. */
    method ItemRows(item: Item) returns (rows: seq<nat>)
      requires cfg.Valid() && item.first <= cfg.V
      ensures rows == WrapRows(cfg.V, item.first, item.numRows)
    {
      rows := [];
      var currentRow := item.first;
      FirstRow(item.first, cfg.V);
      for i := 0 to item.numRows
        invariant |rows| == i && forall j :: 0 <= j < i ==> rows[j] == RowOf(item.first + j, cfg.V)
        invariant 0 <= currentRow <= cfg.V
        invariant Wrapped(currentRow, cfg.V) == RowOf(item.first + i, cfg.V)
      {
        NextRow(item.first + i, cfg.V);
        if currentRow == cfg.V {
          currentRow := 0;
        }
        rows := rows + [currentRow];
        currentRow := currentRow + 1;
      }
    }

    /** Every second row, starting where row + parity is even. */
    method AlternateRows(parity: nat) returns (rows: seq<nat>)
      ensures rows == EvenRows(cfg.V, parity)
    {
      rows := [];
      for i := 0 to cfg.V
        invariant rows == EvenRows(i, parity)
      {
        if (i + parity) % 2 == 1 {
          continue;
        }
        rows := rows + [i];
      }
    }

    /** The schedule push and pull share. */
    method OwnRows(item: Item, iter: nat) returns (updateSchedule: seq<nat>)
      requires cfg.Valid() && item.first <= cfg.V
      ensures updateSchedule == OwnSchedule(cfg, clientId, item, iter)
    {
      if !cfg.localSync {
        updateSchedule := ItemRows(item);
        if cfg.bipartite {
          var rows := AlternateRows(clientId);
          updateSchedule := updateSchedule + rows;
        }
      } else {
        updateSchedule := AlternateRows(iter);
      }
    }

    method Push(item: Item, iter: nat) returns (bs: seq<Batch>)
      requires Valid() && item.first <= cfg.V
      modifies this
      ensures bs == PushBatches(cfg, clientId, old(Abs()), item, iter)
      ensures Abs() == old(Abs()).(delta := Flush(old(wordTopicDelta), OwnSchedule(cfg, clientId, item, iter)),
                                   other := Flush(old(wordTopicDeltaOther), OtherSchedule(cfg, item)))
      ensures Valid()
    {
      FlushShape(cfg, Abs(), OtherSchedule(cfg, item), OwnSchedule(cfg, clientId, item, iter));
      var updateSchedule := OwnRows(item, iter);
      var other := false;
      bs := [];
      if cfg.localSync {
        other := clientId % 2 == 1;
        var updateScheduleOther := ItemRows(item);
        bs := PushManyOther(updateScheduleOther, !other);
      }
      assert wordTopicDeltaOther == Flush(old(wordTopicDeltaOther), OtherSchedule(cfg, item));
      var own := PushMany(updateSchedule, other);
      bs := bs + own;
    }

    /** Adding or subtracting a row's counts into the record of topic changes. */
    method AddChanges(changes: Row, row: Row, sign: int) returns (r: Row)
      ensures forall k :: Count(r, k) == Count(changes, k) + sign * Count(row, k)
      ensures forall k :: k in r ==> k in changes || k in row
    {
      r := changes;
      var todo: set<int> := row.Keys;
      while todo != {}
        invariant todo <= row.Keys
        invariant forall k :: Count(r, k) == Count(changes, k) + (if k in todo then 0 else sign * Count(row, k))
        invariant forall k :: k in r ==> k in changes || k in row
        decreases todo
      {
        SomeElement(todo);
        var k: int :| k in todo;
        r := r[k := Count(r, k) + sign * row[k]];
        todo := todo - {k};
      }
    }

    /** Replacing one cached row by a fetched one and recording the topic changes. */
    method PullRow(index: nat, fetched: Row, changes: Row) returns (ok: bool, changes': Row)
      requires index < |wordTopicVals|
      modifies `wordTopicVals
      ensures ok <==> Positive(old(wordTopicVals)[index]) && Positive(fetched)
                      && (solo ==> old(wordTopicVals)[index] == fetched)
      ensures ok ==> wordTopicVals == old(wordTopicVals)[index := fetched]
      ensures ok ==> forall k :: Count(changes', k)
                                 == Count(changes, k) - Count(old(wordTopicVals)[index], k) + Count(fetched, k)
      ensures ok ==> forall k :: k in changes' ==> k in changes || k in old(wordTopicVals)[index] || k in fetched
    {
      var oldRow := wordTopicVals[index];
      changes' := changes;
      if !AllPositive(fetched) || (solo && oldRow != fetched) || !AllPositive(oldRow) {
        return false, changes';
      }
      changes' := AddChanges(changes', oldRow, -1);
      changes' := AddChanges(changes', fetched, 1);
      wordTopicVals := wordTopicVals[index := fetched];
      ok := true;
    }

    /** Overwriting the scheduled rows one after another, a repeated row several times. */
    method PullRows(indices: seq<nat>, fetched: seq<Row>) returns (ok: bool, changes: Row)
      requires Shaped(cfg, Abs()) && |fetched| == |indices|
      requires forall i :: 0 <= i < |indices| ==> indices[i] < cfg.V && TopicsBelow(fetched[i], cfg.K)
      modifies `wordTopicVals
      ensures ok <==> PullChecks(solo, old(wordTopicVals), indices, fetched)
      ensures ok ==> wordTopicVals == Overwrite(old(wordTopicVals), indices, fetched)
      ensures ok ==> TopicsBelow(changes, cfg.K)
      ensures ok ==> forall w :: 0 <= w < cfg.V ==> Clean(wordTopicVals[w], cfg.K)
      ensures ok ==> forall k :: 0 <= k < cfg.K ==>
                       Sum(Column(old(wordTopicVals), k)) + Count(changes, k) == Sum(Column(wordTopicVals, k))
    {
      ghost var vals := wordTopicVals;
      ok, changes := true, map[];
      for i := 0 to |indices|
        invariant wordTopicVals == Overwrite(vals, indices[..i], fetched[..i])
        invariant forall w :: 0 <= w < cfg.V ==> Clean(wordTopicVals[w], cfg.K)
        invariant forall j :: 0 <= j < i ==> PullCheck(solo, vals, indices, fetched, j)
        invariant ok && TopicsBelow(changes, cfg.K)
        invariant forall k :: 0 <= k < cfg.K ==>
                    Sum(Column(vals, k)) + Count(changes, k) == Sum(Column(wordTopicVals, k))
      {
        ghost var before := wordTopicVals;
        assert indices[..i + 1][..i] == indices[..i] && fetched[..i + 1][..i] == fetched[..i];
        assert Clean(before[indices[i]], cfg.K);
        ok, changes := PullRow(indices[i], fetched[i], changes);
        if !ok {
          assert !PullCheck(solo, vals, indices, fetched, i);
          return;
        }
        forall k | 0 <= k < cfg.K
          ensures Sum(Column(vals, k)) + Count(changes, k) == Sum(Column(wordTopicVals, k))
        {
          SummaryReplace(before, indices[i], fetched[i], k);
        }
      }
      assert indices[..|indices|] == indices && fetched[..|fetched|] == fetched;
    }

    /** Pulling a schedule of rows, the i-th replaced by fetched[i]; the summary row and the s bucket
        follow. */
    method PullMany(indices: seq<nat>, fetched: seq<Row>) returns (ok: bool)
      requires Valid() && |fetched| == |indices|
      requires forall i :: 0 <= i < |indices| ==> indices[i] < cfg.V && TopicsBelow(fetched[i], cfg.K)
      modifies this
      ensures ok <==> PullChecks(solo, old(wordTopicVals), indices, fetched)
      ensures ok ==> Valid()
      ensures ok ==> Abs() == old(Abs()).(vals := Overwrite(old(wordTopicVals), indices, fetched))
    {
      ghost var vals := wordTopicVals;
      var changes;
      ok, changes := PullRows(indices, fetched);
      if !ok {
        return;
      }
      ApplyChanges(changes);
      assert summaryVals == Summary(wordTopicVals, cfg.K);
      SummaryNonNegative(cfg, Abs());
      BuildSBucket();
    }

    method ApplyChanges(changes: Row)
      requires |summaryVals| == cfg.K && TopicsBelow(changes, cfg.K)
      modifies `summaryVals
      ensures |summaryVals| == cfg.K
      ensures forall k :: 0 <= k < cfg.K ==> summaryVals[k] == old(summaryVals)[k] + Count(changes, k)
    {
      var todo: set<int> := changes.Keys;
      while todo != {}
        invariant todo <= changes.Keys && |summaryVals| == cfg.K
        invariant forall k :: 0 <= k < cfg.K ==>
                    summaryVals[k] == old(summaryVals)[k] + (if k in todo then 0 else Count(changes, k))
        decreases todo
      {
        SomeElement(todo);
        var k: int :| k in todo;
        summaryVals := summaryVals[k := summaryVals[k] + changes[k]];
        todo := todo - {k};
      }
    }

    method Pull(item: Item, iter: nat, fetched: seq<Row>) returns (ok: bool)
      requires Valid() && item.first <= cfg.V && |fetched| == |OwnSchedule(cfg, clientId, item, iter)|
      requires forall i :: 0 <= i < |fetched| ==> TopicsBelow(fetched[i], cfg.K)
      modifies this
      ensures ok <==> PullChecks(solo, old(wordTopicVals), OwnSchedule(cfg, clientId, item, iter), fetched)
      ensures ok ==> Valid()
      ensures ok ==>
        Abs() == old(Abs()).(vals := Overwrite(old(wordTopicVals), OwnSchedule(cfg, clientId, item, iter), fetched))
    {
      var updateSchedule := OwnRows(item, iter);
      ok := PullMany(updateSchedule, fetched);
    }
  }

  lemma SomeElement(s: set<int>)
    requires s != {}
    ensures exists k :: k in s
  {
    assert (forall k: int :: k !in s) ==> s == {};
  }

  /** A row index that reached the end starts over. */
  function Wrapped(row: nat, V: nat): nat {
    if row == V then 0 else row
  }

  lemma FirstRow(x: nat, V: nat)
    requires 0 < V && x <= V
    ensures Wrapped(x, V) == RowOf(x + 0, V)
  {
  }

  lemma NextRow(x: nat, V: nat)
    requires V > 0
    ensures RowOf(x + 1, V) == Wrapped(RowOf(x, V) + 1, V)
  {
    var a, b := x / V, (x + 1) / V;
    assert x == V * a + x % V;
    assert x + 1 == V * b + (x + 1) % V;
    assert V * (a + 2) == V * a + 2 * V && V * (a - 1) == V * a - V && V * (a + 1) == V * a + V;
    if b >= a + 2 {
      MulAtLeast(V, b, a + 2);
    } else if b <= a - 1 {
      MulAtLeast(V, a - 1, b);
    }
  }

  lemma MulAtLeast(a: int, b: int, c: int)
    requires a >= 0 && b >= c
    ensures a * b >= a * c
  {
  }

  lemma FlushSnoc(d: seq<Row>, sched: seq<nat>, i: nat)
    requires i < |sched| && sched[i] < |d|
    ensures Flush(d, sched[..i + 1]) == Flush(d, sched[..i])[sched[i] := map[]]
  {
    assert sched[..i + 1] == sched[..i] + [sched[i]];
  }

  /** What is known after `done` tokens: `now` are the document's topics and `a` the cached rows. */
  ghost predicate Progress(cfg: Config, c: Cache, words: seq<nat>, olds: seq<int>, now: seq<int>, done: nat,
                           dc: DocCache, a: Cache)
    requires |words| == |olds| && forall j :: 0 <= j < |words| ==> words[j] < cfg.V
    requires |c.vals| == |c.delta| == cfg.V && (cfg.localSync ==> |c.other| == cfg.V)
  {
    && done <= |now| == |olds| && now[done..] == olds[done..]
    && (forall i :: 0 <= i < |now| ==> 0 <= now[i] < cfg.K)
    && dc.counts == DocCounts(cfg.K, now)
    && dc.topics == TopicSet(olds) + TopicSet(now[..done])
    && a == MoveAll(cfg, c, words[..done], olds[..done], now[..done])
  }

  /** A document in the middle of being resampled: as it should be, or not. */
  datatype Stage = AsSpecified | Astray

  ghost function StageOf(cfg: Config, p: Params, c: Cache, words: seq<nat>, olds: seq<int>, now: seq<int>, done: nat,
                         darts: seq<real>, dc: DocCache, a: Cache): Stage
  {
    if && |words| == |darts| == |olds| && done <= |words| && p.Valid() && p.V == cfg.V && p.K == cfg.K
       && (forall j :: 0 <= j < |words| ==> words[j] < cfg.V && 0.0 <= darts[j] < 1.0)
       && |c.vals| == |c.delta| == cfg.V && (cfg.localSync ==> |c.other| == cfg.V)
       && Progress(cfg, c, words, olds, now, done, dc, a)
       && AllPicked(cfg, p, c, words, olds, now[..done], darts)
    then AsSpecified else Astray
  }

  lemma {:induction false} StageStart(cfg: Config, p: Params, c: Cache, words: seq<nat>, olds: seq<int>,
                                      darts: seq<real>, dc: DocCache)
    requires |words| == |darts| == |olds| && p.Valid() && p.V == cfg.V && p.K == cfg.K
    requires forall j :: 0 <= j < |words| ==> words[j] < cfg.V && 0.0 <= darts[j] < 1.0
    requires |c.vals| == |c.delta| == cfg.V && (cfg.localSync ==> |c.other| == cfg.V)
    requires forall j :: 0 <= j < |olds| ==> 0 <= olds[j] < cfg.K
    requires dc.counts == DocCounts(cfg.K, olds) && dc.topics == TopicSet(olds)
    ensures StageOf(cfg, p, c, words, olds, olds, 0, darts, dc, c).AsSpecified?
  {
    assert TopicSet(olds) + TopicSet(olds[..0]) == TopicSet(olds);
  }

  lemma {:induction false} StageResult(cfg: Config, p: Params, c: Cache, words: seq<nat>, olds: seq<int>, now: seq<int>,
                                       done: nat, darts: seq<real>, dc: DocCache, a: Cache)
    requires StageOf(cfg, p, c, words, olds, now, done, darts, dc, a).AsSpecified?
    requires |words| == |olds| == |darts| && forall j :: 0 <= j < |words| ==> words[j] < cfg.V
    requires |c.vals| == |c.delta| == cfg.V && (cfg.localSync ==> |c.other| == cfg.V)
    requires p.Valid() && p.V == cfg.V && p.K == cfg.K
    ensures done <= |now| == |olds| && now[done..] == olds[done..]
    ensures forall i :: 0 <= i < |now| ==> 0 <= now[i] < cfg.K
    ensures a == MoveAll(cfg, c, words[..done], olds[..done], now[..done])
    ensures AllPicked(cfg, p, c, words, olds, now[..done], darts)
  {
  }

  lemma InRangeTopic(cfg: Config, p: Params, c: Cache, words: seq<nat>, olds: seq<int>, now: seq<int>, n: nat,
                     darts: seq<real>, dc: DocCache, a: Cache)
    requires StageOf(cfg, p, c, words, olds, now, n, darts, dc, a).AsSpecified? && n < |words|
    ensures |now| == |words| && 0 <= now[n] < cfg.K
  {
  }

  lemma {:induction false} StageStep(cfg: Config, p: Params, c: Cache, words: seq<nat>, olds: seq<int>,
                                     now: seq<int>, n: nat, darts: seq<real>, dc: DocCache,
                                     a: Cache, t: int, dc': DocCache)
    requires n < |words| && StageOf(cfg, p, c, words, olds, now, n, darts, dc, a).AsSpecified?
    requires words[n] < cfg.V == |a.vals| == |a.delta| && (cfg.localSync ==> |a.other| == cfg.V)
    requires n < |now| && 0 <= now[n] < cfg.K && p.Valid() && p.V == cfg.V && p.K == cfg.K == |dc.counts| && n < |darts|
    requires 0 <= t < cfg.K && now[n] in a.vals[words[n]]
    requires dc'.counts == Adjust(Adjust(dc.counts, now[n], -1), t, 1) && dc'.topics == dc.topics + {t}
    requires DenseChoice(p, Record(cfg, a, words[n], now[n], -1).vals, words[n], Adjust(dc.counts, now[n], -1),
                         dc.topics, darts[n]) == iset{t}
    ensures StageOf(cfg, p, c, words, olds, now[n := t], n + 1, darts, dc',
        MoveToken(cfg, a, words[n], now[n], t)).AsSpecified?
  {
    ProgressStep(cfg, c, words, olds, now, n, dc, a, t, dc');
    PickStep(cfg, p, c, words, olds, darts, now, n, dc, a, t);
  }

  lemma ProgressStep(cfg: Config, c: Cache, words: seq<nat>, olds: seq<int>, now: seq<int>, n: nat, dc: DocCache,
                     a: Cache, t: int, dc': DocCache)
    requires |words| == |olds| && forall j :: 0 <= j < |words| ==> words[j] < cfg.V
    requires |c.vals| == |c.delta| == cfg.V && (cfg.localSync ==> |c.other| == cfg.V)
    requires n < |words| && Progress(cfg, c, words, olds, now, n, dc, a) && 0 <= t < cfg.K
    requires dc'.counts == Adjust(Adjust(dc.counts, now[n], -1), t, 1) && dc'.topics == dc.topics + {t}
    ensures Progress(cfg, c, words, olds, now[n := t], n + 1, dc', MoveToken(cfg, a, words[n], now[n], t))
  {
    Bookkeeping(cfg, words, olds, now, n, dc, t, dc');
    MoveStep(cfg, c, words, olds, now, n, a, t);
  }

  lemma Bookkeeping(cfg: Config, words: seq<nat>, olds: seq<int>, now: seq<int>, n: nat, dc: DocCache, t: int,
                    dc': DocCache)
    requires |words| == |olds| == |now| && n < |words| && now[n..] == olds[n..] && 0 <= t < cfg.K
    requires 0 <= now[n] < cfg.K && |dc.counts| == cfg.K
    requires dc.counts == DocCounts(cfg.K, now) && dc.topics == TopicSet(olds) + TopicSet(now[..n])
    requires dc'.counts == Adjust(Adjust(dc.counts, now[n], -1), t, 1) && dc'.topics == dc.topics + {t}
    ensures now[n := t][n + 1..] == olds[n + 1..]
    ensures dc'.counts == DocCounts(cfg.K, now[n := t])
    ensures dc'.topics == TopicSet(olds) + TopicSet(now[n := t][..n + 1])
  {
    PrefixFacts(words, olds, now, n, t);
    CountsAfterToken(cfg.K, now, n, t);
    TopicsAfterToken(TopicSet(olds), now[..n], t);
  }

  lemma MoveStep(cfg: Config, c: Cache, words: seq<nat>, olds: seq<int>, now: seq<int>, n: nat, a: Cache, t: int)
    requires |words| == |olds| == |now| && n < |words| && now[n..] == olds[n..]
    requires forall j :: 0 <= j < |words| ==> words[j] < cfg.V
    requires |c.vals| == |c.delta| == cfg.V && (cfg.localSync ==> |c.other| == cfg.V)
    requires a == MoveAll(cfg, c, words[..n], olds[..n], now[..n])
    ensures MoveAll(cfg, c, words[..n + 1], olds[..n + 1], now[n := t][..n + 1])
        == MoveToken(cfg, a, words[n], now[n], t)
  {
    PrefixFacts(words, olds, now, n, t);
  }

  lemma PickStep(cfg: Config, p: Params, c: Cache, words: seq<nat>, olds: seq<int>, darts: seq<real>,
                 now: seq<int>, n: nat, dc: DocCache, a: Cache, t: int)
    requires |words| == |olds| == |darts| && forall j :: 0 <= j < |words| ==> words[j] < cfg.V
    requires |c.vals| == |c.delta| == cfg.V && (cfg.localSync ==> |c.other| == cfg.V)
    requires p.Valid() && p.V == cfg.V && p.K == cfg.K && n < |words|
    requires Progress(cfg, c, words, olds, now, n, dc, a) && AllPicked(cfg, p, c, words, olds, now[..n], darts)
    requires 0 <= t < cfg.K && now[n] in a.vals[words[n]]
    requires DenseChoice(p, Record(cfg, a, words[n], now[n], -1).vals, words[n], Adjust(dc.counts, now[n], -1),
                         dc.topics, darts[n]) == iset{t}
    ensures AllPicked(cfg, p, c, words, olds, now[n := t][..n + 1], darts)
  {
    PrefixFacts(words, olds, now, n, t);
    CountsAfterToken(cfg.K, now, n, t);
  }

  lemma PrefixFacts(words: seq<nat>, olds: seq<int>, now: seq<int>, n: nat, t: int)
    requires n < |now| == |olds| == |words| && now[n..] == olds[n..]
    ensures now[n] == olds[n] && now[n := t][n + 1..] == now[n + 1..] == olds[n + 1..]
    ensures now[n := t][..n + 1] == now[..n] + [t] && now[n := t][..n + 1][..n] == now[..n]
    ensures words[..n + 1][..n] == words[..n] && olds[..n + 1][..n] == olds[..n]
  {
    assert now[n..][0] == olds[n..][0];
    assert now[n + 1..] == now[n..][1..] == olds[n..][1..] == olds[n + 1..];
  }

  lemma TopicsAfterToken(seen: set<int>, news: seq<int>, t: int)
    ensures seen + TopicSet(news) + {t} == seen + TopicSet(news + [t])
  {
  }
}
