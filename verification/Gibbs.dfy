/** The three-bucket form of collapsed Gibbs sampling: bucket masses, their agreement with the dense
    conditional, and the search that turns a dart into a topic.  Reals are exact. */
module Gibbs {
  import opened SparseRow
  import opened Sums

  /** alpha, beta and the sizes; beta_sum_ is V * beta. */
  datatype Params = Params(K: nat, V: nat, alpha: real, beta: real) {
    predicate Valid() { K > 0 && V > 0 && alpha > 0.0 && beta > 0.0 }
    function BetaSum(): real { beta * V as real }
  }

  /** The counts the masses depend on: n[k] tokens of topic k in all, d[k] of them in the document. */
  ghost predicate Counts(p: Params, n: seq<int>, d: seq<int>) {
    p.Valid() && |n| == |d| == p.K && forall k :: 0 <= k < p.K ==> n[k] >= 0 && d[k] >= 0
  }

  function Denom(p: Params, m: int): (r: real)
    requires p.Valid() && m >= 0
    ensures r > 0.0
  {
    assert p.BetaSum() > 0.0;
    m as real + p.BetaSum()
  }

  function QCoeff(p: Params, m: int, dk: int): (r: real)
    requires p.Valid() && m >= 0
    ensures dk >= 0 ==> r > 0.0
  {
    (p.alpha + dk as real) / Denom(p, m)
  }

  function Times(x: real, count: int): real {
    x * count as real
  }

  function QMass(p: Params, m: int, dk: int, count: int): (r: real)
    requires p.Valid() && m >= 0
    ensures dk >= 0 && count >= 0 ==> r >= 0.0 && (r > 0.0 <==> count > 0)
  {
    Times(QCoeff(p, m, dk), count)
  }

  function RMass(p: Params, m: int, dk: int): (r: real)
    requires p.Valid() && m >= 0
    ensures dk >= 0 ==> r >= 0.0
    ensures dk == 0 ==> r == 0.0
  {
    (p.beta * dk as real) / Denom(p, m)
  }

  function SMass(p: Params, m: int): (r: real)
    requires p.Valid() && m >= 0
    ensures r > 0.0
  {
    assert p.alpha * p.beta > 0.0;
    (p.alpha * p.beta) / Denom(p, m)
  }

  function QCoeffs(p: Params, n: seq<int>, d: seq<int>): (r: seq<real>)
    requires p.Valid() && |n| == |d| && forall k :: 0 <= k < |n| ==> n[k] >= 0
    ensures |r| == |n| && forall k :: 0 <= k < |n| ==> r[k] == QCoeff(p, n[k], d[k])
  {
    seq(|n|, k requires 0 <= k < |n| => QCoeff(p, n[k], d[k]))
  }

  function RVec(p: Params, n: seq<int>, d: seq<int>): (r: seq<real>)
    requires p.Valid() && |n| == |d| && forall k :: 0 <= k < |n| ==> n[k] >= 0
    ensures |r| == |n| && forall k :: 0 <= k < |n| ==> r[k] == RMass(p, n[k], d[k])
  {
    seq(|n|, k requires 0 <= k < |n| => RMass(p, n[k], d[k]))
  }

  function SVec(p: Params, n: seq<int>): (r: seq<real>)
    requires p.Valid() && forall k :: 0 <= k < |n| ==> n[k] >= 0
    ensures |r| == |n| && forall k :: 0 <= k < |n| ==> r[k] == SMass(p, n[k])
  {
    seq(|n|, k requires 0 <= k < |n| => SMass(p, n[k]))
  }

  function QVec(p: Params, n: seq<int>, d: seq<int>, row: Row): (r: seq<real>)
    requires p.Valid() && |n| == |d| && forall k :: 0 <= k < |n| ==> n[k] >= 0
    ensures |r| == |n| && forall k :: 0 <= k < |n| ==> r[k] == QMass(p, n[k], d[k], Count(row, k))
  {
    seq(|n|, k requires 0 <= k < |n| => QMass(p, n[k], d[k], Count(row, k)))
  }

  /** The dense collapsed Gibbs conditional of topic k, up to normalisation. */
  function Weight(p: Params, m: int, dk: int, count: int): real
    requires p.Valid() && m >= 0
  {
    assert Denom(p, m) == m as real + p.V as real * p.beta;
    (p.alpha + dk as real) * (p.beta + count as real) / (m as real + p.V as real * p.beta)
  }

  function Weights(p: Params, n: seq<int>, d: seq<int>, row: Row): (r: seq<real>)
    requires p.Valid() && |n| == |d| && forall k :: 0 <= k < |n| ==> n[k] >= 0
    ensures |r| == |n| && forall k :: 0 <= k < |n| ==> r[k] == Weight(p, n[k], d[k], Count(row, k))
  {
    seq(|n|, k requires 0 <= k < |n| => Weight(p, n[k], d[k], Count(row, k)))
  }

  lemma SplitWeight(a: real, b: real, d: real, c: real, z: real)
    requires z > 0.0
    ensures (a + d) / z * c + (b * d) / z + (a * b) / z == (a + d) * (b + c) / z
  {
    assert (a + d) / z * c == (a + d) * c / z;
    assert (a + d) * (b + c) == (a + d) * c + b * d + a * b;
  }

  lemma TopicWeight(p: Params, m: int, dk: int, count: int)
    requires p.Valid() && m >= 0
    ensures QMass(p, m, dk, count) + RMass(p, m, dk) + SMass(p, m) == Weight(p, m, dk, count)
  {
    SplitWeight(p.alpha, p.beta, dk as real, count as real, Denom(p, m));
  }

  /** For every topic the three buckets together are the dense conditional, and so are the totals. */
  lemma BucketsAreDense(p: Params, n: seq<int>, d: seq<int>, row: Row)
    requires Counts(p, n, d)
    ensures forall k :: 0 <= k < p.K ==>
              QVec(p, n, d, row)[k] + RVec(p, n, d)[k] + SVec(p, n)[k] == Weight(p, n[k], d[k], Count(row, k))
    ensures RSum(QVec(p, n, d, row)) + RSum(RVec(p, n, d)) + RSum(SVec(p, n)) == RSum(Weights(p, n, d, row))
  {
    var q, r, s := QVec(p, n, d, row), RVec(p, n, d), SVec(p, n);
    forall k | 0 <= k < p.K ensures q[k] + r[k] + s[k] == Weight(p, n[k], d[k], Count(row, k)) {
      TopicWeight(p, n[k], d[k], Count(row, k));
    }
    var qr := seq(p.K, k requires 0 <= k < p.K => q[k] + r[k]);
    RSumPointwise(q, r, qr);
    RSumPointwise(qr, s, Weights(p, n, d, row));
  }

  // ---- the counts of a document ---------------------------------------------------------------

  function Adjust(counts: seq<int>, k: nat, d: int): (r: seq<int>)
    requires k < |counts|
    ensures |r| == |counts|
  {
    counts[k := counts[k] + d]
  }

  predicate InRange(topics: seq<int>, K: nat) {
    forall i :: 0 <= i < |topics| ==> 0 <= topics[i] < K
  }

  function DocCounts(K: nat, topics: seq<int>): (r: seq<int>)
    ensures |r| == K && forall k :: 0 <= k < K ==> r[k] == multiset(topics)[k]
  {
    seq(K, k requires 0 <= k < K => multiset(topics)[k])
  }

  function AllTopics(K: nat): (r: seq<int>)
    ensures |r| == K && forall k :: 0 <= k < K ==> r[k] == k
  {
    seq(K, k requires 0 <= k < K => k)
  }

  /** What one replaced topic does to the counts of the document. */
  lemma CountsAfterToken(K: nat, before: seq<int>, i: nat, t: int)
    requires i < |before| && 0 <= before[i] < K && 0 <= t < K
    ensures var d := Adjust(DocCounts(K, before), before[i], -1);
            && d == DocCounts(K, before[..i] + before[i + 1..])
            && DocCounts(K, before[i := t]) == Adjust(d, t, 1)
  {
    assert before == before[..i] + [before[i]] + before[i + 1..];
    assert before[i := t] == before[..i] + [t] + before[i + 1..];
  }

  // ---- throwing the dart -----------------------------------------------------------------------

  /** The topics of a set in increasing order, as std::map and std::set iterate. */
  function Sorted(K: nat, topics: set<int>): (r: seq<int>)
    ensures forall t :: t in r <==> t in topics && 0 <= t < K
    ensures forall i :: 0 <= i < |r| ==> 0 <= r[i] < K
    ensures forall i, j :: 0 <= i < j < |r| ==> r[i] < r[j]
  {
    if K == 0 then [] else Sorted(K - 1, topics) + (if K - 1 in topics then [K - 1] else [])
  }

  /** A bucket: topics in increasing order that carry all its mass. */
  ghost predicate Bucket(list: seq<int>, vec: seq<real>) {
    Carries(list, vec) && forall k :: 0 <= k < |vec| ==> vec[k] >= 0.0
  }

  /** Topics in increasing order outside which the vector is zero. */
  ghost predicate Carries(list: seq<int>, vec: seq<real>) {
    && (forall i :: 0 <= i < |list| ==> 0 <= list[i] < |vec|)
    && (forall i, j :: 0 <= i < j < |list| ==> list[i] < list[j])
    && (forall k :: 0 <= k < |vec| && k !in list ==> vec[k] == 0.0)
  }

  /** Topic t's consecutive sub-interval, closed on the right, holds x; at the left edge of the bucket the
      first listed topic is taken. */
  predicate Lands(list: seq<int>, vec: seq<real>, x: real, t: int) {
    && t in list && 0 <= t < |vec|
    && x <= RSum(vec[..t + 1])
    && (RSum(vec[..t]) < x || (x == 0.0 && t == list[0]))
  }

  lemma {:induction false} NoMassBetween(vec: seq<real>, a: nat, b: nat)
    requires a <= b <= |vec| && forall k :: a <= k < b ==> vec[k] == 0.0
    ensures RSum(vec[..a]) == RSum(vec[..b])
  {
    if a < b {
      RSumSnoc(vec, b - 1);
      NoMassBetween(vec, a, b - 1);
    }
  }

  lemma WholePrefix(vec: seq<real>)
    ensures vec[..|vec|] == vec
  {
  }

  lemma PrefixMonotone(vec: seq<real>, a: nat, b: nat)
    requires a <= b <= |vec| && forall k :: 0 <= k < |vec| ==> vec[k] >= 0.0
    ensures RSum(vec[..a]) <= RSum(vec[..b])
  {
    RSumNonNegative(vec[..b]);
    assert vec[..b][..a] == vec[..a];
  }

  /** At most one topic is hit. */
  lemma LandsUnique(list: seq<int>, vec: seq<real>, x: real, t: int, u: int)
    requires Bucket(list, vec) && Lands(list, vec, x, t) && Lands(list, vec, x, u)
    ensures t == u
  {
    RSumNonNegative(vec[..t]);
    RSumNonNegative(vec[..u]);
    if t < u {
      PrefixMonotone(vec, t + 1, u);
    } else if u < t {
      PrefixMonotone(vec, u + 1, t);
    }
  }

  /** A topic without mass is hit only by a dart exactly on the bucket's left edge. */
  lemma ZeroMassOnlyAtEdge(list: seq<int>, vec: seq<real>, x: real, t: int)
    requires Bucket(list, vec) && Lands(list, vec, x, t) && vec[t] == 0.0
    ensures x == 0.0 && t == list[0]
  {
    RSumSnoc(vec, t);
  }

  /** The scan of one bucket: subtract masses until the remainder is not positive.  The overflow fallback
      after the scan is unreachable. */
  method SearchBucket(list: seq<int>, vec: seq<real>, x: real) returns (t: int)
    requires Bucket(list, vec) && 0.0 <= x < RSum(vec)
    ensures Lands(list, vec, x, t)
  {
    var sample := x;
    var i := 0;
    t := -1;
    while i < |list|
      invariant 0 <= i <= |list|
      invariant sample == x - RSum(vec[..if i == 0 then 0 else list[i - 1] + 1])
      invariant i > 0 ==> sample > 0.0
      invariant t == -1
    {
      var k := list[i];
      var k0 := if i == 0 then 0 else list[i - 1] + 1;
      SkippedTopics(list, vec, i);
      NoMassBetween(vec, k0, k);
      RSumSnoc(vec, k);
      sample := sample - vec[k];
      if sample <= 0.0 {
        return k;
      }
      i := i + 1;
    }
    SkippedTopics(list, vec, i);
    WholePrefix(vec);
    NoMassBetween(vec, if i == 0 then 0 else list[i - 1] + 1, |vec|);
    assert false;
  }

  /** Between two consecutive listed topics there is no mass. */
  lemma SkippedTopics(list: seq<int>, vec: seq<real>, i: nat)
    requires Carries(list, vec) && i <= |list|
    ensures forall k :: (if i == 0 then 0 else list[i - 1] + 1) <= k < (if i < |list| then list[i] else |vec|) ==>
              vec[k] == 0.0
  {
    forall k | (if i == 0 then 0 else list[i - 1] + 1) <= k < (if i < |list| then list[i] else |vec|)
      ensures vec[k] == 0.0
    {
      assert forall j :: 0 <= j < |list| ==> list[j] != k;
    }
  }

  /** The topic chosen by a dart on [0, total): first the q bucket, then r, then s. */
  predicate Chosen(wordTopics: seq<int>, docTopics: seq<int>, all: seq<int>,
                   q: seq<real>, r: seq<real>, s: seq<real>, x: real, t: int)
  {
    if x < RSum(q) then Lands(wordTopics, q, x, t)
    else if x - RSum(q) < RSum(r) then Lands(docTopics, r, x - RSum(q), t)
    else Lands(all, s, x - RSum(q) - RSum(r), t)
  }

  /** At most one topic is chosen. */
  lemma ChosenUnique(wordTopics: seq<int>, docTopics: seq<int>, all: seq<int>,
                     q: seq<real>, r: seq<real>, s: seq<real>, x: real, t: int, u: int)
    requires Bucket(wordTopics, q) && Bucket(docTopics, r) && Bucket(all, s)
    requires Chosen(wordTopics, docTopics, all, q, r, s, x, t) && Chosen(wordTopics, docTopics, all, q, r, s, x, u)
    ensures t == u
  {
    if x < RSum(q) {
      LandsUnique(wordTopics, q, x, t, u);
    } else if x - RSum(q) < RSum(r) {
      LandsUnique(docTopics, r, x - RSum(q), t, u);
    } else {
      LandsUnique(all, s, x - RSum(q) - RSum(r), t, u);
    }
  }

  /** The topics a dart at x may choose. */
  ghost function Choices(wordTopics: seq<int>, docTopics: seq<int>, all: seq<int>,
                         q: seq<real>, r: seq<real>, s: seq<real>, x: real): iset<int>
  {
    iset t | Chosen(wordTopics, docTopics, all, q, r, s, x, t)
  }

  method PickBucket(wordTopics: seq<int>, docTopics: seq<int>, all: seq<int>,
                    q: seq<real>, r: seq<real>, s: seq<real>, qTotal: real, rTotal: real, x: real)
    returns (t: int)
    requires Bucket(wordTopics, q) && Bucket(docTopics, r) && Bucket(all, s)
    requires qTotal == RSum(q) && rTotal == RSum(r)
    requires 0.0 <= x < RSum(q) + RSum(r) + RSum(s)
    ensures 0 <= t < |q| || 0 <= t < |r| || 0 <= t < |s|
    ensures Choices(wordTopics, docTopics, all, q, r, s, x) == iset{t}
  {
    var sample := x;
    if sample < qTotal {
      t := SearchBucket(wordTopics, q, sample);
    } else {
      sample := sample - qTotal;
      if sample < rTotal {
        t := SearchBucket(docTopics, r, sample);
      } else {
        sample := sample - rTotal;
        t := SearchBucket(all, s, sample);
      }
    }
    ChosenAlone(wordTopics, docTopics, all, q, r, s, x, t);
  }

  lemma ChosenAlone(wordTopics: seq<int>, docTopics: seq<int>, all: seq<int>,
                    q: seq<real>, r: seq<real>, s: seq<real>, x: real, t: int)
    requires Bucket(wordTopics, q) && Bucket(docTopics, r) && Bucket(all, s)
    requires Chosen(wordTopics, docTopics, all, q, r, s, x, t)
    ensures Choices(wordTopics, docTopics, all, q, r, s, x) == iset{t}
  {
    forall u | Chosen(wordTopics, docTopics, all, q, r, s, x, u) ensures u == t {
      ChosenUnique(wordTopics, docTopics, all, q, r, s, x, t, u);
    }
  }

  function ScaleDart(dart: real, total: real): (x: real)
    ensures 0.0 <= dart < 1.0 && total > 0.0 ==> 0.0 <= x < total
  {
    dart * total
  }

  method Draw(wordTopics: seq<int>, docTopics: seq<int>, all: seq<int>,
              q: seq<real>, r: seq<real>, s: seq<real>, qTotal: real, rTotal: real, sTotal: real, dart: real)
    returns (t: int)
    requires Bucket(wordTopics, q) && Bucket(docTopics, r) && Bucket(all, s)
    requires qTotal == RSum(q) && rTotal == RSum(r) && sTotal == RSum(s) && sTotal > 0.0
    requires 0.0 <= dart < 1.0
    ensures 0 <= t < |q| || 0 <= t < |r| || 0 <= t < |s|
    ensures Choices(wordTopics, docTopics, all, q, r, s, ScaleDart(dart, RSum(q) + RSum(r) + RSum(s))) == iset{t}
  {
    RSumNonNegative(q);
    RSumNonNegative(r);
    var total := qTotal + rTotal + sTotal;
    var x := ScaleDart(dart, total);
    t := PickBucket(wordTopics, docTopics, all, q, r, s, qTotal, rTotal, x);
  }

  /** Topic t's share of a bucket that starts at `base`: a half-open interval of length vec[t]. */
  predicate InShare(base: real, vec: seq<real>, x: real, t: int)
    requires 0 <= t < |vec|
  {
    base + RSum(vec[..t]) < x <= base + RSum(vec[..t + 1])
  }

  /** Strictly inside a bucket, landing on t is lying in t's share. */
  lemma LandsIsShare(list: seq<int>, vec: seq<real>, x: real, t: int)
    requires Bucket(list, vec) && 0 <= t < |vec| && x > 0.0
    ensures Lands(list, vec, x, t) <==> InShare(0.0, vec, x, t)
  {
    RSumSnoc(vec, t);
  }

  lemma ShareRange(list: seq<int>, vec: seq<real>, x: real, t: int)
    requires Bucket(list, vec) && 0 <= t < |vec| && InShare(0.0, vec, x, t)
    ensures 0.0 < x <= RSum(vec)
  {
    RSumNonNegative(vec[..t]);
    PrefixMonotone(vec, t + 1, |vec|);
    assert vec[..|vec|] == vec;
  }

  lemma ChosenIsShare(wordTopics: seq<int>, docTopics: seq<int>, all: seq<int>,
                      q: seq<real>, r: seq<real>, s: seq<real>, x: real, t: int)
    requires Bucket(wordTopics, q) && Bucket(docTopics, r) && Bucket(all, s) && |q| == |r| == |s|
    requires x > 0.0 && x != RSum(q) && x != RSum(q) + RSum(r) && 0 <= t < |q|
    ensures Chosen(wordTopics, docTopics, all, q, r, s, x, t)
            <==> InShare(0.0, q, x, t) || InShare(RSum(q), r, x, t) || InShare(RSum(q) + RSum(r), s, x, t)
  {
    RSumNonNegative(q);
    RSumNonNegative(r);
    var x1, x2 := x - RSum(q), x - RSum(q) - RSum(r);
    if InShare(0.0, q, x, t) { ShareRange(wordTopics, q, x, t); }
    if InShare(0.0, r, x1, t) { ShareRange(docTopics, r, x1, t); }
    if InShare(0.0, s, x2, t) { ShareRange(all, s, x2, t); }
    if x < RSum(q) {
      LandsIsShare(wordTopics, q, x, t);
    } else if x1 < RSum(r) {
      LandsIsShare(docTopics, r, x1, t);
    } else {
      LandsIsShare(all, s, x2, t);
    }
  }

  /** Off the three bucket edges, the darts that choose t are exactly those in t's three shares. */
  lemma DartLaw(p: Params, n: seq<int>, d: seq<int>, row: Row, docTopics: seq<int>, all: seq<int>, x: real, t: int)
    requires Counts(p, n, d) && Clean(row, p.K) && 0 <= t < p.K
    requires Bucket(docTopics, RVec(p, n, d)) && Bucket(all, SVec(p, n))
    requires x > 0.0 && x != RSum(QVec(p, n, d, row)) && x != RSum(QVec(p, n, d, row)) + RSum(RVec(p, n, d))
    ensures var q, r, s := QVec(p, n, d, row), RVec(p, n, d), SVec(p, n);
            Chosen(Sorted(p.K, row.Keys), docTopics, all, q, r, s, x, t)
            <==> InShare(0.0, q, x, t) || InShare(RSum(q), r, x, t) || InShare(RSum(q) + RSum(r), s, x, t)
  {
    WordBucket(p, n, d, row);
    ChosenIsShare(Sorted(p.K, row.Keys), docTopics, all, QVec(p, n, d, row), RVec(p, n, d), SVec(p, n), x, t);
  }

  /** The mass of topic t in the bucket that a dart at x uses. */
  function MassUsed(q: seq<real>, r: seq<real>, s: seq<real>, x: real, t: nat): real
    requires t < |q| == |r| == |s|
  {
    if x < RSum(q) then q[t] else if x - RSum(q) < RSum(r) then r[t] else s[t]
  }

  /** A topic without mass in the bucket used is chosen only by a dart exactly on the left edge of the r bucket;
      it is then the first listed topic, and the document has no token of it. */
  lemma MasslessOnlyAtREdge(p: Params, n: seq<int>, d: seq<int>, row: Row, docTopics: seq<int>, x: real, t: nat)
    requires Counts(p, n, d) && Clean(row, p.K) && Bucket(docTopics, RVec(p, n, d)) && t < p.K && 0.0 <= x
    requires var q, r, s := QVec(p, n, d, row), RVec(p, n, d), SVec(p, n);
             Chosen(Sorted(p.K, row.Keys), docTopics, AllTopics(p.K), q, r, s, x, t) && MassUsed(q, r, s, x, t) == 0.0
    ensures x == RSum(QVec(p, n, d, row)) && 0.0 < RSum(RVec(p, n, d)) && t == docTopics[0] && d[t] == 0
  {
    var q, r := QVec(p, n, d, row), RVec(p, n, d);
    WordBucket(p, n, d, row);
    if x >= RSum(q) {
      ZeroMassOnlyAtEdge(docTopics, r, x - RSum(q), t);
      assert r[t] == RMass(p, n[t], d[t]);
      NoMassNoToken(p, n[t], d[t]);
    }
  }

  lemma NoMassNoToken(p: Params, m: int, dk: int)
    requires p.Valid() && m >= 0 && dk >= 0
    ensures RMass(p, m, dk) == 0.0 ==> dk == 0
  {
    if dk > 0 {
      assert p.beta * dk as real > 0.0;
    }
  }

  function ShareLength(vec: seq<real>, t: nat): real
    requires t < |vec|
  {
    RSum(vec[..t + 1]) - RSum(vec[..t])
  }

  /** The lengths of t's three shares add up to its dense weight. */
  lemma ShareLengths(p: Params, n: seq<int>, d: seq<int>, row: Row, t: nat)
    requires Counts(p, n, d) && t < p.K
    ensures ShareLength(QVec(p, n, d, row), t) + ShareLength(RVec(p, n, d), t) + ShareLength(SVec(p, n), t)
            == Weight(p, n[t], d[t], Count(row, t))
  {
    TopicWeight(p, n[t], d[t], Count(row, t));
    RSumSnoc(QVec(p, n, d, row), t);
    RSumSnoc(RVec(p, n, d), t);
    RSumSnoc(SVec(p, n), t);
  }

  lemma WordBucket(p: Params, n: seq<int>, d: seq<int>, row: Row)
    requires Counts(p, n, d) && Clean(row, p.K)
    ensures Bucket(Sorted(p.K, row.Keys), QVec(p, n, d, row))
    ensures forall t :: t in Sorted(p.K, row.Keys) ==> QVec(p, n, d, row)[t] > 0.0
  {
    var q := QVec(p, n, d, row);
    forall k | 0 <= k < p.K
      ensures q[k] >= 0.0 && (k in row.Keys ==> q[k] > 0.0) && (k !in row.Keys ==> q[k] == 0.0)
    {
      assert q[k] == QMass(p, n[k], d[k], Count(row, k));
    }
  }
}
