/** FastDocSampler: the sampler that reads the word-topic table directly and keeps, for one document, a
    sorted index of its topics and running bucket masses, all edited in place per token. */
module FastDocSampler {
  import opened SparseRow
  import opened Sums
  import opened Gibbs

  // ---- sorted indices ------------------------------------------------------------------------

  predicate Increasing(list: seq<int>) {
    forall i, j :: 0 <= i < j < |list| ==> list[i] < list[j]
  }

  /** The topics that occur, in increasing order. */
  function Support(d: seq<int>): (r: seq<int>)
    ensures Increasing(r) && forall t :: t in r <==> 0 <= t < |d| && d[t] != 0
  {
    Sorted(|d|, set k | 0 <= k < |d| && d[k] != 0)
  }

  /** An increasing sequence is determined by its members. */
  lemma {:induction false} SameMembers(a: seq<int>, b: seq<int>)
    requires Increasing(a) && Increasing(b) && forall t :: t in a <==> t in b
    ensures a == b
  {
    assert |b| > 0 ==> b[0] in b;
    assert |a| > 0 ==> a[0] in a;
    if |a| > 0 {
      var m, n := |a| - 1, |b| - 1;
      assert a[m] in b && b[n] in a;
      forall t ensures t in a[..m] <==> t in b[..n] {
        assert t in a[..m] <==> t in a && t != a[m];
        assert t in b[..n] <==> t in b && t != b[n];
      }
      SameMembers(a[..m], b[..n]);
    }
  }

  /** Increasing indices below K fit an array of K elements, and leave room while one is missing. */
  lemma {:induction false} Fits(list: seq<int>, K: nat, t: int)
    requires Increasing(list) && (forall i :: 0 <= i < |list| ==> 0 <= list[i] < K)
    ensures |list| <= K
    ensures 0 <= t < K && t !in list ==> |list| < K
  {
    if |list| > 0 {
      AtLeastIndex(list, |list| - 1);
      if |list| == K && 0 <= t < K {
        AtMostIndex(list, K, t);
        AtLeastIndex(list, t);
      }
    }
  }

  lemma {:induction false} AtLeastIndex(list: seq<int>, i: nat)
    requires Increasing(list) && i < |list| && list[0] >= 0
    ensures list[i] >= i
  {
    if i > 0 {
      AtLeastIndex(list, i - 1);
    }
  }

  lemma {:induction false} AtMostIndex(list: seq<int>, K: nat, i: nat)
    requires Increasing(list) && i < |list| == K && list[K - 1] < K
    ensures list[i] <= i
    decreases K - i
  {
    if i < K - 1 {
      AtMostIndex(list, K, i + 1);
    }
  }

  /** Where lower_bound points. */
  predicate Splits(list: seq<int>, t: int, i: nat) {
    i <= |list| && (forall j :: 0 <= j < i ==> list[j] < t) && forall j :: i <= j < |list| ==> t <= list[j]
  }

  /** s without its element at i. */
  function Closed(s: seq<int>, i: nat): seq<int>
    requires i < |s|
  {
    s[..i] + s[i + 1..]
  }

  /** s with x before its element at i. */
  function Opened(s: seq<int>, i: nat, x: int): seq<int>
    requires i <= |s|
  {
    s[..i] + [x] + s[i..]
  }

  lemma {:induction false} SupportLoses(d: seq<int>, t: nat, i: nat)
    requires t < |d| && d[t] != 0 && Splits(Support(d), t, i)
    ensures i < |Support(d)| && Support(d)[i] == t
    ensures Support(d[t := 0]) == Closed(Support(d), i)
  {
    var s := Support(d);
    assert t in s;
    var cut := s[..i] + s[i + 1..];
    forall u ensures u in cut <==> u in Support(d[t := 0]) {
      assert u in cut <==> u in s[..i] || u in s[i + 1..];
      assert u in s <==> u in s[..i] || u == s[i] || u in s[i + 1..];
    }
    SameMembers(Support(d[t := 0]), cut);
  }

  lemma {:induction false} SupportGains(d: seq<int>, t: nat, i: nat, x: int)
    requires t < |d| && d[t] == 0 && x != 0 && Splits(Support(d), t, i)
    ensures Support(d[t := x]) == Opened(Support(d), i, t)
    ensures |Support(d)| < |d|
  {
    var s := Support(d);
    assert t !in s;
    Fits(s, |d|, t);
    GrownMembers(s, i, t);
    SameMembers(Support(d[t := x]), s[..i] + [t] + s[i..]);
  }

  lemma {:induction false} GrownMembers(s: seq<int>, i: nat, t: int)
    requires Increasing(s) && Splits(s, t, i) && t !in s
    ensures var grown := s[..i] + [t] + s[i..]; Increasing(grown) && forall u :: u in grown <==> u in s || u == t
  {
    forall u ensures u in s[..i] + [t] + s[i..] <==> u in s || u == t {
      assert u in s <==> u in s[..i] || u in s[i..];
    }
  }

  lemma {:induction false} SupportStays(d: seq<int>, t: nat, x: int)
    requires t < |d| && d[t] != 0 && x != 0
    ensures Support(d[t := x]) == Support(d)
  {
    SameMembers(Support(d[t := x]), Support(d));
  }

  /** std::lower_bound over the first n elements. */
  method LowerBound(a: array<int>, n: nat, t: int) returns (i: nat)
    requires n <= a.Length && Increasing(a[..n])
    ensures Splits(a[..n], t, i)
  {
    i := 0;
    var hi := n;
    while i < hi
      invariant 0 <= i <= hi <= n
      invariant forall j :: 0 <= j < i ==> a[j] < t
      invariant forall j :: hi <= j < n ==> t <= a[j]
    {
      var mid := (i + hi) / 2;
      assert forall j :: 0 <= j < mid ==> a[..n][j] < a[..n][mid];
      assert forall j :: mid < j < n ==> a[..n][mid] < a[..n][j];
      if a[mid] < t { i := mid + 1; } else { hi := mid; }
    }
  }

  /** memmove of a[i + 1..n) one place to the left. */
  method ShiftLeft(a: array<int>, i: nat, n: nat)
    requires i < n <= a.Length
    modifies a
    ensures a[..n - 1] == Closed(old(a[..n]), i)
  {
    forall j | i <= j < n - 1 {
      a[j] := a[j + 1];
    }
  }

  /** memmove of a[i..n) one place to the right, with x written into the gap. */
  method InsertAt(a: array<int>, i: nat, n: nat, x: int)
    requires i <= n < a.Length
    modifies a
    ensures a[..n + 1] == Opened(old(a[..n]), i, x)
  {
    forall j | i < j <= n {
      a[j] := a[j - 1];
    }
    a[i] := x;
  }

  /** The index after topic k lost a token of the document with counts d, `left` being left. */
  method IndexAfterRemoval(a: array<int>, n: nat, k: nat, left: int, ghost d: seq<int>) returns (m: nat)
    requires n <= a.Length && a[..n] == Support(d) && k < |d| && d[k] >= 1 && left == d[k] - 1
    modifies a
    ensures m <= n && a[..m] == Support(Adjust(d, k, -1))
  {
    m := n;
    if left == 0 {
      var i := LowerBound(a, n, k);
      SupportLoses(d, k, i);
      ShiftLeft(a, i, n);
      m := n - 1;
    } else {
      SupportStays(d, k, left);
    }
  }

  /** The index after topic k gained a token, `now` being there. */
  method IndexAfterAddition(a: array<int>, n: nat, k: nat, now: int, ghost d: seq<int>) returns (m: nat)
    requires n <= a.Length == |d| && a[..n] == Support(d) && k < |d| && d[k] >= 0 && now == d[k] + 1
    modifies a
    ensures m <= a.Length && a[..m] == Support(Adjust(d, k, 1))
  {
    m := n;
    if now == 1 {
      var i := LowerBound(a, n, k);
      SupportGains(d, k, i, 1);
      InsertAt(a, i, n, k);
      m := n + 1;
    } else {
      SupportStays(d, k, now);
    }
  }

  // ---- the cached masses ---------------------------------------------------------------------

  /** What ComputeAuxVariables derives: the sorted index, s_sum_, r_sum_ and q_coeff_. */
  datatype Aux = Aux(index: seq<int>, sSum: real, rSum: real, qCoeff: seq<real>)

  function Rebuild(p: Params, n: seq<int>, d: seq<int>): Aux
    requires p.Valid() && |n| == |d| && forall k :: 0 <= k < |n| ==> n[k] >= 0
  {
    Aux(Support(d), RSum(SVec(p, n)), RSum(RVec(p, n, d)), QCoeffs(p, n, d))
  }

  /** How the masses follow when both counts of topic k change by x. */
  lemma MassesFollow(p: Params, n: seq<int>, d: seq<int>, k: nat, x: int)
    requires Counts(p, n, d) && k < p.K && n[k] + x >= 0
    ensures var n', d' := Adjust(n, k, x), Adjust(d, k, x);
            && RSum(SVec(p, n')) == RSum(SVec(p, n)) - SMass(p, n[k]) + SMass(p, n[k] + x)
            && RSum(RVec(p, n', d')) == RSum(RVec(p, n, d)) - RMass(p, n[k], d[k]) + RMass(p, n[k] + x, d[k] + x)
            && QCoeffs(p, n', d') == QCoeffs(p, n, d)[k := QCoeff(p, n[k] + x, d[k] + x)]
  {
    var n', d' := Adjust(n, k, x), Adjust(d, k, x);
    var s, r := SMass(p, n[k] + x), RMass(p, n[k] + x, d[k] + x);
    assert SVec(p, n') == SVec(p, n)[k := s];
    RSumUpdate(SVec(p, n), k, s);
    assert RVec(p, n', d') == RVec(p, n, d)[k := r];
    RSumUpdate(RVec(p, n, d), k, r);
  }

  /** The derived state with the masses of topic k moved from counts (m, dk) to (m + x, dk + x). */
  function Followed(p: Params, a: Aux, k: nat, m: int, dk: int, x: int): Aux
    requires p.Valid() && k < |a.qCoeff| && m >= 0 && m + x >= 0
  {
    Aux(a.index, a.sSum - SMass(p, m) + SMass(p, m + x), a.rSum - RMass(p, m, dk) + RMass(p, m + x, dk + x),
        a.qCoeff[k := QCoeff(p, m + x, dk + x)])
  }

  /** Incremental maintenance is a rebuild. */
  lemma FollowedIsRebuild(p: Params, n: seq<int>, d: seq<int>, k: nat, x: int)
    requires Counts(p, n, d) && k < p.K && n[k] + x >= 0 && d[k] + x >= 0
    ensures Counts(p, Adjust(n, k, x), Adjust(d, k, x))
    ensures Followed(p, Rebuild(p, n, d), k, n[k], d[k], x).(index := Support(Adjust(d, k, x)))
            == Rebuild(p, Adjust(n, k, x), Adjust(d, k, x))
  {
    MassesFollow(p, n, d, k, x);
  }

  lemma {:induction false} SupportSnoc(d: seq<int>, k: nat)
    requires k < |d|
    ensures Support(d[..k + 1]) == if d[k] != 0 then Support(d[..k]) + [k] else Support(d[..k])
  {
    SameMembers(Support(d[..k + 1]), if d[k] != 0 then Support(d[..k]) + [k] else Support(d[..k]));
  }

  lemma SupportNil()
    ensures Support([]) == []
  {
    SameMembers(Support([]), []);
  }

  /** Appends k to the index when the topic occurs. */
  method Note(index: array<int>, num: nat, k: nat, dk: int, ghost d: seq<int>) returns (m: nat)
    requires num <= k < |d| <= index.Length && index[..num] == Support(d[..k]) && dk == d[k]
    modifies index
    ensures m <= k + 1 && index[..m] == Support(d[..k + 1])
  {
    SupportSnoc(d, k);
    m := num;
    if dk != 0 {
      index[num] := k;
      m := num + 1;
    }
  }

  /** Adds the masses of topic k; the r mass only when the topic occurs. */
  method AddMasses(s: seq<real>, r: seq<real>, k: nat, dk: int, sSum: real, rSum: real) returns (sNew: real, rNew: real)
    requires k < |s| == |r| && sSum == RSum(s[..k]) && rSum == RSum(r[..k]) && (dk == 0 ==> r[k] == 0.0)
    ensures sNew == RSum(s[..k + 1]) && rNew == RSum(r[..k + 1])
  {
    RSumSnoc(s, k);
    RSumSnoc(r, k);
    sNew := sSum + s[k];
    rNew := rSum;
    if dk != 0 {
      rNew := rSum + r[k];
    }
  }

  /** The loop of ComputeAuxVariables over the terms of each topic: s and r masses and coefficients c. */
  method FillAux(d: seq<int>, s: seq<real>, r: seq<real>, c: seq<real>, index: array<int>, q: array<real>)
    returns (sSum: real, rSum: real, num: nat)
    requires |d| == |s| == |r| == |c| == index.Length == q.Length
    requires forall k :: 0 <= k < |d| && d[k] == 0 ==> r[k] == 0.0
    modifies index, q
    ensures num <= |d| && index[..num] == Support(d) && q[..] == c
    ensures sSum == RSum(s) && rSum == RSum(r)
  {
    sSum, rSum, num := 0.0, 0.0, 0;
    SupportNil();
    for k := 0 to |d|
      invariant num <= k && index[..num] == Support(d[..k])
      invariant forall j :: 0 <= j < k ==> q[j] == c[j]
      invariant sSum == RSum(s[..k]) && rSum == RSum(r[..k])
    {
      q[k] := c[k];
      sSum, rSum := AddMasses(s, r, k, d[k], sSum, rSum);
      num := Note(index, num, k, d[k], d);
    }
    WholePrefix(s);
    WholePrefix(r);
    assert d[..|d|] == d;
  }

  /** A scan's masses, listed by position, are those of the vector. */
  predicate Lists(list: seq<int>, terms: seq<real>, scale: real, vec: seq<real>) {
    |list| == |terms| &&
    forall i :: 0 <= i < |list| ==> 0 <= list[i] < |vec| && vec[list[i]] == Scaled(scale, terms[i])
  }

  function Scaled(scale: real, x: real): real {
    scale * x
  }

  /** The listed masses of a bucket sum to the whole. */
  lemma {:induction false} ListedSum(list: seq<int>, terms: seq<real>, vec: seq<real>, i: nat)
    requires Carries(list, vec) && Lists(list, terms, 1.0, vec) && i <= |list|
    ensures RSum(terms[..i]) == RSum(vec[..if i == 0 then 0 else list[i - 1] + 1])
  {
    if i > 0 {
      ListedSum(list, terms, vec, i - 1);
      SkippedTopics(list, vec, i - 1);
      NoMassBetween(vec, if i == 1 then 0 else list[i - 2] + 1, list[i - 1]);
      RSumSnoc(vec, list[i - 1]);
      RSumSnoc(terms, i - 1);
    }
  }

  lemma ListedTotal(list: seq<int>, terms: seq<real>, vec: seq<real>)
    requires Carries(list, vec) && Lists(list, terms, 1.0, vec)
    ensures RSum(terms) == RSum(vec)
  {
    var n := |list|;
    ListedSum(list, terms, vec, n);
    SkippedTopics(list, vec, n);
    NoMassBetween(vec, if n == 0 then 0 else list[n - 1] + 1, |vec|);
    WholePrefix(vec);
    WholePrefix(terms);
  }

  lemma Rescale(scale: real, x: real, y: real)
    requires scale > 0.0
    ensures Scaled(scale, x / scale) == x
    ensures Scaled(scale, x - y) == Scaled(scale, x) - Scaled(scale, y)
    ensures x <= 0.0 <==> Scaled(scale, x) <= 0.0
  {
  }

  /** Where a scan for x stops: at the first listed topic up to which the masses, whatever their signs, reach
      x, and at the last one when they never do. */
  predicate StopsAt(list: seq<int>, vec: seq<real>, x: real, t: int) {
    && t in list && 0 <= t < |vec|
    && (forall u :: u in list && 0 <= u < t ==> RSum(vec[..u + 1]) < x)
    && (x <= RSum(vec[..t + 1]) || t == list[|list| - 1])
  }

  lemma {:induction false} StopsOnce(list: seq<int>, vec: seq<real>, x: real, t: int, u: int)
    requires Carries(list, vec) && StopsAt(list, vec, x, t) && StopsAt(list, vec, x, u)
    ensures t == u
  {
  }

  /** In a bucket that holds the dart the scan stops exactly where the dart lands. */
  lemma {:induction false} StopsIsLands(list: seq<int>, vec: seq<real>, x: real, t: int)
    requires Bucket(list, vec) && 0.0 <= x < RSum(vec)
    ensures StopsAt(list, vec, x, t) <==> Lands(list, vec, x, t)
  {
    if Lands(list, vec, x, t) {
      LandsStops(list, vec, x, t);
    }
    if StopsAt(list, vec, x, t) {
      StopsLands(list, vec, x, t);
    }
  }

  lemma {:induction false} LandsStops(list: seq<int>, vec: seq<real>, x: real, t: int)
    requires Bucket(list, vec) && Lands(list, vec, x, t)
    ensures StopsAt(list, vec, x, t)
  {
    forall u | u in list && 0 <= u < t ensures RSum(vec[..u + 1]) < x {
      PrefixMonotone(vec, u + 1, t);
      FirstIsLeast(list, u);
    }
  }

  lemma FirstIsLeast(list: seq<int>, u: int)
    requires Increasing(list) && u in list
    ensures list[0] <= u
  {
  }

  lemma {:induction false} StopsLands(list: seq<int>, vec: seq<real>, x: real, t: int)
    requires Bucket(list, vec) && 0.0 <= x < RSum(vec) && StopsAt(list, vec, x, t)
    ensures Lands(list, vec, x, t)
  {
    var i :| 0 <= i < |list| && list[i] == t;
    if i > 0 {
      assert list[i - 1] in list;
    }
    MassUpTo(list, vec, i);
    if i == |list| - 1 {
      SkippedTopics(list, vec, |list|);
      NoMassBetween(vec, t + 1, |vec|);
      WholePrefix(vec);
    }
  }

  /** The mass before the i-th listed topic is that up to the one before it. */
  lemma {:induction false} MassUpTo(list: seq<int>, vec: seq<real>, i: nat)
    requires Carries(list, vec) && i < |list|
    ensures RSum(vec[..list[i]]) == if i == 0 then 0.0 else UpTo(list, vec, i - 1)
    ensures UpTo(list, vec, i) == RSum(vec[..list[i]]) + vec[list[i]]
  {
    SkippedTopics(list, vec, i);
    NoMassBetween(vec, if i == 0 then 0 else list[i - 1] + 1, list[i]);
    RSumSnoc(vec, list[i]);
  }

  /** The mass up to and including the i-th listed topic. */
  ghost function UpTo(list: seq<int>, vec: seq<real>, i: nat): real
    requires i < |list| && 0 <= list[i] < |vec|
  {
    RSum(vec[..list[i] + 1])
  }

  lemma {:induction false} StopsThere(list: seq<int>, vec: seq<real>, x: real, i: nat)
    requires Carries(list, vec) && i < |list| && (x <= UpTo(list, vec, i) || i == |list| - 1)
    requires forall j :: 0 <= j < i ==> UpTo(list, vec, j) < x
    ensures StopsAt(list, vec, x, list[i])
  {
    forall u | u in list && 0 <= u < list[i] ensures RSum(vec[..u + 1]) < x {
      var j :| 0 <= j < |list| && list[j] == u;
      assert UpTo(list, vec, j) < x;
    }
  }

  /** One bucket's scan, on masses divided by scale. */
  method Scan(list: seq<int>, terms: seq<real>, scale: real, x: real, ghost vec: seq<real>) returns (t: int)
    requires |list| > 0 && scale > 0.0 && Carries(list, vec) && Lists(list, terms, scale, vec)
    ensures t in list && StopsAt(list, vec, x, t)
  {
    var sample := x / scale;
    Rescale(scale, x, 0.0);
    for i := 0 to |list|
      invariant Scaled(scale, sample) == x - if i == 0 then 0.0 else UpTo(list, vec, i - 1)
      invariant forall j :: 0 <= j < i ==> UpTo(list, vec, j) < x
    {
      Rescale(scale, sample, terms[i]);
      MassUpTo(list, vec, i);
      sample := sample - terms[i];
      Rescale(scale, sample, 0.0);
      if sample <= 0.0 {
        StopsThere(list, vec, x, i);
        return list[i];
      }
    }
    StopsThere(list, vec, x, |list| - 1);
    t := list[|list| - 1];
  }

  lemma SupportBuckets(p: Params, n: seq<int>, d: seq<int>)
    requires Counts(p, n, d)
    ensures Bucket(Support(d), RVec(p, n, d)) && Bucket(AllTopics(p.K), SVec(p, n))
  {
    forall k | 0 <= k < p.K ensures k in AllTopics(p.K) {
      assert AllTopics(p.K)[k] == k;
    }
  }

  lemma {:induction false} SupportMasses(p: Params, n: seq<int>, d: seq<int>)
    requires Counts(p, n, d)
    ensures RSum(RVec(p, n, d)) >= 0.0 && RSum(SVec(p, n)) > 0.0
    ensures RSum(RVec(p, n, d)) > 0.0 ==> |Support(d)| > 0
  {
    var r, s := RVec(p, n, d), SVec(p, n);
    RSumNonNegative(r);
    RSumNonNegative(s);
    RSumSnoc(s, 0);
    assert s[..0] == [] && RSum(s[..1]) <= RSum(s);
    if |Support(d)| == 0 {
      forall k | 0 <= k < p.K ensures r[k] == 0.0 {
        assert k !in Support(d);
      }
      RSumZero(r);
    }
  }

  lemma RTerms(p: Params, n: seq<int>, d: seq<int>, index: seq<int>, masses: seq<real>)
    requires Counts(p, n, d) && index == Support(d) && |masses| == |index|
    requires forall i :: 0 <= i < |index| ==>
               index[i] in index && masses[i] == d[index[i]] as real / Denom(p, n[index[i]])
    ensures Lists(index, masses, p.beta, RVec(p, n, d))
  {
    forall i | 0 <= i < |index|
      ensures 0 <= index[i] < p.K && RVec(p, n, d)[index[i]] == Scaled(p.beta, masses[i])
    {
      assert index[i] in index;
    }
  }

  lemma STerms(p: Params, n: seq<int>, masses: seq<real>)
    requires p.Valid() && |n| == |masses| == p.K && forall k :: 0 <= k < p.K ==> n[k] >= 0
    requires forall k :: 0 <= k < p.K ==> masses[k] == 1.0 / Denom(p, n[k])
    ensures Lists(AllTopics(p.K), masses, p.alpha * p.beta, SVec(p, n))
  {
  }

  // ---- the word's row ------------------------------------------------------------------------

  /** A fetched row with negative counts read as zero. */
  function Clamped(row: Row): (r: Row)
    ensures r.Keys == row.Keys && forall k :: k in r ==> r[k] >= 0
  {
    map k | k in row :: if row[k] < 0 then 0 else row[k]
  }

  /** The row with the current token taken out, where the row has an entry for its topic. */
  function Without(row: Row, t: int): (r: Row) {
    if t in row then row[t := row[t] - 1] else row
  }

  predicate RowTopics(row: Row, K: nat) {
    forall k :: k in row ==> 0 <= k < K
  }

  /** One token of topic t can be taken out of the row: it has no entry for t, or one of at least one. */
  predicate Removable(row: Row, t: int) {
    t in row ==> row[t] >= 1
  }

  lemma {:induction false} WithoutBucket(p: Params, n: seq<int>, d: seq<int>, row: Row, t: int)
    requires Counts(p, n, d) && RowTopics(row, p.K) && Removable(row, t)
    ensures Bucket(Sorted(p.K, row.Keys), QVec(p, n, d, Without(Clamped(row), t)))
  {
    var list, q := Sorted(p.K, row.Keys), QVec(p, n, d, Without(Clamped(row), t));
    forall k | 0 <= k < p.K ensures q[k] >= 0.0 && (k !in list ==> q[k] == 0.0) {
      assert q[k] == QMass(p, n[k], d[k], Count(Without(Clamped(row), t), k));
    }
  }

  lemma {:induction false} WithoutCarries(p: Params, n: seq<int>, d: seq<int>, row: Row, t: int)
    requires Counts(p, n, d) && RowTopics(row, p.K)
    ensures Carries(Sorted(p.K, row.Keys), QVec(p, n, d, Without(Clamped(row), t)))
  {
    var list, q := Sorted(p.K, row.Keys), QVec(p, n, d, Without(Clamped(row), t));
    forall k | 0 <= k < p.K && k !in list ensures q[k] == 0.0 {
      assert q[k] == QMass(p, n[k], d[k], 0);
    }
  }

  /** Taking a token out of an entry below one makes a negative term. */
  lemma {:induction false} NegativeTerm(p: Params, n: seq<int>, d: seq<int>, row: Row, t: int)
    requires Counts(p, n, d) && RowTopics(row, p.K) && !Removable(row, t)
    ensures QVec(p, n, d, Without(Clamped(row), t))[t] < 0.0
  {
    assert Count(Without(Clamped(row), t), t) == -1;
    assert QVec(p, n, d, Without(Clamped(row), t))[t] == -QCoeff(p, n[t], d[t]);
  }

  /** The q terms are those of a bucket exactly when the token can be taken out. */
  lemma BucketIffRemovable(p: Params, n: seq<int>, d: seq<int>, row: Row, t: int)
    requires Counts(p, n, d) && RowTopics(row, p.K)
    ensures Bucket(Sorted(p.K, row.Keys), QVec(p, n, d, Without(Clamped(row), t))) <==> Removable(row, t)
  {
    if Removable(row, t) {
      WithoutBucket(p, n, d, row, t);
    } else {
      NegativeTerm(p, n, d, row, t);
    }
  }

  /** The table's rows have no zero entries, so the q terms fail to be a bucket exactly when the stored count
      of the token's topic is negative; a row without an entry for it is no failure. */
  lemma BucketIffNatural(p: Params, n: seq<int>, d: seq<int>, row: Row, t: int)
    requires Counts(p, n, d) && RowTopics(row, p.K) && NoZeros(row)
    ensures Bucket(Sorted(p.K, row.Keys), QVec(p, n, d, Without(Clamped(row), t))) <==> Count(row, t) >= 0
  {
    BucketIffRemovable(p, n, d, row, t);
  }

  /** The smallest failing row: one topic with a negative count, read as zero before the token is taken out. */
  lemma {:induction false} NegativeEntry()
    ensures var p, row := Params(1, 1, 1.0, 1.0), map[0 := -1];
            NoZeros(row) && Count(row, 0) < 0 && QVec(p, [0], [0], Without(Clamped(row), 0)) == [-1.0]
  {
    var p := Params(1, 1, 1.0, 1.0);
    var row := Without(Clamped(map[0 := -1]), 0);
    assert Count(row, 0) == -1 && QCoeff(p, 0, 0) == 1.0;
    assert QVec(p, [0], [0], row)[0] == QMass(p, 0, 0, -1);
  }

  lemma {:induction false} QTerm(p: Params, n: seq<int>, d: seq<int>, coeffs: seq<real>, row: Row, t: int, topic: int)
    requires Counts(p, n, d) && coeffs == QCoeffs(p, n, d) && topic in row && 0 <= topic < p.K
    ensures QVec(p, n, d, Without(row, t))[topic]
        == Times(coeffs[topic], if topic == t then row[topic] - 1 else row[topic])
  {
    assert QVec(p, n, d, Without(row, t))[topic] == QMass(p, n[topic], d[topic], Count(Without(row, t), topic));
  }

  /** The loop that fills the q bucket of a word, given q_coeff_ and the clamped row. */
  method QTerms(list: seq<int>, coeffs: seq<real>, row: Row, t: int, ghost q: seq<real>)
    returns (terms: seq<real>, total: real)
    requires |coeffs| == |q|
    requires forall i :: 0 <= i < |list| ==> 0 <= list[i] < |q| && list[i] in row
    requires forall i :: 0 <= i < |list| ==>
               q[list[i]] == Times(coeffs[list[i]], if list[i] == t then row[list[i]] - 1 else row[list[i]])
    ensures Lists(list, terms, 1.0, q) && total == RSum(terms)
  {
    total := 0.0;
    terms := [];
    for i := 0 to |list|
      invariant |terms| == i && total == RSum(terms)
      invariant forall j :: 0 <= j < i ==> terms[j] == q[list[j]]
    {
      var topic, count := list[i], row[list[i]];
      var term := if topic == t then Times(coeffs[topic], count - 1) else Times(coeffs[topic], count);
      assert (terms + [term])[..i] == terms;
      terms := terms + [term];
      total := total + term;
    }
  }

  method FillQ(p: Params, ghost n: seq<int>, ghost d: seq<int>, coeffs: seq<real>, row: Row, t: int)
    returns (list: seq<int>, terms: seq<real>, total: real, ghost q: seq<real>)
    requires Counts(p, n, d) && coeffs == QCoeffs(p, n, d) && RowTopics(row, p.K)
    ensures list == Sorted(p.K, row.Keys) && |list| <= p.K && q == QVec(p, n, d, Without(Clamped(row), t))
    ensures Carries(list, q) && Lists(list, terms, 1.0, q) && total == RSum(terms)
  {
    q := QVec(p, n, d, Without(Clamped(row), t));
    WithoutCarries(p, n, d, row, t);
    list := Sorted(p.K, row.Keys);
    Fits(list, p.K, 0);
    var wordTopicMap := Clamped(row);
    forall i | 0 <= i < |list|
      ensures list[i] in wordTopicMap && QVec(p, n, d, Without(wordTopicMap, t))[list[i]]
              == Times(coeffs[list[i]], if list[i] == t then wordTopicMap[list[i]] - 1 else wordTopicMap[list[i]])
    {
      assert list[i] in list;
      QTerm(p, n, d, coeffs, wordTopicMap, t, list[i]);
    }
    terms, total := QTerms(list, coeffs, wordTopicMap, t, q);
  }

  // ---- the dart ------------------------------------------------------------------------------

  method ScanDocTopics(p: Params, n: seq<int>, d: seq<int>, index: seq<int>, x: real) returns (t: int)
    requires Counts(p, n, d) && index == Support(d) && 0.0 <= x < RSum(RVec(p, n, d))
    ensures 0 <= t < p.K && StopsAt(index, RVec(p, n, d), x, t)
  {
    SupportBuckets(p, n, d);
    SupportMasses(p, n, d);
    assert forall i :: 0 <= i < |index| ==> index[i] in index;
    var masses := seq(|index|, i requires 0 <= i < |index| => d[index[i]] as real / Denom(p, n[index[i]]));
    RTerms(p, n, d, index, masses);
    t := Scan(index, masses, p.beta, x, RVec(p, n, d));
  }

  method ScanAllTopics(p: Params, n: seq<int>, x: real) returns (t: int)
    requires Counts(p, n, n)
    ensures 0 <= t < p.K && StopsAt(AllTopics(p.K), SVec(p, n), x, t)
  {
    SupportBuckets(p, n, n);
    var masses := seq(p.K, k requires 0 <= k < p.K => 1.0 / Denom(p, n[k]));
    STerms(p, n, masses);
    assert p.alpha * p.beta > 0.0;
    t := Scan(AllTopics(p.K), masses, p.alpha * p.beta, x, SVec(p, n));
  }

  /** Where a dart at x stops: in the q list, then the index, then all topics. */
  predicate Picks(list: seq<int>, index: seq<int>, q: seq<real>, r: seq<real>, s: seq<real>, x: real, t: int) {
    if x < RSum(q) then StopsAt(list, q, x, t)
    else if x - RSum(q) < RSum(r) then StopsAt(index, r, x - RSum(q), t)
    else StopsAt(AllTopics(|s|), s, x - RSum(q) - RSum(r), t)
  }

  ghost function PicksAt(list: seq<int>, index: seq<int>, q: seq<real>, r: seq<real>, s: seq<real>,
                         x: real): iset<int> {
    iset t | Picks(list, index, q, r, s, x, t)
  }

  lemma {:induction false} PicksOne(list: seq<int>, index: seq<int>, q: seq<real>, r: seq<real>, s: seq<real>,
                                    x: real, t: int)
    requires Carries(list, q) && Carries(index, r) && Carries(AllTopics(|s|), s) && Picks(list, index, q, r, s, x, t)
    ensures PicksAt(list, index, q, r, s, x) == iset{t}
  {
    forall u | Picks(list, index, q, r, s, x, u) ensures u == t {
      if x < RSum(q) {
        StopsOnce(list, q, x, t, u);
      } else if x - RSum(q) < RSum(r) {
        StopsOnce(index, r, x - RSum(q), t, u);
      } else {
        StopsOnce(AllTopics(|s|), s, x - RSum(q) - RSum(r), t, u);
      }
    }
  }

  /** The dart on q, then r, then s.  A topic in range is returned whatever the masses of the word's row are,
      and no list is indexed while empty. */
  method PickTopic(p: Params, n: seq<int>, d: seq<int>, list: seq<int>, terms: seq<real>, index: seq<int>,
                   qSum: real, rSum: real, sSum: real, dart: real, ghost q: seq<real>)
    returns (t: int)
    requires Counts(p, n, d) && 0.0 <= dart < 1.0
    requires Aux(index, sSum, rSum, QCoeffs(p, n, d)) == Rebuild(p, n, d) && qSum == RSum(terms)
    requires Carries(list, q) && Lists(list, terms, 1.0, q) && |q| == p.K
    ensures 0 <= t < p.K
    ensures PicksAt(list, index, q, RVec(p, n, d), SVec(p, n),
                    ScaleDart(dart, RSum(q) + RSum(RVec(p, n, d)) + RSum(SVec(p, n)))) == iset{t}
  {
    SupportMasses(p, n, d);
    ListedTotal(list, terms, q);
    var x := ScaleDart(dart, qSum + rSum + sSum);
    ListNotEmpty(list, terms, dart, rSum, sSum);
    t := PickAt(p, n, d, list, terms, index, qSum, rSum, x, q);
  }

  /** A dart short of the q mass finds a q term. */
  lemma ListNotEmpty(list: seq<int>, terms: seq<real>, dart: real, rSum: real, sSum: real)
    requires |list| == |terms| && 0.0 <= dart && rSum >= 0.0 && sSum >= 0.0
    ensures ScaleDart(dart, RSum(terms) + rSum + sSum) < RSum(terms) ==> |list| > 0
  {
  }

  method PickAt(p: Params, n: seq<int>, d: seq<int>, list: seq<int>, terms: seq<real>, index: seq<int>,
                qSum: real, rSum: real, x: real, ghost q: seq<real>)
    returns (t: int)
    requires Counts(p, n, d) && index == Support(d) && rSum == RSum(RVec(p, n, d)) && qSum == RSum(q)
    requires Carries(list, q) && Lists(list, terms, 1.0, q) && |q| == p.K && (x < qSum ==> |list| > 0)
    ensures 0 <= t < p.K && PicksAt(list, index, q, RVec(p, n, d), SVec(p, n), x) == iset{t}
  {
    SupportBuckets(p, n, d);
    var sample := x;
    if sample < qSum {
      t := Scan(list, terms, 1.0, sample, q);
    } else {
      sample := sample - qSum;
      if sample < rSum {
        t := ScanDocTopics(p, n, d, index, sample);
      } else {
        sample := sample - rSum;
        t := ScanAllTopics(p, n, sample);
      }
    }
    PicksOne(list, index, q, RVec(p, n, d), SVec(p, n), x, t);
  }

  /** The topics a dart may pick with counts n and, in the document, d (none if some count is negative); row is
      the word's, and a token of topic t is taken out of it. */
  ghost function RowDraw(p: Params, n: seq<int>, d: seq<int>, row: Row, t: int, dart: real): iset<int> {
    if Counts(p, n, d) then DrawFrom(p, n, d, row, t, dart) else iset{}
  }

  ghost function DrawFrom(p: Params, n: seq<int>, d: seq<int>, row: Row, t: int, dart: real): iset<int>
    requires Counts(p, n, d)
  {
    var q, r, s := QVec(p, n, d, Without(Clamped(row), t)), RVec(p, n, d), SVec(p, n);
    PicksAt(Sorted(p.K, row.Keys), Support(d), q, r, s, ScaleDart(dart, RSum(q) + RSum(r) + RSum(s)))
  }

  /** The topics it chooses in the dense conditional. */
  ghost function RowChoice(p: Params, n: seq<int>, d: seq<int>, row: Row, t: int, dart: real): iset<int>
    requires Counts(p, n, d)
  {
    var q, r, s := QVec(p, n, d, Without(Clamped(row), t)), RVec(p, n, d), SVec(p, n);
    Choices(Sorted(p.K, row.Keys), Support(d), AllTopics(p.K), q, r, s, ScaleDart(dart, RSum(q) + RSum(r) + RSum(s)))
  }

  /** When the token can be taken out of the fetched row, the draw is the choice of the dense conditional. */
  lemma {:induction false} RemovableDrawIsDense(p: Params, n: seq<int>, d: seq<int>, row: Row, t: int, dart: real)
    requires Counts(p, n, d) && RowTopics(row, p.K) && Removable(row, t) && 0.0 <= dart < 1.0
    ensures RowDraw(p, n, d, row, t, dart) == RowChoice(p, n, d, row, t, dart)
  {
    var q, r, s := QVec(p, n, d, Without(Clamped(row), t)), RVec(p, n, d), SVec(p, n);
    WithoutBucket(p, n, d, row, t);
    SupportBuckets(p, n, d);
    SupportMasses(p, n, d);
    RSumNonNegative(q);
    PicksIsChosen(Sorted(p.K, row.Keys), Support(d), q, r, s, ScaleDart(dart, RSum(q) + RSum(r) + RSum(s)));
  }

  lemma {:induction false} PicksIsChosen(list: seq<int>, index: seq<int>, q: seq<real>, r: seq<real>, s: seq<real>,
                                         x: real)
    requires Bucket(list, q) && Bucket(index, r) && Bucket(AllTopics(|s|), s) && 0.0 <= x < RSum(q) + RSum(r) + RSum(s)
    ensures PicksAt(list, index, q, r, s, x) == Choices(list, index, AllTopics(|s|), q, r, s, x)
  {
    forall t ensures Picks(list, index, q, r, s, x, t) <==> Chosen(list, index, AllTopics(|s|), q, r, s, x, t) {
      if x < RSum(q) {
        StopsIsLands(list, q, x, t);
      } else if x - RSum(q) < RSum(r) {
        StopsIsLands(index, r, x - RSum(q), t);
      } else {
        StopsIsLands(AllTopics(|s|), s, x - RSum(q) - RSum(r), t);
      }
    }
  }

  function Total(base: seq<int>, d: seq<int>): (r: seq<int>)
    requires |base| == |d|
    ensures |r| == |d| && forall k :: 0 <= k < |d| ==> r[k] == base[k] + d[k]
  {
    seq(|d|, k requires 0 <= k < |d| => base[k] + d[k])
  }

  method DrawTopic(p: Params, n: seq<int>, d: seq<int>, index: seq<int>, coeffs: seq<real>, rSum: real, sSum: real,
                   row: Row, k: nat, dart: real) returns (qSum: real, t: int)
    requires Counts(p, n, d) && Aux(index, sSum, rSum, coeffs) == Rebuild(p, n, d)
    requires RowTopics(row, p.K) && k < p.K && 0.0 <= dart < 1.0
    ensures 0 <= t < p.K
    ensures RowDraw(p, n, d, row, k, dart) == iset{t}
  {
    var list, terms;
    ghost var q;
    list, terms, qSum, q := FillQ(p, n, d, coeffs, row, k);
    t := PickTopic(p, n, d, list, terms, index, qSum, rSum, sSum, dart, q);
    DrawIsPick(p, n, d, row, k, dart, list, index, q);
  }

  lemma {:induction false} DrawIsPick(p: Params, n: seq<int>, d: seq<int>, row: Row, k: int, dart: real,
                                      list: seq<int>, index: seq<int>, q: seq<real>)
    requires Counts(p, n, d) && list == Sorted(p.K, row.Keys) && index == Support(d)
    requires q == QVec(p, n, d, Without(Clamped(row), k))
    ensures RowDraw(p, n, d, row, k, dart) ==
            PicksAt(list, index, q, RVec(p, n, d), SVec(p, n),
                    ScaleDart(dart, RSum(q) + RSum(RVec(p, n, d)) + RSum(SVec(p, n))))
  {
  }

  // ---- table updates -------------------------------------------------------------------------

  /** One BatchInc on the word-topic table: the token's topic moved. */
  datatype TopicMove = TopicMove(word: nat, from: int, to: int)

  function Hits(k: int, t: int): int {
    if k == t then 1 else 0
  }

  /** What the moves add to the entry of word w and topic k. */
  function Net(moves: seq<TopicMove>, w: nat, k: int): int {
    if |moves| == 0 then 0
    else
      var m := moves[|moves| - 1];
      Net(moves[..|moves| - 1], w, k) + (if m.word == w then Hits(k, m.to) - Hits(k, m.from) else 0)
  }

  /** Tokens of word w with topic k. */
  function Tokens(words: seq<nat>, topics: seq<int>, w: nat, k: int): int
    requires |words| == |topics|
  {
    if |words| == 0 then 0
    else
      var m := |words| - 1;
      Tokens(words[..m], topics[..m], w, k) + (if words[m] == w then Hits(k, topics[m]) else 0)
  }

  lemma {:induction false} TokensUpdate(words: seq<nat>, topics: seq<int>, i: nat, t: int, w: nat, k: int)
    requires i < |words| == |topics|
    ensures Tokens(words, topics[i := t], w, k)
            == Tokens(words, topics, w, k) + if words[i] == w then Hits(k, t) - Hits(k, topics[i]) else 0
  {
    var m := |words| - 1;
    if i == m {
      assert topics[i := t][..m] == topics[..m];
    } else {
      assert topics[i := t][..m] == topics[..m][i := t];
      TokensUpdate(words[..m], topics[..m], i, t, w, k);
    }
  }

  /** The table moves are exactly the change of the document's assignments. */
  ghost predicate MovesMatch(moves: seq<TopicMove>, words: seq<nat>, before: seq<int>, after: seq<int>)
    requires |words| == |before| == |after|
  {
    forall w: nat, k: int :: Net(moves, w, k) == Tokens(words, after, w, k) - Tokens(words, before, w, k)
  }

  lemma MovesStep(moves: seq<TopicMove>, words: seq<nat>, before: seq<int>, now: seq<int>, i: nat, t: int)
    requires i < |words| == |before| == |now| && MovesMatch(moves, words, before, now)
    ensures MovesMatch(if now[i] != t then moves + [TopicMove(words[i], now[i], t)] else moves,
                       words, before, now[i := t])
  {
    var more := if now[i] != t then moves + [TopicMove(words[i], now[i], t)] else moves;
    forall w: nat, k: int ensures Net(more, w, k) == Tokens(words, now[i := t], w, k) - Tokens(words, before, w, k) {
      TokensUpdate(words, now, i, t, w, k);
      if now[i] != t {
        assert more[..|moves|] == moves;
      }
    }
  }

  /** The table updates of the first |news| tokens: one for each that changed its topic, in order. */
  function MovesOf(words: seq<nat>, olds: seq<int>, news: seq<int>): seq<TopicMove>
    requires |news| <= |olds| == |words|
  {
    if |news| == 0 then []
    else
      var m := |news| - 1;
      MovesOf(words, olds, news[..m])
      + (if olds[m] != news[m] then [TopicMove(words[m], olds[m], news[m])] else [])
  }

  lemma {:induction false} TokenCountsItself(words: seq<nat>, topics: seq<int>, i: nat)
    requires i < |words| == |topics|
    ensures Tokens(words, topics, words[i], topics[i]) >= 1
  {
    var m := |words| - 1;
    if i < m {
      TokenCountsItself(words[..m], topics[..m], i);
    } else {
      TokensNatural(words[..m], topics[..m], words[i], topics[i]);
    }
  }

  lemma {:induction false} TokensNatural(words: seq<nat>, topics: seq<int>, w: nat, k: int)
    requires |words| == |topics|
    ensures Tokens(words, topics, w, k) >= 0
  {
    if |words| > 0 {
      TokensNatural(words[..|words| - 1], topics[..|topics| - 1], w, k);
    }
  }

  // ---- a document ----------------------------------------------------------------------------

  /** The part of the summary row that does not count the document. */
  function Outside(n: seq<int>, d: seq<int>): (r: seq<int>)
    requires |n| == |d|
    ensures |r| == |n| && forall k :: 0 <= k < |n| ==> r[k] == n[k] - d[k]
    ensures Total(r, d) == n
  {
    seq(|n|, k requires 0 <= k < |n| => n[k] - d[k])
  }

  lemma TokenCounted(K: nat, base: seq<int>, topics: seq<int>, i: nat)
    requires i < |topics| && 0 <= topics[i] < K == |base| && base[topics[i]] >= 0
    ensures DocCounts(K, topics)[topics[i]] >= 1 && Total(base, DocCounts(K, topics))[topics[i]] >= 1
  {
    assert topics[i] in multiset(topics);
  }

  lemma TotalFollows(base: seq<int>, d: seq<int>, k: nat, x: int)
    requires k < |base| == |d|
    ensures Total(base, Adjust(d, k, x)) == Adjust(Total(base, d), k, x)
  {
  }

  /** For each token moved so far, the topics its dart may pick, with the earlier tokens moved and itself out
      of all counts. */
  ghost function Draws(p: Params, base: seq<int>, rows: seq<Row>, olds: seq<int>, news: seq<int>,
                       darts: seq<real>): seq<iset<int>>
    requires |base| == p.K && |news| <= |olds| == |rows| == |darts|
  {
    if |news| == 0 then []
    else
      var m := |news| - 1;
      var d := DocCounts(p.K, news[..m] + olds[m + 1..]);
      Draws(p, base, rows, olds, news[..m], darts) + [RowDraw(p, Total(base, d), d, rows[m], olds[m], darts[m])]
  }

  ghost function Singletons(news: seq<int>): seq<iset<int>> {
    seq(|news|, i requires 0 <= i < |news| => iset{news[i]})
  }

  /** Every token went where its dart picked. */
  ghost predicate AllDrawn(p: Params, base: seq<int>, rows: seq<Row>, olds: seq<int>, news: seq<int>, darts: seq<real>)
    requires |base| == p.K && |news| <= |olds| == |rows| == |darts|
  {
    Draws(p, base, rows, olds, news, darts) == Singletons(news)
  }

  lemma {:induction false} DrawnStep(p: Params, base: seq<int>, rows: seq<Row>, olds: seq<int>, now: seq<int>,
                                     darts: seq<real>, i: nat, t: int, d: seq<int>)
    requires |base| == p.K && i < |now| == |olds| == |rows| == |darts| && now[i..] == olds[i..]
    requires AllDrawn(p, base, rows, olds, now[..i], darts)
    requires d == DocCounts(p.K, now[..i] + now[i + 1..])
    requires RowDraw(p, Total(base, d), d, rows[i], now[i], darts[i]) == iset{t}
    ensures AllDrawn(p, base, rows, olds, now[i := t][..i + 1], darts)
    ensures now[i := t][i + 1..] == olds[i + 1..]
  {
    var news := now[i := t][..i + 1];
    assert now[i] == now[i..][0] == olds[i];
    assert now[i + 1..] == now[i..][1..] == olds[i + 1..];
    assert news[..i] == now[..i] && news[i] == t;
    assert Singletons(news) == Singletons(now[..i]) + [iset{t}];
  }

  /** What is known after i tokens: `now` are the document's topics, n and d the counts. */
  ghost predicate Progress(p: Params, base: seq<int>, words: seq<nat>, olds: seq<int>, rows: seq<Row>, darts: seq<real>,
                           now: seq<int>, i: nat, moves: seq<TopicMove>, n: seq<int>, d: seq<int>)
    requires |base| == p.K && |words| == |olds| == |rows| == |darts|
  {
    && i <= |now| == |olds| && now[i..] == olds[i..] && InRange(now, p.K)
    && d == DocCounts(p.K, now) && n == Total(base, d)
    && AllDrawn(p, base, rows, olds, now[..i], darts)
    && MovesMatch(moves, words, olds, now) && moves == MovesOf(words, olds, now[..i])
  }

  lemma {:induction false} CountsStep(K: nat, base: seq<int>, now: seq<int>, i: nat, t: int, n: seq<int>, d: seq<int>)
    requires i < |now| && |base| == K && InRange(now, K) && 0 <= t < K && d == DocCounts(K, now) && n == Total(base, d)
    ensures var d', n' := Adjust(d, now[i], -1), Adjust(n, now[i], -1);
            && d' == DocCounts(K, now[..i] + now[i + 1..]) && n' == Total(base, d')
            && Adjust(d', t, 1) == DocCounts(K, now[i := t]) && Adjust(n', t, 1) == Total(base, Adjust(d', t, 1))
  {
    CountsAfterToken(K, now, i, t);
    TotalFollows(base, d, now[i], -1);
    TotalFollows(base, Adjust(d, now[i], -1), t, 1);
  }

  lemma {:induction false} DocStep(p: Params, base: seq<int>, words: seq<nat>, olds: seq<int>, rows: seq<Row>,
                                   darts: seq<real>, now: seq<int>, i: nat, moves: seq<TopicMove>, n: seq<int>,
                                   d: seq<int>, t: int)
    requires |base| == p.K && |words| == |olds| == |rows| == |darts| && i < |olds| && 0 <= t < p.K
    requires Progress(p, base, words, olds, rows, darts, now, i, moves, n, d)
    requires RowDraw(p, Adjust(n, now[i], -1), Adjust(d, now[i], -1), rows[i], now[i], darts[i]) == iset{t}
    ensures Progress(p, base, words, olds, rows, darts, now[i := t], i + 1,
                     if now[i] != t then moves + [TopicMove(words[i], now[i], t)] else moves,
                     Adjust(Adjust(n, now[i], -1), t, 1), Adjust(Adjust(d, now[i], -1), t, 1))
  {
    CountsStep(p.K, base, now, i, t, n, d);
    DrawnStep(p, base, rows, olds, now, darts, i, t, Adjust(d, now[i], -1));
    MovesStep(moves, words, olds, now, i, t);
    MovesOfStep(moves, words, olds, now, i, t);
  }

  lemma {:induction false} MovesOfStep(moves: seq<TopicMove>, words: seq<nat>, olds: seq<int>, now: seq<int>, i: nat,
                                       t: int)
    requires i < |words| == |olds| == |now| && now[i..] == olds[i..] && moves == MovesOf(words, olds, now[..i])
    ensures MovesOf(words, olds, now[i := t][..i + 1])
            == if now[i] != t then moves + [TopicMove(words[i], now[i], t)] else moves
  {
    assert now[i] == now[i..][0] == olds[i];
    assert now[i := t][..i + 1][..i] == now[..i];
  }

  lemma {:induction false} AllMoved(p: Params, base: seq<int>, words: seq<nat>, olds: seq<int>, rows: seq<Row>,
                                    darts: seq<real>, news: seq<int>, moves: seq<TopicMove>, n: seq<int>, d: seq<int>)
    requires |base| == p.K && |words| == |olds| == |rows| == |darts|
    requires Progress(p, base, words, olds, rows, darts, news, |olds|, moves, n, d)
    ensures |news| == |olds| && InRange(news, p.K) && d == DocCounts(p.K, news) && n == Total(base, d)
    ensures AllDrawn(p, base, rows, olds, news, darts)
    ensures MovesMatch(moves, words, olds, news) && moves == MovesOf(words, olds, news)
  {
    assert news[..|news|] == news;
  }

  // ---- the sampler ---------------------------------------------------------------------------

  class Sampler {
    const p: Params
    const docTopicVec: array<int>
    const nonzeroDocTopicIdx: array<int>
    const qCoeff: array<real>
    var numNonzero: nat
    var sSum: real
    var rSum: real
    var qSum: real
    /** The summary row as this thread sees it; its own increments are visible at once. */
    var summary: seq<int>

    /** What the constructor settles for good. */
    ghost predicate Allocated() {
      && p.Valid() && docTopicVec.Length == nonzeroDocTopicIdx.Length == qCoeff.Length == p.K
      && docTopicVec != nonzeroDocTopicIdx
    }

    /** The derived state, as left in the fields. */
    ghost function Derived(): Aux
      requires numNonzero <= nonzeroDocTopicIdx.Length
      reads this, docTopicVec, nonzeroDocTopicIdx, qCoeff
    {
      Aux(nonzeroDocTopicIdx[..numNonzero], sSum, rSum, qCoeff[..])
    }

    /** Everything derived is what a rebuild would give. */
    ghost predicate Fresh()
      reads this, docTopicVec, nonzeroDocTopicIdx, qCoeff
    {
      && numNonzero <= nonzeroDocTopicIdx.Length && Counts(p, summary, docTopicVec[..])
      && Derived() == Rebuild(p, summary, docTopicVec[..])
    }

    constructor (params: Params, summaryRow: seq<int>)
      requires params.Valid() && |summaryRow| == params.K
      ensures Allocated() && p == params && summary == summaryRow
      ensures fresh(docTopicVec) && fresh(nonzeroDocTopicIdx) && fresh(qCoeff)
    {
      p := params;
      docTopicVec := new int[params.K];
      nonzeroDocTopicIdx := new int[params.K];
      qCoeff := new real[params.K];
      numNonzero := 0;
      summary := summaryRow;
    }

    method ComputeDocTopicVector(topics: seq<int>)
      requires Allocated() && forall i :: 0 <= i < |topics| ==> 0 <= topics[i] < p.K
      modifies docTopicVec
      ensures docTopicVec[..] == DocCounts(p.K, topics)
    {
      forall k | 0 <= k < p.K {
        docTopicVec[k] := 0;
      }
      for i := 0 to |topics|
        invariant forall k :: 0 <= k < p.K ==> docTopicVec[k] == multiset(topics[..i])[k]
      {
        assert topics[..i + 1] == topics[..i] + [topics[i]];
        docTopicVec[topics[i]] := docTopicVec[topics[i]] + 1;
      }
      assert topics[..|topics|] == topics;
    }

    method ComputeAuxVariables()
      requires Allocated() && Counts(p, summary, docTopicVec[..])
      modifies this`sSum, this`rSum, this`numNonzero, nonzeroDocTopicIdx, qCoeff
      ensures Fresh()
    {
      var d := docTopicVec[..];
      sSum, rSum, numNonzero :=
        FillAux(d, SVec(p, summary), RVec(p, summary, d), QCoeffs(p, summary, d), nonzeroDocTopicIdx, qCoeff);
    }

    /** Moves topic k's share of every mass by x tokens. */
    method ShiftMasses(k: nat, x: int)
      requires Allocated() && numNonzero <= p.K && k < p.K == |summary| && summary[k] >= 0 && summary[k] + x >= 0
      modifies this`sSum, this`rSum, qCoeff
      ensures Derived() == old(Followed(p, Derived(), k, summary[k], docTopicVec[k], x))
    {
      var m, dk := summary[k], docTopicVec[k];
      sSum := sSum - SMass(p, m) + SMass(p, m + x);
      rSum := rSum - RMass(p, m, dk) + RMass(p, m + x, dk + x);
      qCoeff[k] := QCoeff(p, m + x, dk + x);
    }

    /** Takes a token of the document out of every count, mass and index. */
    method RemoveToken(k: nat)
      requires Allocated() && Fresh() && k < p.K && docTopicVec[k] >= 1 && summary[k] >= 1
      modifies this`sSum, this`rSum, this`numNonzero, this`summary, docTopicVec, nonzeroDocTopicIdx, qCoeff
      ensures Fresh()
      ensures summary == Adjust(old(summary), k, -1) && docTopicVec[..] == Adjust(old(docTopicVec[..]), k, -1)
    {
      ghost var n, d := summary, docTopicVec[..];
      FollowedIsRebuild(p, n, d, k, -1);
      ShiftMasses(k, -1);
      docTopicVec[k] := docTopicVec[k] - 1;
      assert docTopicVec[..] == Adjust(d, k, -1);
      numNonzero := IndexAfterRemoval(nonzeroDocTopicIdx, numNonzero, k, docTopicVec[k], d);
      summary := Adjust(summary, k, -1);
    }

    /** Puts a token of topic k into every count, mass and index. */
    method AddToken(k: nat)
      requires Allocated() && Fresh() && k < p.K
      modifies this`sSum, this`rSum, this`numNonzero, this`summary, docTopicVec, nonzeroDocTopicIdx, qCoeff
      ensures Fresh()
      ensures summary == Adjust(old(summary), k, 1) && docTopicVec[..] == Adjust(old(docTopicVec[..]), k, 1)
    {
      ghost var n, d := summary, docTopicVec[..];
      FollowedIsRebuild(p, n, d, k, 1);
      ShiftMasses(k, 1);
      docTopicVec[k] := docTopicVec[k] + 1;
      assert docTopicVec[..] == Adjust(d, k, 1);
      numNonzero := IndexAfterAddition(nonzeroDocTopicIdx, numNonzero, k, docTopicVec[k], d);
      summary := Adjust(summary, k, 1);
    }

    /** Draws a topic for the current word, whose row is fetched as `row`, after its token of topic k is out. */
    method Sample(row: Row, k: nat, dart: real) returns (t: int)
      requires Allocated() && Fresh() && RowTopics(row, p.K) && k < p.K && 0.0 <= dart < 1.0
      modifies this`qSum
      ensures 0 <= t < p.K
      ensures RowDraw(p, summary, docTopicVec[..], row, k, dart) == iset{t}
    {
      qSum, t := DrawTopic(p, summary, docTopicVec[..], nonzeroDocTopicIdx[..numNonzero], qCoeff[..], rSum, sSum,
                           row, k, dart);
    }

    /** Resamples one token of topic k; the word's row is fetched as `row`. */
    method ResampleToken(row: Row, k: nat, dart: real) returns (t: int)
      requires Allocated() && Fresh() && RowTopics(row, p.K) && k < p.K && 0.0 <= dart < 1.0
      requires docTopicVec[k] >= 1 && summary[k] >= 1
      modifies this, docTopicVec, nonzeroDocTopicIdx, qCoeff
      ensures Fresh() && 0 <= t < p.K
      ensures summary == Adjust(Adjust(old(summary), k, -1), t, 1)
      ensures docTopicVec[..] == Adjust(Adjust(old(docTopicVec[..]), k, -1), t, 1)
      ensures RowDraw(p, Adjust(old(summary), k, -1), Adjust(old(docTopicVec[..]), k, -1), row, k, dart) == iset{t}
    {
      t := SampleWithout(row, k, dart);
      AddToken(t);
    }

    /** Takes the token out and draws. */
    method SampleWithout(row: Row, k: nat, dart: real) returns (t: int)
      requires Allocated() && Fresh() && RowTopics(row, p.K) && k < p.K && 0.0 <= dart < 1.0
      requires docTopicVec[k] >= 1 && summary[k] >= 1
      modifies this, docTopicVec, nonzeroDocTopicIdx, qCoeff
      ensures Fresh() && 0 <= t < p.K
      ensures summary == Adjust(old(summary), k, -1) && docTopicVec[..] == Adjust(old(docTopicVec[..]), k, -1)
      ensures RowDraw(p, summary, docTopicVec[..], row, k, dart) == iset{t}
    {
      RemoveToken(k);
      t := Sample(row, k, dart);
    }

    /** Samples a document whose tokens have words `words` and topics `topics`; rows[i] is what the table
        returns for token i. */
    method SampleOneDoc(words: seq<nat>, topics: seq<int>, rows: seq<Row>, darts: seq<real>)
      returns (news: seq<int>, moves: seq<TopicMove>)
      requires Allocated() && |summary| == p.K && |words| == |topics| == |rows| == |darts| && InRange(topics, p.K)
      requires forall i :: 0 <= i < |rows| ==> RowTopics(rows[i], p.K)
      requires forall i :: 0 <= i < |darts| ==> 0.0 <= darts[i] < 1.0
      requires forall k :: 0 <= k < p.K ==> summary[k] >= DocCounts(p.K, topics)[k]
      modifies this, docTopicVec, nonzeroDocTopicIdx, qCoeff
      ensures Fresh() && |news| == |topics| && InRange(news, p.K)
      ensures docTopicVec[..] == DocCounts(p.K, news)
      ensures var base := Outside(old(summary), DocCounts(p.K, topics));
              summary == Total(base, DocCounts(p.K, news)) && AllDrawn(p, base, rows, topics, news, darts)
      ensures MovesMatch(moves, words, topics, news) && moves == MovesOf(words, topics, news)
    {
      ComputeDocTopicVector(topics);
      ghost var base := Outside(summary, DocCounts(p.K, topics));
      ComputeAuxVariables();
      news, moves := ResampleAll(base, words, topics, rows, darts);
      AllMoved(p, base, words, topics, rows, darts, news, moves, summary, docTopicVec[..]);
    }

    method ResampleAll(ghost base: seq<int>, words: seq<nat>, topics: seq<int>, rows: seq<Row>, darts: seq<real>)
      returns (news: seq<int>, moves: seq<TopicMove>)
      requires Allocated() && Fresh() && |words| == |topics| == |rows| == |darts| && InRange(topics, p.K)
      requires |base| == p.K && forall k :: 0 <= k < p.K ==> base[k] >= 0
      requires forall i :: 0 <= i < |rows| ==> RowTopics(rows[i], p.K)
      requires forall i :: 0 <= i < |darts| ==> 0.0 <= darts[i] < 1.0
      requires docTopicVec[..] == DocCounts(p.K, topics) && summary == Total(base, docTopicVec[..])
      modifies this, docTopicVec, nonzeroDocTopicIdx, qCoeff
      ensures Fresh()
      ensures Progress(p, base, words, topics, rows, darts, news, |topics|, moves, summary, docTopicVec[..])
    {
      news, moves := topics, [];
      for i := 0 to |topics|
        invariant Fresh()
        invariant Progress(p, base, words, topics, rows, darts, news, i, moves, summary, docTopicVec[..])
      {
        var oldTopic := news[i];
        TokenCounted(p.K, base, news, i);
        ghost var n, d := summary, docTopicVec[..];
        var newTopic := ResampleToken(rows[i], oldTopic, darts[i]);
        DocStep(p, base, words, topics, rows, darts, news, i, moves, n, d, newTopic);
        if oldTopic != newTopic {
          moves := moves + [TopicMove(words[i], oldTopic, newTopic)];
        }
        news := news[i := newTopic];
      }
    }
  }
}
