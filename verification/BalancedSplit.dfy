/** Handing n data items to W workers by arithmetic: the three branches of the worker's LoadData. */
module BalancedSplit {
  /** num_data_per_thread: n / W rounded up. */
  function PerThread(n: nat, W: nat): (c: nat)
    requires W > 0
    ensures W * c >= n && W * c - n < W
  {
    CeilingBounds(n, W);
    (n + W - 1) / W
  }

  lemma CeilingBounds(n: nat, W: nat)
    requires W > 0
    ensures n <= W * ((n + W - 1) / W) < n + W
  {
  }

  /** Items a full split would hand out beyond the data there is. */
  function Excess(n: nat, W: nat): (e: nat)
    requires W > 0
    ensures e < W
  {
    W * PerThread(n, W) - n
  }

  /** The last worker that gets a full share. */
  function Cutoff(n: nat, W: nat): (k: nat)
    requires W > 0
    ensures k == W - 1 - Excess(n, W)
  {
    W - 1 - Excess(n, W)
  }

  datatype Range = Range(begin: int, end: int)

  /** The range of worker id. */
  method LoadRange(n: nat, W: nat, id: nat) returns (begin: int, end: int)
    requires id < W
    ensures Range(begin, end) == Share(PerThread(n, W), Cutoff(n, W), id)
  {
    var perThread := (n + W - 1) / W;
    assert perThread == PerThread(n, W);
    var totalAssigned := perThread * W;
    var cutoff: int := W - 1 - (totalAssigned - n);
    assert cutoff == Cutoff(n, W);
    if id <= cutoff {
      begin := perThread * id;
      end := begin + perThread;
    } else if id == cutoff + 1 {
      begin := perThread * id;
      end := begin + perThread - 1;
    } else {
      begin := perThread * cutoff + (perThread - 1) * (id - cutoff);
      end := begin + perThread - 1;
    }
  }

  /** With full share c and cutoff k: where a worker's items begin, and how many there are. */
  function Size(c: nat, k: nat, id: nat): int {
    if id <= k then c else c - 1
  }

  function Share(c: nat, k: nat, id: nat): Range {
    var begin := if id <= k + 1 then c * id else c * k + (c - 1) * (id - k);
    Range(begin, begin + Size(c, k, id))
  }

  /** The sizes of the first m workers together. */
  function Sizes(c: nat, k: nat, m: nat): int {
    if m == 0 then 0 else Sizes(c, k, m - 1) + Size(c, k, m - 1)
  }

  lemma {:induction false} SizesClosed(c: nat, k: nat, m: nat)
    ensures Sizes(c, k, m) == if m <= k + 1 then c * m else c * m - (m - k - 1)
  {
    if m > 0 {
      SizesClosed(c, k, m - 1);
    }
  }

  /** Range sizes always sum to n and differ by at most one. */
  lemma SizesSum(n: nat, W: nat, i: nat, j: nat)
    requires W > 0 && i < W && j < W
    ensures Sizes(PerThread(n, W), Cutoff(n, W), W) == n
    ensures -1 <= Size(PerThread(n, W), Cutoff(n, W), i) - Size(PerThread(n, W), Cutoff(n, W), j) <= 1
  {
    SizesClosed(PerThread(n, W), Cutoff(n, W), W);
  }

  // ---- how often an item is handed out -------------------------------------------------------

  predicate Holds(r: Range, x: nat) {
    r.begin <= x < r.end
  }

  /** How many of the first m workers get item x. */
  function Covered(c: nat, k: nat, x: nat, m: nat): nat {
    if m == 0 then 0 else Covered(c, k, x, m - 1) + if Holds(Share(c, k, m - 1), x) then 1 else 0
  }

  /** Where the first m ranges end: from the third branch on, one item early. */
  function Reach(c: nat, k: nat, m: nat): int {
    if m <= k + 1 then c * m
    else if m == k + 2 then c * (k + 2) - 1
    else c * k + (c - 1) * (m - k)
  }

  lemma ReachStep(c: nat, k: nat, m: nat)
    requires c >= 1
    ensures m != k + 2 ==> Share(c, k, m).begin == Reach(c, k, m)
    ensures m == k + 2 ==> Share(c, k, m).begin == Reach(c, k, m) - 1
    ensures Share(c, k, m).end == Reach(c, k, m + 1)
    ensures Reach(c, k, k + 2) == c * (k + 1) + c - 1
  {
    assert c * (m + 1) == c * m + c;
    if m > k {
      assert (c - 1) * (m + 1 - k) == (c - 1) * (m - k) + c - 1;
    }
    if m == k + 2 {
      assert c * k + (c - 1) * 2 == c * (k + 2) - 2;
    }
  }

  /** The item the third branch hands out a second time. */
  function Twice(c: nat, k: nat): int {
    c * (k + 1) + c - 2
  }

  lemma {:induction false} CoveredClosed(c: nat, k: nat, x: nat, m: nat)
    requires c >= 2
    ensures Covered(c, k, x, m) == (if x < Reach(c, k, m) then 1 else 0)
        + (if m > k + 2 && x == Twice(c, k) then 1 else 0)
  {
    if m > 0 {
      CoveredClosed(c, k, x, m - 1);
      ReachStep(c, k, m - 1);
    }
  }

  lemma {:induction false} CoveredSmall(c: nat, k: nat, x: nat, m: nat)
    requires c <= 1
    ensures Covered(c, k, x, m) == if c == 1 && x < m && x <= k then 1 else 0
  {
    if m > 0 {
      CoveredSmall(c, k, x, m - 1);
    }
  }

  /** All ranges together end where the data ends, or one item before. */
  lemma ReachAll(n: nat, W: nat)
    requires W > 0
    ensures Reach(PerThread(n, W), Cutoff(n, W), W) == if Excess(n, W) <= 1 then n else n - 1
  {
    var c, k, e := PerThread(n, W), Cutoff(n, W), Excess(n, W);
    assert (c - 1) * (e + 1) == c * (e + 1) - (e + 1);
    assert c * k + c * (e + 1) == c * W;
  }

  /** How many workers get item x. */
  function Copies(n: nat, W: nat, x: nat): nat
    requires W > 0
  {
    Covered(PerThread(n, W), Cutoff(n, W), x, W)
  }

  /** The split is meant to be an exact partition of the data. */
  ghost predicate ExactPartition(n: nat, W: nat)
    requires W > 0
  {
    forall x: nat :: Copies(n, W, x) == if x < n then 1 else 0
  }

  /** What every item gets: exactly one worker, except that with an excess of two or more and full shares
      of two or more one item gets two workers and the last item gets none. */
  lemma CopiesOf(n: nat, W: nat, x: nat)
    requires W > 0
    ensures var c, k := PerThread(n, W), Cutoff(n, W);
            Copies(n, W, x) ==
            if Excess(n, W) <= 1 || c <= 1 then (if x < n then 1 else 0)
            else if x == Twice(c, k) then 2 else if x < n - 1 then 1 else 0
  {
    var c, k := PerThread(n, W), Cutoff(n, W);
    if c <= 1 {
      CoveredSmall(c, k, x, W);
    } else {
      CoveredClosed(c, k, x, W);
      ReachAll(n, W);
      if Excess(n, W) >= 2 {
        TwiceInside(n, W);
      }
    }
  }

  /** The doubled item is a data item before the last. */
  lemma TwiceInside(n: nat, W: nat)
    requires W > 0 && PerThread(n, W) >= 2 && Excess(n, W) >= 2
    ensures 0 <= Twice(PerThread(n, W), Cutoff(n, W)) < n - 1
  {
    TwiceBefore(PerThread(n, W), Cutoff(n, W), Excess(n, W), W, n);
  }

  lemma TwiceBefore(c: nat, k: nat, e: nat, W: nat, n: nat)
    requires c >= 2 && e >= 2 && W == k + 1 + e && n == W * c - e
    ensures 0 <= Twice(c, k) < n - 1
  {
    Distribute(c, k + 1, e);
    assert (c - 1) * e == c * e - e;
    AtLeastTwice(c - 1, e);
  }

  lemma Distribute(c: nat, a: nat, b: nat)
    ensures (a + b) * c == c * a + c * b && c * a >= 0
  {
  }

  lemma AtLeastTwice(x: nat, e: nat)
    requires e >= 2
    ensures x * e >= 2 * x
  {
  }

  /** The ranges partition the data exactly if and only if at most one item is in excess, or no worker gets
      more than one item. */
  lemma ExactIff(n: nat, W: nat)
    requires W > 0
    ensures ExactPartition(n, W) <==> W * PerThread(n, W) - n <= 1 || PerThread(n, W) <= 1
  {
    if Excess(n, W) <= 1 || PerThread(n, W) <= 1 {
      forall x: nat ensures Copies(n, W, x) == if x < n then 1 else 0 {
        CopiesOf(n, W, x);
      }
    } else {
      CopiesOf(n, W, n - 1);
      TwiceInside(n, W);
      assert Copies(n, W, n - 1) == 0;
    }
  }

  /** The smallest failure: five items over four workers; item 2 is handed out twice and item 4 not at all. */
  lemma FiveOverFour()
    ensures Copies(5, 4, 2) == 2 && Copies(5, 4, 4) == 0
  {
    CopiesOf(5, 4, 2);
    CopiesOf(5, 4, 4);
  }
}
