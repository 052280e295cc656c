/** Matrix factorisation: cutting the row-sorted nonzero entries into one range per worker, so that no row
    is shared between two workers. */
module WorkPartition {
  import opened Sums

  predicate SortedRows(rows: seq<nat>) {
    forall a, b :: 0 <= a <= b < |rows| ==> rows[a] <= rows[b]
  }

  /** num_nnz_per_partition */
  function Share(rows: seq<nat>, workers: nat): nat
    requires workers > 0
  {
    |rows| / workers
  }

  /** The start that follows a range starting at `start`: the first entry past start + per whose row is not
      the row there. */
  predicate Follows(rows: seq<nat>, per: nat, start: nat, next: nat) {
    start + per < next < |rows| && rows[next] != rows[start + per] &&
    forall a :: start + per <= a < next ==> rows[a] == rows[start + per]
  }

  /** The ranges that PartitionWorkLoad is after. */
  predicate Starts(rows: seq<nat>, workers: nat, starts: seq<nat>)
    requires workers > 0
  {
    |starts| == workers && |rows| > 0 && starts[0] == 0 &&
    forall i :: 0 < i < workers ==> Follows(rows, Share(rows, workers), starts[i - 1], starts[i])
  }

  lemma FollowsUnique(rows: seq<nat>, per: nat, start: nat, a: nat, b: nat)
    requires Follows(rows, per, start, a) && Follows(rows, per, start, b)
    ensures a == b
  {
  }

  /** The first i starts of a partition are forced. */
  lemma {:induction false} StartsUnique(rows: seq<nat>, workers: nat, s: seq<nat>, t: seq<nat>, i: nat)
    requires workers > 0 && |rows| > 0 && Starts(rows, workers, t) && i < workers && i < |s| && s[0] == 0
    requires forall j :: 0 < j <= i ==> Follows(rows, Share(rows, workers), s[j - 1], s[j])
    ensures s[i] == t[i]
  {
    if i > 0 {
      StartsUnique(rows, workers, s, t, i - 1);
      FollowsUnique(rows, Share(rows, workers), s[i - 1], s[i], t[i]);
    }
  }

  /** PartitionWorkLoad.  A failed CHECK, or reading past the data just before it, gives no result. */
  method PartitionWorkLoad(rows: seq<nat>, workers: nat) returns (ok: bool, starts: seq<nat>)
    requires workers > 0
    ensures ok ==> Starts(rows, workers, starts)
    ensures ok <==> exists s :: Starts(rows, workers, s)
  {
    var nnz := |rows|;
    var per := Share(rows, workers);
    starts := [];
    var start: nat := 0;
    for i := 0 to workers
      invariant |starts| == i
      invariant i == 0 ==> start == 0
      invariant i > 0 ==> nnz > 0 && starts[0] == 0
      invariant forall j :: 0 < j < i ==> Follows(rows, per, starts[j - 1], starts[j])
      invariant 0 < i < workers ==> Follows(rows, per, starts[i - 1], start)
    {
      starts := starts + [start];
      // the wrap of size_t makes an empty matrix fail the check
      var end: int := if i == workers - 1 then (nnz - 1) % 0x1_0000_0000_0000_0000 else start + per;
      if end >= nnz {
        NoStarts(rows, workers, starts, i);
        return false, starts;
      }
      if i != workers - 1 {
        var first := end;
        while end < nnz && rows[end] == rows[first]
          invariant first <= end <= nnz && forall a :: first <= a < end ==> rows[a] == rows[first]
        {
          end := end + 1;
        }
        if end >= nnz {
          NoStarts(rows, workers, starts, i);
          return false, starts;
        }
        end := end - 1;
        start := end + 1;
      }
    }
    ok := true;
    assert Starts(rows, workers, starts);
  }

  /** When bin i cannot be closed there is no partition at all. */
  lemma NoStarts(rows: seq<nat>, workers: nat, s: seq<nat>, i: nat)
    requires i < workers && |s| == i + 1 && s[0] == 0
    requires forall j :: 0 < j <= i ==> Follows(rows, Share(rows, workers), s[j - 1], s[j])
    requires if i == workers - 1 then |rows| == 0
             else s[i] + Share(rows, workers) >= |rows| ||
                  forall a :: s[i] + Share(rows, workers) <= a < |rows| ==> rows[a] == rows[s[i] + Share(rows, workers)]
    ensures !exists t :: Starts(rows, workers, t)
  {
    forall t ensures !Starts(rows, workers, t) {
      if |t| == workers && i < workers - 1 {
        var next := t[i + 1];
        if Starts(rows, workers, t) {
          StartsUnique(rows, workers, s, t, i);
          NotClosed(rows, Share(rows, workers), s[i], next);
        }
      }
    }
  }

  lemma NotClosed(rows: seq<nat>, per: nat, start: nat, next: nat)
    requires start + per >= |rows| || forall a :: start + per <= a < |rows| ==> rows[a] == rows[start + per]
    ensures !Follows(rows, per, start, next)
  {
  }

  // ---- the ranges ----------------------------------------------------------------------------

  /** X_partition_start_ and X_partition_end_ of worker i. */
  function Begin(starts: seq<nat>, i: nat): nat
    requires i < |starts|
  {
    starts[i]
  }

  function End(rows: seq<nat>, starts: seq<nat>, i: nat): nat
    requires i < |starts|
  {
    if i == |starts| - 1 then |rows| else starts[i + 1]
  }

  predicate InRange(rows: seq<nat>, starts: seq<nat>, i: nat, a: nat) {
    i < |starts| && Begin(starts, i) <= a < End(rows, starts, i)
  }

  /** Starts grow, by more than the even share, and stay inside the data. */
  lemma {:induction false} StartsGrow(rows: seq<nat>, workers: nat, starts: seq<nat>, i: nat, j: nat)
    requires workers > 0 && Starts(rows, workers, starts) && i <= j < workers
    ensures starts[i] + (j - i) <= starts[j] < |rows|
  {
    if i < j {
      StartsGrow(rows, workers, starts, i, j - 1);
      assert Follows(rows, Share(rows, workers), starts[j - 1], starts[j]);
    } else if i > 0 {
      assert Follows(rows, Share(rows, workers), starts[i - 1], starts[i]);
    }
  }

  /** The ranges tile the data: they are non-empty, and every entry lies in exactly one. */
  lemma RangesTile(rows: seq<nat>, workers: nat, starts: seq<nat>)
    requires workers > 0 && Starts(rows, workers, starts)
    ensures forall i :: 0 <= i < workers ==> Begin(starts, i) < End(rows, starts, i) <= |rows|
    ensures Begin(starts, 0) == 0 && End(rows, starts, workers - 1) == |rows|
    ensures forall i :: 0 < i < workers ==> End(rows, starts, i - 1) == Begin(starts, i)
    ensures forall a: nat :: a < |rows| ==> InRange(rows, starts, Owner(starts, a), a)
    ensures forall a: nat, i: nat :: InRange(rows, starts, i, a) ==> a < |rows| && i == Owner(starts, a)
  {
    forall i | 0 <= i < workers ensures Begin(starts, i) < End(rows, starts, i) <= |rows| {
      StartsGrow(rows, workers, starts, i, if i == workers - 1 then i else i + 1);
    }
    forall a: nat | a < |rows| ensures InRange(rows, starts, Owner(starts, a), a) {
      OwnerFrom(starts, a, workers);
    }
    forall a: nat, i: nat | InRange(rows, starts, i, a) ensures a < |rows| && i == Owner(starts, a) {
      OwnerFrom(starts, a, workers);
      var o := Owner(starts, a);
      if o < i {
        StartsGrow(rows, workers, starts, o + 1, i);
      } else if i < o {
        StartsGrow(rows, workers, starts, i + 1, o);
      }
    }
  }

  /** The last worker that starts no later than a. */
  function Owner(starts: seq<nat>, a: nat): nat {
    if |starts| <= 1 then 0
    else if starts[|starts| - 1] <= a then |starts| - 1
    else Owner(starts[..|starts| - 1], a)
  }

  lemma {:induction false} OwnerFrom(starts: seq<nat>, a: nat, n: nat)
    requires 0 < n == |starts| && starts[0] == 0
    ensures var o := Owner(starts, a); o < n && starts[o] <= a && (o + 1 < n ==> a < starts[o + 1])
  {
    if n > 1 && starts[n - 1] > a {
      OwnerFrom(starts[..n - 1], a, n - 1);
    }
  }

  /** Ranges break only where the row changes, so no two workers have an entry of the same row. */
  lemma RowsExclusive(rows: seq<nat>, workers: nat, starts: seq<nat>, i: nat, j: nat, a: nat, b: nat)
    requires workers > 0 && SortedRows(rows) && Starts(rows, workers, starts)
    requires InRange(rows, starts, i, a) && InRange(rows, starts, j, b) && i < j
    ensures rows[a] < rows[b]
  {
    var next := starts[i + 1];
    assert Follows(rows, Share(rows, workers), starts[i], next);
    StartsGrow(rows, workers, starts, i + 1, j);
    RangesTile(rows, workers, starts);
    assert rows[next - 1] == rows[starts[i] + Share(rows, workers)];
    assert rows[a] <= rows[next - 1] < rows[next] <= rows[b];
  }

  /** The history rows a worker allocates. */
  function HistSize(rows: seq<nat>, starts: seq<nat>, i: nat): int
    requires i < |starts| && Begin(starts, i) < |rows| && 0 < End(rows, starts, i) <= |rows|
  {
    rows[End(rows, starts, i) - 1] as int - rows[Begin(starts, i)] as int + 1
  }

  /** Every L_hist_gradients_ index of a worker is inside what it allocated. */
  lemma HistIndexInRange(rows: seq<nat>, workers: nat, starts: seq<nat>, i: nat, a: nat)
    requires workers > 0 && SortedRows(rows) && Starts(rows, workers, starts) && InRange(rows, starts, i, a)
    ensures Begin(starts, i) < |rows| && End(rows, starts, i) <= |rows|
    ensures 0 <= rows[a] - rows[Begin(starts, i)] < HistSize(rows, starts, i)
  {
    RangesTile(rows, workers, starts);
  }

  // ---- the loss ------------------------------------------------------------------------------

  /** A worker's own losses, by entry. */
  function WorkerLoss(rows: seq<nat>, starts: seq<nat>, loss: seq<real>, i: nat): real
    requires i < |starts| && Begin(starts, i) <= End(rows, starts, i) <= |loss|
  {
    RSum(loss[Begin(starts, i)..End(rows, starts, i)])
  }

  lemma {:induction false} RSumSplit(a: seq<real>, i: nat, j: nat)
    requires i <= j <= |a|
    ensures RSum(a[..j]) == RSum(a[..i]) + RSum(a[i..j])
  {
    if i == j {
      assert a[i..j] == [];
    } else {
      RSumSplit(a, i, j - 1);
      RSumSnoc(a, j - 1);
      assert a[i..j][..j - i - 1] == a[i..j - 1];
    }
  }

  /** The workers' losses add up to the loss of the whole matrix. */
  lemma LossesSum(rows: seq<nat>, workers: nat, starts: seq<nat>, loss: seq<real>, parts: seq<real>)
    requires workers > 0 && Starts(rows, workers, starts) && |loss| == |rows| && |parts| == workers
    requires forall i :: 0 <= i < workers ==>
               Begin(starts, i) <= End(rows, starts, i) <= |rows| && parts[i] == WorkerLoss(rows, starts, loss, i)
    ensures RSum(parts) == RSum(loss)
  {
    LossesUpTo(rows, workers, starts, loss, parts, workers);
    assert parts[..workers] == parts && loss[..|loss|] == loss;
  }

  lemma {:induction false} LossesUpTo(rows: seq<nat>, workers: nat, starts: seq<nat>, loss: seq<real>,
                                      parts: seq<real>, i: nat)
    requires workers > 0 && Starts(rows, workers, starts) && |loss| == |rows| && |parts| == workers && i <= workers
    requires forall j :: 0 <= j < workers ==>
               Begin(starts, j) <= End(rows, starts, j) <= |rows| && parts[j] == WorkerLoss(rows, starts, loss, j)
    ensures RSum(parts[..i]) == RSum(loss[..if i == 0 then 0 else End(rows, starts, i - 1)])
  {
    if i > 0 {
      LossesUpTo(rows, workers, starts, loss, parts, i - 1);
      RSumSnoc(parts, i - 1);
      RSumSplit(loss, Begin(starts, i - 1), End(rows, starts, i - 1));
    }
  }
}
