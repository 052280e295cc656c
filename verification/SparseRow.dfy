/** Sparse topic rows: the std::map rows of the samplers and the rows of the shared word-topic table.
    A topic that is not stored counts as zero. */
module SparseRow {

  type Row = map<int, int>

  function Count(row: Row, k: int): int {
    if k in row then row[k] else 0
  }

  ghost predicate NoZeros(row: Row) {
    forall k :: k in row ==> row[k] != 0
  }

  ghost predicate Positive(row: Row) {
    forall k :: k in row ==> row[k] > 0
  }

  ghost predicate TopicsBelow(row: Row, K: nat) {
    forall k :: k in row ==> 0 <= k < K
  }

  ghost predicate Clean(row: Row, K: nat) {
    Positive(row) && TopicsBelow(row, K)
  }

  /** `row[k] += d`, erasing the entry when it becomes zero. */
  function Bump(row: Row, k: int, d: int): (r: Row)
    ensures forall j :: Count(r, j) == Count(row, j) + (if j == k then d else 0)
    ensures NoZeros(row) ==> NoZeros(r)
    ensures forall j :: j in r ==> j == k || j in row
  {
    if Count(row, k) + d == 0 then row - {k} else row[k := Count(row, k) + d]
  }

  /** A batch of increments arriving at a row of the shared table. */
  function Plus(row: Row, d: Row): (r: Row)
    ensures forall j :: Count(r, j) == Count(row, j) + Count(d, j)
    ensures NoZeros(r)
  {
    map k | k in row.Keys + d.Keys && Count(row, k) + Count(d, k) != 0 :: Count(row, k) + Count(d, k)
  }

  /** A row without zero entries is determined by its counts. */
  lemma SameCountsSameRow(a: Row, b: Row)
    requires NoZeros(a) && NoZeros(b)
    requires forall k :: Count(a, k) == Count(b, k)
    ensures a == b
  {
    forall k ensures k in a <==> k in b {
      assert Count(a, k) == Count(b, k);
    }
    forall k | k in a ensures a[k] == b[k] {
      assert Count(a, k) == Count(b, k);
    }
  }
}
