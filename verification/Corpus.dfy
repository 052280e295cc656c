/** The corpus hands out documents to worker threads, one locked call at a time.  A list iterator is an
    index; the index after the last document is end(). */
module Corpus {
  datatype Option<T> = None | Some(value: T)

  /** n documents, iters_per_work_unit_, docs_iter_ and num_iters_this_work_unit_. */
  datatype Unit = Unit(n: nat, iters: nat, iter: nat, passes: nat)

  /** The two overloads of GetOneDoc; the second reports finished passes. */
  datatype Call = Plain | Reporting

  /** None is end(); passes is what the reporting overload writes. */
  datatype Answer = Answer(doc: Option<nat>, passes: Option<int>)

  function Restarted(n: nat, iters: nat): Unit {
    Unit(n, iters, 0, 0)
  }

  function Advance(u: Unit): Unit {
    if u.passes == u.iters then u
    else if u.iter + 1 == u.n then
      Unit(u.n, u.iters, if u.passes < u.iters - 1 then 0 else u.n, u.passes + 1)
    else u.(iter := u.iter + 1)
  }

  function Reply(u: Unit, c: Call): Answer {
    if u.passes == u.iters then Answer(None, if c.Reporting? then Some(-1) else None)
    else Answer(Some(u.iter),
                if c.Plain? then None else if u.iter + 1 == u.n then Some(u.passes + 1) else Some(-1))
  }

  /** The state after i calls. */
  function After(u: Unit, i: nat): Unit {
    if i == 0 then u else Advance(After(u, i - 1))
  }

  lemma DivStep(i: nat, n: nat)
    requires n > 0
    ensures i % n == n - 1 ==> (i + 1) / n == i / n + 1 && (i + 1) % n == 0
    ensures i % n != n - 1 ==> (i + 1) / n == i / n && (i + 1) % n == i % n + 1
  {
    var q, r := i / n, i % n;
    assert i == q * n + r;
    if r == n - 1 {
      assert i + 1 == (q + 1) * n + 0;
      Quotient(i + 1, n, q + 1, 0);
    } else {
      Quotient(i + 1, n, q, r + 1);
    }
  }

  lemma Quotient(x: nat, n: nat, q: nat, r: nat)
    requires n > 0 && x == q * n + r && r < n
    ensures x / n == q && x % n == r
  {
    var d := x / n - q;
    assert x / n * n + x % n == q * n + r;
    assert d * n == r - x % n;
    Multiple(d, n);
  }

  lemma Multiple(d: int, n: int)
    requires n > 0
    ensures d >= 1 ==> d * n >= n
    ensures d <= -1 ==> d * n <= -n
  {
  }

  lemma EnoughCalls(n: nat, iters: nat, m: nat)
    requires n > 0 && m >= n * iters
    ensures m / n >= iters
  {
    var q := m / n;
    assert m == q * n + m % n;
    assert (iters - q) * n == iters * n - q * n;
    Multiple(iters - q, n);
  }

  lemma {:induction false} AfterClosed(n: nat, iters: nat, i: nat)
    requires n > 0 && iters > 0
    ensures After(Restarted(n, iters), i)
      == if i / n < iters then Unit(n, iters, i % n, i / n) else Unit(n, iters, n, iters)
  {
    if i == 0 {
      Quotient(0, n, 0, 0);
    } else {
      AfterClosed(n, iters, i - 1);
      DivStep(i - 1, n);
    }
  }

  /** Whatever mix of calls the threads make, the i-th call of a work unit returns document i mod n while
      fewer than iters passes are complete and end() for ever after; a reporting call returns the number of
      completed passes exactly at the last document of a pass. */
  lemma RoundRobin(n: nat, iters: nat, i: nat, c: Call)
    requires n > 0 && iters > 0
    ensures var u := After(Restarted(n, iters), i);
            Reply(u, c).doc == (if i / n < iters then Some(i % n) else None) &&
            (c.Reporting? ==> Reply(u, c).passes == Some(if i / n < iters && i % n == n - 1 then i / n + 1 else -1))
  {
    AfterClosed(n, iters, i);
    assert i % n < n;
  }

  /** How often document d is handed out by the first m calls. */
  function Handed(u: Unit, d: nat, m: nat): nat {
    if m == 0 then 0 else Handed(u, d, m - 1) + if Reply(After(u, m - 1), Plain).doc == Some(d) then 1 else 0
  }

  lemma {:induction false} HandedClosed(n: nat, iters: nat, d: nat, m: nat)
    requires n > 0 && iters > 0 && d < n
    ensures Handed(Restarted(n, iters), d, m)
            == if m / n < iters then m / n + (if m % n > d then 1 else 0) else iters
  {
    if m == 0 {
      Quotient(0, n, 0, 0);
    } else {
      HandedClosed(n, iters, d, m - 1);
      RoundRobin(n, iters, m - 1, Plain);
      DivStep(m - 1, n);
    }
  }

  /** A work unit hands out exactly its share: every document iters times. */
  lemma ExactShare(n: nat, iters: nat, d: nat, m: nat)
    requires n > 0 && iters > 0 && d < n && m >= n * iters
    ensures Handed(Restarted(n, iters), d, m) == iters
  {
    HandedClosed(n, iters, d, m);
    EnoughCalls(n, iters, m);
  }

  class WorkUnits {
    const numDocs: nat
    var itersPerWorkUnit: nat
    var docsIter: nat
    var numItersThisWorkUnit: nat

    /** docs_iter_ points at a document while there is one to hand out. */
    predicate Valid()
      reads this
    {
      numDocs > 0 && numItersThisWorkUnit <= itersPerWorkUnit &&
      (numItersThisWorkUnit < itersPerWorkUnit ==> docsIter < numDocs)
    }

    function Abs(): Unit
      reads this
    {
      Unit(numDocs, itersPerWorkUnit, docsIter, numItersThisWorkUnit)
    }

    constructor (n: nat)
      ensures numDocs == n && itersPerWorkUnit == 1
    {
      numDocs := n;
      itersPerWorkUnit := 1;
    }

    method RestartWorkUnit(iters: nat)
      requires numDocs > 0
      modifies this
      ensures Valid() && Abs() == Restarted(numDocs, iters)
    {
      itersPerWorkUnit := iters;
      docsIter := 0;
      numItersThisWorkUnit := 0;
    }

    method GetOneDoc() returns (doc: nat)
      requires Valid()
      modifies this
      ensures Valid() && Abs() == Advance(old(Abs()))
      ensures Answer(if EndOfWorkUnit(doc) then None else Some(doc), None) == Reply(old(Abs()), Plain)
    {
      if numItersThisWorkUnit == itersPerWorkUnit {
        return numDocs;
      }
      doc := docsIter;
      docsIter := docsIter + 1;
      if docsIter == numDocs {
        if numItersThisWorkUnit < itersPerWorkUnit - 1 {
          docsIter := 0;
        }
        numItersThisWorkUnit := numItersThisWorkUnit + 1;
      }
    }

    method GetOneDocReporting() returns (doc: nat, passes: int)
      requires Valid()
      modifies this
      ensures Valid() && Abs() == Advance(old(Abs()))
      ensures Answer(if EndOfWorkUnit(doc) then None else Some(doc), Some(passes)) == Reply(old(Abs()), Reporting)
    {
      passes := -1;
      if numItersThisWorkUnit == itersPerWorkUnit {
        return numDocs, passes;
      }
      doc := docsIter;
      docsIter := docsIter + 1;
      if docsIter == numDocs {
        if numItersThisWorkUnit < itersPerWorkUnit - 1 {
          docsIter := 0;
        }
        numItersThisWorkUnit := numItersThisWorkUnit + 1;
        passes := numItersThisWorkUnit;
      }
    }

    predicate EndOfWorkUnit(doc: nat) {
      doc == numDocs
    }
  }
}
