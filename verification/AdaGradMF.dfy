/** Matrix factorisation: stochastic gradient steps on a shared L matrix without a lock.  Reals are exact;
    `rate` is the step size as a function of the accumulated squared gradients. */
module AdaGradMF {
  import opened WorkPartition

  type Vec = seq<real>

  datatype Data = Data(rows: seq<nat>, cols: seq<nat>, vals: seq<real>, numRows: nat, numCols: nat,
                       K: nat, lambda: real, rate: real -> real)
  {
    predicate Valid() {
      && |rows| == |cols| == |vals| && SortedRows(rows)
      && (forall a :: 0 <= a < |rows| ==> rows[a] < numRows && cols[a] < numCols)
    }
  }

  /** A worker's own state: L_hist_gradients_, its copy of R and R_gradient_updates_. */
  datatype Local = Local(hist: seq<Vec>, r: seq<Vec>, upd: seq<Vec>)

  datatype System = System(l: seq<Vec>, locals: seq<Local>)

  /** A worker handles one entry, or synchronises: its updates are handed over and R is read afresh. */
  datatype Event = Sgd(worker: nat, entry: nat) | Sync(worker: nat, r: seq<Vec>)

  predicate Matrix(m: seq<Vec>, n: int, K: nat) {
    |m| == n && forall i :: 0 <= i < |m| ==> |m[i]| == K
  }

  // ---- one entry -----------------------------------------------------------------------------

  function Dot(l: Vec, r: Vec): real
    requires |l| == |r|
  {
    if |l| == 0 then 0.0 else Dot(l[..|l| - 1], r[..|r| - 1]) + l[|l| - 1] * r[|r| - 1]
  }

  function LGradient(d: Data, coeff: real, l: real, r: real): real {
    2.0 * (coeff * r + d.lambda * l)
  }

  function NewHist(d: Data, coeff: real, l: real, r: real, h: real): real {
    h + LGradient(d, coeff, l, r) * LGradient(d, coeff, l, r)
  }

  function NewL(d: Data, coeff: real, l: real, r: real, h: real): real {
    l - d.rate(NewHist(d, coeff, l, r, h)) * LGradient(d, coeff, l, r)
  }

  /** The gradient for R sees the updated L. */
  function RGradient(d: Data, coeff: real, l: real, r: real, h: real): real {
    2.0 * (coeff * NewL(d, coeff, l, r, h) + d.lambda * r)
  }

  /** The three vectors after one entry: every component follows from the old ones alone. */
  datatype Step = Step(l: Vec, h: Vec, u: Vec)

  function Descend(d: Data, x: real, l: Vec, r: Vec, h: Vec, u: Vec): (s: Step)
    requires |l| == |r| == |h| == |u|
    ensures |s.l| == |s.h| == |s.u| == |l|
  {
    var coeff := -(x - Dot(l, r));
    Step(seq(|l|, k requires 0 <= k < |l| => NewL(d, coeff, l[k], r[k], h[k])),
         seq(|l|, k requires 0 <= k < |l| => NewHist(d, coeff, l[k], r[k], h[k])),
         seq(|l|, k requires 0 <= k < |l| => u[k] + RGradient(d, coeff, l[k], r[k], h[k])))
  }

  /** The prediction Li . Rj. */
  method Predict(li: Vec, rj: Vec) returns (liRj: real)
    requires |li| == |rj|
    ensures liRj == Dot(li, rj)
  {
    liRj := 0.0;
    for k := 0 to |li|
      invariant liRj == Dot(li[..k], rj[..k])
    {
      assert li[..k + 1][..k] == li[..k] && rj[..k + 1][..k] == rj[..k];
      liRj := liRj + li[k] * rj[k];
    }
    assert li[..|li|] == li && rj[..|rj|] == rj;
  }

  /** The loop over the components, given their final values. */
  method UpdateComponents(d: Data, coeff: real, li: Vec, rj: Vec, hi: Vec, uj: Vec, ghost done: Step) returns (s: Step)
    requires |li| == |rj| == |hi| == |uj| == |done.l| == |done.h| == |done.u|
    requires forall k :: 0 <= k < |li| ==> done.l[k] == NewL(d, coeff, li[k], rj[k], hi[k])
    requires forall k :: 0 <= k < |li| ==> done.h[k] == NewHist(d, coeff, li[k], rj[k], hi[k])
    requires forall k :: 0 <= k < |li| ==> done.u[k] == uj[k] + RGradient(d, coeff, li[k], rj[k], hi[k])
    ensures s == done
  {
    var l, h, u := li, hi, uj;
    for k := 0 to |li|
      invariant |l| == |h| == |u| == |li|
      invariant forall m :: k <= m < |li| ==> l[m] == li[m] && h[m] == hi[m] && u[m] == uj[m]
      invariant forall m :: 0 <= m < k ==> l[m] == done.l[m]
      invariant forall m :: 0 <= m < k ==> h[m] == done.h[m]
      invariant forall m :: 0 <= m < k ==> u[m] == done.u[m]
    {
      var lk, hk, rGradient :=
        NewL(d, coeff, l[k], rj[k], h[k]), NewHist(d, coeff, l[k], rj[k], h[k]), RGradient(d, coeff, l[k], rj[k], h[k]);
      l, h, u := l[k := lk], h[k := hk], u[k := u[k] + rGradient];
    }
    s := Step(l, h, u);
  }

  /** The body of SgdElement on the vectors of one entry. */
  method DescendInPlace(d: Data, x: real, li: Vec, rj: Vec, hi: Vec, uj: Vec) returns (s: Step)
    requires |li| == |rj| == |hi| == |uj|
    ensures s == Descend(d, x, li, rj, hi, uj)
  {
    var liRj := Predict(li, rj);
    s := UpdateComponents(d, -(x - liRj), li, rj, hi, uj, Descend(d, x, li, rj, hi, uj));
  }

  predicate LocalOk(d: Data, starts: seq<nat>, w: nat, loc: Local)
    requires w < |starts| && Begin(starts, w) < |d.rows| && 0 < End(d.rows, starts, w) <= |d.rows|
  {
    && Matrix(loc.hist, HistSize(d.rows, starts, w), d.K)
    && Matrix(loc.r, d.numCols, d.K) && Matrix(loc.upd, d.numCols, d.K)
  }

  /** Worker w on entry a: what it writes depends on its own state and on row rows[a] of L only. */
  function Element(d: Data, starts: seq<nat>, w: nat, li: Vec, loc: Local, a: nat): (r: (Vec, Local))
    requires d.Valid() && 0 < |starts| && Starts(d.rows, |starts|, starts) && InRange(d.rows, starts, w, a)
    requires a < |d.rows| && Begin(starts, w) < |d.rows| && End(d.rows, starts, w) <= |d.rows|
    requires LocalOk(d, starts, w, loc) && |li| == d.K
    ensures |r.0| == d.K && LocalOk(d, starts, w, r.1)
  {
    HistIndexInRange(d.rows, |starts|, starts, w, a);
    var i, j := d.rows[a] as int - d.rows[Begin(starts, w)] as int, d.cols[a];
    var s := Descend(d, d.vals[a], li, loc.r[j], loc.hist[i], loc.upd[j]);
    (s.l, Local(loc.hist[i := s.h], loc.r, loc.upd[j := s.u]))
  }

  // ---- all workers ---------------------------------------------------------------------------

  ghost predicate Ready(d: Data, starts: seq<nat>) {
    d.Valid() && 0 < |starts| && Starts(d.rows, |starts|, starts) &&
    forall w :: 0 <= w < |starts| ==> Begin(starts, w) < End(d.rows, starts, w) <= |d.rows|
  }

  /** Everything is allocated in its full size. */
  ghost predicate SystemOk(d: Data, starts: seq<nat>, s: System)
    requires Ready(d, starts)
  {
    Matrix(s.l, d.numRows, d.K) && |s.locals| == |starts| &&
    forall w :: 0 <= w < |starts| ==> LocalOk(d, starts, w, s.locals[w])
  }

  predicate Enabled(d: Data, starts: seq<nat>, e: Event) {
    e.worker < |starts| &&
    match e
    case Sgd(w, a) => a < |d.rows| && InRange(d.rows, starts, w, a)
    case Sync(_, r) => Matrix(r, d.numCols, d.K)
  }

  function Zeros(K: nat): Vec {
    seq(K, k => 0.0)
  }

  ghost function Exec(d: Data, starts: seq<nat>, s: System, e: Event): (t: System)
    requires Ready(d, starts) && SystemOk(d, starts, s) && Enabled(d, starts, e)
    ensures SystemOk(d, starts, t)
  {
    match e
    case Sgd(w, a) =>
      var r := Element(d, starts, w, s.l[d.rows[a]], s.locals[w], a);
      System(s.l[d.rows[a] := r.0], s.locals[w := r.1])
    case Sync(w, r) =>
      s.(locals := s.locals[w := s.locals[w].(r := r, upd := seq(d.numCols, j => Zeros(d.K)))])
  }

  ghost predicate AllEnabled(d: Data, starts: seq<nat>, tr: seq<Event>) {
    forall i :: 0 <= i < |tr| ==> Enabled(d, starts, tr[i])
  }

  ghost function Run(d: Data, starts: seq<nat>, s: System, tr: seq<Event>): (t: System)
    requires Ready(d, starts) && SystemOk(d, starts, s) && AllEnabled(d, starts, tr)
    ensures SystemOk(d, starts, t)
  {
    if |tr| == 0 then s
    else Exec(d, starts, Run(d, starts, s, tr[..|tr| - 1]), tr[|tr| - 1])
  }

  /** The events of worker w, in order. */
  function Only(tr: seq<Event>, w: nat): (r: seq<Event>)
    ensures forall e :: e in r ==> e in tr && e.worker == w
  {
    if |tr| == 0 then []
    else Only(tr[..|tr| - 1], w) + if tr[|tr| - 1].worker == w then [tr[|tr| - 1]] else []
  }

  /** Row i of L has an entry in worker w's range. */
  ghost predicate Owns(d: Data, starts: seq<nat>, w: nat, i: nat) {
    exists a: nat :: a < |d.rows| && InRange(d.rows, starts, w, a) && d.rows[a] == i
  }

  /** What worker w can see of a system: its own state and its rows of L. */
  datatype View = View(local: Local, rows: map<nat, Vec>)

  ghost function ViewOf(d: Data, starts: seq<nat>, s: System, w: nat): View
    requires |s.l| == d.numRows && w < |s.locals|
  {
    View(s.locals[w], map i: nat | i < d.numRows && Owns(d, starts, w, i) :: s.l[i])
  }

  /** A row is owned by at most one worker. */
  lemma OwnersDiffer(d: Data, starts: seq<nat>, v: nat, w: nat, a: nat)
    requires Ready(d, starts) && a < |d.rows| && InRange(d.rows, starts, v, a) && w != v
    ensures !Owns(d, starts, w, d.rows[a])
  {
    if b: nat :| b < |d.rows| && InRange(d.rows, starts, w, b) && d.rows[b] == d.rows[a] {
      if v < w {
        RowsExclusive(d.rows, |starts|, starts, v, w, a, b);
      } else {
        RowsExclusive(d.rows, |starts|, starts, w, v, b, a);
      }
    }
  }

  /** What w sees after a worker wrote row i of L and its own state. */
  lemma {:induction false} ViewAfter(d: Data, starts: seq<nat>, s: System, v: nat, w: nat, i: nat, li: Vec, loc: Local)
    requires |s.l| == d.numRows && w < |s.locals| && v < |s.locals| && i < d.numRows
    requires v == w <==> Owns(d, starts, w, i)
    ensures ViewOf(d, starts, System(s.l[i := li], s.locals[v := loc]), w)
            == if v == w then View(loc, ViewOf(d, starts, s, w).rows[i := li]) else ViewOf(d, starts, s, w)
  {
  }

  /** An event of another worker changes nothing that w can see. */
  lemma {:induction false} OthersInvisible(d: Data, starts: seq<nat>, s: System, e: Event, w: nat)
    requires Ready(d, starts) && SystemOk(d, starts, s) && Enabled(d, starts, e) && w < |starts| && e.worker != w
    ensures ViewOf(d, starts, Exec(d, starts, s, e), w) == ViewOf(d, starts, s, w)
  {
    match e
    case Sgd(v, a) =>
      OwnersDiffer(d, starts, v, w, a);
      var r := Element(d, starts, v, s.l[d.rows[a]], s.locals[v], a);
      ViewAfter(d, starts, s, v, w, d.rows[a], r.0, r.1);
    case Sync(v, r) =>
  }

  /** An event of w has the same effect on what w sees. */
  lemma {:induction false} OwnEffect(d: Data, starts: seq<nat>, s: System, t: System, e: Event)
    requires Ready(d, starts) && SystemOk(d, starts, s) && SystemOk(d, starts, t) && Enabled(d, starts, e)
    requires ViewOf(d, starts, s, e.worker) == ViewOf(d, starts, t, e.worker)
    ensures ViewOf(d, starts, Exec(d, starts, s, e), e.worker) == ViewOf(d, starts, Exec(d, starts, t, e), e.worker)
  {
    var vs, vt := ViewOf(d, starts, s, e.worker), ViewOf(d, starts, t, e.worker);
    assert vs.local == vt.local && vs.rows == vt.rows;
    match e
    case Sgd(w, a) =>
      var i := d.rows[a];
      assert Owns(d, starts, w, i);
      assert vs.rows[i] == s.l[i] && vt.rows[i] == t.l[i];
      var r := Element(d, starts, w, s.l[i], s.locals[w], a);
      ViewAfter(d, starts, s, w, w, i, r.0, r.1);
      ViewAfter(d, starts, t, w, w, i, r.0, r.1);
    case Sync(w, r) =>
  }

  lemma RunSnoc(d: Data, starts: seq<nat>, s: System, front: seq<Event>, e: Event)
    requires Ready(d, starts) && SystemOk(d, starts, s) && AllEnabled(d, starts, front) && Enabled(d, starts, e)
    ensures AllEnabled(d, starts, front + [e])
    ensures Run(d, starts, s, front + [e]) == Exec(d, starts, Run(d, starts, s, front), e)
  {
    assert (front + [e])[..|front|] == front;
  }

  lemma IsolatedOwn(d: Data, starts: seq<nat>, s: System, front: seq<Event>, own: seq<Event>, e: Event)
    requires Ready(d, starts) && SystemOk(d, starts, s) && Enabled(d, starts, e)
    requires AllEnabled(d, starts, front) && AllEnabled(d, starts, own)
    requires ViewOf(d, starts, Run(d, starts, s, front), e.worker)
        == ViewOf(d, starts, Run(d, starts, s, own), e.worker)
    ensures AllEnabled(d, starts, front + [e]) && AllEnabled(d, starts, own + [e])
    ensures ViewOf(d, starts, Run(d, starts, s, front + [e]), e.worker)
            == ViewOf(d, starts, Run(d, starts, s, own + [e]), e.worker)
  {
    OwnEffect(d, starts, Run(d, starts, s, front), Run(d, starts, s, own), e);
    RunSnoc(d, starts, s, front, e);
    RunSnoc(d, starts, s, own, e);
  }

  lemma IsolatedOther(d: Data, starts: seq<nat>, s: System, front: seq<Event>, e: Event, w: nat)
    requires Ready(d, starts) && SystemOk(d, starts, s) && Enabled(d, starts, e) && AllEnabled(d, starts, front)
    requires w < |starts| && e.worker != w
    ensures AllEnabled(d, starts, front + [e])
    ensures ViewOf(d, starts, Run(d, starts, s, front + [e]), w) == ViewOf(d, starts, Run(d, starts, s, front), w)
  {
    OthersInvisible(d, starts, Run(d, starts, s, front), e, w);
    RunSnoc(d, starts, s, front, e);
  }

  lemma OnlySnoc(tr: seq<Event>, w: nat)
    requires |tr| > 0
    ensures var own, e := Only(tr[..|tr| - 1], w), tr[|tr| - 1];
            tr == tr[..|tr| - 1] + [e] && Only(tr, w) == if e.worker == w then own + [e] else own
  {
  }

  /** Lock-free writes are sound: in every interleaving of all workers, what worker w ends up with, its own
      state and every row of L it has entries of, is what it computes when it runs alone. */
  lemma {:induction false} Isolated(d: Data, starts: seq<nat>, s: System, tr: seq<Event>, w: nat)
    requires Ready(d, starts) && SystemOk(d, starts, s) && AllEnabled(d, starts, tr) && w < |starts|
    ensures AllEnabled(d, starts, Only(tr, w))
    ensures ViewOf(d, starts, Run(d, starts, s, tr), w) == ViewOf(d, starts, Run(d, starts, s, Only(tr, w)), w)
  {
    if |tr| > 0 {
      var front, e := tr[..|tr| - 1], tr[|tr| - 1];
      Isolated(d, starts, s, front, w);
      OnlySnoc(tr, w);
      if e.worker == w {
        IsolatedOwn(d, starts, s, front, Only(front, w), e);
      } else {
        IsolatedOther(d, starts, s, front, e, w);
      }
    }
  }

  /** Rows without any entry are never written. */
  lemma {:induction false} EmptyRowsStay(d: Data, starts: seq<nat>, s: System, tr: seq<Event>, i: nat)
    requires Ready(d, starts) && SystemOk(d, starts, s) && AllEnabled(d, starts, tr)
    requires i < d.numRows && i !in d.rows
    ensures Run(d, starts, s, tr).l[i] == s.l[i]
  {
    if |tr| > 0 {
      EmptyRowsStay(d, starts, s, tr[..|tr| - 1], i);
    }
  }

  /** Two interleavings of the same work give the same matrix and the same workers. */
  lemma OrderIrrelevant(d: Data, starts: seq<nat>, s: System, tr: seq<Event>, ur: seq<Event>)
    requires Ready(d, starts) && SystemOk(d, starts, s) && AllEnabled(d, starts, tr) && AllEnabled(d, starts, ur)
    requires forall w: nat :: w < |starts| ==> Only(tr, w) == Only(ur, w)
    ensures Run(d, starts, s, tr) == Run(d, starts, s, ur)
  {
    var a, b := Run(d, starts, s, tr), Run(d, starts, s, ur);
    forall w: nat | w < |starts| ensures ViewOf(d, starts, a, w) == ViewOf(d, starts, b, w) {
      Isolated(d, starts, s, tr, w);
      Isolated(d, starts, s, ur, w);
    }
    forall i: nat | i < d.numRows && i !in d.rows ensures a.l[i] == b.l[i] {
      EmptyRowsStay(d, starts, s, tr, i);
      EmptyRowsStay(d, starts, s, ur, i);
    }
    ViewsDetermine(d, starts, a, b);
  }

  /** The views of all workers and the rows without entries make up the whole system. */
  lemma ViewsDetermine(d: Data, starts: seq<nat>, a: System, b: System)
    requires Ready(d, starts) && |a.l| == |b.l| == d.numRows && |a.locals| == |b.locals| == |starts|
    requires forall w: nat :: w < |starts| ==> ViewOf(d, starts, a, w) == ViewOf(d, starts, b, w)
    requires forall i: nat :: i < d.numRows && i !in d.rows ==> a.l[i] == b.l[i]
    ensures a == b
  {
    RangesTile(d.rows, |starts|, starts);
    forall i: nat | i < d.numRows ensures a.l[i] == b.l[i] {
      if i in d.rows {
        var e: nat :| e < |d.rows| && d.rows[e] == i;
        var w := Owner(starts, e);
        assert InRange(d.rows, starts, w, e);
        assert Owns(d, starts, w, i);
        assert ViewOf(d, starts, a, w).rows[i] == ViewOf(d, starts, b, w).rows[i];
      }
    }
    forall w: nat | w < |starts| ensures a.locals[w] == b.locals[w] {
      assert ViewOf(d, starts, a, w).local == ViewOf(d, starts, b, w).local;
    }
  }

  // ---- the worker object ---------------------------------------------------------------------

  class SharedModel {
    var lMat: seq<Vec>

    constructor (l: seq<Vec>)
      ensures lMat == l
    {
      lMat := l;
    }
  }

  class Worker {
    const d: Data
    const starts: seq<nat>
    const myId: nat
    const shared: SharedModel
    const offset: int
    var hist: seq<Vec>
    var rMat: seq<Vec>
    var updates: seq<Vec>

    ghost predicate Valid()
      reads this, shared
    {
      && Ready(d, starts) && myId < |starts| && offset == d.rows[Begin(starts, myId)]
      && Matrix(shared.lMat, d.numRows, d.K) && LocalOk(d, starts, myId, Abs())
    }

    ghost function Abs(): Local
      reads this
    {
      Local(hist, rMat, updates)
    }

    constructor (data: Data, partition: seq<nat>, id: nat, model: SharedModel)
      requires Ready(data, partition) && id < |partition| && Matrix(model.lMat, data.numRows, data.K)
      ensures Valid() && d == data && starts == partition && myId == id && shared == model
      ensures forall i :: 0 <= i < |hist| ==> hist[i] == Zeros(d.K)
      ensures forall j :: 0 <= j < d.numCols ==> rMat[j] == updates[j] == Zeros(d.K)
    {
      d, starts, myId, shared := data, partition, id, model;
      var begin := partition[id];
      var end := End(data.rows, partition, id);
      HistIndexInRange(data.rows, |partition|, partition, id, begin);
      offset := data.rows[begin];
      hist := seq(data.rows[end - 1] as int - data.rows[begin] as int + 1, i => Zeros(data.K));
      rMat := seq(data.numCols, j => Zeros(data.K));
      updates := seq(data.numCols, j => Zeros(data.K));
    }

    method SgdElement(a: nat)
      requires Valid() && a < |d.rows| && InRange(d.rows, starts, myId, a)
      modifies this`hist, this`updates, shared
      ensures Valid()
      ensures shared.lMat
        == old(shared.lMat)[d.rows[a] := old(Element(d, starts, myId, shared.lMat[d.rows[a]], Abs(), a)).0]
      ensures Abs() == old(Element(d, starts, myId, shared.lMat[d.rows[a]], Abs(), a)).1
    {
      HistIndexInRange(d.rows, |starts|, starts, myId, a);
      var i, j := d.rows[a], d.cols[a];
      var s := DescendInPlace(d, d.vals[a], shared.lMat[i], rMat[j], hist[i - offset], updates[j]);
      shared.lMat := shared.lMat[i := s.l];
      hist := hist[i - offset := s.h];
      updates := updates[j := s.u];
    }
  }
}
