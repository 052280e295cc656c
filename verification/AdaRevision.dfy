/** AdaRevision: delayed gradients applied under a lock, each corrected for the gradients that arrived
    since its snapshot.  Reals are exact; the step size is a function eta of z_max. */
module AdaRevision {
  import opened Sums

  /** The shared state of one coordinate: weights_, accum_gradients_, z_ and z_max_. */
  datatype Coord = Coord(w: real, G: real, z: real, zMax: real)

  function Max(a: real, b: real): real {
    if a < b then b else a
  }

  /** What a gradient g adds to z when the gradients it has not seen sum to gBck. */
  function ZTerm(g: real, gBck: real): real {
    g * g + 2.0 * g * gBck
  }

  /** A weight after gradient g, with the unseen gradients moved from the old rate to the new. */
  function Revised(w: real, etaOld: real, eta: real, g: real, gBck: real): real {
    w - eta * g + (etaOld - eta) * gBck
  }

  /** One locked update with gradient g computed from a snapshot in which the gradient sum was gOld. */
  function Apply(eta: real -> real, c: Coord, g: real, gOld: real): Coord {
    var gBck := c.G - gOld;
    var z := c.z + ZTerm(g, gBck);
    var zMax := Max(z, c.zMax);
    Coord(Revised(c.w, eta(c.zMax), eta(zMax), g, gBck), c.G + g, z, zMax)
  }

  /** Updates applied in a row, all computed from the snapshot gOld. */
  function ApplyAll(eta: real -> real, c: Coord, gs: seq<real>, gOld: real): Coord {
    if |gs| == 0 then c
    else Apply(eta, ApplyAll(eta, c, gs[..|gs| - 1], gOld), gs[|gs| - 1], gOld)
  }

  function Square(x: real): (r: real)
    ensures r >= 0.0
  {
    x * x
  }

  /** The largest square any prefix sum reaches. */
  function Peak(gs: seq<real>): (r: real)
    ensures r >= 0.0
  {
    if |gs| == 0 then 0.0 else Max(Peak(gs[..|gs| - 1]), Square(RSum(gs)))
  }

  function Stepped(w: real, eta: real, total: real): real {
    w - eta * total
  }

  /** One step from the snapshot state s by the total gradient, at the rate of the final z_max. */
  function Batched(eta: real -> real, s: Coord, total: real, zMax: real): Coord {
    Coord(Stepped(s.w, eta(zMax), total), s.G + total, s.z + Square(total), zMax)
  }

  lemma AddSquare(a: real, g: real)
    ensures Square(a) + ZTerm(g, a) == Square(a + g)
  {
  }

  lemma Revise(w: real, etaOld: real, eta: real, a: real, g: real)
    ensures Revised(Stepped(w, etaOld, a), etaOld, eta, g, a) == Stepped(w, eta, a + g)
  {
  }

  /** One more update on top of a batched step is a batched step. */
  lemma BatchedOnce(eta: real -> real, s: Coord, a: real, zm: real, g: real)
    ensures Apply(eta, Batched(eta, s, a, zm), g, s.G) == Batched(eta, s, a + g, Max(s.z + Square(a + g), zm))
  {
    var c := Batched(eta, s, a, zm);
    assert c.G - s.G == a;
    AddSquare(a, g);
    var zm' := Max(s.z + Square(a + g), zm);
    Revise(s.w, eta(zm), eta(zm'), a, g);
    assert c.z + ZTerm(g, c.G - s.G) == s.z + Square(a + g);
  }

  /** Telescoping: updates that all used the snapshot s amount to one batched step at the final rate,
      whatever the individual gradients; only the peak of the partial sums is remembered, in z_max. */
  lemma {:induction false} Telescopes(eta: real -> real, s: Coord, gs: seq<real>)
    requires s.z <= s.zMax
    ensures ApplyAll(eta, s, gs, s.G) == Batched(eta, s, RSum(gs), Max(s.zMax, s.z + Peak(gs)))
  {
    if |gs| == 0 {
    } else {
      var m := |gs| - 1;
      Telescopes(eta, s, gs[..m]);
      BatchedOnce(eta, s, RSum(gs[..m]), Max(s.zMax, s.z + Peak(gs[..m])), gs[m]);
    }
  }

  // ---- order ---------------------------------------------------------------------------------

  lemma {:induction false} RSumRemove(xs: seq<real>, i: nat)
    requires i < |xs|
    ensures RSum(xs) == RSum(xs[..i] + xs[i + 1..]) + xs[i]
  {
    var n := |xs| - 1;
    if i == n {
      assert xs[..i] + xs[i + 1..] == xs[..n];
    } else {
      var rest := xs[..i] + xs[i + 1..];
      assert xs[..n][..i] + xs[..n][i + 1..] == rest[..|rest| - 1];
      RSumRemove(xs[..n], i);
    }
  }

  lemma MultisetRemove(xs: seq<real>, i: nat)
    requires i < |xs|
    ensures multiset(xs[..i] + xs[i + 1..]) == multiset(xs) - multiset{xs[i]}
  {
    assert xs == xs[..i] + [xs[i]] + xs[i + 1..];
  }

  lemma {:induction false} RSumPermuted(xs: seq<real>, ys: seq<real>)
    requires multiset(xs) == multiset(ys)
    ensures RSum(xs) == RSum(ys)
  {
    if |xs| == 0 {
      assert |ys| == |multiset(ys)| == |multiset(xs)| == 0;
    } else {
      var n := |xs| - 1;
      assert xs[n] in multiset(ys);
      var i :| 0 <= i < |ys| && ys[i] == xs[n];
      var rest := ys[..i] + ys[i + 1..];
      MultisetRemove(xs, n);
      MultisetRemove(ys, i);
      assert xs[..n] + xs[n + 1..] == xs[..n];
      RSumPermuted(xs[..n], rest);
      RSumRemove(ys, i);
    }
  }

  lemma BatchedByPeak(eta: real -> real, s: Coord, total: real, x: real, y: real)
    ensures var a, b := Batched(eta, s, total, x), Batched(eta, s, total, y);
            a.G == b.G && a.z == b.z && (a == b <==> x == y)
  {
    assert Batched(eta, s, total, x).zMax == x;
  }

  /** Reordering same-snapshot updates never changes w's gradient sum or z; the whole state agrees exactly
      when z_max does, that is when the partial sums peak equally or below the old z_max. */
  lemma {:induction false} OrderMatters(eta: real -> real, s: Coord, gs: seq<real>, hs: seq<real>)
    requires s.z <= s.zMax && multiset(gs) == multiset(hs)
    ensures var a, b := ApplyAll(eta, s, gs, s.G), ApplyAll(eta, s, hs, s.G);
            a.G == b.G && a.z == b.z && (a == b <==> Max(s.zMax, s.z + Peak(gs)) == Max(s.zMax, s.z + Peak(hs)))
  {
    Telescopes(eta, s, gs);
    Telescopes(eta, s, hs);
    RSumPermuted(gs, hs);
    BatchedByPeak(eta, s, RSum(gs), Max(s.zMax, s.z + Peak(gs)), Max(s.zMax, s.z + Peak(hs)));
  }

  ghost predicate OneSign(gs: seq<real>) {
    (forall i :: 0 <= i < |gs| ==> gs[i] >= 0.0) || (forall i :: 0 <= i < |gs| ==> gs[i] <= 0.0)
  }

  lemma SquareGrows(a: real, g: real)
    requires (a >= 0.0 && g >= 0.0) || (a <= 0.0 && g <= 0.0)
    ensures Square(a) <= Square(a + g)
  {
    assert a * g >= 0.0;
    AddSquare(a, g);
  }

  lemma {:induction false} OneSignPeak(gs: seq<real>)
    requires OneSign(gs)
    ensures Peak(gs) == Square(RSum(gs))
    ensures (forall i :: 0 <= i < |gs| ==> gs[i] >= 0.0) ==> RSum(gs) >= 0.0
    ensures (forall i :: 0 <= i < |gs| ==> gs[i] <= 0.0) ==> RSum(gs) <= 0.0
  {
    if |gs| > 0 {
      var m := |gs| - 1;
      OneSignPeak(gs[..m]);
      SquareGrows(RSum(gs[..m]), gs[m]);
    }
  }

  /** Same-snapshot updates of one sign give the same state in every order. */
  lemma {:induction false} OneSignAnyOrder(eta: real -> real, s: Coord, gs: seq<real>, hs: seq<real>)
    requires s.z <= s.zMax && multiset(gs) == multiset(hs) && OneSign(gs)
    ensures ApplyAll(eta, s, gs, s.G) == ApplyAll(eta, s, hs, s.G)
  {
    forall i | 0 <= i < |hs| ensures hs[i] in gs {
      assert hs[i] in multiset(hs);
    }
    OneSignPeak(gs);
    OneSignPeak(hs);
    RSumPermuted(gs, hs);
    OrderMatters(eta, s, gs, hs);
  }

  /** With mixed signs the order shows: 2 then -1, or -1 then 2, from the start state end with different z_max
      and, unless the rates there agree, different weights. */
  lemma {:induction false} MixedSignsDisagree(eta: real -> real)
    ensures ApplyAll(eta, Coord(0.0, 0.0, 1.0, 1.0), [2.0, -1.0], 0.0) == Coord(-eta(5.0), 1.0, 2.0, 5.0)
    ensures ApplyAll(eta, Coord(0.0, 0.0, 1.0, 1.0), [-1.0, 2.0], 0.0) == Coord(-eta(2.0), 1.0, 2.0, 2.0)
  {
    TwoThenMinusOne(eta);
    MinusOneThenTwo(eta);
    TwoUpdates(eta, 2.0, -1.0, Coord(-2.0 * eta(5.0), 2.0, 5.0, 5.0));
    TwoUpdates(eta, -1.0, 2.0, Coord(eta(2.0), -1.0, 2.0, 2.0));
  }

  lemma TwoThenMinusOne(eta: real -> real)
    ensures Apply(eta, Coord(0.0, 0.0, 1.0, 1.0), 2.0, 0.0) == Coord(-2.0 * eta(5.0), 2.0, 5.0, 5.0)
    ensures Apply(eta, Coord(-2.0 * eta(5.0), 2.0, 5.0, 5.0), -1.0, 0.0) == Coord(-eta(5.0), 1.0, 2.0, 5.0)
  {
    assert ZTerm(2.0, 0.0) == 4.0 && ZTerm(-1.0, 2.0) == -3.0;
  }

  lemma MinusOneThenTwo(eta: real -> real)
    ensures Apply(eta, Coord(0.0, 0.0, 1.0, 1.0), -1.0, 0.0) == Coord(eta(2.0), -1.0, 2.0, 2.0)
    ensures Apply(eta, Coord(eta(2.0), -1.0, 2.0, 2.0), 2.0, 0.0) == Coord(-eta(2.0), 1.0, 2.0, 2.0)
  {
    assert ZTerm(-1.0, 0.0) == 1.0 && ZTerm(2.0, -1.0) == 0.0;
  }

  lemma TwoUpdates(eta: real -> real, a: real, b: real, mid: Coord)
    requires mid == Apply(eta, Coord(0.0, 0.0, 1.0, 1.0), a, 0.0)
    ensures ApplyAll(eta, Coord(0.0, 0.0, 1.0, 1.0), [a, b], 0.0) == Apply(eta, mid, b, 0.0)
  {
    var s, none: seq<real> := Coord(0.0, 0.0, 1.0, 1.0), [];
    assert [a, b][..1] == [a] && [a][..0] == none;
    assert ApplyAll(eta, s, [a], 0.0) == mid;
  }

  // ---- whole runs ----------------------------------------------------------------------------

  /** A worker's old_accum_gradients_ and gradient_updates_ for this coordinate.  `since` is how many
      batches had been applied at its last refresh; `refreshed` says it refreshed after its last apply. */
  datatype Worker = Worker(gOld: real, update: real, refreshed: bool, since: nat)

  /** A batch that was applied, with the number of batches its snapshot had seen. */
  datatype Applied = Applied(g: real, since: nat)

  datatype State = State(c: Coord, workers: seq<Worker>, applied: seq<Applied>)

  datatype Step = Gradient(i: nat, g: real) | ApplyUpdates(i: nat) | Refresh(i: nat)

  /** The worker loop alternates: refresh, accumulate, apply; a second refresh finds nothing accumulated. */
  predicate Enabled(s: State, step: Step) {
    && step.i < |s.workers|
    && match step
       case Gradient(i, _) => s.workers[i].refreshed
       case ApplyUpdates(i) => s.workers[i].refreshed
       case Refresh(i) => s.workers[i].update == 0.0
  }

  function Exec(eta: real -> real, s: State, step: Step): State
    requires Enabled(s, step)
  {
    var v := s.workers[step.i];
    match step
    case Gradient(i, g) =>
      s.(workers := s.workers[i := v.(update := v.update + g)])
    case ApplyUpdates(i) =>
      State(Apply(eta, s.c, v.update, v.gOld),
            s.workers[i := v.(update := 0.0, refreshed := false)],
            s.applied + [Applied(v.update, v.since)])
    case Refresh(i) =>
      s.(workers := s.workers[i := v.(gOld := s.c.G, refreshed := true, since := |s.applied|)])
  }

  predicate Init(s: State) {
    && s.c == Coord(0.0, 0.0, 1.0, 1.0) && s.applied == []
    && forall i :: 0 <= i < |s.workers| ==>
         s.workers[i].update == 0.0 && !s.workers[i].refreshed && s.workers[i].since == 0
  }

  ghost predicate Trace(eta: real -> real, states: seq<State>, steps: seq<Step>) {
    && |states| == |steps| + 1 && Init(states[0])
    && forall i :: 0 <= i < |steps| ==> Enabled(states[i], steps[i]) && Exec(eta, states[i], steps[i]) == states[i + 1]
  }

  function Gs(a: seq<Applied>): (r: seq<real>)
    ensures |r| == |a| && forall i :: 0 <= i < |a| ==> r[i] == a[i].g
  {
    seq(|a|, i requires 0 <= i < |a| => a[i].g)
  }

  /** The batches gs[since..], which a snapshot taken after `since` batches had not seen. */
  function Missed(gs: seq<real>, since: nat): real {
    if since <= |gs| then RSum(gs) - RSum(gs[..since]) else 0.0
  }

  /** What z is made of: every batch's square, plus twice its product with the batches it had not seen. */
  function ZTerms(a: seq<Applied>): real {
    if |a| == 0 then 1.0
    else
      var m := |a| - 1;
      ZTerms(a[..m]) + ZTerm(a[m].g, Missed(Gs(a[..m]), a[m].since))
  }

  /** AdaGrad on the same batches: w moves by the step size at z = 1 + sum of squares. */
  function AdaGrad(eta: real -> real, gs: seq<real>): Coord {
    if |gs| == 0 then Coord(0.0, 0.0, 1.0, 1.0)
    else
      AdaGradApply(eta, AdaGrad(eta, gs[..|gs| - 1]), gs[|gs| - 1])
  }

  function AdaGradApply(eta: real -> real, c: Coord, g: real): Coord {
    var z := c.z + Square(g);
    Coord(Stepped(c.w, eta(z), g), c.G + g, z, z)
  }

  ghost predicate Inv(eta: real -> real, s: State) {
    && s.c.G == RSum(Gs(s.applied))
    && s.c.z == ZTerms(s.applied)
    && s.c.zMax >= s.c.z && s.c.zMax >= 1.0
    && (forall i :: 0 <= i < |s.workers| && s.workers[i].refreshed ==>
          s.workers[i].since <= |s.applied| && s.workers[i].gOld == RSum(Gs(s.applied)[..s.workers[i].since]))
    && (|s.workers| == 1 ==>
          s.c == AdaGrad(eta, Gs(s.applied)) && (s.workers[0].refreshed ==> s.workers[0].gOld == s.c.G))
  }

  lemma InitInv(eta: real -> real, s: State)
    requires Init(s)
    ensures Inv(eta, s)
  {
  }

  lemma {:induction false} AdaGradFlat(eta: real -> real, gs: seq<real>)
    ensures AdaGrad(eta, gs).z == AdaGrad(eta, gs).zMax
  {
    if |gs| > 0 {
      AdaGradFlat(eta, gs[..|gs| - 1]);
    }
  }

  /** Without delay the correction vanishes and z_max is z. */
  lemma NoDelay(eta: real -> real, c: Coord, g: real)
    requires c.z == c.zMax
    ensures Apply(eta, c, g, c.G) == AdaGradApply(eta, c, g)
  {
    var a := Apply(eta, c, g, c.G);
    assert ZTerm(g, 0.0) == Square(g);
    assert a.z == a.zMax == c.z + Square(g);
    assert Revised(c.w, eta(c.zMax), eta(a.zMax), g, 0.0) == Stepped(c.w, eta(a.zMax), g);
  }

  /** Appending a batch leaves the earlier prefix sums alone. */
  lemma {:induction false} GsSnoc(a: seq<Applied>, x: Applied)
    ensures Gs(a + [x])[..|a|] == Gs(a) && RSum(Gs(a + [x])) == RSum(Gs(a)) + x.g
    ensures forall n :: 0 <= n <= |a| ==> Gs(a + [x])[..n] == Gs(a)[..n]
  {
    assert Gs(a + [x])[..|a|] == Gs(a);
  }

  lemma {:induction false} AdaGradStep(eta: real -> real, gs: seq<real>, g: real)
    ensures AdaGrad(eta, gs + [g]) == Apply(eta, AdaGrad(eta, gs), g, AdaGrad(eta, gs).G)
  {
    assert (gs + [g])[..|gs|] == gs;
    AdaGradFlat(eta, gs);
    NoDelay(eta, AdaGrad(eta, gs), g);
  }

  lemma {:induction false} AdaGradSnoc(eta: real -> real, a: seq<Applied>, x: Applied)
    ensures AdaGrad(eta, Gs(a + [x])) == Apply(eta, AdaGrad(eta, Gs(a)), x.g, AdaGrad(eta, Gs(a)).G)
  {
    assert Gs(a + [x]) == Gs(a) + [x.g];
    AdaGradStep(eta, Gs(a), x.g);
  }

  lemma ApplyKeeps(eta: real -> real, s: State, i: nat)
    requires Inv(eta, s) && Enabled(s, ApplyUpdates(i))
    ensures Inv(eta, Exec(eta, s, ApplyUpdates(i)))
  {
    var x := Applied(s.workers[i].update, s.workers[i].since);
    GsSnoc(s.applied, x);
    assert (s.applied + [x])[..|s.applied|] == s.applied;
    AdaGradSnoc(eta, s.applied, x);
    assert s.c.G - s.workers[i].gOld == Missed(Gs(s.applied), x.since);
  }

  /** Every step keeps the account of G and z, and z_max never falls. */
  lemma StepKeeps(eta: real -> real, s: State, step: Step)
    requires Inv(eta, s) && Enabled(s, step)
    ensures Inv(eta, Exec(eta, s, step))
    ensures Exec(eta, s, step).c.zMax >= s.c.zMax
  {
    match step
    case Gradient(i, g) =>
    case ApplyUpdates(i) => ApplyKeeps(eta, s, i);
    case Refresh(i) =>
      assert Gs(s.applied)[..|s.applied|] == Gs(s.applied);
  }

  lemma {:induction false} TraceInv(eta: real -> real, states: seq<State>, steps: seq<Step>, n: nat)
    requires Trace(eta, states, steps) && n < |states|
    ensures Inv(eta, states[n])
    ensures forall m :: 0 <= m <= n ==> states[m].c.zMax <= states[n].c.zMax
    ensures |states[n].workers| == |states[0].workers|
  {
    if n == 0 {
      InitInv(eta, states[0]);
    } else {
      TraceInv(eta, states, steps, n - 1);
      StepKeeps(eta, states[n - 1], steps[n - 1]);
      assert states[n] == Exec(eta, states[n - 1], steps[n - 1]);
    }
  }

  /** In every interleaving: G is the sum of the applied batches, z is one plus their squares plus twice
      every product of a batch with one it had not seen, and z_max is at least both z and one. */
  lemma EveryInterleaving(eta: real -> real, states: seq<State>, steps: seq<Step>, n: nat)
    requires Trace(eta, states, steps) && n < |states|
    ensures states[n].c.G == RSum(Gs(states[n].applied))
    ensures states[n].c.z == ZTerms(states[n].applied)
    ensures states[n].c.zMax >= Max(states[n].c.z, 1.0)
    ensures forall m :: 0 <= m <= n ==> states[m].c.zMax <= states[n].c.zMax
  {
    TraceInv(eta, states, steps, n);
  }

  function SquareSum(gs: seq<real>): real {
    if |gs| == 0 then 0.0 else SquareSum(gs[..|gs| - 1]) + gs[|gs| - 1] * gs[|gs| - 1]
  }

  lemma {:induction false} AdaGradZ(eta: real -> real, gs: seq<real>)
    ensures AdaGrad(eta, gs).z == 1.0 + SquareSum(gs)
  {
    if |gs| > 0 {
      AdaGradZ(eta, gs[..|gs| - 1]);
    }
  }

  /** One worker: g_bck is zero at every apply, and the run is AdaGrad with z = 1 + sum of squares. */
  lemma OneWorkerIsAdaGrad(eta: real -> real, states: seq<State>, steps: seq<Step>, n: nat)
    requires Trace(eta, states, steps) && n < |states| && |states[0].workers| == 1
    ensures states[n].c == AdaGrad(eta, Gs(states[n].applied))
    ensures states[n].c.z == 1.0 + SquareSum(Gs(states[n].applied)) == states[n].c.zMax
    ensures n < |steps| && steps[n].ApplyUpdates? ==> states[n].c.G - states[n].workers[0].gOld == 0.0
  {
    TraceInv(eta, states, steps, n);
    AdaGradZ(eta, Gs(states[n].applied));
  }

  /** Workers that all refreshed at the current state apply one after another. */
  function Round(eta: real -> real, s: State, ids: seq<nat>): State {
    if |ids| == 0 then s
    else
      var t := Round(eta, s, ids[..|ids| - 1]);
      if Enabled(t, ApplyUpdates(ids[|ids| - 1])) then Exec(eta, t, ApplyUpdates(ids[|ids| - 1])) else t
  }

  function Updates(s: State, ids: seq<nat>): (r: seq<real>)
    requires forall j :: 0 <= j < |ids| ==> ids[j] < |s.workers|
    ensures |r| == |ids|
  {
    seq(|ids|, j requires 0 <= j < |ids| => s.workers[ids[j]].update)
  }

  lemma {:induction false} RoundApplies(eta: real -> real, s: State, ids: seq<nat>)
    requires forall j :: 0 <= j < |ids| ==>
               ids[j] < |s.workers| && s.workers[ids[j]].refreshed && s.workers[ids[j]].gOld == s.c.G
    requires forall j, k :: 0 <= j < k < |ids| ==> ids[j] != ids[k]
    ensures Round(eta, s, ids).c == ApplyAll(eta, s.c, Updates(s, ids), s.c.G)
    ensures |Round(eta, s, ids).workers| == |s.workers|
    ensures forall w :: 0 <= w < |s.workers| && w !in ids ==> Round(eta, s, ids).workers[w] == s.workers[w]
  {
    if |ids| > 0 {
      var m := |ids| - 1;
      RoundApplies(eta, s, ids[..m]);
      assert Updates(s, ids)[..m] == Updates(s, ids[..m]);
      assert ids[m] !in ids[..m];
      forall w | 0 <= w < |s.workers| && w !in ids ensures Round(eta, s, ids).workers[w] == s.workers[w] {
        assert w !in ids[..m];
      }
    }
  }

  /** A round in which distinct workers apply gradients taken at the same state is one batched step. */
  lemma {:induction false} RoundTelescopes(eta: real -> real, s: State, ids: seq<nat>)
    requires s.c.z <= s.c.zMax
    requires forall j :: 0 <= j < |ids| ==>
               ids[j] < |s.workers| && s.workers[ids[j]].refreshed && s.workers[ids[j]].gOld == s.c.G
    requires forall j, k :: 0 <= j < k < |ids| ==> ids[j] != ids[k]
    ensures Round(eta, s, ids).c
            == Batched(eta, s.c, RSum(Updates(s, ids)), Max(s.c.zMax, s.c.z + Peak(Updates(s, ids))))
  {
    var us := Updates(s, ids);
    RoundApplies(eta, s, ids);
    Telescopes(eta, s.c, us);
  }

  /** The in-place arithmetic of one coordinate. */
  lemma InPlace(w: real, z: real, etaOld: real, eta: real, g: real, gBck: real)
    ensures z + (g * g + 2.0 * g * gBck) == z + ZTerm(g, gBck)
    ensures w - eta * g + (etaOld - eta) * gBck == Revised(w, etaOld, eta, g, gBck)
  {
  }

  // ---- the arrays ----------------------------------------------------------------------------

  /** The shared vectors of AdaRevisionLR. */
  class Model {
    const dim: nat
    const eta: real -> real
    const weights: array<real>
    const accumGradients: array<real>
    const z: array<real>
    const zMax: array<real>

    ghost predicate Valid() {
      && weights.Length == accumGradients.Length == z.Length == zMax.Length == dim
      && weights != accumGradients && weights != z && weights != zMax
      && accumGradients != z && accumGradients != zMax && z != zMax
    }

    ghost function Repr(): set<object> {
      {weights, accumGradients, z, zMax}
    }

    ghost function At(i: nat): Coord
      requires Valid() && i < dim
      reads weights, accumGradients, z, zMax
    {
      Coord(weights[i], accumGradients[i], z[i], zMax[i])
    }

    constructor (dim: nat, eta: real -> real)
      ensures Valid() && fresh(Repr()) && this.dim == dim && this.eta == eta
      ensures forall i :: 0 <= i < dim ==> At(i) == Coord(0.0, 0.0, 1.0, 1.0)
    {
      this.dim, this.eta := dim, eta;
      weights := new real[dim](i => 0.0);
      accumGradients := new real[dim](i => 0.0);
      z := new real[dim](i => 1.0);
      zMax := new real[dim](i => 1.0);
    }
  }

  class ModelWorker {
    const model: Model
    const weights: array<real>
    const oldAccumGradients: array<real>
    const gradientUpdates: array<real>

    ghost predicate Valid() {
      && model.Valid()
      && weights.Length == oldAccumGradients.Length == gradientUpdates.Length == model.dim
      && weights != oldAccumGradients && weights != gradientUpdates && oldAccumGradients != gradientUpdates
      && {weights, oldAccumGradients, gradientUpdates} !! model.Repr()
    }

    constructor (model: Model)
      requires model.Valid()
      ensures Valid() && this.model == model && fresh({weights, oldAccumGradients, gradientUpdates})
      ensures forall i :: 0 <= i < model.dim ==> gradientUpdates[i] == 0.0
    {
      this.model := model;
      weights := new real[model.dim](i => 0.0);
      oldAccumGradients := new real[model.dim](i => 0.0);
      gradientUpdates := new real[model.dim](i => 0.0);
    }

    /** The body of the locked loop. */
    method ApplyOne(i: nat)
      requires Valid() && i < model.dim
      modifies model.Repr()
      ensures model.At(i) == Apply(model.eta, old(model.At(i)), gradientUpdates[i], oldAccumGradients[i])
      ensures forall j :: 0 <= j < model.dim && j != i ==> model.At(j) == old(model.At(j))
    {
      assert gradientUpdates !in model.Repr() && oldAccumGradients !in model.Repr();
      ghost var c := model.At(i);
      var g := gradientUpdates[i];
      var gBck := model.accumGradients[i] - oldAccumGradients[i];
      var etaOld := model.eta(model.zMax[i]);
      model.z[i] := model.z[i] + (g * g + 2.0 * g * gBck);
      model.zMax[i] := Max(model.z[i], model.zMax[i]);
      var eta := model.eta(model.zMax[i]);
      model.weights[i] := model.weights[i] - eta * g;
      model.weights[i] := model.weights[i] + (etaOld - eta) * gBck;
      model.accumGradients[i] := model.accumGradients[i] + g;
      InPlace(c.w, c.z, etaOld, eta, g, gBck);
    }

    /** The locked loop over all coordinates, and clearing the local updates. */
    method ApplyUpdates()
      requires Valid()
      modifies model.Repr(), gradientUpdates
      ensures forall i :: 0 <= i < model.dim ==>
                model.At(i) == Apply(model.eta, old(model.At(i)), old(gradientUpdates[i]), oldAccumGradients[i])
      ensures forall i :: 0 <= i < model.dim ==> gradientUpdates[i] == 0.0
    {
      for i := 0 to gradientUpdates.Length
        modifies model.Repr()
        invariant forall j :: 0 <= j < i ==>
                    model.At(j) == Apply(model.eta, old(model.At(j)), gradientUpdates[j], oldAccumGradients[j])
        invariant forall j :: i <= j < model.dim ==> model.At(j) == old(model.At(j))
      {
        ApplyOne(i);
      }
      for i := 0 to gradientUpdates.Length
        modifies gradientUpdates
        invariant forall j :: 0 <= j < i ==> gradientUpdates[j] == 0.0
      {
        gradientUpdates[i] := 0.0;
      }
    }

    method RefreshWeights()
      requires Valid()
      modifies weights, oldAccumGradients
      ensures forall i :: 0 <= i < model.dim ==>
                weights[i] == model.weights[i] && oldAccumGradients[i] == model.accumGradients[i]
    {
      for i := 0 to model.dim
        invariant forall j :: 0 <= j < i ==>
                    weights[j] == model.weights[j] && oldAccumGradients[j] == model.accumGradients[j]
      {
        weights[i] := model.weights[i];
        oldAccumGradients[i] := model.accumGradients[i];
      }
    }
  }
}
