/** The ant colony's pheromone, updated in place by the serialized variant and
    through an affine delta by the merge variant.

    What the ants find is an oracle of the iteration and the pheromone they see;
    `FLOOR` is the clamp both variants apply. */
module Aco {
  import opened Options

  const FLOOR := 0.000000000001

  /** Best ant of one iteration: its cost when finite, and the slots it used. */
  datatype AntBest = AntBest(cost: Option<real>, slots: seq<int>)

  type Colony = (nat, seq<real>) -> AntBest

  datatype Delta = Delta(evapFactor: real, deposit: seq<real>)

  function AtLeast(x: real, bound: real): real { if x >= bound then x else bound }

  function Mul(x: real, w: real): real { x * w }

  // ── one slot of the pheromone vector ───────────────────────────────────

  /** Pheromone the iteration's best ant leaves on slot `i`. */
  function DepositAt(best: AntBest, qDeposit: real, i: int): real {
    if best.cost.Some? && best.cost.value > 0.0 then Trail(best.slots, qDeposit / best.cost.value, i) else 0.0
  }

  function Trail(slots: seq<int>, amount: real, i: int): real {
    if slots == [] then 0.0
    else Trail(slots[..|slots| - 1], amount, i) + if slots[|slots| - 1] == i then amount else 0.0
  }

  /** The best ant reinforces a slot by `qDeposit / cost` for each time it used it,
      so cheaper ants reinforce more; an ant without a finite positive cost not at all. */
  predicate LaysDown(best: AntBest, qDeposit: real, i: int, amount: real) {
    if best.cost.Some? && best.cost.value > 0.0
    then amount == (qDeposit / best.cost.value) * multiset(best.slots)[i] as real
    else amount == 0.0
  }

  /** One iteration: every slot evaporates, is clamped, and receives what the best ant lays down. */
  ghost predicate Iterates(before: seq<real>, best: AntBest, after: seq<real>, rho: real, qDeposit: real) {
    && |after| == |before|
    && forall i :: 0 <= i < |before| ==>
         LaysDown(best, qDeposit, i, after[i] - if before[i] * (1.0 - rho) >= FLOOR then before[i] * (1.0 - rho) else FLOOR)
  }

  /** Pheromone from iteration to iteration, each from the ants that saw the one before. */
  ghost predicate Evolves(trail: seq<seq<real>>, bests: seq<AntBest>, colony: Colony, rho: real, qDeposit: real) {
    && |trail| == |bests| + 1
    && forall k :: 0 <= k < |bests| ==>
         bests[k] == colony(k, trail[k]) && Iterates(trail[k], bests[k], trail[k + 1], rho, qDeposit)
  }

  /** Deposits alone from iteration to iteration: discounted, never clamped. */
  ghost predicate Accrues(trail: seq<seq<real>>, bests: seq<AntBest>, rho: real, qDeposit: real) {
    && |trail| == |bests| + 1
    && forall k :: 0 <= k < |bests| ==> Accrued(trail[k], bests[k], trail[k + 1], rho, qDeposit)
  }

  ghost predicate Accrued(before: seq<real>, best: AntBest, after: seq<real>, rho: real, qDeposit: real) {
    && |after| == |before|
    && forall i :: 0 <= i < |before| ==> LaysDown(best, qDeposit, i, after[i] - before[i] * (1.0 - rho))
  }

  lemma MulSucc(a: real, n: nat)
    ensures Mul(a, (n + 1) as real) == Mul(a, n as real) + a && Mul(a, 0.0) == 0.0
  {
  }

  lemma {:induction false} TrailIsShare(slots: seq<int>, amount: real, i: int)
    ensures Trail(slots, amount, i) == Mul(amount, multiset(slots)[i] as real)
  {
    hide Mul;
    if slots == [] {
      MulSucc(amount, 0);
    } else {
      var front, last := slots[..|slots| - 1], slots[|slots| - 1];
      TrailIsShare(front, amount, i);
      assert slots == front + [last];
      MulSucc(amount, multiset(front)[i]);
    }
  }

  lemma DepositLaysDown(best: AntBest, qDeposit: real, i: int)
    ensures LaysDown(best, qDeposit, i, DepositAt(best, qDeposit, i))
  {
    hide Trail;
    if best.cost.Some? && best.cost.value > 0.0 {
      TrailIsShare(best.slots, qDeposit / best.cost.value, i);
    }
  }

  function SumOf(amounts: seq<real>): real {
    if amounts == [] then 0.0 else SumOf(amounts[..|amounts| - 1]) + amounts[|amounts| - 1]
  }

  /** How many of the ant's slots lie inside a vector of `n`. */
  function Inside(slots: seq<int>, n: nat): nat {
    if slots == [] then 0 else Inside(slots[..|slots| - 1], n) + if 0 <= slots[|slots| - 1] < n then 1 else 0
  }

  lemma {:induction false} InsideGrows(slots: seq<int>, n: nat)
    ensures Inside(slots, n + 1) == Inside(slots, n) + multiset(slots)[n]
    ensures Inside(slots, 0) == 0
  {
    if slots != [] {
      var front, last := slots[..|slots| - 1], slots[|slots| - 1];
      InsideGrows(front, n);
      assert slots == front + [last];
      assert multiset(slots)[n as int] == multiset(front)[n as int] + if last == n then 1 else 0;
    }
  }

  lemma {:induction false} LaidAddsUp(best: AntBest, qDeposit: real, amounts: seq<real>)
    requires best.cost.Some? && best.cost.value > 0.0
    requires forall i :: 0 <= i < |amounts| ==> LaysDown(best, qDeposit, i, amounts[i])
    ensures SumOf(amounts) == Mul(qDeposit / best.cost.value, Inside(best.slots, |amounts|) as real)
  {
    hide Mul, LaysDown, Inside;
    var rate := qDeposit / best.cost.value;
    if amounts == [] {
      InsideGrows(best.slots, 0);
      MulSucc(rate, 0);
    } else {
      var n := |amounts| - 1;
      LaidAddsUp(best, qDeposit, amounts[..n]);
      InsideGrows(best.slots, n);
      LaidIs(best, qDeposit, n, amounts[n]);
      MulAdds(rate, Inside(best.slots, n), multiset(best.slots)[n as int]);
    }
  }

  lemma LaidIs(best: AntBest, qDeposit: real, i: int, amount: real)
    requires best.cost.Some? && best.cost.value > 0.0 && LaysDown(best, qDeposit, i, amount)
    ensures amount == Mul(qDeposit / best.cost.value, multiset(best.slots)[i] as real)
  {
  }

  lemma MulAdds(a: real, m: nat, n: nat)
    ensures Mul(a, (m + n) as real) == Mul(a, m as real) + Mul(a, n as real)
  {
    hide Mul;
    MulCommutes(a, (m + n) as real);
    MulCommutes(a, m as real);
    MulCommutes(a, n as real);
    MulSum(m as real, n as real, a);
  }

  lemma Quotient(a: real, cost: real)
    requires cost > 0.0
    ensures Mul(a / cost, cost) == a
  {
  }

  /** What an ant lays down in all, times its cost, is the deposit constant times
      the number of its slots inside the vector. */
  lemma DepositTotal(best: AntBest, qDeposit: real, amounts: seq<real>)
    requires best.cost.Some? && best.cost.value > 0.0
    requires forall i :: 0 <= i < |amounts| ==> LaysDown(best, qDeposit, i, amounts[i])
    ensures SumOf(amounts) * best.cost.value == qDeposit * Inside(best.slots, |amounts|) as real
  {
    hide LaysDown, SumOf, Inside;
    TotalLaid(best, qDeposit, amounts);
  }

  lemma TotalLaid(best: AntBest, qDeposit: real, amounts: seq<real>)
    requires best.cost.Some? && best.cost.value > 0.0
    requires forall i :: 0 <= i < |amounts| ==> LaysDown(best, qDeposit, i, amounts[i])
    ensures Mul(SumOf(amounts), best.cost.value) == Mul(qDeposit, Inside(best.slots, |amounts|) as real)
  {
    hide Mul, LaysDown, SumOf, Inside;
    LaidAddsUp(best, qDeposit, amounts);
    var cost, n := best.cost.value, Inside(best.slots, |amounts|) as real;
    var rate := qDeposit / cost;
    Quotient(qDeposit, cost);
    MulAssociates(rate, n, cost);
    MulCommutes(n, cost);
    MulAssociates(rate, cost, n);
  }

  /** Evaporate, clamp, deposit: one slot through the given iterations. */
  function TauAt(t: real, bests: seq<AntBest>, rho: real, qDeposit: real, i: int): real {
    if bests == [] then t
    else AtLeast(Mul(TauAt(t, bests[..|bests| - 1], rho, qDeposit, i), 1.0 - rho), FLOOR)
         + DepositAt(bests[|bests| - 1], qDeposit, i)
  }

  /** Deposits of the same iterations, each discounted by the evaporations after it; never clamped. */
  function DepositedAt(bests: seq<AntBest>, rho: real, qDeposit: real, i: int): real {
    if bests == [] then 0.0
    else Mul(DepositedAt(bests[..|bests| - 1], rho, qDeposit, i), 1.0 - rho)
         + DepositAt(bests[|bests| - 1], qDeposit, i)
  }

  function Evaporation(rho: real, iterations: nat): real {
    if iterations == 0 then 1.0 else Mul(Evaporation(rho, iterations - 1), 1.0 - rho)
  }

  // ── whole vectors and whole solves ─────────────────────────────────────

  function TauAfter(tau: seq<real>, bests: seq<AntBest>, rho: real, qDeposit: real): seq<real> {
    seq(|tau|, i requires 0 <= i < |tau| => TauAt(tau[i], bests, rho, qDeposit, i))
  }

  function DeltaFor(slots: nat, bests: seq<AntBest>, rho: real, qDeposit: real): Delta {
    Delta(Evaporation(rho, |bests|), seq(slots, i => DepositedAt(bests, rho, qDeposit, i)))
  }

  function Merged(tau: seq<real>, d: Delta): seq<real>
    requires |d.deposit| == |tau|
  {
    seq(|tau|, i requires 0 <= i < |tau| => AtLeast(Mul(tau[i], d.evapFactor) + d.deposit[i], FLOOR))
  }

  /** One more iteration, entry by entry. */
  lemma TauSnoc(tau: seq<real>, bests: seq<AntBest>, best: AntBest, rho: real, qDeposit: real)
    ensures forall i :: 0 <= i < |tau| ==>
              TauAfter(tau, bests + [best], rho, qDeposit)[i]
              == AtLeast(Mul(TauAfter(tau, bests, rho, qDeposit)[i], 1.0 - rho), FLOOR) + DepositAt(best, qDeposit, i)
    ensures forall i :: 0 <= i < |tau| ==>
              DeltaFor(|tau|, bests + [best], rho, qDeposit).deposit[i]
              == Mul(DeltaFor(|tau|, bests, rho, qDeposit).deposit[i], 1.0 - rho) + DepositAt(best, qDeposit, i)
  {
    hide Mul, DepositAt, AtLeast;
    assert (bests + [best])[..|bests|] == bests;
  }

  lemma TauNext(tau: seq<real>, bests: seq<AntBest>, best: AntBest, rho: real, qDeposit: real, next: seq<real>)
    requires |next| == |tau|
    requires forall i :: 0 <= i < |tau| ==>
               next[i] == AtLeast(Mul(TauAfter(tau, bests, rho, qDeposit)[i], 1.0 - rho), FLOOR) + DepositAt(best, qDeposit, i)
    ensures next == TauAfter(tau, bests + [best], rho, qDeposit)
  {
    hide Mul, DepositAt, AtLeast;
    TauSnoc(tau, bests, best, rho, qDeposit);
  }

  lemma DepositNext(slots: nat, bests: seq<AntBest>, best: AntBest, rho: real, qDeposit: real, next: seq<real>)
    requires |next| == slots
    requires forall i :: 0 <= i < slots ==>
               next[i] == Mul(DeltaFor(slots, bests, rho, qDeposit).deposit[i], 1.0 - rho) + DepositAt(best, qDeposit, i)
    ensures next == DeltaFor(slots, bests + [best], rho, qDeposit).deposit
  {
    hide Mul, DepositAt, AtLeast;
    TauSnoc(seq(slots, _ => 0.0), bests, best, rho, qDeposit);
  }

  lemma Sizes(tau: seq<real>, slots: nat, bests: seq<AntBest>, rho: real, qDeposit: real)
    ensures |TauAfter(tau, bests, rho, qDeposit)| == |tau|
    ensures |DeltaFor(slots, bests, rho, qDeposit).deposit| == slots
    ensures DeltaFor(slots, bests, rho, qDeposit).evapFactor == Evaporation(rho, |bests|)
  {
  }

  lemma NoIterations(tau: seq<real>, slots: nat, rho: real, qDeposit: real)
    ensures TauAfter(tau, [], rho, qDeposit) == tau
    ensures DeltaFor(slots, [], rho, qDeposit).deposit == seq(slots, _ => 0.0)
  {
  }

  /** The best ants of `n` iterations started from `tau`, each seeing the pheromone left by the earlier ones. */
  function Bests(tau: seq<real>, colony: Colony, rho: real, qDeposit: real, n: nat): (bests: seq<AntBest>)
    ensures |bests| == n
  {
    if n == 0 then []
    else
      var before := Bests(tau, colony, rho, qDeposit, n - 1);
      before + [colony(n - 1, TauAfter(tau, before, rho, qDeposit))]
  }

  class OnlineAcoState {
    var tau: seq<real>
    const rho: real
    const qDeposit: real
    const iterations: nat

    constructor (totalSlots: nat, tau0: real, rho: real, qDeposit: real, iterations: nat)
      ensures |tau| == totalSlots && forall i :: 0 <= i < totalSlots ==> tau[i] == tau0
      ensures this.rho == rho && this.qDeposit == qDeposit && this.iterations == iterations
    {
      tau := seq(totalSlots, _ => tau0);
      this.rho, this.qDeposit, this.iterations := rho, qDeposit, iterations;
    }

    /** Serialized variant: every iteration evaporates and deposits in place. */
    method SolveInPlace(colony: Colony) returns (bests: seq<AntBest>, ghost trail: seq<seq<real>>)
      modifies this
      ensures |bests| == iterations && |trail| == iterations + 1 && Evolves(trail, bests, colony, rho, qDeposit)
      ensures trail[0] == old(tau) && trail[iterations] == tau
      ensures bests == Bests(old(tau), colony, rho, qDeposit, iterations)
      ensures tau == TauAfter(old(tau), bests, rho, qDeposit)
    {
      hide Mul, DepositAt, AtLeast, Iterates, Evolves, LaysDown, TauAfter;
      bests, trail := [], [tau];
      NothingEvolves(tau, colony, rho, qDeposit);
      NoIterations(tau, 0, rho, qDeposit);
      for k := 0 to iterations
        invariant bests == Bests(old(tau), colony, rho, qDeposit, k)
        invariant tau == TauAfter(old(tau), bests, rho, qDeposit)
        invariant |trail| == k + 1 && trail[0] == old(tau) && trail[k] == tau
        invariant Evolves(trail, bests, colony, rho, qDeposit)
      {
        Sizes(old(tau), 0, bests, rho, qDeposit);
        var best := colony(k, tau);
        var evaporated := Evaporate(tau, rho);
        ghost var before := tau;
        tau := Deposit(evaporated, best, qDeposit);
        OneIteration(before, evaporated, best, tau, rho, qDeposit);
        EvolvesOn(trail, bests, colony, rho, qDeposit, best, tau);
        trail := trail + [tau];
        TauNext(old(tau), bests, best, rho, qDeposit, tau);
        bests := bests + [best];
      }
    }

    /** Merge variant: evolves a working copy and returns the affine net effect. */
    method SolveForDelta(colony: Colony)
        returns (bests: seq<AntBest>, d: Delta, ghost trail: seq<seq<real>>, ghost deposits: seq<seq<real>>)
      ensures |bests| == iterations && |trail| == |deposits| == iterations + 1
      ensures Evolves(trail, bests, colony, rho, qDeposit) && trail[0] == tau
      ensures Accrues(deposits, bests, rho, qDeposit) && deposits[iterations] == d.deposit
      ensures deposits[0] == seq(|tau|, _ => 0.0)
      ensures bests == Bests(tau, colony, rho, qDeposit, iterations)
      ensures d == DeltaFor(|tau|, bests, rho, qDeposit)
    {
      hide Mul, DepositAt, AtLeast, Iterates, Accrued, Evolves, Accrues, LaysDown, TauAfter, DeltaFor;
      bests := [];
      ghost var zeros := seq(|tau|, _ => 0.0);
      var work, acc, evap := tau, seq(|tau|, _ => 0.0), 1.0;
      trail, deposits := [work], [acc];
      NothingEvolves(work, colony, rho, qDeposit);
      NothingAccrues(acc, rho, qDeposit);
      NoIterations(tau, |tau|, rho, qDeposit);
      Sizes(tau, |tau|, Bests(tau, colony, rho, qDeposit, iterations), rho, qDeposit);
      for k := 0 to iterations
        invariant bests == Bests(tau, colony, rho, qDeposit, k)
        invariant work == TauAfter(tau, bests, rho, qDeposit)
        invariant acc == DeltaFor(|tau|, bests, rho, qDeposit).deposit
        invariant evap == Evaporation(rho, k)
        invariant |trail| == |deposits| == k + 1 && trail[0] == tau && trail[k] == work
        invariant deposits[0] == zeros && deposits[k] == acc
        invariant Evolves(trail, bests, colony, rho, qDeposit) && Accrues(deposits, bests, rho, qDeposit)
      {
        Sizes(tau, |tau|, bests, rho, qDeposit);
        var best := colony(k, work);
        var evaporated := Evaporate(work, rho);
        var discounted := Scale(acc, 1.0 - rho);
        evap := Mul(evap, 1.0 - rho);
        ghost var was, had := work, acc;
        work := Deposit(evaporated, best, qDeposit);
        acc := Deposit(discounted, best, qDeposit);
        OneIteration(was, evaporated, best, work, rho, qDeposit);
        OneAccrual(had, discounted, best, acc, rho, qDeposit);
        EvolvesOn(trail, bests, colony, rho, qDeposit, best, work);
        AccruesOn(deposits, bests, rho, qDeposit, best, acc);
        trail, deposits := trail + [work], deposits + [acc];
        TauNext(tau, bests, best, rho, qDeposit, work);
        DepositNext(|tau|, bests, best, rho, qDeposit, acc);
        bests := bests + [best];
      }
      d := Delta(evap, acc);
      Sizes(tau, |tau|, bests, rho, qDeposit);
    }

    /** Applies a worker's delta to whatever the pheromone is by now. */
    method MergeDelta(d: Delta)
      requires |d.deposit| == |tau|
      modifies this
      ensures tau == Merged(old(tau), d)
      ensures |tau| == |old(tau)|
      ensures forall i :: 0 <= i < |tau| ==>
                var moved := old(tau)[i] * d.evapFactor + d.deposit[i];
                tau[i] == if moved >= FLOOR then moved else FLOOR
    {
      ghost var was := tau;
      for i := 0 to |tau|
        invariant |tau| == |was|
        invariant forall j :: 0 <= j < i ==> tau[j] == Merged(was, d)[j]
        invariant forall j :: i <= j < |tau| ==> tau[j] == was[j]
      {
        tau := tau[i := AtLeast(tau[i] * d.evapFactor + d.deposit[i], FLOOR)];
      }
    }
  }

  method Evaporate(tau: seq<real>, rho: real) returns (out: seq<real>)
    ensures |out| == |tau| && forall i :: 0 <= i < |tau| ==> out[i] == AtLeast(Mul(tau[i], 1.0 - rho), FLOOR)
  {
    out := tau;
    for i := 0 to |tau|
      invariant |out| == |tau|
      invariant forall j :: 0 <= j < i ==> out[j] == AtLeast(Mul(tau[j], 1.0 - rho), FLOOR)
      invariant forall j :: i <= j < |tau| ==> out[j] == tau[j]
    {
      out := out[i := AtLeast(tau[i] * (1.0 - rho), FLOOR)];
    }
  }

  method Scale(v: seq<real>, factor: real) returns (out: seq<real>)
    ensures |out| == |v| && forall i :: 0 <= i < |v| ==> out[i] == Mul(v[i], factor)
  {
    out := v;
    for i := 0 to |v|
      invariant |out| == |v|
      invariant forall j :: 0 <= j < i ==> out[j] == Mul(v[j], factor)
      invariant forall j :: i <= j < |v| ==> out[j] == v[j]
    {
      out := out[i := v[i] * factor];
    }
  }

  /** Deposits on the best ant's slots; slots outside the vector are skipped. */
  method Deposit(tau: seq<real>, best: AntBest, qDeposit: real) returns (out: seq<real>)
    ensures |out| == |tau| && forall i :: 0 <= i < |tau| ==> out[i] == tau[i] + DepositAt(best, qDeposit, i)
    ensures forall i :: 0 <= i < |tau| ==> LaysDown(best, qDeposit, i, out[i] - tau[i])
  {
    hide LaysDown;
    out := tau;
    if best.cost.Some? && best.cost.value > 0.0 {
      var amount := qDeposit / best.cost.value;
      for k := 0 to |best.slots|
        invariant |out| == |tau|
        invariant forall i :: 0 <= i < |tau| ==> out[i] == tau[i] + Trail(best.slots[..k], amount, i)
      {
        assert best.slots[..k + 1][..k] == best.slots[..k];
        var slot := best.slots[k];
        if 0 <= slot < |out| {
          out := out[slot := out[slot] + amount];
        }
      }
      assert best.slots[..|best.slots|] == best.slots;
    }
    forall i | 0 <= i < |tau| ensures LaysDown(best, qDeposit, i, out[i] - tau[i]) {
      DepositLaysDown(best, qDeposit, i);
    }
  }

  lemma NothingEvolves(tau: seq<real>, colony: Colony, rho: real, qDeposit: real)
    ensures Evolves([tau], [], colony, rho, qDeposit)
  {
  }

  lemma NothingAccrues(acc: seq<real>, rho: real, qDeposit: real)
    ensures Accrues([acc], [], rho, qDeposit)
  {
  }

  lemma EvolvesOn(trail: seq<seq<real>>, bests: seq<AntBest>, colony: Colony, rho: real, qDeposit: real,
                  best: AntBest, next: seq<real>)
    requires Evolves(trail, bests, colony, rho, qDeposit)
    requires best == colony(|bests|, trail[|bests|]) && Iterates(trail[|bests|], best, next, rho, qDeposit)
    ensures Evolves(trail + [next], bests + [best], colony, rho, qDeposit)
  {
    hide Iterates;
  }

  lemma AccruesOn(trail: seq<seq<real>>, bests: seq<AntBest>, rho: real, qDeposit: real, best: AntBest, next: seq<real>)
    requires Accrues(trail, bests, rho, qDeposit) && Accrued(trail[|bests|], best, next, rho, qDeposit)
    ensures Accrues(trail + [next], bests + [best], rho, qDeposit)
  {
    hide Accrued;
  }

  lemma OneIteration(before: seq<real>, evaporated: seq<real>, best: AntBest, after: seq<real>, rho: real, qDeposit: real)
    requires |before| == |evaporated| == |after|
    requires forall i :: 0 <= i < |before| ==> evaporated[i] == AtLeast(Mul(before[i], 1.0 - rho), FLOOR)
    requires forall i :: 0 <= i < |before| ==> LaysDown(best, qDeposit, i, after[i] - evaporated[i])
    ensures Iterates(before, best, after, rho, qDeposit)
  {
    hide LaysDown;
  }

  lemma OneAccrual(before: seq<real>, discounted: seq<real>, best: AntBest, after: seq<real>, rho: real, qDeposit: real)
    requires |before| == |discounted| == |after|
    requires forall i :: 0 <= i < |before| ==> discounted[i] == Mul(before[i], 1.0 - rho)
    requires forall i :: 0 <= i < |before| ==> LaysDown(best, qDeposit, i, after[i] - discounted[i])
    ensures Accrued(before, best, after, rho, qDeposit)
  {
    hide LaysDown;
  }

  // ── the two variants agree to within the clamp ─────────────────────────

  lemma MulMonotone(a: real, b: real, w: real)
    requires a <= b && w >= 0.0
    ensures Mul(a, w) <= Mul(b, w)
  {
  }

  lemma MulZero(w: real)
    ensures Mul(0.0, w) == 0.0
  {
  }

  lemma MulOne(a: real)
    ensures Mul(a, 1.0) == a && Mul(1.0, a) == a
  {
  }

  lemma MulCommutes(a: real, b: real)
    ensures Mul(a, b) == Mul(b, a)
  {
  }

  lemma MulSum(a: real, b: real, w: real)
    ensures Mul(a + b, w) == Mul(a, w) + Mul(b, w)
  {
  }

  lemma MulAssociates(a: real, b: real, w: real)
    ensures Mul(Mul(a, b), w) == Mul(a, Mul(b, w))
  {
    assert (a * b) * w == a * (b * w);
  }

  lemma {:induction false} TrailNonNegative(slots: seq<int>, amount: real, i: int)
    requires amount >= 0.0
    ensures Trail(slots, amount, i) >= 0.0
  {
    if slots != [] {
      TrailNonNegative(slots[..|slots| - 1], amount, i);
    }
  }

  lemma DepositNonNegative(best: AntBest, qDeposit: real, i: int)
    requires qDeposit >= 0.0
    ensures DepositAt(best, qDeposit, i) >= 0.0
  {
    if best.cost.Some? && best.cost.value > 0.0 {
      TrailNonNegative(best.slots, qDeposit / best.cost.value, i);
    }
  }

  lemma {:induction false} EvaporationNonNegative(rho: real, n: nat)
    requires 0.0 <= rho <= 1.0
    ensures Evaporation(rho, n) >= 0.0
  {
    hide Mul;
    if n > 0 {
      EvaporationNonNegative(rho, n - 1);
      MulMonotone(0.0, Evaporation(rho, n - 1), 1.0 - rho);
      MulZero(1.0 - rho);
    }
  }

  lemma {:induction false} DepositedNonNegative(bests: seq<AntBest>, rho: real, qDeposit: real, i: int)
    requires 0.0 <= rho <= 1.0 && qDeposit >= 0.0
    ensures DepositedAt(bests, rho, qDeposit, i) >= 0.0
  {
    hide Mul;
    if bests != [] {
      var front := bests[..|bests| - 1];
      DepositedNonNegative(front, rho, qDeposit, i);
      MulMonotone(0.0, DepositedAt(front, rho, qDeposit, i), 1.0 - rho);
      MulZero(1.0 - rho);
      DepositNonNegative(bests[|bests| - 1], qDeposit, i);
    }
  }

  /** What the delta alone makes of a pheromone value, before its own clamp. */
  function AffineAt(t: real, bests: seq<AntBest>, rho: real, qDeposit: real, i: int): real {
    Mul(t, Evaporation(rho, |bests|)) + DepositedAt(bests, rho, qDeposit, i)
  }

  lemma AffineStep(t: real, bests: seq<AntBest>, rho: real, qDeposit: real, i: int)
    requires bests != []
    ensures AffineAt(t, bests, rho, qDeposit, i)
         == Mul(AffineAt(t, bests[..|bests| - 1], rho, qDeposit, i), 1.0 - rho)
            + DepositAt(bests[|bests| - 1], qDeposit, i)
  {
    hide Mul, DepositAt;
    var front := bests[..|bests| - 1];
    var e := Evaporation(rho, |front|);
    MulAssociates(t, e, 1.0 - rho);
    MulSum(Mul(t, e), DepositedAt(front, rho, qDeposit, i), 1.0 - rho);
  }

  lemma {:induction false} SerialNearAffine(t: real, bests: seq<AntBest>, rho: real, qDeposit: real, i: int)
    requires 0.0 <= rho <= 1.0 && qDeposit >= 0.0 && t >= FLOOR
    ensures 0.0 <= AffineAt(t, bests, rho, qDeposit, i)
    ensures AffineAt(t, bests, rho, qDeposit, i) <= TauAt(t, bests, rho, qDeposit, i)
    ensures TauAt(t, bests, rho, qDeposit, i) <= AffineAt(t, bests, rho, qDeposit, i) + FLOOR
    ensures TauAt(t, bests, rho, qDeposit, i) >= FLOOR
  {
    hide Mul, DepositAt, AffineAt;
    if bests == [] {
      AffineOfNothing(t, rho, qDeposit, i);
    } else {
      var front := bests[..|bests| - 1];
      SerialNearAffine(t, front, rho, qDeposit, i);
      AffineStep(t, bests, rho, qDeposit, i);
      DepositNonNegative(bests[|bests| - 1], qDeposit, i);
      var u, s, w := AffineAt(t, front, rho, qDeposit, i), TauAt(t, front, rho, qDeposit, i), 1.0 - rho;
      MulMonotone(u, s, w);
      MulMonotone(s, u + FLOOR, w);
      MulSum(u, FLOOR, w);
      MulMonotone(0.0, u, w);
      MulZero(w);
      MulCommutes(FLOOR, w);
      MulMonotone(w, 1.0, FLOOR);
      MulOne(FLOOR);
    }
  }

  lemma AffineOfNothing(t: real, rho: real, qDeposit: real, i: int)
    ensures AffineAt(t, [], rho, qDeposit, i) == t
  {
  }

  /** Merging a delta into any pheromone at or above the floor gives, slot by
      slot, no more than replaying the same iterations in place, and less by at
      most the floor, for any number of iterations and any pattern of clamping. */
  lemma MergeTracksSerial(tau: seq<real>, bests: seq<AntBest>, rho: real, qDeposit: real, i: nat)
    requires 0.0 <= rho <= 1.0 && qDeposit >= 0.0 && i < |tau| && tau[i] >= FLOOR
    ensures var merged, serial := Merged(tau, DeltaFor(|tau|, bests, rho, qDeposit))[i],
                                  TauAfter(tau, bests, rho, qDeposit)[i];
            FLOOR <= merged <= serial <= merged + FLOOR
  {
    hide Mul;
    SerialNearAffine(tau[i], bests, rho, qDeposit, i);
  }

  lemma {:induction false} EvaporationFalls(rho: real, n: nat)
    requires 0.0 <= rho <= 1.0
    ensures 0.0 <= Evaporation(rho, n + 1) <= Evaporation(rho, n)
  {
    hide Mul;
    var e := Evaporation(rho, n);
    EvaporationNonNegative(rho, n);
    EvaporationNonNegative(rho, n + 1);
    MulCommutes(e, 1.0 - rho);
    MulMonotone(1.0 - rho, 1.0, e);
    MulOne(e);
  }

  lemma {:induction false} UnclampedIsAffine(t: real, bests: seq<AntBest>, rho: real, qDeposit: real, i: int)
    requires 0.0 <= rho <= 1.0 && qDeposit >= 0.0 && t >= 0.0
    requires Mul(t, Evaporation(rho, |bests|)) >= FLOOR
    ensures TauAt(t, bests, rho, qDeposit, i) == AffineAt(t, bests, rho, qDeposit, i)
  {
    hide Mul, DepositAt;
    if bests == [] {
      MulOne(t);
    } else {
      var front := bests[..|bests| - 1];
      var e, d, w := Evaporation(rho, |front|), DepositedAt(front, rho, qDeposit, i), 1.0 - rho;
      EvaporationFalls(rho, |front|);
      MulCommutes(t, e);
      MulCommutes(t, Evaporation(rho, |bests|));
      MulMonotone(Evaporation(rho, |bests|), e, t);
      UnclampedIsAffine(t, front, rho, qDeposit, i);
      AffineStep(t, bests, rho, qDeposit, i);
      DepositedNonNegative(front, rho, qDeposit, i);
      MulMonotone(0.0, d, w);
      MulZero(w);
      MulAssociates(t, e, w);
      MulSum(Mul(t, e), d, w);
    }
  }

  /** The two agree exactly on every slot the batch cannot evaporate to the floor. */
  lemma ExactAboveFloor(tau: seq<real>, bests: seq<AntBest>, rho: real, qDeposit: real, i: nat)
    requires 0.0 <= rho <= 1.0 && qDeposit >= 0.0 && i < |tau| && tau[i] >= 0.0
    requires Mul(tau[i], Evaporation(rho, |bests|)) >= FLOOR
    ensures Merged(tau, DeltaFor(|tau|, bests, rho, qDeposit))[i] == TauAfter(tau, bests, rho, qDeposit)[i]
  {
    hide Mul;
    UnclampedIsAffine(tau[i], bests, rho, qDeposit, i);
    DepositedNonNegative(bests, rho, qDeposit, i);
  }

  /** The same from the callers' side: solving for a delta and merging it at
      once, beside the serialized solve of an equal colony. */
  method SolveBoth(merge: OnlineAcoState, serial: OnlineAcoState, colony: Colony)
    requires merge != serial && merge.tau == serial.tau
    requires merge.rho == serial.rho && merge.qDeposit == serial.qDeposit && merge.iterations == serial.iterations
    requires 0.0 <= serial.rho <= 1.0 && serial.qDeposit >= 0.0
    requires forall i :: 0 <= i < |serial.tau| ==> serial.tau[i] >= FLOOR
    modifies merge, serial
    ensures |merge.tau| == |serial.tau| == |old(serial.tau)|
    ensures forall i :: 0 <= i < |merge.tau| ==>
              FLOOR <= merge.tau[i] <= serial.tau[i] <= merge.tau[i] + FLOOR
  {
    ghost var was := serial.tau;
    var bests, d, trail, deposits := merge.SolveForDelta(colony);
    merge.MergeDelta(d);
    var same, path := serial.SolveInPlace(colony);
    forall i | 0 <= i < |was|
      ensures FLOOR <= merge.tau[i] <= serial.tau[i] <= merge.tau[i] + FLOOR
    {
      MergeTracksSerial(was, bests, serial.rho, serial.qDeposit, i);
    }
  }
}
