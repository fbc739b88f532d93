/** The workers of the online strategies around one profile's learner, bandit or
    ant colony: the merging one retries and learns only what it committed; the
    serialized one learns while solving, before its single commit attempt. */
module SwarmWorkers {
  import opened Tiers
  import opened Queues
  import opened Ledger
  import opened CheckedCommit
  import opened Bandit
  import Aco
  import Shared = SharedState

  /** A solve's proposal and the cost samples it observed on the way. */
  datatype Solved = Solved(assignments: seq<Assignment>, samples: seq<Sample>)

  /** The bandit's answer to a snapshot; `attempt` stands for its random draws. */
  type Solver = (Means, map<nat, int>, nat) -> Solved

  /** Occupancy of every slot over all profiles, as a solver's snapshot has it. */
  method SlotCounts(state: Shared.State) returns (counts: map<nat, int>)
    ensures forall slot :: BaselineAt(counts, slot) == SlotCount(state.assignments, slot)
  {
    hide SlotCount;
    counts := map[];
    var done: map<nat, Assignment> := map[];
    var left := state.assignments.Keys;
    EmptySlots();
    while left != {}
      invariant done.Keys == state.assignments.Keys - left && left <= state.assignments.Keys
      invariant forall id :: id in done ==> done[id] == state.assignments[id]
      invariant forall slot :: BaselineAt(counts, slot) == SlotCount(done, slot)
      decreases |left|
    {
      var id :| id in left;
      var a := state.assignments[id];
      var more := counts[a.scheduledSlot := BaselineAt(counts, a.scheduledSlot) + 1];
      CountOneMore(counts, more, done, id, a);
      counts := more;
      done := done[id := a];
      left := left - {id};
    }
    assert done == state.assignments;
  }

  lemma CountOneMore(counts: map<nat, int>, more: map<nat, int>, done: map<nat, Assignment>, id: nat, a: Assignment)
    requires id !in done && forall slot :: BaselineAt(counts, slot) == SlotCount(done, slot)
    requires more == counts[a.scheduledSlot := BaselineAt(counts, a.scheduledSlot) + 1]
    ensures var after := done[id := a]; forall slot :: BaselineAt(more, slot) == SlotCount(after, slot)
  {
    hide SlotCount;
    var after := done[id := a];
    forall slot: nat ensures BaselineAt(more, slot) == SlotCount(after, slot) {
      SlotCountPut(done, id, a, slot);
      assert BaselineAt(counts, slot) == SlotCount(done, slot);
    }
  }

  lemma EmptySlots()
    ensures forall slot :: SlotCount(map[], slot) == 0
  {
    forall slot ensures SlotCount(map[], slot) == 0 {
      assert InSlot(map[], slot) == {};
    }
  }

  /** Merging worker. `others(i)` is what other workers commit between the solve
      and the check of round `i`. Rejected candidates leave no trace in the
      learner: it absorbs exactly the samples of the batch that was committed. */
  method MergeWorker(state: Shared.State, bandit: OnlineBanditState, pending: seq<Request>, solve: Solver,
                     others: nat -> seq<Assignment>, tiers: seq<CapacityTier>, maxRollbacks: nat)
      returns (scheduled: bool, rollbacks: nat, last: Solved)
    requires state.Valid() && Sized(bandit.View())
    modifies state, bandit
    ensures state.Valid() && rollbacks <= maxRollbacks
    ensures state.totalRollbacks == old(state.totalRollbacks) + rollbacks
    ensures scheduled <==> last.assignments != []
    ensures scheduled ==>
      && Absorbs(old(bandit.View()), last.samples, bandit.View())
      && state.TheBook() == RecordAll(Shared.SeenBy(old(state.TheBook()), others, rollbacks), last.assignments)
      && state.pending == old(state.pending)
    ensures !scheduled ==>
      && bandit.View() == old(bandit.View())
      && state.pending == pending + old(state.pending)
  {
    hide Balanced, Breaches, Oversteps, RecordAll, ExpectedFrom, SlotCount, Absorbs;
    Shared.BalancedKnows(state.TheBook(), state.replans);
    rollbacks := 0;
    while true
      invariant state.Valid() && rollbacks <= maxRollbacks && bandit.View() == old(bandit.View())
      invariant state.TheBook() == if rollbacks == 0 then old(state.TheBook())
                                   else Shared.SeenBy(old(state.TheBook()), others, rollbacks - 1)
      invariant state.pending == old(state.pending)
      invariant state.totalRollbacks == old(state.totalRollbacks) + rollbacks
      decreases maxRollbacks - rollbacks
    {
      var counts := SlotCounts(state);
      last := solve(bandit.View(), counts, rollbacks);
      if last.assignments == [] {
        state.RequeuePendingRequestsFront(pending);
        return false, rollbacks, last;
      }
      state.AddAssignments(others(rollbacks));
      var expected := ExpectedPerSlot(counts, last.assignments);
      var force := maxRollbacks == 0 || rollbacks >= maxRollbacks;
      var outcome := state.TryAddAssignmentsChecked(last.assignments, expected, tiers, force, rollbacks);
      if outcome.Committed? {
        var d := bandit.DeltaOf(last.samples);
        DeltaIs(bandit.View(), last.samples, d);
        MergeAbsorbs(bandit.View(), last.samples);
        bandit.MergeDelta(d);
        return true, rollbacks, last;
      }
      rollbacks := rollbacks + 1;
    }
  }

  lemma DeltaIs(m: Means, samples: seq<Sample>, d: Delta)
    requires Fits(m, d)
    requires forall i :: 0 <= i < |m.n| ==> d.nDelta[i] == SampleCount(samples, i)
    requires forall i :: 0 <= i < |m.n| ==> d.costSumDelta[i] == CostSum(samples, i)
    ensures d == DeltaFor(samples, |m.q|)
  {
    assert d.nDelta == DeltaFor(samples, |m.q|).nDelta;
    assert d.costSumDelta == DeltaFor(samples, |m.q|).costSumDelta;
  }

  /** Serialized worker: the learner has absorbed the batch before the commit is
      tried, so a refusal would leave it trained on work that did not happen.
      With nobody else committing, as when it is the only worker, every
      non-empty proposal is committed. */
  method SerializedWorker(state: Shared.State, bandit: OnlineBanditState, pending: seq<Request>, solve: Solver,
                          others: seq<Assignment>, tiers: seq<CapacityTier>, maxRollbacks: nat)
      returns (scheduled: bool, last: Solved)
    requires state.Valid() && Sized(bandit.View())
    modifies state, bandit
    ensures state.Valid() && Absorbs(old(bandit.View()), last.samples, bandit.View())
    ensures scheduled ==>
      && last.assignments != [] && state.pending == old(state.pending)
      && state.TheBook() == RecordAll(RecordAll(old(state.TheBook()), others), last.assignments)
    ensures !scheduled ==> state.pending == pending + old(state.pending)
    ensures others == [] || maxRollbacks == 0 ==> (scheduled <==> last.assignments != [])
  {
    hide Balanced, Breaches, Oversteps, ExpectedFrom, Absorbs, SlotCount;
    Shared.BalancedKnows(state.TheBook(), state.replans);
    var counts := SlotCounts(state);
    last := solve(bandit.View(), counts, 0);
    bandit.LearnInPlace(last.samples);
    if last.assignments == [] {
      state.RequeuePendingRequestsFront(pending);
      return false, last;
    }
    state.AddAssignments(others);
    var expected := ExpectedPerSlot(counts, last.assignments);
    if others == [] {
      UncontendedNeverRollsBack(state.TheBook(), last.assignments, counts, expected, tiers);
    }
    var outcome := state.TryAddAssignmentsChecked(last.assignments, expected, tiers, maxRollbacks == 0, 0);
    if outcome.RolledBack? {
      state.RequeuePendingRequestsFront(pending);
      return false, last;
    }
    scheduled := true;
  }

  // ── the same workers around an ant colony ──────────────────────────────

  /** The ants a snapshot sends out; the number stands for their random draws. */
  type Ants = (map<nat, int>, nat) -> Aco.Colony

  /** The solution kept of the iterations' best ants. */
  type Keeper = (seq<Aco.AntBest>, map<nat, int>, nat) -> seq<Assignment>

  datatype Foraged = Foraged(assignments: seq<Assignment>, bests: seq<Aco.AntBest>, seen: map<nat, int>)

  /** What a colony makes of a snapshot, starting from pheromone `tau`. */
  ghost predicate ForagedFrom(f: Foraged, tau: seq<real>, colony: Aco.OnlineAcoState, ants: Ants, keep: Keeper, attempt: nat) {
    && f.bests == Aco.Bests(tau, ants(f.seen, attempt), colony.rho, colony.qDeposit, colony.iterations)
    && f.assignments == keep(f.bests, f.seen, attempt)
  }

  /** The parameters and pheromone for which the two variants agree to within the clamp. */
  ghost predicate Steady(tau: seq<real>, colony: Aco.OnlineAcoState) {
    && 0.0 <= colony.rho <= 1.0 && colony.qDeposit >= 0.0
    && forall i :: 0 <= i < |tau| ==> tau[i] >= Aco.FLOOR
  }

  /** `merged` is at most `serial`, and less by at most the clamp, slot by slot. */
  ghost predicate Tracks(merged: seq<real>, serial: seq<real>) {
    && |merged| == |serial|
    && forall i :: 0 <= i < |merged| ==> Aco.FLOOR <= merged[i] <= serial[i] <= merged[i] + Aco.FLOOR
  }

  lemma MergedTracks(tau: seq<real>, bests: seq<Aco.AntBest>, colony: Aco.OnlineAcoState)
    requires Steady(tau, colony)
    ensures Tracks(Aco.Merged(tau, Aco.DeltaFor(|tau|, bests, colony.rho, colony.qDeposit)),
                   Aco.TauAfter(tau, bests, colony.rho, colony.qDeposit))
  {
    hide Aco.Merged, Aco.TauAfter;
    var merged, serial := Aco.Merged(tau, Aco.DeltaFor(|tau|, bests, colony.rho, colony.qDeposit)),
                          Aco.TauAfter(tau, bests, colony.rho, colony.qDeposit);
    SameLength(tau, bests, colony);
    forall i | 0 <= i < |tau| ensures Aco.FLOOR <= merged[i] <= serial[i] <= merged[i] + Aco.FLOOR {
      Aco.MergeTracksSerial(tau, bests, colony.rho, colony.qDeposit, i);
    }
  }

  lemma SameLength(tau: seq<real>, bests: seq<Aco.AntBest>, colony: Aco.OnlineAcoState)
    ensures |Aco.Merged(tau, Aco.DeltaFor(|tau|, bests, colony.rho, colony.qDeposit))| == |tau|
    ensures |Aco.TauAfter(tau, bests, colony.rho, colony.qDeposit)| == |tau|
  {
  }

  /** Merging worker of a colony. Refused candidates leave no trace in the
      pheromone; the committed one leaves what replaying its iterations in place
      would have left, to within the clamp. */
  method ColonyMergeWorker(state: Shared.State, colony: Aco.OnlineAcoState, pending: seq<Request>, ants: Ants,
                           keep: Keeper, others: nat -> seq<Assignment>, tiers: seq<CapacityTier>, maxRollbacks: nat)
      returns (scheduled: bool, rollbacks: nat, last: Foraged)
    requires state.Valid()
    modifies state, colony
    ensures state.Valid() && rollbacks <= maxRollbacks
    ensures state.totalRollbacks == old(state.totalRollbacks) + rollbacks
    ensures ForagedFrom(last, old(colony.tau), colony, ants, keep, rollbacks)
    ensures scheduled <==> last.assignments != []
    ensures scheduled ==>
      && (Steady(old(colony.tau), colony) ==>
            Tracks(colony.tau, Aco.TauAfter(old(colony.tau), last.bests, colony.rho, colony.qDeposit)))
      && state.TheBook() == RecordAll(Shared.SeenBy(old(state.TheBook()), others, rollbacks), last.assignments)
      && state.pending == old(state.pending)
    ensures !scheduled ==>
      && colony.tau == old(colony.tau)
      && state.pending == pending + old(state.pending)
  {
    hide Balanced, Breaches, Oversteps, RecordAll, ExpectedFrom, SlotCount, Aco.Merged, Aco.TauAfter, Tracks, Steady;
    Shared.BalancedKnows(state.TheBook(), state.replans);
    rollbacks := 0;
    while true
      invariant state.Valid() && rollbacks <= maxRollbacks && colony.tau == old(colony.tau)
      invariant state.TheBook() == if rollbacks == 0 then old(state.TheBook())
                                   else Shared.SeenBy(old(state.TheBook()), others, rollbacks - 1)
      invariant state.pending == old(state.pending)
      invariant state.totalRollbacks == old(state.totalRollbacks) + rollbacks
      decreases maxRollbacks - rollbacks
    {
      var counts := SlotCounts(state);
      var bests, delta, trail, deposits := colony.SolveForDelta(ants(counts, rollbacks));
      last := Foraged(keep(bests, counts, rollbacks), bests, counts);
      if last.assignments == [] {
        state.RequeuePendingRequestsFront(pending);
        return false, rollbacks, last;
      }
      state.AddAssignments(others(rollbacks));
      var expected := ExpectedPerSlot(counts, last.assignments);
      var force := maxRollbacks == 0 || rollbacks >= maxRollbacks;
      var outcome := state.TryAddAssignmentsChecked(last.assignments, expected, tiers, force, rollbacks);
      if outcome.Committed? {
        if Steady(colony.tau, colony) {
          MergedTracks(colony.tau, bests, colony);
        }
        colony.MergeDelta(delta);
        return true, rollbacks, last;
      }
      rollbacks := rollbacks + 1;
    }
  }

  /** Serialized worker of a colony: the iterations have left their pheromone
      before the commit is tried, refused or not. */
  method ColonySerializedWorker(state: Shared.State, colony: Aco.OnlineAcoState, pending: seq<Request>, ants: Ants,
                                keep: Keeper, others: seq<Assignment>, tiers: seq<CapacityTier>, maxRollbacks: nat)
      returns (scheduled: bool, last: Foraged)
    requires state.Valid()
    modifies state, colony
    ensures state.Valid() && ForagedFrom(last, old(colony.tau), colony, ants, keep, 0)
    ensures colony.tau == Aco.TauAfter(old(colony.tau), last.bests, colony.rho, colony.qDeposit)
    ensures scheduled ==>
      && last.assignments != [] && state.pending == old(state.pending)
      && state.TheBook() == RecordAll(RecordAll(old(state.TheBook()), others), last.assignments)
    ensures !scheduled ==> state.pending == pending + old(state.pending)
    ensures others == [] || maxRollbacks == 0 ==> (scheduled <==> last.assignments != [])
  {
    hide Balanced, Breaches, Oversteps, ExpectedFrom, Aco.TauAfter, SlotCount;
    Shared.BalancedKnows(state.TheBook(), state.replans);
    var counts := SlotCounts(state);
    var bests, trail := colony.SolveInPlace(ants(counts, 0));
    last := Foraged(keep(bests, counts, 0), bests, counts);
    if last.assignments == [] {
      state.RequeuePendingRequestsFront(pending);
      return false, last;
    }
    state.AddAssignments(others);
    var expected := ExpectedPerSlot(counts, last.assignments);
    if others == [] {
      UncontendedNeverRollsBack(state.TheBook(), last.assignments, counts, expected, tiers);
    }
    var outcome := state.TryAddAssignmentsChecked(last.assignments, expected, tiers, maxRollbacks == 0, 0);
    if outcome.RolledBack? {
      state.RequeuePendingRequestsFront(pending);
      return false, last;
    }
    scheduled := true;
  }
}
