/** The scheduler's shared state as one mutable object, and the worker loop that
    commits to it. Each method body is one critical section of the engine's mutex. */
module SharedState {
  import opened Tiers
  import opened Queues
  import opened Ledger
  import opened CheckedCommit

  datatype CommitOutcome = Committed | RolledBack

  lemma BalancedKnows(b: Book, log: seq<Replan>)
    requires Balanced(b, log)
    ensures ProfilesKnown(b)
  {
  }

  class State {
    var pending: seq<Request>
    var assignments: map<nat, Assignment>
    var totalReceived: nat
    var totalScheduled: nat
    var globalErrorSum: real
    var globalCount: nat
    var profileStats: map<ProfileId, Stats>
    var totalRollbacks: nat
    var maxConsecutiveRollbacksSeen: nat
    var rolledBackRequestIds: set<nat>
    ghost var replans: seq<Replan>

    function TheBook(): Book
      reads this
    {
      Book(assignments, totalScheduled, globalErrorSum, globalCount, profileStats)
    }

    ghost predicate Valid()
      reads this
    {
      Balanced(TheBook(), replans)
    }

    constructor ()
      ensures Valid() && TheBook() == EMPTY_BOOK && pending == [] && totalReceived == 0
      ensures totalRollbacks == 0 && maxConsecutiveRollbacksSeen == 0 && rolledBackRequestIds == {}
      ensures replans == []
    {
      pending := [];
      assignments, totalReceived, totalScheduled := map[], 0, 0;
      globalErrorSum, globalCount, profileStats := 0.0, 0, map[];
      totalRollbacks, maxConsecutiveRollbacksSeen, rolledBackRequestIds := 0, 0, {};
      replans := [];
      new;
      EmptyBalanced();
    }

    method AddRequest(request: Request)
      modifies this`pending, this`totalReceived
      ensures pending == old(pending) + [request] && totalReceived == old(totalReceived) + 1
    {
      pending := pending + [request];
      totalReceived := totalReceived + 1;
    }

    /** Drains the queue into claimed and remaining requests. */
    method ClaimPendingRequestsForProfile(p: ProfileId, count: nat) returns (claimed: seq<Request>)
      modifies this`pending
      ensures claimed == Claimed(old(pending), p, count)
      ensures pending == Remaining(old(pending), p, count)
    {
      claimed := [];
      var remaining: seq<Request> := [];
      for i := 0 to |pending|
        invariant claimed == Claimed(pending[..i], p, count)
        invariant remaining == Remaining(pending[..i], p, count)
        invariant pending == old(pending)
      {
        assert pending[..i + 1][..i] == pending[..i];
        if pending[i].profile == p && |claimed| < count {
          claimed := claimed + [pending[i]];
        } else {
          remaining := remaining + [pending[i]];
        }
      }
      assert pending[..|pending|] == pending;
      pending := remaining;
    }

    method RequeuePendingRequestsFront(requests: seq<Request>)
      modifies this`pending
      ensures pending == requests + old(pending)
    {
      if requests == [] {
        return;
      }
      pending := requests + pending;
    }

    /** Commits one assignment; the profile's totals entry is always there to update. */
    method RecordAssignment(assignment: Assignment)
      requires Valid()
      modifies this`assignments, this`totalScheduled, this`globalErrorSum, this`globalCount, this`profileStats,
               this`replans
      ensures Valid() && TheBook() == Record(old(TheBook()), assignment)
      ensures Records(old(TheBook()), TheBook(), assignment)
      ensures replans == Logged(old(TheBook()), old(replans), assignment)
    {
      hide Balanced, Average, Logged, Records;
      BalancedKnows(TheBook(), replans);
      RecordBalanced(TheBook(), replans, assignment);
      RecordRecords(TheBook(), replans, assignment);
      replans := Logged(TheBook(), replans, assignment);
      var a := assignment;
      if a.requestId in assignments {
        a := a.(profile := assignments[a.requestId].profile);
      } else {
        totalScheduled := totalScheduled + 1;
        globalErrorSum := globalErrorSum + a.error;
        globalCount := globalCount + 1;
        var entry := if a.profile in profileStats then profileStats[a.profile] else Stats(0.0, 0, 0.0);
        profileStats := profileStats[a.profile := Stats(entry.errorSum + a.error, entry.count + 1, entry.avg)];
      }
      var stats := profileStats[a.profile];
      profileStats := profileStats[a.profile := stats.(avg := Average(stats.errorSum, stats.count))];
      assignments := assignments[a.requestId := a];
      ghost var target := Record(old(TheBook()), assignment);
      assert assignments == target.assignments;
      assert totalScheduled == target.totalScheduled && globalErrorSum == target.globalErrorSum;
      assert profileStats == target.profileStats;
    }

    method AddAssignments(batch: seq<Assignment>)
      requires Valid()
      modifies this`assignments, this`totalScheduled, this`globalErrorSum, this`globalCount, this`profileStats,
               this`replans
      ensures Valid() && TheBook() == RecordAll(old(TheBook()), batch)
    {
      hide Balanced, Record;
      BalancedKnows(TheBook(), replans);
      for i := 0 to |batch|
        invariant Valid() && TheBook() == RecordAll(old(TheBook()), batch[..i])
      {
        assert batch[..i + 1][..i] == batch[..i];
        RecordAssignment(batch[i]);
      }
      assert batch[..|batch|] == batch;
    }

    /** Replaces a predicted error by the measured one, in the map and the totals alike. */
    method CorrectAssignmentError(id: nat, actual: real)
      requires Valid()
      modifies this`assignments, this`globalErrorSum, this`profileStats
      ensures Valid() && TheBook() == Correct(old(TheBook()), id, actual)
      ensures Corrects(old(TheBook()), TheBook(), id, actual)
    {
      hide Balanced, Average, Corrects;
      CorrectBalanced(TheBook(), replans, id, actual);
      CorrectCorrects(TheBook(), replans, id, actual);
      if id !in assignments {
        return;
      }
      var a := assignments[id];
      var delta := actual - a.error;
      assignments := assignments[id := a.(error := actual)];
      globalErrorSum := globalErrorSum + delta;
      if a.profile in profileStats {
        var s := profileStats[a.profile];
        var sum := s.errorSum + delta;
        profileStats := profileStats[a.profile := Stats(sum, s.count, Average(sum, s.count))];
      }
    }

    /** All or nothing: refuses exactly when unforced and some slot would land
        in a dearer tier than expected, writing no assignment then. */
    method TryAddAssignmentsChecked(batch: seq<Assignment>, expected: map<nat, int>, tiers: seq<CapacityTier>,
                                    forceCommit: bool, consecutiveBefore: nat) returns (outcome: CommitOutcome)
      requires Valid()
      modifies this
      ensures Valid() && pending == old(pending) && totalReceived == old(totalReceived)
      ensures rolledBackRequestIds == old(rolledBackRequestIds)
      ensures outcome == RolledBack <==> !forceCommit && Breaches(old(TheBook()), batch, expected, tiers)
      ensures outcome == RolledBack <==> !forceCommit && Oversteps(old(TheBook()), batch, expected, tiers)
      ensures outcome == RolledBack ==>
                && TheBook() == old(TheBook())
                && totalRollbacks == old(totalRollbacks) + 1
                && maxConsecutiveRollbacksSeen
                   == if consecutiveBefore + 1 > old(maxConsecutiveRollbacksSeen) then consecutiveBefore + 1
                      else old(maxConsecutiveRollbacksSeen)
      ensures outcome == Committed ==>
                && TheBook() == RecordAll(old(TheBook()), batch)
                && totalRollbacks == old(totalRollbacks)
                && maxConsecutiveRollbacksSeen == old(maxConsecutiveRollbacksSeen)
    {
      hide Balanced, BreachAt, RecordAll, Oversteps;
      BreachesAre(TheBook(), batch, expected, tiers);
      if !forceCommit {
        var todo := expected.Keys;
        while todo != {}
          invariant todo <= expected.Keys
          invariant forall slot :: slot in expected && slot !in todo ==> !BreachAt(TheBook(), batch, expected, tiers, slot)
          invariant TheBook() == old(TheBook()) && Valid()
          invariant pending == old(pending) && totalReceived == old(totalReceived)
          invariant rolledBackRequestIds == old(rolledBackRequestIds)
          invariant totalRollbacks == old(totalRollbacks)
          invariant maxConsecutiveRollbacksSeen == old(maxConsecutiveRollbacksSeen)
          decreases |todo|
        {
          var slot :| slot in todo;
          if BreachAt(TheBook(), batch, expected, tiers, slot) {
            totalRollbacks := totalRollbacks + 1;
            if consecutiveBefore + 1 > maxConsecutiveRollbacksSeen {
              maxConsecutiveRollbacksSeen := consecutiveBefore + 1;
            }
            return RolledBack;
          }
          todo := todo - {slot};
        }
      }
      AddAssignments(batch);
      return Committed;
    }

    method MarkRequestsRolledBack(ids: set<nat>)
      modifies this`rolledBackRequestIds
      ensures rolledBackRequestIds == old(rolledBackRequestIds) + ids
    {
      rolledBackRequestIds := rolledBackRequestIds + ids;
    }
  }

  // ── the worker's retry loop ────────────────────────────────────────────

  /** What a solver hands back: its assignments and the occupancy it priced against. */
  datatype Proposal = Proposal(assignments: seq<Assignment>, baseline: map<nat, int>)

  /** The book before attempt `n` commits: other workers' commits of each
      earlier round, none of ours. */
  ghost function SeenBy(b: Book, others: nat -> seq<Assignment>, n: nat): (after: Book)
    requires ProfilesKnown(b)
    ensures ProfilesKnown(after)
  {
    if n == 0 then RecordAll(b, others(0)) else RecordAll(SeenBy(b, others, n - 1), others(n))
  }

  lemma ExpectedUnique(baseline: map<nat, int>, batch: seq<Assignment>, expected: map<nat, int>)
    requires ExpectedFrom(baseline, batch, expected)
    ensures forall other :: ExpectedFrom(baseline, batch, other) ==> other == expected
  {
    forall other | ExpectedFrom(baseline, batch, other) ensures other == expected {
      assert other.Keys == expected.Keys;
    }
  }

  function Ids(requests: seq<Request>): set<nat> { set r | r in requests :: r.id }

  /** Solves, checks and commits one claimed batch, re-solving after each
      rollback until the limit forces the commit. `propose(i)` is the solver's
      answer in round `i`, `others(i)` what other workers commit meanwhile. */
  method BatchWorker(state: State, pending: seq<Request>, propose: nat -> Proposal, others: nat -> seq<Assignment>,
                     tiers: seq<CapacityTier>, maxRollbacks: nat) returns (scheduled: bool, rollbacks: nat)
    requires state.Valid()
    modifies state
    ensures state.Valid() && rollbacks <= maxRollbacks
    ensures state.totalRollbacks == old(state.totalRollbacks) + rollbacks
    ensures scheduled <==> propose(rollbacks).assignments != []
    ensures forall i :: 0 <= i < rollbacks ==> propose(i).assignments != []
    ensures scheduled ==>
              && state.TheBook() == RecordAll(SeenBy(old(state.TheBook()), others, rollbacks),
                                              propose(rollbacks).assignments)
              && state.pending == old(state.pending)
    ensures !scheduled ==>
              && state.TheBook() == SeenBy(old(state.TheBook()), others, rollbacks)
              && state.pending == pending + old(state.pending)
    ensures scheduled && rollbacks < maxRollbacks ==>
              forall expected :: ExpectedFrom(propose(rollbacks).baseline, propose(rollbacks).assignments, expected) ==>
                !Breaches(SeenBy(old(state.TheBook()), others, rollbacks), propose(rollbacks).assignments, expected, tiers)
    ensures state.rolledBackRequestIds
         == old(state.rolledBackRequestIds) + if scheduled && rollbacks > 0 then Ids(pending) else {}
  {
    hide Balanced, Breaches, Oversteps, RecordAll, ExpectedFrom;
    BalancedKnows(state.TheBook(), state.replans);
    rollbacks := 0;
    state.AddAssignments(others(0));
    while true
      invariant state.Valid() && rollbacks <= maxRollbacks
      invariant state.TheBook() == SeenBy(old(state.TheBook()), others, rollbacks)
      invariant state.pending == old(state.pending)
      invariant state.totalRollbacks == old(state.totalRollbacks) + rollbacks
      invariant state.rolledBackRequestIds == old(state.rolledBackRequestIds)
      invariant forall i :: 0 <= i < rollbacks ==> propose(i).assignments != []
      decreases maxRollbacks - rollbacks
    {
      var proposal := propose(rollbacks);
      if proposal.assignments == [] {
        state.RequeuePendingRequestsFront(pending);
        return false, rollbacks;
      }
      var expected := ExpectedPerSlot(proposal.baseline, proposal.assignments);
      var force := maxRollbacks == 0 || rollbacks >= maxRollbacks;
      var outcome := state.TryAddAssignmentsChecked(proposal.assignments, expected, tiers, force, rollbacks);
      if outcome == Committed {
        if rollbacks > 0 {
          state.MarkRequestsRolledBack(Ids(pending));
        }
        ExpectedUnique(proposal.baseline, proposal.assignments, expected);
        return true, rollbacks;
      }
      rollbacks := rollbacks + 1;
      state.AddAssignments(others(rollbacks));
    }
  }
}
