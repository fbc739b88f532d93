/** The slot-close barrier of the scheduling service under a manual clock with an
    executor configured: admission fence, drain check on two separately taken
    snapshots, and callbacks that are claimed once and finished later.

    Every mutex-protected section is one step; steps of requests, solver,
    dispatcher, executor callbacks and close calls interleave freely. */
module CloseBarrier {
  type Id = nat

  datatype Status = Pending | Scheduled | Dispatched | Completed | Failed

  datatype Tracked = Tracked(arrival: int, status: Status, claimed: bool, attempts: nat)

  /** Progress of one close call. */
  datatype Closer =
    | Checked(slot: nat)                         // the slot is the engine's current one
    | Fenced(slot: nat)                          // admission fence published, flush requested
    | Looked(slot: nat, seen: map<Id, int>)      // assignments copied, tracked table not yet read

  datatype State = State(
    tracked: map<Id, Tracked>,
    placed: map<Id, int>,        // committed assignments: scheduled slot
    currentSlot: nat,
    closedThrough: int,
    finishing: map<Id, bool>,      // claimed callbacks whose outcome is not written yet
    closers: map<nat, Closer>,
    acknowledged: set<nat>)        // slots whose close call has succeeded

  const START := State(map[], map[], 0, -1, map[], map[], {})

  datatype Event =
    | Arrive(id: Id, arrival: int)
    | Assign(id: Id, slot: int)
    | SubmitPoll(id: Id)
    | DispatchAccepted(id: Id)
    | DispatchImpossible(id: Id)
    | DispatchFailed(id: Id)
    | Callback(id: Id, success: bool)
    | Finish(id: Id)
    | ClockMoves(now: nat)
    | CloseCall(c: nat)
    | CloseFence(c: nat)
    | CloseLook(c: nat)
    | CloseJudge(c: nat)
    | CloseTimeout(c: nat)

  predicate Terminal(status: Status) { status.Completed? || status.Failed? }

  function Outcome(success: bool): Status { if success then Completed else Failed }

  // ── the drain check ────────────────────────────────────────────────────

  predicate AllScheduled(seen: map<Id, int>, tracked: map<Id, Tracked>, slot: int) {
    forall id :: id in tracked && tracked[id].arrival <= slot ==> id in seen
  }

  predicate NoneDispatching(seen: map<Id, int>, tracked: map<Id, Tracked>, slot: int) {
    forall id :: id in seen && seen[id] <= slot ==>
      id in tracked && !tracked[id].status.Pending? && !tracked[id].status.Scheduled?
  }

  predicate DispatchGaveUp(seen: map<Id, int>, tracked: map<Id, Tracked>, slot: int) {
    exists id :: id in seen && seen[id] <= slot && id in tracked && tracked[id].status.Failed? && !tracked[id].claimed
  }

  predicate CallbacksIn(seen: map<Id, int>, tracked: map<Id, Tracked>, slot: int) {
    forall id :: id in seen && seen[id] <= slot ==>
      id in tracked && tracked[id].claimed && Terminal(tracked[id].status)
  }

  // ── steps ──────────────────────────────────────────────────────────────

  function SetStatus(s: State, id: Id, status: Status): State {
    if id in s.tracked && !s.tracked[id].claimed then s.(tracked := s.tracked[id := s.tracked[id].(status := status)])
    else s
  }

  /** A failed attempt; the last allowed one gives the job up. */
  function RecordFailure(maxRetries: nat, s: State, id: Id): State {
    if id !in s.tracked || s.tracked[id].claimed then s
    else
      var t := s.tracked[id];
      var attempts := t.attempts + 1;
      s.(tracked := s.tracked[id := t.(attempts := attempts,
                                       status := if attempts >= maxRetries then Failed else t.status)])
  }

  function Admit(s: State, id: Id, arrival: int): State {
    if id in s.tracked || arrival <= s.closedThrough then s
    else s.(tracked := s.tracked[id := Tracked(arrival, Pending, false, 0)])
  }

  function ClaimCallback(s: State, id: Id, success: bool): State {
    if id !in s.tracked || s.tracked[id].claimed then s
    else s.(tracked := s.tracked[id := s.tracked[id].(claimed := true)],
            finishing := s.finishing[id := success])
  }

  function FinishCallback(s: State, id: Id): State {
    if id !in s.finishing || id !in s.tracked then s
    else s.(tracked := s.tracked[id := s.tracked[id].(status := Outcome(s.finishing[id]))],
            finishing := s.finishing - {id})
  }

  function Fence(s: State, c: nat): State {
    if c !in s.closers || !s.closers[c].Checked? then s
    else
      var slot := s.closers[c].slot;
      if slot < s.closedThrough then s.(closers := s.closers - {c})
      else s.(closedThrough := slot, closers := s.closers[c := Fenced(slot)])
  }

  function Judge(s: State, c: nat): State {
    if c !in s.closers || !s.closers[c].Looked? then s
    else
      var slot, seen := s.closers[c].slot, s.closers[c].seen;
      if DispatchGaveUp(seen, s.tracked, slot) then s.(closers := s.closers - {c})
      else if AllScheduled(seen, s.tracked, slot) && NoneDispatching(seen, s.tracked, slot)
              && CallbacksIn(seen, s.tracked, slot)
      then s.(closers := s.closers - {c}, acknowledged := s.acknowledged + {slot})
      else s.(closers := s.closers[c := Fenced(slot)])
  }

  /** One step; an event that is not enabled changes nothing. A solver assigns
      each request once and never before its arrival. */
  function Next(maxRetries: nat, s: State, e: Event): State {
    match e
    case Arrive(id, arrival) => Admit(s, id, arrival)
    case Assign(id, slot) =>
      if id in s.tracked && id !in s.placed && slot >= s.tracked[id].arrival
      then s.(placed := s.placed[id := slot]) else s
    case SubmitPoll(id) => if id in s.placed then SetStatus(s, id, Scheduled) else s
    case DispatchAccepted(id) => SetStatus(s, id, Dispatched)
    case DispatchImpossible(id) => SetStatus(s, id, Failed)
    case DispatchFailed(id) => RecordFailure(maxRetries, s, id)
    case Callback(id, success) => ClaimCallback(s, id, success)
    case Finish(id) => FinishCallback(s, id)
    case ClockMoves(now) => s.(currentSlot := now)
    case CloseCall(c) => if c in s.closers then s else s.(closers := s.closers[c := Checked(s.currentSlot)])
    case CloseFence(c) => Fence(s, c)
    case CloseLook(c) =>
      if c !in s.closers || !s.closers[c].Fenced? then s
      else s.(closers := s.closers[c := Looked(s.closers[c].slot, s.placed)])
    case CloseJudge(c) => Judge(s, c)
    case CloseTimeout(c) => s.(closers := s.closers - {c})
  }

  function Run(maxRetries: nat, s: State, events: seq<Event>): State
    decreases |events|
  {
    if events == [] then s else Run(maxRetries, Next(maxRetries, s, events[0]), events[1..])
  }

  // ── what an acknowledged close means, for ever ─────────────────────────

  /** Nothing that arrived by `slot` is unassigned, and everything due by it has
      its callback claimed and a terminal status. */
  ghost predicate Drained(s: State, slot: int) {
    && (forall id :: id in s.tracked && s.tracked[id].arrival <= slot ==> id in s.placed)
    && forall id :: id in s.placed && s.placed[id] <= slot ==>
         id in s.tracked && s.tracked[id].claimed && Terminal(s.tracked[id].status)
  }

  ghost predicate CloserOk(s: State, closer: Closer) {
    && (!closer.Checked? ==> closer.slot <= s.closedThrough)
    && (closer.Looked? ==> forall id :: id in closer.seen ==> id in s.placed && s.placed[id] == closer.seen[id])
  }

  ghost predicate TableOk(s: State) {
    && (forall id :: id in s.placed ==> id in s.tracked && s.tracked[id].arrival <= s.placed[id])
    && (forall id :: id in s.finishing ==> id in s.tracked && s.tracked[id].claimed)
  }

  ghost predicate ClosersOk(s: State) {
    forall c :: c in s.closers ==> CloserOk(s, s.closers[c])
  }

  ghost predicate AcknowledgedDrained(s: State) {
    forall slot :: slot in s.acknowledged ==> slot <= s.closedThrough && Drained(s, slot)
  }

  ghost predicate Inv(s: State) {
    TableOk(s) && ClosersOk(s) && AcknowledgedDrained(s)
  }

  /** What every step keeps of the tracked table and the assignments: entries
      stay, new ones are beyond the fence, claims and claimed terminal statuses
      are never lost, and a placement never precedes its request's arrival. */
  ghost predicate Evolves(s: State, t: State) {
    s.closedThrough <= t.closedThrough && TrackedEvolves(s, t) && PlacedEvolves(s, t)
  }

  ghost predicate TrackedEvolves(s: State, t: State) {
    && (forall id :: id in s.tracked ==>
          && id in t.tracked && t.tracked[id].arrival == s.tracked[id].arrival
          && (s.tracked[id].claimed ==> t.tracked[id].claimed)
          && (s.tracked[id].claimed && Terminal(s.tracked[id].status) ==> Terminal(t.tracked[id].status)))
    && (forall id :: id in t.tracked && id !in s.tracked ==> t.tracked[id].arrival > s.closedThrough)
  }

  ghost predicate PlacedEvolves(s: State, t: State) {
    && (forall id :: id in s.placed ==> id in t.placed && t.placed[id] == s.placed[id])
    && (forall id :: id in t.placed && id !in s.placed ==> id in s.tracked && s.tracked[id].arrival <= t.placed[id])
  }

  lemma StepEvolves(maxRetries: nat, s: State, e: Event)
    ensures TrackedEvolves(s, Next(maxRetries, s, e))
    ensures s.closedThrough <= Next(maxRetries, s, e).closedThrough
  {
    hide AllScheduled, NoneDispatching, DispatchGaveUp, CallbacksIn, CloserOk;
  }

  lemma StepPlaces(maxRetries: nat, s: State, e: Event)
    ensures PlacedEvolves(s, Next(maxRetries, s, e))
  {
    hide AllScheduled, NoneDispatching, DispatchGaveUp, CallbacksIn, CloserOk;
  }

  lemma StepFinishes(maxRetries: nat, s: State, e: Event)
    ensures forall id :: id in Next(maxRetries, s, e).finishing && id !in s.finishing ==>
      id in Next(maxRetries, s, e).tracked && Next(maxRetries, s, e).tracked[id].claimed
  {
    hide AllScheduled, NoneDispatching, DispatchGaveUp, CallbacksIn, CloserOk;
  }

  lemma StepKeepsTable(maxRetries: nat, s: State, e: Event)
    requires TableOk(s)
    ensures Evolves(s, Next(maxRetries, s, e)) && TableOk(Next(maxRetries, s, e))
  {
    hide Next;
    StepEvolves(maxRetries, s, e);
    StepPlaces(maxRetries, s, e);
    StepFinishes(maxRetries, s, e);
  }

  /** A drained slot behind the fence stays drained: a later assignment due by
      it would belong to a request that had already arrived unassigned. */
  lemma DrainedStays(s: State, t: State, slot: int)
    requires TableOk(s) && Evolves(s, t) && Drained(s, slot) && slot <= s.closedThrough
    ensures Drained(t, slot) && slot <= t.closedThrough
  {
  }

  /** The two snapshots need not be simultaneous: an assignment committed
      between them and due by the slot would belong to an arrival the first
      snapshot already had to contain. */
  lemma JudgeIsSound(s: State, slot: nat, seen: map<Id, int>)
    requires TableOk(s) && CloserOk(s, Looked(slot, seen))
    requires AllScheduled(seen, s.tracked, slot) && CallbacksIn(seen, s.tracked, slot)
    ensures Drained(s, slot)
  {
    forall id | id in s.placed && s.placed[id] <= slot
      ensures id in s.tracked && s.tracked[id].claimed && Terminal(s.tracked[id].status)
    {
      assert s.tracked[id].arrival <= slot;
      assert id in seen;
    }
  }

  lemma CloserStays(s: State, t: State, closer: Closer)
    requires Evolves(s, t) && CloserOk(s, closer)
    ensures CloserOk(t, closer)
  {
  }

  /** Where a call in progress in the new state comes from. */
  lemma CloserComesFrom(maxRetries: nat, s: State, e: Event, c: nat)
    requires c in Next(maxRetries, s, e).closers
    ensures var t := Next(maxRetries, s, e); var closer := t.closers[c];
            || (c in s.closers && s.closers[c] == closer)
            || closer.Checked?
            || (closer.Fenced? && closer.slot == t.closedThrough)
            || (c in s.closers && s.closers[c].slot == closer.slot && !s.closers[c].Checked?
                && (closer.Looked? ==> closer.seen == s.placed && t.placed == s.placed))
  {
    hide AllScheduled, NoneDispatching, DispatchGaveUp, CallbacksIn;
  }

  lemma StepKeepsClosers(maxRetries: nat, s: State, e: Event)
    requires TableOk(s) && ClosersOk(s)
    ensures ClosersOk(Next(maxRetries, s, e))
  {
    hide Next, TableOk, Evolves, AllScheduled, NoneDispatching, DispatchGaveUp, CallbacksIn;
    var t := Next(maxRetries, s, e);
    StepKeepsTable(maxRetries, s, e);
    EvolvesFence(s, t);
    forall c | c in t.closers ensures CloserOk(t, t.closers[c]) {
      CloserComesFrom(maxRetries, s, e, c);
      if c in s.closers {
        CloserStays(s, t, s.closers[c]);
      }
    }
  }

  lemma EvolvesFence(s: State, t: State)
    requires Evolves(s, t)
    ensures s.closedThrough <= t.closedThrough
  {
  }

  /** A slot becomes acknowledged only by a judgement that found it drained. */
  lemma AcknowledgedBy(maxRetries: nat, s: State, e: Event, slot: nat)
    requires slot in Next(maxRetries, s, e).acknowledged && slot !in s.acknowledged
    ensures e.CloseJudge? && e.c in s.closers && s.closers[e.c].Looked? && s.closers[e.c].slot == slot
    ensures AllScheduled(s.closers[e.c].seen, s.tracked, slot) && CallbacksIn(s.closers[e.c].seen, s.tracked, slot)
  {
    hide AllScheduled, NoneDispatching, DispatchGaveUp, CallbacksIn;
  }

  lemma StepKeeps(maxRetries: nat, s: State, e: Event)
    requires Inv(s)
    ensures Inv(Next(maxRetries, s, e))
  {
    hide Next, TableOk, Evolves, Drained, AllScheduled, CallbacksIn;
    var t := Next(maxRetries, s, e);
    StepKeepsTable(maxRetries, s, e);
    StepKeepsClosers(maxRetries, s, e);
    forall slot | slot in t.acknowledged
      ensures slot <= t.closedThrough && Drained(t, slot)
    {
      if slot !in s.acknowledged {
        AcknowledgedBy(maxRetries, s, e, slot);
        assert CloserOk(s, s.closers[e.c]);
        JudgeIsSound(s, slot, s.closers[e.c].seen);
      }
      DrainedStays(s, t, slot);
    }
  }

  lemma AcknowledgedGrows(maxRetries: nat, s: State, e: Event)
    ensures s.acknowledged <= Next(maxRetries, s, e).acknowledged
  {
    hide AllScheduled, NoneDispatching, DispatchGaveUp, CallbacksIn;
  }

  lemma {:induction false} RunKeeps(maxRetries: nat, s: State, events: seq<Event>)
    requires Inv(s)
    ensures Inv(Run(maxRetries, s, events)) && s.acknowledged <= Run(maxRetries, s, events).acknowledged
    decreases |events|
  {
    hide Next, Inv;
    if events != [] {
      StepKeeps(maxRetries, s, events[0]);
      AcknowledgedGrows(maxRetries, s, events[0]);
      RunKeeps(maxRetries, Next(maxRetries, s, events[0]), events[1..]);
    }
  }

  /** Once a close of `slot` has been acknowledged, in that and every later
      state every request that arrived by it is assigned, and every assignment
      due by it has a claimed callback and a terminal status. */
  lemma AcknowledgedSlotStaysDrained(maxRetries: nat, before: seq<Event>, after: seq<Event>, slot: nat)
    requires slot in Run(maxRetries, START, before).acknowledged
    ensures Drained(Run(maxRetries, Run(maxRetries, START, before), after), slot)
  {
    hide Next, Run, Drained;
    RunKeeps(maxRetries, START, before);
    RunKeeps(maxRetries, Run(maxRetries, START, before), after);
  }

  // ── what may still change ──────────────────────────────────────────────

  /** No dispatcher, retry, submit-poll, duplicate-callback, admission or close
      step touches a claimed request; only the claim's own completion does. */
  lemma ClaimedIsFrozen(maxRetries: nat, s: State, e: Event, id: Id)
    requires id in s.tracked && s.tracked[id].claimed
    ensures var t := Next(maxRetries, s, e);
            && id in t.tracked && t.tracked[id].claimed
            && (e != Finish(id) || id !in s.finishing ==> t.tracked[id] == s.tracked[id])
            && (t.tracked[id].status == s.tracked[id].status || t.tracked[id].status == Settled(s, id))
            && Settled(t, id) == Settled(s, id)
            && (id !in s.finishing ==> id !in t.finishing)
  {
    hide AllScheduled, NoneDispatching, DispatchGaveUp, CallbacksIn;
  }

  /** The status a claimed request ends with. */
  ghost function Settled(s: State, id: Id): Status
    requires id in s.tracked
  {
    if id in s.finishing then Outcome(s.finishing[id]) else s.tracked[id].status
  }

  lemma {:induction false} ClaimedHasTwoValues(maxRetries: nat, s: State, events: seq<Event>, id: Id)
    requires id in s.tracked && s.tracked[id].claimed
    ensures var t := Run(maxRetries, s, events);
            && id in t.tracked && t.tracked[id].claimed
            && (t.tracked[id].status == s.tracked[id].status || t.tracked[id].status == Settled(s, id))
            && Settled(t, id) == Settled(s, id)
    decreases |events|
  {
    hide Next, Settled;
    if events != [] {
      ClaimedIsFrozen(maxRetries, s, events[0], id);
      ClaimedHasTwoValues(maxRetries, Next(maxRetries, s, events[0]), events[1..], id);
    }
  }

  ghost predicate KeepsStatus(maxRetries: nat, s: State, events: seq<Event>, id: Id)
    requires id in s.tracked
  {
    var t := Run(maxRetries, s, events);
    id in t.tracked && t.tracked[id].status == s.tracked[id].status
  }

  lemma RunOne(maxRetries: nat, s: State, e: Event)
    ensures Run(maxRetries, s, [e]) == Next(maxRetries, s, e)
  {
    hide Next;
    assert [e][1..] == [];
  }

  /** The exact condition for a due request's status to be final once its slot
      is acknowledged: its claimed callback is finished, or will write the
      status it already shows. */
  lemma StatusIsFinalIff(maxRetries: nat, s: State, slot: nat, id: Id)
    requires Inv(s) && slot in s.acknowledged && id in s.placed && s.placed[id] <= slot
    ensures id in s.tracked
    ensures (forall events :: KeepsStatus(maxRetries, s, events, id))
       <==> (id !in s.finishing || Outcome(s.finishing[id]) == s.tracked[id].status)
  {
    assert Drained(s, slot);
    if id !in s.finishing || Outcome(s.finishing[id]) == s.tracked[id].status {
      forall events ensures KeepsStatus(maxRetries, s, events, id) {
        ClaimedHasTwoValues(maxRetries, s, events, id);
      }
    } else {
      RunOne(maxRetries, s, Finish(id));
      assert !KeepsStatus(maxRetries, s, [Finish(id)], id);
    }
  }

  // ── a status an acknowledged slot does not fix ─────────────────────────

  lemma {:induction false} RunConcat(maxRetries: nat, s: State, a: seq<Event>, b: seq<Event>)
    ensures Run(maxRetries, s, a + b) == Run(maxRetries, Run(maxRetries, s, a), b)
    decreases |a|
  {
    hide Next;
    if a == [] {
      assert a + b == b;
    } else {
      assert (a + b)[0] == a[0] && (a + b)[1..] == a[1..] + b;
      RunConcat(maxRetries, Next(maxRetries, s, a[0]), a[1..], b);
    }
  }

  lemma RunTwo(maxRetries: nat, s: State, d: Event, e: Event)
    ensures Run(maxRetries, s, [d, e]) == Next(maxRetries, Next(maxRetries, s, d), e)
  {
    hide Next;
    assert [d, e][1..] == [e];
    RunOne(maxRetries, Next(maxRetries, s, d), e);
  }

  /** The dispatcher gives up on a job the executor had in fact accepted, and
      the job's callback is claimed but not finished. */
  const LATE_CALLBACK := [Arrive(1, 0), Assign(1, 0)] + [DispatchFailed(1), Callback(1, true)]

  /** The close call then sees "claimed and failed". */
  const LATE_CLOSE := [CloseCall(7), CloseFence(7)] + [CloseLook(7), CloseJudge(7)]

  const LATE_STATE := State(map[1 := Tracked(0, Failed, true, 1)], map[1 := 0], 0, -1, map[1 := true], map[], {})

  lemma LateCallbackRuns()
    ensures Run(1, START, LATE_CALLBACK) == LATE_STATE
  {
    RunConcat(1, START, [Arrive(1, 0), Assign(1, 0)], [DispatchFailed(1), Callback(1, true)]);
    RunTwo(1, START, Arrive(1, 0), Assign(1, 0));
    var s := Run(1, START, [Arrive(1, 0), Assign(1, 0)]);
    RunTwo(1, s, DispatchFailed(1), Callback(1, true));
  }

  const LATE_FENCED := LATE_STATE.(closedThrough := 0, closers := map[7 := Fenced(0)])

  const LATE_LOOKED := LATE_FENCED.(closers := map[7 := Looked(0, LATE_STATE.placed)])

  const LATE_DONE := LATE_STATE.(closedThrough := 0, acknowledged := {0})

  lemma LateFenceRuns()
    ensures Next(1, Next(1, LATE_STATE, CloseCall(7)), CloseFence(7)) == LATE_FENCED
  {
    hide AllScheduled, NoneDispatching, DispatchGaveUp, CallbacksIn;
    var s := Next(1, LATE_STATE, CloseCall(7));
    assert s == LATE_STATE.(closers := map[7 := Checked(0)]);
    assert Fence(s, 7).closers == map[7 := Fenced(0)];
  }

  lemma LateJudgeRuns()
    ensures Next(1, LATE_LOOKED, CloseJudge(7)) == LATE_DONE
  {
    hide AllScheduled, NoneDispatching, DispatchGaveUp, CallbacksIn;
    LateJudgement();
    assert LATE_LOOKED.closers - {7} == map[];
    assert {} + {0} == {0};
  }

  lemma LateCloseRuns()
    ensures Run(1, LATE_STATE, LATE_CLOSE) == LATE_DONE
  {
    hide Run, AllScheduled, NoneDispatching, DispatchGaveUp, CallbacksIn, Judge, Fence;
    RunConcat(1, LATE_STATE, [CloseCall(7), CloseFence(7)], [CloseLook(7), CloseJudge(7)]);
    RunTwo(1, LATE_STATE, CloseCall(7), CloseFence(7));
    LateFenceRuns();
    RunTwo(1, LATE_FENCED, CloseLook(7), CloseJudge(7));
    assert Next(1, LATE_FENCED, CloseLook(7)) == LATE_LOOKED;
    LateJudgeRuns();
  }

  lemma LateJudgement()
    ensures !DispatchGaveUp(LATE_STATE.placed, LATE_STATE.tracked, 0)
    ensures AllScheduled(LATE_STATE.placed, LATE_STATE.tracked, 0)
    ensures NoneDispatching(LATE_STATE.placed, LATE_STATE.tracked, 0)
    ensures CallbacksIn(LATE_STATE.placed, LATE_STATE.tracked, 0)
  {
  }

  /** So an acknowledged slot can still hold a status that changes: here from
      failed to completed, when the claimed callback finishes. */
  lemma AcknowledgedStatusCanChange()
    ensures var s := Run(1, START, LATE_CALLBACK + LATE_CLOSE);
            && 0 in s.acknowledged && 1 in s.placed && s.placed[1] == 0
            && 1 in s.tracked && s.tracked[1].status == Failed
            && var t := Run(1, s, [Finish(1)]); 1 in t.tracked && t.tracked[1].status == Completed
  {
    hide Run;
    LateCallbackRuns();
    LateCloseRuns();
    RunConcat(1, START, LATE_CALLBACK, LATE_CLOSE);
    RunOne(1, Run(1, START, LATE_CALLBACK + LATE_CLOSE), Finish(1));
  }
}
