/** The service behind the barrier as one mutable object: the critical sections
    of admission, dispatch, callback and close, and the close handler's poll
    loop with anything happening between its steps. */
module CloseService {
  import opened Options
  import opened CloseBarrier

  // ── the figures of one poll ────────────────────────────────────────────

  datatype Figures = Figures(unscheduled: nat, due: nat, dispatching: nat, dispatchFailed: bool,
                             callbacksPending: nat, callbacks: nat)

  function Due(seen: map<Id, int>, slot: int): set<Id> { set id | id in seen && seen[id] <= slot }

  predicate StillDispatching(tracked: map<Id, Tracked>, id: Id) {
    id !in tracked || tracked[id].status.Pending? || tracked[id].status.Scheduled?
  }

  predicate CallbackIn(tracked: map<Id, Tracked>, id: Id) {
    id in tracked && tracked[id].claimed && Terminal(tracked[id].status)
  }

  function Late(seen: map<Id, int>, tracked: map<Id, Tracked>, slot: int): set<Id> {
    set id | id in tracked && tracked[id].arrival <= slot && id !in seen
  }

  function Dispatching(seen: map<Id, int>, tracked: map<Id, Tracked>, slot: int): set<Id> {
    set id | id in Due(seen, slot) && StillDispatching(tracked, id)
  }

  function Received(seen: map<Id, int>, tracked: map<Id, Tracked>, slot: int): set<Id> {
    set id | id in Due(seen, slot) && CallbackIn(tracked, id)
  }

  function Awaited(seen: map<Id, int>, tracked: map<Id, Tracked>, slot: int): set<Id> {
    set id | id in Due(seen, slot) && !CallbackIn(tracked, id)
  }

  predicate GaveUp(seen: map<Id, int>, tracked: map<Id, Tracked>, slot: int) {
    exists id :: id in Due(seen, slot) && id in tracked && tracked[id].status.Failed? && !tracked[id].claimed
  }

  function PollFigures(seen: map<Id, int>, tracked: map<Id, Tracked>, slot: int): Figures {
    Figures(|Late(seen, tracked, slot)|, |Due(seen, slot)|, |Dispatching(seen, tracked, slot)|,
            GaveUp(seen, tracked, slot), |Awaited(seen, tracked, slot)|, |Received(seen, tracked, slot)|)
  }

  predicate Drains(f: Figures) { f.unscheduled == 0 && f.dispatching == 0 && f.callbacksPending == 0 }

  lemma EmptyIff(s: set<Id>)
    ensures |s| == 0 <==> s == {}
  {
  }

  lemma LateMeans(seen: map<Id, int>, tracked: map<Id, Tracked>, slot: int)
    ensures Late(seen, tracked, slot) == {} <==> AllScheduled(seen, tracked, slot)
  {
    if Late(seen, tracked, slot) == {} {
      forall id | id in tracked && tracked[id].arrival <= slot ensures id in seen {
        assert id !in Late(seen, tracked, slot);
      }
    }
  }

  lemma DispatchingMeans(seen: map<Id, int>, tracked: map<Id, Tracked>, slot: int)
    ensures Dispatching(seen, tracked, slot) == {} <==> NoneDispatching(seen, tracked, slot)
  {
    if Dispatching(seen, tracked, slot) == {} {
      forall id | id in seen && seen[id] <= slot ensures !StillDispatching(tracked, id) {
        assert id !in Dispatching(seen, tracked, slot);
      }
    }
  }

  lemma AwaitedMeans(seen: map<Id, int>, tracked: map<Id, Tracked>, slot: int)
    ensures Awaited(seen, tracked, slot) == {} <==> CallbacksIn(seen, tracked, slot)
  {
    if Awaited(seen, tracked, slot) == {} {
      forall id | id in seen && seen[id] <= slot ensures CallbackIn(tracked, id) {
        assert id !in Awaited(seen, tracked, slot);
      }
    }
  }

  lemma DuePartition(seen: map<Id, int>, tracked: map<Id, Tracked>, slot: int)
    ensures |Received(seen, tracked, slot)| + |Awaited(seen, tracked, slot)| == |Due(seen, slot)|
  {
    hide CallbackIn;
    var received, awaited := Received(seen, tracked, slot), Awaited(seen, tracked, slot);
    assert Due(seen, slot) == received + awaited && received * awaited == {};
  }

  /** The counts are zero exactly when the drain conditions hold, and callbacks
      received and awaited make up the assignments due. */
  lemma FiguresMean(seen: map<Id, int>, tracked: map<Id, Tracked>, slot: int)
    ensures var f := PollFigures(seen, tracked, slot);
            && (Drains(f) <==> AllScheduled(seen, tracked, slot) && NoneDispatching(seen, tracked, slot)
                               && CallbacksIn(seen, tracked, slot))
            && (f.dispatchFailed <==> DispatchGaveUp(seen, tracked, slot))
            && f.callbacks + f.callbacksPending == f.due
  {
    hide Late, Dispatching, Awaited, Received, AllScheduled, NoneDispatching, CallbacksIn;
    LateMeans(seen, tracked, slot);
    DispatchingMeans(seen, tracked, slot);
    AwaitedMeans(seen, tracked, slot);
    DuePartition(seen, tracked, slot);
    EmptyIff(Late(seen, tracked, slot));
    EmptyIff(Dispatching(seen, tracked, slot));
    EmptyIff(Awaited(seen, tracked, slot));
  }

  // ── the object ─────────────────────────────────────────────────────────

  datatype CloseResult =
    | Closed(slot: nat, assignments: nat, callbacks: nat)
    | NotManual
    | SlotLengthDiffers
    | Untranslated(why: Translation)
    | WrongSlot
    | BehindFence
    | FailedToDispatch
    | TimedOut

  // ── the provider's slot numbers and the engine's ───────────────────────

  const TWO32: int := 0x1_0000_0000

  predicate FitsI32(x: int) { -0x8000_0000 <= x < 0x8000_0000 }

  /** A cast to 32 bits keeps the low ones. */
  function Wrap32(x: int): (r: int)
    ensures FitsI32(r) && (r - x) % TWO32 == 0
    ensures r == x <==> FitsI32(x)
  {
    var low := x % TWO32;
    if low < 0x8000_0000 then low else low - TWO32
  }

  datatype Translation = Translated(slot: nat) | NoOffset | OutOfRange | OutsideHorizon

  function Translate(offset: Option<int>, totalSlots: int, providerSlot: int): Translation {
    if offset.None? then NoOffset
    else
      var slot := providerSlot - offset.value;
      if !FitsI32(slot) then OutOfRange
      else if slot < 0 || slot >= totalSlots then OutsideHorizon
      else Translated(slot)
  }

  /** If the provider's first message named `first` while the engine stood at
      `engine`, its later number `g` means the engine slot as far from `engine` as
      `g` is from `first`. It is translated to that slot exactly when the first
      difference fits the 32 bits it is kept in and the slot is one of the horizon,
      and refused otherwise. */
  lemma TranslatesIff(first: int, engine: nat, totalSlots: int, g: int)
    requires FitsI32(engine + (g - first))
    ensures Translate(Some(Wrap32(first - engine)), totalSlots, g)
         == if !FitsI32(first - engine) then OutOfRange
            else if 0 <= engine + (g - first) < totalSlots then Translated(engine + (g - first))
            else OutsideHorizon
  {
    var offset := Wrap32(first - engine);
    var k := (offset - (first - engine)) / TWO32;
    assert offset == first - engine + k * TWO32;
    assert g - offset == engine + (g - first) - k * TWO32;
  }

  datatype CloseBody = CloseBody(currentSlot: int, sameSlotLength: bool)

  /** Another party's event: not a step of close call `c`. */
  predicate NotOf(e: Event, c: nat) {
    (e.CloseCall? || e.CloseFence? || e.CloseLook? || e.CloseJudge? || e.CloseTimeout?) ==> e.c != c
  }

  predicate AllNotOf(events: seq<Event>, c: nat) { forall i :: 0 <= i < |events| ==> NotOf(events[i], c) }

  lemma {:induction false} CallUntouched(maxRetries: nat, s: State, events: seq<Event>, c: nat)
    requires c in s.closers && AllNotOf(events, c)
    ensures c in Run(maxRetries, s, events).closers && Run(maxRetries, s, events).closers[c] == s.closers[c]
    decreases |events|
  {
    hide Next;
    if events != [] {
      StepLeavesCall(maxRetries, s, events[0], c);
      CallUntouched(maxRetries, Next(maxRetries, s, events[0]), events[1..], c);
    }
  }

  lemma StepLeavesCall(maxRetries: nat, s: State, e: Event, c: nat)
    requires c in s.closers && NotOf(e, c)
    ensures c in Next(maxRetries, s, e).closers && Next(maxRetries, s, e).closers[c] == s.closers[c]
  {
    hide AllScheduled, NoneDispatching, CallbacksIn, DispatchGaveUp;
  }

  // ── what a close call sees, poll by poll ───────────────────────────────

  /** The state in which call `c` publishes its fence. */
  ghost function AtFence(maxRetries: nat, start: State, c: nat, meanwhile: nat -> seq<Event>): State {
    Run(maxRetries, Next(maxRetries, start, CloseCall(c)), meanwhile(0))
  }

  /** The state whose assignments poll `k` copies. */
  ghost function AtLook(maxRetries: nat, start: State, c: nat, meanwhile: nat -> seq<Event>, k: nat): State
    decreases k, 0
  {
    if k == 0 then Fence(AtFence(maxRetries, start, c, meanwhile), c)
    else Run(maxRetries, Judge(AtJudge(maxRetries, start, c, meanwhile, k - 1), c), meanwhile(2 * k))
  }

  /** The state whose tracked requests poll `k` judges against them. */
  ghost function AtJudge(maxRetries: nat, start: State, c: nat, meanwhile: nat -> seq<Event>, k: nat): State
    decreases k, 1
  {
    Run(maxRetries, Next(maxRetries, AtLook(maxRetries, start, c, meanwhile, k), CloseLook(c)), meanwhile(2 * k + 1))
  }

  /** Some assignment due failed in dispatch, no callback having come in. */
  predicate Abandoned(seen: map<Id, int>, tracked: map<Id, Tracked>, slot: int) {
    exists id :: id in seen && seen[id] <= slot && id in tracked && tracked[id].status == Failed && !tracked[id].claimed
  }

  /** Every arrival by the slot is assigned, and every assignment due has its
      callback and is completed or failed. */
  predicate AllDone(seen: map<Id, int>, tracked: map<Id, Tracked>, slot: int) {
    && (forall id :: id in tracked && tracked[id].arrival <= slot ==> id in seen)
    && forall id :: id in seen && seen[id] <= slot ==>
         id in tracked && tracked[id].claimed && (tracked[id].status == Completed || tracked[id].status == Failed)
  }

  /** Poll `k` found neither, so the call goes on. */
  ghost predicate GoesOn(maxRetries: nat, start: State, c: nat, meanwhile: nat -> seq<Event>, slot: int, k: nat) {
    var seen, tracked := AtLook(maxRetries, start, c, meanwhile, k).placed, AtJudge(maxRetries, start, c, meanwhile, k).tracked;
    !Abandoned(seen, tracked, slot) && !AllDone(seen, tracked, slot)
  }

  /** How a call for the current slot ends, `n` polls having found nothing final. */
  ghost predicate EndsAs(maxRetries: nat, start: State, c: nat, meanwhile: nat -> seq<Event>, slot: nat, patience: nat,
                         n: nat, r: CloseResult)
  {
    if slot < AtFence(maxRetries, start, c, meanwhile).closedThrough then r == BehindFence
    else
      && n <= patience && (forall k :: 0 <= k < n ==> GoesOn(maxRetries, start, c, meanwhile, slot, k))
      && if n == patience then r == TimedOut
         else
           var seen := AtLook(maxRetries, start, c, meanwhile, n).placed;
           var tracked := AtJudge(maxRetries, start, c, meanwhile, n).tracked;
           var due := set id | id in seen && seen[id] <= slot;
           if Abandoned(seen, tracked, slot) then r == FailedToDispatch
           else AllDone(seen, tracked, slot) && r == Closed(slot, |due|, |due|)
  }

  lemma AtFirstLook(maxRetries: nat, start: State, c: nat, meanwhile: nat -> seq<Event>)
    ensures AtLook(maxRetries, start, c, meanwhile, 0)
         == Fence(Run(maxRetries, Next(maxRetries, start, CloseCall(c)), meanwhile(0)), c)
  {
  }

  lemma AtNextLook(maxRetries: nat, start: State, c: nat, meanwhile: nat -> seq<Event>, k: nat)
    ensures AtJudge(maxRetries, start, c, meanwhile, k)
         == Run(maxRetries, Next(maxRetries, AtLook(maxRetries, start, c, meanwhile, k), CloseLook(c)), meanwhile(2 * k + 1))
    ensures AtLook(maxRetries, start, c, meanwhile, k + 1)
         == Run(maxRetries, Judge(AtJudge(maxRetries, start, c, meanwhile, k), c), meanwhile(2 * (k + 1)))
  {
  }

  /** What one poll's figures say. */
  lemma FiguresDecide(seen: map<Id, int>, tracked: map<Id, Tracked>, slot: int)
    ensures var f := PollFigures(seen, tracked, slot);
            && (f.dispatchFailed <==> Abandoned(seen, tracked, slot))
            && (Drains(f) <==> AllDone(seen, tracked, slot))
            && f.due == |set id | id in seen && seen[id] <= slot|
            && (Drains(f) ==> f.callbacks == f.due)
  {
    hide PollFigures;
    FiguresMean(seen, tracked, slot);
    DueIs(seen, tracked, slot);
  }

  lemma DueIs(seen: map<Id, int>, tracked: map<Id, Tracked>, slot: int)
    ensures PollFigures(seen, tracked, slot).due == |set id | id in seen && seen[id] <= slot|
  {
    assert Due(seen, slot) == set id | id in seen && seen[id] <= slot;
  }

  ghost predicate Undisturbed(meanwhile: nat -> seq<Event>, patience: nat) {
    patience > 0 && forall n :: meanwhile(n) == []
  }

  /** If nobody else acts, a call sees what was there when it came. */
  lemma QuietCall(maxRetries: nat, start: State, c: nat, meanwhile: nat -> seq<Event>)
    requires c !in start.closers && forall n :: meanwhile(n) == []
    ensures AtFence(maxRetries, start, c, meanwhile).closedThrough == start.closedThrough
    ensures AtLook(maxRetries, start, c, meanwhile, 0).placed == start.placed
    ensures AtJudge(maxRetries, start, c, meanwhile, 0).tracked == start.tracked
  {
    hide AllScheduled, NoneDispatching, CallbacksIn, DispatchGaveUp;
    assert meanwhile(0) == [] && meanwhile(1) == [];
    var called := Next(maxRetries, start, CloseCall(c));
    assert AtFence(maxRetries, start, c, meanwhile) == called;
    var looked := AtLook(maxRetries, start, c, meanwhile, 0);
    assert looked == Fence(called, c);
    assert AtJudge(maxRetries, start, c, meanwhile, 0) == Next(maxRetries, looked, CloseLook(c));
  }

  /** Undisturbed, a drained slot that is not behind the fence is closed at the first poll. */
  lemma QuietCallCloses(maxRetries: nat, start: State, c: nat, meanwhile: nat -> seq<Event>, slot: nat, patience: nat,
                        n: nat, r: CloseResult)
    requires c !in start.closers && Undisturbed(meanwhile, patience)
    requires Drained(start, slot) && start.closedThrough <= slot
    requires EndsAs(maxRetries, start, c, meanwhile, slot, patience, n, r)
    ensures r == Closed(slot, |set id | id in start.placed && start.placed[id] <= slot|,
                        |set id | id in start.placed && start.placed[id] <= slot|)
  {
    hide AtFence, AtLook, AtJudge;
    QuietCall(maxRetries, start, c, meanwhile);
    assert AllDone(start.placed, start.tracked, slot) && !Abandoned(start.placed, start.tracked, slot);
    assert !GoesOn(maxRetries, start, c, meanwhile, slot, 0);
  }

  class Service {
    const maxRetries: nat
    const manual: bool
    const totalSlots: int
    var slotEpochOffset: Option<int>
    var tracked: map<Id, Tracked>
    var placed: map<Id, int>
    var currentSlot: nat
    var closedThrough: int
    var finishing: map<Id, bool>
    var closers: map<nat, Closer>
    ghost var acknowledged: set<nat>

    ghost function View(): State
      reads this
    {
      State(tracked, placed, currentSlot, closedThrough, finishing, closers, acknowledged)
    }

    constructor (maxRetries: nat, manual: bool, totalSlots: int)
      ensures View() == START && this.maxRetries == maxRetries
      ensures this.manual == manual && this.totalSlots == totalSlots && slotEpochOffset == None
    {
      this.maxRetries, this.manual, this.totalSlots, slotEpochOffset := maxRetries, manual, totalSlots, None;
      tracked, placed, currentSlot, closedThrough, finishing, closers := map[], map[], 0, -1, map[], map[];
      acknowledged := {};
    }

    /** The fence is checked and the request installed in one critical section. */
    method AdmitRequest(id: Id, arrival: int) returns (ok: bool)
      requires id !in tracked
      modifies this
      ensures View() == Next(maxRetries, old(View()), Arrive(id, arrival))
      ensures ok <==> arrival > old(closedThrough)
      ensures tracked == if ok then old(tracked)[id := Tracked(arrival, Pending, false, 0)] else old(tracked)
    {
      if arrival <= closedThrough {
        return false;
      }
      tracked := tracked[id := Tracked(arrival, Pending, false, 0)];
      ok := true;
    }

    method SetStatus(id: Id, status: Status)
      modifies this
      ensures View() == CloseBarrier.SetStatus(old(View()), id, status)
      ensures tracked == if id in old(tracked) && !old(tracked)[id].claimed
                         then old(tracked)[id := old(tracked)[id].(status := status)] else old(tracked)
    {
      if id in tracked && !tracked[id].claimed {
        tracked := tracked[id := tracked[id].(status := status)];
      }
    }

    method RecordFailure(id: Id)
      modifies this
      ensures View() == CloseBarrier.RecordFailure(maxRetries, old(View()), id)
      ensures id in old(tracked) && !old(tracked)[id].claimed ==>
                var t := old(tracked)[id];
                tracked == old(tracked)[id := Tracked(t.arrival, if t.attempts + 1 >= maxRetries then Failed else t.status,
                                                      false, t.attempts + 1)]
      ensures id !in old(tracked) || old(tracked)[id].claimed ==> tracked == old(tracked)
    {
      if id !in tracked || tracked[id].claimed {
        return;
      }
      var t := tracked[id];
      t := t.(attempts := t.attempts + 1);
      if t.attempts >= maxRetries {
        t := t.(status := Failed);
      }
      tracked := tracked[id := t];
    }

    /** Only the first callback of a known request gets through. */
    method ClaimCallback(id: Id, success: bool) returns (first: bool)
      modifies this
      ensures View() == CloseBarrier.ClaimCallback(old(View()), id, success)
      ensures first <==> id in old(tracked) && !old(tracked)[id].claimed
      ensures tracked == if first then old(tracked)[id := old(tracked)[id].(claimed := true)] else old(tracked)
      ensures finishing == if first then old(finishing)[id := success] else old(finishing)
    {
      if id !in tracked || tracked[id].claimed {
        return false;
      }
      tracked := tracked[id := tracked[id].(claimed := true)];
      finishing := finishing[id := success];
      first := true;
    }

    method FinishCallback(id: Id)
      modifies this
      ensures View() == CloseBarrier.FinishCallback(old(View()), id)
      ensures id in old(finishing) && id in old(tracked) ==>
                tracked == old(tracked)[id := old(tracked)[id].(status := if old(finishing)[id] then Completed else Failed)]
                && finishing == old(finishing) - {id}
      ensures !(id in old(finishing) && id in old(tracked)) ==> tracked == old(tracked) && finishing == old(finishing)
    {
      if id in finishing && id in tracked {
        tracked := tracked[id := tracked[id].(status := Outcome(finishing[id]))];
        finishing := finishing - {id};
      }
    }

    /** Raises the fence to the call's slot, unless it is already past it. */
    method PublishFence(c: nat) returns (ok: bool)
      requires c in closers && closers[c].Checked?
      modifies this
      ensures View() == Fence(old(View()), c)
      ensures ok <==> old(closers)[c].slot >= old(closedThrough)
      ensures ok ==> closers == old(closers)[c := Fenced(old(closers)[c].slot)]
      ensures closedThrough == if ok then old(closers)[c].slot else old(closedThrough)
    {
      var slot := closers[c].slot;
      if slot < closedThrough {
        closers := closers - {c};
        return false;
      }
      closedThrough := slot;
      closers := closers[c := Fenced(slot)];
      ok := true;
    }

    /** The second half of a poll: judges the live table against the copied assignments. */
    method JudgePoll(c: nat) returns (figures: Figures)
      requires c in closers && closers[c].Looked?
      modifies this
      ensures View() == Judge(old(View()), c)
      ensures figures == PollFigures(old(closers)[c].seen, old(tracked), old(closers)[c].slot)
      ensures !figures.dispatchFailed && Drains(figures) ==>
                acknowledged == old(acknowledged) + {old(closers)[c].slot} && figures.callbacks == figures.due
      ensures !figures.dispatchFailed && !Drains(figures) ==>
                closers == old(closers)[c := Fenced(old(closers)[c].slot)]
    {
      hide AllScheduled, NoneDispatching, CallbacksIn, DispatchGaveUp, PollFigures;
      var slot, seen := closers[c].slot, closers[c].seen;
      figures := PollFigures(seen, tracked, slot);
      FiguresMean(seen, tracked, slot);
      if figures.dispatchFailed {
        closers := closers - {c};
      } else if Drains(figures) {
        closers := closers - {c};
        acknowledged := acknowledged + {slot};
      } else {
        closers := closers[c := Fenced(slot)];
      }
    }

    /** Any one event. */
    method Perform(e: Event)
      modifies this
      ensures View() == Next(maxRetries, old(View()), e)
    {
      hide AllScheduled, NoneDispatching, CallbacksIn, DispatchGaveUp;
      match e {
        case Arrive(id, arrival) =>
          if id !in tracked {
            var ok := AdmitRequest(id, arrival);
          }
        case Assign(id, slot) =>
          if id in tracked && id !in placed && slot >= tracked[id].arrival {
            placed := placed[id := slot];
          }
        case SubmitPoll(id) =>
          if id in placed {
            SetStatus(id, Scheduled);
          }
        case DispatchAccepted(id) => SetStatus(id, Dispatched);
        case DispatchImpossible(id) => SetStatus(id, Failed);
        case DispatchFailed(id) => RecordFailure(id);
        case Callback(id, success) => var first := ClaimCallback(id, success);
        case Finish(id) => FinishCallback(id);
        case ClockMoves(now) => currentSlot := now;
        case CloseCall(c) =>
          if c !in closers {
            closers := closers[c := Checked(currentSlot)];
          }
        case CloseFence(c) =>
          if c in closers && closers[c].Checked? {
            var ok := PublishFence(c);
          }
        case CloseLook(c) =>
          if c in closers && closers[c].Fenced? {
            closers := closers[c := Looked(closers[c].slot, placed)];
          }
        case CloseJudge(c) =>
          if c in closers && closers[c].Looked? {
            var figures := JudgePoll(c);
          }
        case CloseTimeout(c) => closers := closers - {c};
      }
    }

    method PerformAll(events: seq<Event>)
      modifies this
      ensures View() == Run(maxRetries, old(View()), events)
    {
      hide Next;
      for i := 0 to |events|
        invariant Run(maxRetries, View(), events[i..]) == Run(maxRetries, old(View()), events)
      {
        assert events[i..][0] == events[i] && events[i..][1..] == events[i + 1..];
        Perform(events[i]);
      }
    }

    /** One close call for the slot the caller names. `meanwhile(n)` is everything other parties do in its
        n-th pause: between its steps, and inside every poll between copying the
        assignments and locking the table. It gives up after `patience` polls, and
        ends as soon as a poll finds a job given up or the slot drained. A
        successful answer means the slot is drained now, and reports as many
        callbacks as assignments due. */
    method CloseSlot(c: nat, requested: int, meanwhile: nat -> seq<Event>, patience: nat)
        returns (r: CloseResult, ghost n: nat)
      requires Inv(View()) && c !in closers && forall n :: AllNotOf(meanwhile(n), c)
      modifies this
      ensures Inv(View()) && old(acknowledged) <= acknowledged
      ensures if requested != old(currentSlot) then r == WrongSlot
              else EndsAs(maxRetries, old(View()), c, meanwhile, old(currentSlot), patience, n, r)
      ensures r.Closed? ==> r.slot in acknowledged && Drained(View(), r.slot)
    {
      hide Inv, Next, Drained, AllNotOf, Run, Abandoned, AllDone, Judge, AtLook, AtJudge, Fence, Drains;
      n := 0;
      if requested != currentSlot {
        return WrongSlot, n;
      }
      ghost var start := View();
      var slot := currentSlot;
      var ok := Open(c, meanwhile(0));
      AtFirstLook(maxRetries, start, c, meanwhile);
      if !ok {
        return BehindFence, n;
      }
      var polls := 0;
      while polls < patience
        invariant polls <= patience && Inv(View()) && old(acknowledged) <= acknowledged
        invariant c in closers && closers[c] == Fenced(slot)
        invariant View() == AtLook(maxRetries, start, c, meanwhile, polls)
        invariant forall k :: 0 <= k < polls ==> GoesOn(maxRetries, start, c, meanwhile, slot, k)
      {
        n := polls;
        AtNextLook(maxRetries, start, c, meanwhile, polls);
        var figures := Poll(c, meanwhile(2 * polls + 1));
        if figures.dispatchFailed {
          return FailedToDispatch, n;
        }
        if Drains(figures) {
          return Closed(slot, figures.due, figures.callbacks), n;
        }
        Pause(meanwhile(2 * (polls + 1)), c);
        polls := polls + 1;
      }
      n := polls;
      Act(CloseTimeout(c));
      r := TimedOut;
    }

    /** The call is registered and, others having acted, its fence published. */
    method Open(c: nat, events: seq<Event>) returns (ok: bool)
      requires Inv(View()) && c !in closers && AllNotOf(events, c)
      modifies this
      ensures Inv(View()) && old(acknowledged) <= acknowledged
      ensures var before := Run(maxRetries, Next(maxRetries, old(View()), CloseCall(c)), events);
              && View() == Fence(before, c)
              && (ok <==> before.closedThrough <= old(currentSlot))
      ensures ok ==> c in closers && closers[c] == Fenced(old(currentSlot))
    {
      hide Inv, Next, AllNotOf, Run, Fence;
      CallIs(maxRetries, View(), c);
      Act(CloseCall(c));
      Pause(events, c);
      ghost var before := View();
      StepKeeps(maxRetries, before, CloseFence(c));
      AcknowledgedGrows(maxRetries, before, CloseFence(c));
      ok := PublishFence(c);
      FenceIs(maxRetries, before, c);
    }

    /** One poll: copies the assignments and, others having acted, judges them. */
    method Poll(c: nat, events: seq<Event>) returns (figures: Figures)
      requires Inv(View()) && c in closers && closers[c].Fenced? && AllNotOf(events, c)
      modifies this
      ensures Inv(View()) && old(acknowledged) <= acknowledged
      ensures var slot, seen := old(closers)[c].slot, old(placed);
              var judged := Run(maxRetries, Next(maxRetries, old(View()), CloseLook(c)), events);
              && View() == Judge(judged, c)
              && (figures.dispatchFailed <==> Abandoned(seen, judged.tracked, slot))
              && (Drains(figures) <==> AllDone(seen, judged.tracked, slot))
              && figures.due == |set id | id in seen && seen[id] <= slot|
              && (Drains(figures) ==> figures.callbacks == figures.due)
              && (!figures.dispatchFailed && Drains(figures) ==> slot in acknowledged && Drained(View(), slot))
              && (!figures.dispatchFailed && !Drains(figures) ==> c in closers && closers[c] == Fenced(slot))
    {
      hide Inv, Next, Drained, PollFigures, AllNotOf, Run, Abandoned, AllDone, Judge, Drains;
      var slot := closers[c].slot;
      Look(c);
      Pause(events, c);
      ghost var before := View();
      FiguresDecide(closers[c].seen, tracked, slot);
      StepKeeps(maxRetries, before, CloseJudge(c));
      AcknowledgedGrows(maxRetries, before, CloseJudge(c));
      figures := JudgePoll(c);
      JudgeIs(maxRetries, before, c);
      if !figures.dispatchFailed && Drains(figures) {
        InvDrains(View(), slot);
      }
    }

    /** The provider's first message fixes how its slot numbers translate. */
    method UpdateSlotEpochOffset(first: int) returns (offset: int)
      modifies this`slotEpochOffset
      ensures slotEpochOffset == Some(offset)
      ensures offset == if old(slotEpochOffset).Some? then old(slotEpochOffset).value else Wrap32(first - currentSlot)
    {
      if slotEpochOffset.None? {
        slotEpochOffset := Some(Wrap32(first - currentSlot));
      }
      offset := slotEpochOffset.value;
    }

    /** The whole handler: the checks in front, the provider's slot number turned
        into the engine's, and the close itself. A refusal in front changes
        nothing; a successful answer is about the slot the provider's number
        translates to, and this is then drained. Undisturbed, a drained slot is
        closed at once. */
    method HandleCloseSlot(c: nat, body: CloseBody, meanwhile: nat -> seq<Event>, patience: nat)
        returns (r: CloseResult, ghost n: nat)
      requires Inv(View()) && c !in closers && forall n :: AllNotOf(meanwhile(n), c)
      modifies this
      ensures Inv(View()) && old(acknowledged) <= acknowledged
      ensures var t := Translate(old(slotEpochOffset), totalSlots, body.currentSlot);
              if !manual then r == NotManual
              else if !body.sameSlotLength then r == SlotLengthDiffers
              else if !t.Translated? then r == Untranslated(t)
              else if t.slot != old(currentSlot) then r == WrongSlot
              else
                && EndsAs(maxRetries, old(View()), c, meanwhile, t.slot, patience, n, r)
                && (r.Closed? ==> r.slot == t.slot && t.slot in acknowledged && Drained(View(), t.slot))
                && (Undisturbed(meanwhile, patience) && Drained(old(View()), t.slot) && old(closedThrough) <= t.slot ==>
                      r.Closed?)
      ensures r.NotManual? || r.SlotLengthDiffers? || r.Untranslated? ==> unchanged(this)
    {
      hide Inv, Drained, AllNotOf, AtFence, AtLook, AtJudge, Abandoned, AllDone, GoesOn;
      n := 0;
      if !manual {
        return NotManual, n;
      }
      if !body.sameSlotLength {
        return SlotLengthDiffers, n;
      }
      var t := Translate(slotEpochOffset, totalSlots, body.currentSlot);
      if !t.Translated? {
        return Untranslated(t), n;
      }
      ghost var start := View();
      r, n := CloseSlot(c, t.slot, meanwhile, patience);
      if Undisturbed(meanwhile, patience) && t.slot == start.currentSlot
         && Drained(start, t.slot) && start.closedThrough <= t.slot {
        QuietCallCloses(maxRetries, start, c, meanwhile, t.slot, patience, n, r);
      }
    }

    method Act(e: Event)
      requires Inv(View())
      modifies this
      ensures View() == Next(maxRetries, old(View()), e)
      ensures Inv(View()) && old(acknowledged) <= acknowledged
    {
      hide Inv, Next;
      StepKeeps(maxRetries, View(), e);
      AcknowledgedGrows(maxRetries, View(), e);
      Perform(e);
    }

    /** Other parties act; call `c` stays where it was. */
    method Pause(events: seq<Event>, c: nat)
      requires Inv(View()) && c in closers && AllNotOf(events, c)
      modifies this
      ensures Inv(View()) && old(acknowledged) <= acknowledged
      ensures c in closers && closers[c] == old(closers)[c]
      ensures View() == Run(maxRetries, old(View()), events)
    {
      hide Inv, Run, AllNotOf;
      RunKeeps(maxRetries, View(), events);
      CallUntouched(maxRetries, View(), events, c);
      PerformAll(events);
    }

    /** The first half of a poll: copies the committed assignments. */
    method Look(c: nat)
      requires Inv(View()) && c in closers && closers[c].Fenced?
      modifies this
      ensures Inv(View()) && acknowledged == old(acknowledged)
      ensures c in closers && closers[c] == Looked(old(closers)[c].slot, old(placed))
      ensures View() == Next(maxRetries, old(View()), CloseLook(c))
    {
      hide Inv, Drained;
      ghost var before := View();
      StepKeeps(maxRetries, View(), CloseLook(c));
      closers := closers[c := Looked(closers[c].slot, placed)];
      LookIs(maxRetries, before, c);
    }
  }

  lemma LookIs(maxRetries: nat, s: State, c: nat)
    requires c in s.closers && s.closers[c].Fenced?
    ensures Next(maxRetries, s, CloseLook(c)) == s.(closers := s.closers[c := Looked(s.closers[c].slot, s.placed)])
  {
  }

  lemma CallIs(maxRetries: nat, s: State, c: nat)
    requires c !in s.closers
    ensures Next(maxRetries, s, CloseCall(c)) == s.(closers := s.closers[c := Checked(s.currentSlot)])
  {
  }

  lemma FenceIs(maxRetries: nat, s: State, c: nat)
    ensures Next(maxRetries, s, CloseFence(c)) == Fence(s, c)
  {
  }

  lemma JudgeIs(maxRetries: nat, s: State, c: nat)
    ensures Next(maxRetries, s, CloseJudge(c)) == Judge(s, c)
  {
  }

  lemma InvDrains(s: State, slot: nat)
    requires Inv(s) && slot in s.acknowledged
    ensures Drained(s, slot)
  {
  }
}
