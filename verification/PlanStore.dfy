/** The client's code around its plans: storing one, grouping its requests by
    slot, and answering a tick. */
module PlanStore {
  import opened Options
  import opened ClientPlans

  datatype Stored = Stored(id: nat) | ValueError

  /** One call handing a batch to the scheduler. */
  datatype Sending = Sending(planId: nat, slot: int, batch: seq<PlanRequest>)

  datatype TickResponse = TickResponse(slot: int, handled: seq<(nat, int)>, submitted: nat, duplicate: bool)

  method LatestStart(requests: seq<PlanRequest>) returns (latest: int)
    requires requests != []
    ensures latest == Latest(requests)
  {
    latest := requests[0].startAt;
    var i := 1;
    while i < |requests|
      invariant 1 <= i <= |requests| && latest == Latest(requests[..i])
    {
      assert requests[..i + 1][..i] == requests[..i];
      if requests[i].startAt > latest {
        latest := requests[i].startAt;
      }
      i := i + 1;
    }
    assert requests[..i] == requests;
  }

  method GroupBySlot(requests: seq<PlanRequest>, g: Grid, reference: int) returns (groups: map<int, seq<PlanRequest>>)
    requires Sound(g)
    ensures forall index :: index in groups <==> Batch(requests, g, reference, index) != []
    ensures forall index :: index in groups ==> groups[index] == Batch(requests, g, reference, index)
  {
    hide SlotIndex;
    groups := map[];
    for i := 0 to |requests|
      invariant forall index :: index in groups <==> Batch(requests[..i], g, reference, index) != []
      invariant forall index :: index in groups ==> groups[index] == Batch(requests[..i], g, reference, index)
    {
      var index := SlotIndex(requests[i].startAt, g, reference);
      assert requests[..i + 1][..i] == requests[..i];
      groups := groups[index := (if index in groups then groups[index] else []) + [requests[i]]];
    }
    assert requests[..|requests|] == requests;
  }

  method GetBatchFromSlot(requests: seq<PlanRequest>, g: Grid, index: int, reference: int)
      returns (batch: seq<PlanRequest>)
    requires Sound(g)
    ensures batch == Batch(requests, g, reference, index)
  {
    var slotted := GroupBySlot(requests, g, reference);
    batch := if index in slotted then slotted[index] else [];
  }

  function AcceptedOf(batch: seq<PlanRequest>, accepts: PlanRequest -> bool): nat {
    if batch == [] then 0 else AcceptedOf(batch[..|batch| - 1], accepts) + if accepts(batch[|batch| - 1]) then 1 else 0
  }

  /** Every request of the batch is tried; a refused one is skipped. */
  method SendSlotBatch(batch: seq<PlanRequest>, accepts: PlanRequest -> bool) returns (submitted: nat)
    ensures submitted == AcceptedOf(batch, accepts)
    ensures submitted == |Accepting(batch, accepts)|
  {
    AcceptedIsCount(batch, accepts);
    submitted := 0;
    for i := 0 to |batch|
      invariant submitted == AcceptedOf(batch[..i], accepts)
    {
      assert batch[..i + 1][..i] == batch[..i];
      if accepts(batch[i]) {
        submitted := submitted + 1;
      }
    }
    assert batch[..|batch|] == batch;
  }

  // ── what a tick hands over, across plans ───────────────────────────────

  /** The plans a slot concerns, among those numbered below `n`. */
  function Concerned(plans: map<nat, Plan>, n: nat, slot: int): seq<nat> {
    if n == 0 then []
    else Concerned(plans, n - 1, slot) + if n - 1 in plans && Spans(plans[n - 1], slot) then [n - 1] else []
  }

  predicate AllDerived(plans: map<nat, Plan>, epoch: int) { forall id :: id in plans ==> Derived(plans[id], epoch) }

  function Sendings(plans: map<nat, Plan>, epoch: int, ids: seq<nat>, slot: int): seq<Sending>
    requires AllDerived(plans, epoch)
  {
    if ids == [] then []
    else
      var id := ids[|ids| - 1];
      Sendings(plans, epoch, ids[..|ids| - 1], slot)
      + if id in plans && Takes(plans[id], slot) then [Sending(id, slot, BatchFor(plans[id], epoch, slot))] else []
  }

  /** What a log holds of one plan. */
  function Of(sent: seq<Sending>, id: nat): seq<int> {
    if sent == [] then []
    else Of(sent[..|sent| - 1], id) + if sent[|sent| - 1].planId == id then [sent[|sent| - 1].slot] else []
  }

  lemma {:induction false} OfConcat(a: seq<Sending>, b: seq<Sending>, id: nat)
    ensures Of(a + b, id) == Of(a, id) + Of(b, id)
  {
    if b == [] {
      assert a + b == a;
    } else {
      var front := b[..|b| - 1];
      assert (a + b)[..|a + b| - 1] == a + front;
      OfConcat(a, front, id);
    }
  }

  lemma {:induction false} ConcernedFacts(plans: map<nat, Plan>, n: nat, slot: int)
    ensures Ascending(Concerned(plans, n, slot))
    ensures forall id :: id in Concerned(plans, n, slot) <==> id < n && id in plans && Spans(plans[id], slot)
  {
    hide Spans;
    if n > 0 {
      ConcernedFacts(plans, n - 1, slot);
      var ids, front := Concerned(plans, n, slot), Concerned(plans, n - 1, slot);
      assert forall i :: 0 <= i < |front| ==> front[i] in front;
    }
  }

  lemma {:induction false} OfSendings(plans: map<nat, Plan>, epoch: int, ids: seq<nat>, slot: int, id: nat)
    requires AllDerived(plans, epoch) && Ascending(ids)
    ensures Of(Sendings(plans, epoch, ids, slot), id)
         == if id in ids && id in plans && Takes(plans[id], slot) then [slot] else []
  {
    hide AllDerived, Takes, Batch, Of;
    if ids == [] {
      OfNothing(id);
    } else {
      var front, last := ids[..|ids| - 1], ids[|ids| - 1];
      assert ids == front + [last];
      assert forall i :: 0 <= i < |front| ==> front[i] == ids[i] < last;
      OfSendings(plans, epoch, front, slot, id);
      if last in plans && Takes(plans[last], slot) {
        DerivedOne(plans, epoch, last);
        var s := Sending(last, slot, BatchFor(plans[last], epoch, slot));
        OfConcat(Sendings(plans, epoch, front, slot), [s], id);
        OfOne(s, id);
      } else {
        assert Sendings(plans, epoch, ids, slot) == Sendings(plans, epoch, front, slot);
      }
    }
  }

  lemma OfNothing(id: nat)
    ensures Of([], id) == []
  {
  }

  lemma DerivedOne(plans: map<nat, Plan>, epoch: int, id: nat)
    requires AllDerived(plans, epoch) && id in plans
    ensures Derived(plans[id], epoch)
  {
  }

  lemma OfOne(s: Sending, id: nat)
    ensures Of([s], id) == if s.planId == id then [s.slot] else []
  {
    assert [s][..0] == [];
  }

  /** Each logged batch is its plan's batch for its slot. */
  ghost predicate Faithful(sent: seq<Sending>, plans: map<nat, Plan>, epoch: int)
    requires AllDerived(plans, epoch)
  {
    forall i :: 0 <= i < |sent| ==>
      && sent[i].planId in plans
      && sent[i].batch == BatchFor(plans[sent[i].planId], epoch, sent[i].slot)
  }

  function LastOf(slots: seq<int>): Option<int> { if slots == [] then None else Some(slots[|slots| - 1]) }

  /** Of every plan only ascending slots were handed over, the last being the one
      it remembers. */
  ghost predicate InStep(sent: seq<Sending>, plans: map<nat, Plan>) {
    && (forall id :: id in plans ==> Ascending(Of(sent, id)) && plans[id].lastProcessed == LastOf(Of(sent, id)))
    && forall id :: id !in plans ==> Of(sent, id) == []
  }

  function TickedAll(plans: map<nat, Plan>, slot: int): map<nat, Plan> {
    map id | id in plans :: Ticked(plans[id], slot)
  }

  lemma OfTick(sent: seq<Sending>, plans: map<nat, Plan>, epoch: int, n: nat, slot: int, id: nat)
    requires AllDerived(plans, epoch) && (id in plans ==> id < n)
    ensures Of(sent + Sendings(plans, epoch, Concerned(plans, n, slot), slot), id)
         == Of(sent, id) + if id in plans && Takes(plans[id], slot) then [slot] else []
  {
    hide AllDerived, Of, Concerned, Sendings, Ascending;
    var ids := Concerned(plans, n, slot);
    ConcernedFacts(plans, n, slot);
    OfConcat(sent, Sendings(plans, epoch, ids, slot), id);
    OfSendings(plans, epoch, ids, slot, id);
  }

  lemma TickKeepsStep(sent: seq<Sending>, plans: map<nat, Plan>, epoch: int, n: nat, slot: int)
    requires AllDerived(plans, epoch) && InStep(sent, plans) && forall id :: id in plans ==> id < n
    ensures InStep(sent + Sendings(plans, epoch, Concerned(plans, n, slot), slot), TickedAll(plans, slot))
  {
    hide AllDerived, Of, Concerned, Sendings, Spans, Ascending;
    var after := sent + Sendings(plans, epoch, Concerned(plans, n, slot), slot);
    forall id: nat
      ensures id !in plans ==> Of(after, id) == []
      ensures id in plans ==> Ascending(Of(after, id)) && Ticked(plans[id], slot).lastProcessed == LastOf(Of(after, id))
    {
      OfTick(sent, plans, epoch, n, slot, id);
      if id in plans && Takes(plans[id], slot) {
        AscendingSnoc(Of(sent, id), slot);
      } else {
        assert Of(sent, id) + [] == Of(sent, id);
      }
    }
  }

  lemma AscendingSnoc(slots: seq<int>, slot: int)
    requires Ascending(slots) && Beyond(LastOf(slots), slot)
    ensures Ascending(slots + [slot]) && LastOf(slots + [slot]) == Some(slot)
  {
  }

  lemma {:induction false} SendingsFaithful(plans: map<nat, Plan>, epoch: int, ids: seq<nat>, slot: int)
    requires AllDerived(plans, epoch)
    ensures Faithful(Sendings(plans, epoch, ids, slot), plans, epoch)
  {
    hide AllDerived, Takes, BatchFor;
    if ids != [] {
      SendingsFaithful(plans, epoch, ids[..|ids| - 1], slot);
    }
  }

  lemma TickKeepsFaithful(sent: seq<Sending>, plans: map<nat, Plan>, epoch: int, ids: seq<nat>, slot: int)
    requires AllDerived(plans, epoch) && Faithful(sent, plans, epoch)
    ensures AllDerived(TickedAll(plans, slot), epoch)
    ensures Faithful(sent + Sendings(plans, epoch, ids, slot), TickedAll(plans, slot), epoch)
  {
    hide Sendings, Takes, Batch, SlotNumber, SlotCount;
    SendingsFaithful(plans, epoch, ids, slot);
  }

  function Submitted(sendings: seq<Sending>, accepts: PlanRequest -> bool): nat {
    if sendings == [] then 0
    else Submitted(sendings[..|sendings| - 1], accepts) + AcceptedOf(sendings[|sendings| - 1].batch, accepts)
  }

  /** The plans a response names, with their indices, are those of the batches handed over. */
  predicate Names(plans: map<nat, Plan>, handled: seq<(nat, int)>, sendings: seq<Sending>) {
    |handled| == |sendings|
    && forall i :: 0 <= i < |handled| ==>
         sendings[i].planId in plans
         && handled[i] == (sendings[i].planId, sendings[i].slot - plans[sendings[i].planId].startSlot)
  }

  predicate AnyPassed(plans: map<nat, Plan>, ids: seq<nat>, slot: int) {
    exists i :: 0 <= i < |ids| && ids[i] in plans && !Takes(plans[ids[i]], slot)
  }

  lemma AnyPassedSnoc(plans: map<nat, Plan>, ids: seq<nat>, id: nat, slot: int)
    requires id in plans
    ensures AnyPassed(plans, ids + [id], slot) <==> AnyPassed(plans, ids, slot) || !Takes(plans[id], slot)
  {
    hide Takes;
    assert (ids + [id])[|ids|] == id;
    if AnyPassed(plans, ids, slot) {
      var i :| 0 <= i < |ids| && ids[i] in plans && !Takes(plans[ids[i]], slot);
      assert (ids + [id])[i] == ids[i];
    }
  }

  /** What a tick has done after the plans `done`. */
  ghost predicate Progress(plans: map<nat, Plan>, epoch: int, done: seq<nat>, slot: int, accepts: PlanRequest -> bool,
                           more: seq<Sending>, submitted: nat, handled: seq<(nat, int)>, duplicate: bool)
    requires AllDerived(plans, epoch)
  {
    && more == Sendings(plans, epoch, done, slot) && submitted == Submitted(more, accepts)
    && Names(plans, handled, more) && (duplicate <==> AnyPassed(plans, done, slot))
  }

  lemma NoSendings(plans: map<nat, Plan>, epoch: int, slot: int, accepts: PlanRequest -> bool)
    requires AllDerived(plans, epoch)
    ensures Progress(plans, epoch, [], slot, accepts, [], 0, [], false) && PartlyTicked(plans, plans, [], slot)
  {
  }

  lemma ProgressIs(plans: map<nat, Plan>, epoch: int, done: seq<nat>, slot: int, accepts: PlanRequest -> bool,
                   more: seq<Sending>, submitted: nat, handled: seq<(nat, int)>, duplicate: bool)
    requires AllDerived(plans, epoch) && Progress(plans, epoch, done, slot, accepts, more, submitted, handled, duplicate)
    ensures more == Sendings(plans, epoch, done, slot) && submitted == Submitted(more, accepts)
    ensures Names(plans, handled, more) && (duplicate <==> AnyPassed(plans, done, slot))
  {
  }

  lemma ProgressPassed(plans: map<nat, Plan>, epoch: int, done: seq<nat>, slot: int, accepts: PlanRequest -> bool,
                       more: seq<Sending>, submitted: nat, handled: seq<(nat, int)>, duplicate: bool, id: nat)
    requires AllDerived(plans, epoch) && Progress(plans, epoch, done, slot, accepts, more, submitted, handled, duplicate)
    requires id in plans && !Takes(plans[id], slot)
    ensures Progress(plans, epoch, done + [id], slot, accepts, more, submitted, handled, true)
  {
    hide AllDerived, Sendings, Submitted, AnyPassed, Takes;
    DerivedOne(plans, epoch, id);
    SendingsSnoc(plans, epoch, done, id, slot);
    AnyPassedSnoc(plans, done, id, slot);
  }

  lemma ProgressSent(plans: map<nat, Plan>, epoch: int, done: seq<nat>, slot: int, accepts: PlanRequest -> bool,
                     more: seq<Sending>, submitted: nat, handled: seq<(nat, int)>, duplicate: bool, id: nat)
    requires AllDerived(plans, epoch) && Progress(plans, epoch, done, slot, accepts, more, submitted, handled, duplicate)
    requires id in plans && Takes(plans[id], slot) && Derived(plans[id], epoch)
    ensures var batch := BatchFor(plans[id], epoch, slot);
            Progress(plans, epoch, done + [id], slot, accepts, more + [Sending(id, slot, batch)],
                     submitted + AcceptedOf(batch, accepts), handled + [(id, slot - plans[id].startSlot)], duplicate)
  {
    hide AllDerived, Sendings, Submitted, AnyPassed, Takes, SlotNumber, SlotCount, BatchFor, AcceptedOf;
    SendingsSnoc(plans, epoch, done, id, slot);
    AnyPassedSnoc(plans, done, id, slot);
    SubmittedSnoc(more, Sending(id, slot, BatchFor(plans[id], epoch, slot)), accepts);
  }

  // ── a tick, read off the plans alone ───────────────────────────────────

  /** The requests that start in `slot` of the grid, in order. */
  function Starting(requests: seq<PlanRequest>, slotLength: int, epoch: int, slot: int): seq<PlanRequest>
    requires slotLength > 0
  {
    if requests == [] then []
    else
      var last := requests[|requests| - 1];
      Starting(requests[..|requests| - 1], slotLength, epoch, slot)
      + if (last.startAt - epoch) / slotLength == slot then [last] else []
  }

  /** `slot` is one of the plan's and it has not got that far yet. */
  predicate Awaits(p: Plan, slot: int) {
    p.startSlot <= slot < p.startSlot + p.slotCount && (p.lastProcessed == None || p.lastProcessed.value < slot)
  }

  /** It is one of the plan's, and the plan has got there or further. */
  predicate Past(p: Plan, slot: int) {
    p.startSlot <= slot < p.startSlot + p.slotCount && p.lastProcessed != None && slot <= p.lastProcessed.value
  }

  /** Every plan that awaits the slot remembers it; nothing else changes. */
  ghost predicate AllRemember(plans: map<nat, Plan>, slot: int, after: map<nat, Plan>) {
    && after.Keys == plans.Keys
    && forall id :: id in plans ==> after[id] == if Awaits(plans[id], slot) then plans[id].(lastProcessed := Some(slot))
                                                 else plans[id]
  }

  /** Plan `id` is named with its index of the slot, and its requests that start in the slot are handed over. */
  ghost predicate HandsOver(plans: map<nat, Plan>, epoch: int, slot: int, named: (nat, int), s: Sending) {
    var id := named.0;
    && id in plans && Awaits(plans[id], slot) && plans[id].slotLength > 0
    && named.1 == slot - plans[id].startSlot
    && s == Sending(id, slot, Starting(plans[id].requests, plans[id].slotLength, epoch, slot))
  }

  ghost predicate IsNamed(handled: seq<(nat, int)>, id: nat) { exists i :: 0 <= i < |handled| && handled[i].0 == id }

  /** What a tick must do: the response names, in order of id and with their
      indices, exactly the plans that await the slot; each of them hands over its
      requests that start in the slot and remembers it; all accepted ones are
      counted; and a plan past the slot makes the tick a duplicate. */
  ghost predicate TickDoes(plans: map<nat, Plan>, epoch: int, slot: int, accepts: PlanRequest -> bool,
                           after: map<nat, Plan>, more: seq<Sending>, r: TickResponse)
  {
    && AllRemember(plans, slot, after)
    && (forall i, j :: 0 <= i < j < |r.handled| ==> r.handled[i].0 < r.handled[j].0)
    && |more| == |r.handled| && (forall i :: 0 <= i < |more| ==> HandsOver(plans, epoch, slot, r.handled[i], more[i]))
    && (forall id :: id in plans && Awaits(plans[id], slot) ==> IsNamed(r.handled, id))
    && r.slot == slot && r.submitted == Submitted(more, accepts)
    && (r.duplicate <==> exists id :: id in plans && Past(plans[id], slot))
  }

  /** The places in the batch whose requests are accepted. */
  function Accepting(batch: seq<PlanRequest>, accepts: PlanRequest -> bool): set<nat> {
    set i: nat | i < |batch| && accepts(batch[i])
  }

  lemma {:induction false} AcceptedIsCount(batch: seq<PlanRequest>, accepts: PlanRequest -> bool)
    ensures AcceptedOf(batch, accepts) == |Accepting(batch, accepts)|
  {
    if batch != [] {
      var front := batch[..|batch| - 1];
      AcceptedIsCount(front, accepts);
      assert Accepting(batch, accepts) == Accepting(front, accepts) + if accepts(batch[|front|]) then {|front|} else {};
    }
  }

  lemma {:induction false} BatchIsStarting(requests: seq<PlanRequest>, g: Grid, reference: int, slot: int)
    requires Sound(g)
    ensures Batch(requests, g, reference, slot - SlotNumber(reference, g)) == Starting(requests, g.slotLength, g.epoch, slot)
  {
    hide SlotNumber, SlotIndex;
    if requests != [] {
      BatchIsStarting(requests[..|requests| - 1], g, reference, slot);
      IndexIsDifference(requests[|requests| - 1].startAt, g, reference);
    }
  }

  lemma BatchForIsStarting(p: Plan, epoch: int, slot: int)
    requires Derived(p, epoch)
    ensures p.slotLength > 0 && BatchFor(p, epoch, slot) == Starting(p.requests, p.slotLength, epoch, slot)
  {
    hide Batch, SlotNumber, SlotCount;
    BatchIsStarting(p.requests, GridOf(p, epoch), p.requests[0].startAt, slot);
  }

  lemma AwaitsIs(p: Plan, slot: int)
    ensures Awaits(p, slot) <==> Takes(p, slot)
    ensures Past(p, slot) <==> Spans(p, slot) && !Takes(p, slot)
    ensures Ticked(p, slot) == if Awaits(p, slot) then p.(lastProcessed := Some(slot)) else p
  {
  }

  predicate Rising(more: seq<Sending>) {
    forall i, j :: 0 <= i < j < |more| ==> more[i].planId < more[j].planId
  }

  predicate Below(more: seq<Sending>, n: nat) { forall i :: 0 <= i < |more| ==> more[i].planId < n }

  ghost predicate AllSent(plans: map<nat, Plan>, epoch: int, slot: int, more: seq<Sending>) {
    forall i :: 0 <= i < |more| ==> SentBy(plans, epoch, slot, more[i])
  }

  lemma OneMoreSending(plans: map<nat, Plan>, epoch: int, slot: int, before: seq<Sending>, s: Sending)
    requires Rising(before) && Below(before, s.planId)
    requires AllSent(plans, epoch, slot, before) && SentBy(plans, epoch, slot, s)
    ensures Rising(before + [s]) && Below(before + [s], s.planId + 1) && AllSent(plans, epoch, slot, before + [s])
  {
    hide SentBy;
  }

  lemma BelowMore(more: seq<Sending>, m: nat, n: nat)
    requires Below(more, m) && m <= n
    ensures Below(more, n)
  {
  }

  /** The batches handed over are those of the plans that take the slot, by id. */
  lemma {:induction false} SendingsAre(plans: map<nat, Plan>, epoch: int, ids: seq<nat>, slot: int, n: nat)
    requires AllDerived(plans, epoch) && Ascending(ids) && (ids != [] ==> ids[|ids| - 1] < n)
    ensures var more := Sendings(plans, epoch, ids, slot);
            Rising(more) && Below(more, n) && AllSent(plans, epoch, slot, more)
  {
    hide AllDerived, Takes, SentBy, Rising, Below, AllSent;
    if ids == [] {
      NothingSent(plans, epoch, slot, n);
    } else {
      var front, last := ids[..|ids| - 1], ids[|ids| - 1];
      SendingsAre(plans, epoch, front, slot, last);
      var before := Sendings(plans, epoch, front, slot);
      if last in plans && Takes(plans[last], slot) {
        DerivedOne(plans, epoch, last);
        SentByIs(plans, epoch, slot, last);
        OneMoreSending(plans, epoch, slot, before, Sending(last, slot, BatchFor(plans[last], epoch, slot)));
        BelowMore(Sendings(plans, epoch, ids, slot), last + 1, n);
      } else {
        assert Sendings(plans, epoch, ids, slot) == before;
        BelowMore(before, last, n);
      }
    }
  }

  lemma NothingSent(plans: map<nat, Plan>, epoch: int, slot: int, n: nat)
    ensures Rising([]) && Below([], n) && AllSent(plans, epoch, slot, [])
  {
  }

  lemma {:induction false} OfHas(more: seq<Sending>, id: nat)
    ensures Of(more, id) != [] <==> exists i :: 0 <= i < |more| && more[i].planId == id
  {
    if more != [] {
      var front := more[..|more| - 1];
      OfHas(front, id);
      if i :| 0 <= i < |more| && more[i].planId == id {
        assert i < |front| ==> front[i].planId == id;
      }
      if i :| 0 <= i < |front| && front[i].planId == id {
        assert more[i].planId == id;
      }
      assert more[|front|] == more[|more| - 1];
    }
  }

  ghost predicate SentBy(plans: map<nat, Plan>, epoch: int, slot: int, s: Sending) {
    && s.planId in plans && Takes(plans[s.planId], slot) && plans[s.planId].slotLength > 0
    && s == Sending(s.planId, slot, Starting(plans[s.planId].requests, plans[s.planId].slotLength, epoch, slot))
  }

  lemma SentByIs(plans: map<nat, Plan>, epoch: int, slot: int, id: nat)
    requires id in plans && Derived(plans[id], epoch) && Takes(plans[id], slot)
    ensures SentBy(plans, epoch, slot, Sending(id, slot, BatchFor(plans[id], epoch, slot)))
  {
    hide Batch, BatchFor, SlotNumber, SlotCount;
    BatchForIsStarting(plans[id], epoch, slot);
  }

  lemma AllRememberTick(plans: map<nat, Plan>, slot: int)
    ensures AllRemember(plans, slot, TickedAll(plans, slot))
  {
    hide Ticked, Awaits;
    forall id | id in plans
      ensures TickedAll(plans, slot)[id] == if Awaits(plans[id], slot) then plans[id].(lastProcessed := Some(slot)) else plans[id]
    {
      AwaitsIs(plans[id], slot);
    }
  }

  lemma NamedHandsOver(plans: map<nat, Plan>, epoch: int, slot: int, handled: seq<(nat, int)>, more: seq<Sending>, i: nat)
    requires Names(plans, handled, more) && AllSent(plans, epoch, slot, more) && i < |more|
    ensures HandsOver(plans, epoch, slot, handled[i], more[i])
  {
    hide Starting, Takes, Awaits;
    assert SentBy(plans, epoch, slot, more[i]);
    AwaitsIs(plans[more[i].planId], slot);
  }

  lemma AwaitingIsNamed(plans: map<nat, Plan>, epoch: int, slot: int, ids: seq<nat>, handled: seq<(nat, int)>, id: nat)
    requires AllDerived(plans, epoch) && Ascending(ids) && id in ids && id in plans && Awaits(plans[id], slot)
    requires Names(plans, handled, Sendings(plans, epoch, ids, slot))
    ensures IsNamed(handled, id)
  {
    hide AllDerived, Ascending, Takes, Awaits, Sendings, Of;
    var more := Sendings(plans, epoch, ids, slot);
    AwaitsIs(plans[id], slot);
    OfSendings(plans, epoch, ids, slot, id);
    OfHas(more, id);
    var i :| 0 <= i < |more| && more[i].planId == id;
    assert handled[i].0 == id;
  }

  lemma PastIsPassed(plans: map<nat, Plan>, n: nat, slot: int)
    requires forall id :: id in plans ==> id < n
    ensures AnyPassed(plans, Concerned(plans, n, slot), slot) <==> exists id :: id in plans && Past(plans[id], slot)
  {
    hide Concerned, Takes, Spans, Past;
    var ids := Concerned(plans, n, slot);
    ConcernedFacts(plans, n, slot);
    if AnyPassed(plans, ids, slot) {
      var i :| 0 <= i < |ids| && ids[i] in plans && !Takes(plans[ids[i]], slot);
      assert ids[i] in ids;
      AwaitsIs(plans[ids[i]], slot);
    }
    if id :| id in plans && Past(plans[id], slot) {
      AwaitsIs(plans[id], slot);
      var i :| 0 <= i < |ids| && ids[i] == id;
    }
  }

  lemma TickIsDone(plans: map<nat, Plan>, epoch: int, n: nat, slot: int, accepts: PlanRequest -> bool, r: TickResponse)
    requires AllDerived(plans, epoch) && forall id :: id in plans ==> id < n
    requires var more := Sendings(plans, epoch, Concerned(plans, n, slot), slot);
             Names(plans, r.handled, more) && r.slot == slot && r.submitted == Submitted(more, accepts)
    requires r.duplicate <==> AnyPassed(plans, Concerned(plans, n, slot), slot)
    ensures TickDoes(plans, epoch, slot, accepts, TickedAll(plans, slot),
                     Sendings(plans, epoch, Concerned(plans, n, slot), slot), r)
  {
    hide AllDerived, Takes, Concerned, Sendings, Spans, Submitted, Awaits, Past, Ascending, AllSent, HandsOver, IsNamed,
         AnyPassed, AllRemember, TickedAll;
    var ids := Concerned(plans, n, slot);
    var more := Sendings(plans, epoch, ids, slot);
    ConcernedFacts(plans, n, slot);
    if ids != [] {
      assert ids[|ids| - 1] in ids;
    }
    SendingsAre(plans, epoch, ids, slot, n);
    AllRememberTick(plans, slot);
    PastIsPassed(plans, n, slot);
    forall i | 0 <= i < |more| ensures HandsOver(plans, epoch, slot, r.handled[i], more[i]) {
      NamedHandsOver(plans, epoch, slot, r.handled, more, i);
    }
    forall id | id in plans && Awaits(plans[id], slot) ensures IsNamed(r.handled, id) {
      AwaitsIs(plans[id], slot);
      TakesSpans(plans[id], slot);
      AwaitingIsNamed(plans, epoch, slot, ids, r.handled, id);
    }
  }

  lemma TakesSpans(p: Plan, slot: int)
    ensures Takes(p, slot) ==> Spans(p, slot)
  {
  }

  /** The plan runs from the slot its first request starts in to the slot the
      latest one starts in. */
  ghost predicate StartsAndEnds(p: Plan, requests: seq<PlanRequest>, slotLength: int, epoch: int)
    requires requests != [] && slotLength > 0
  {
    && p.requests == requests && p.slotLength == slotLength && p.lastProcessed == None
    && p.startSlot == (requests[0].startAt - epoch) / slotLength
    && exists i :: 0 <= i < |requests| && (forall j :: 0 <= j < |requests| ==> requests[j].startAt <= requests[i].startAt)
                   && p.startSlot + p.slotCount - 1 == (requests[i].startAt - epoch) / slotLength
  }

  lemma {:induction false} LatestIsOne(requests: seq<PlanRequest>) returns (i: nat)
    requires requests != []
    ensures i < |requests| && requests[i].startAt == Latest(requests)
  {
    i := |requests| - 1;
    if |requests| > 1 && requests[i].startAt <= Latest(requests[..i]) {
      i := LatestIsOne(requests[..i]);
    }
  }

  lemma SlotNumberIs(t: int, slotLength: int, epoch: int)
    requires slotLength > 0
    ensures SlotNumber(t, Grid(slotLength, epoch)) == (t - epoch) / slotLength
  {
    hide SlotNumber, SlotIndex;
    IndexIsDifference(t, Grid(slotLength, epoch), 0);
  }

  lemma StoredSpans(p: Plan, requests: seq<PlanRequest>, slotLength: int, epoch: int)
    requires requests != [] && slotLength > 0
    requires var g := Grid(slotLength, epoch);
             p == Plan(requests, slotLength, SlotNumber(requests[0].startAt, g), SlotCount(requests, g), None)
    ensures StartsAndEnds(p, requests, slotLength, epoch)
  {
    hide SlotNumber, SlotIndex, Latest;
    var g := Grid(slotLength, epoch);
    SlotNumberIs(requests[0].startAt, slotLength, epoch);
    SlotNumberIs(Latest(requests), slotLength, epoch);
    var i := LatestIsOne(requests);
    forall j | 0 <= j < |requests| ensures requests[j].startAt <= requests[i].startAt {
      LatestBounds(requests, j);
    }
  }

  class Store {
    const epoch: int
    var plans: map<nat, Plan>
    var nextPlanId: nat
    var sent: seq<Sending>       // the batches handed over so far

    ghost predicate Valid()
      reads this
    {
      && nextPlanId >= 1 && (forall id :: id in plans ==> 1 <= id < nextPlanId)
      && AllDerived(plans, epoch) && Faithful(sent, plans, epoch) && InStep(sent, plans)
    }

    constructor (epoch: int)
      ensures Valid() && this.epoch == epoch && plans == map[] && nextPlanId == 1 && sent == []
    {
      this.epoch, plans, nextPlanId, sent := epoch, map[], 1, [];
    }

    /** A plan without requests is refused; any other gets a fresh id and is
        stored, not started. */
    method StorePlan(requests: seq<PlanRequest>, slotLength: int) returns (r: Stored)
      requires Valid() && slotLength > 0
      modifies this
      ensures Valid() && sent == old(sent)
      ensures requests == [] ==> r == ValueError && unchanged(this)
      ensures requests != [] ==>
        var g := Grid(slotLength, epoch);
        && r.Stored? && r.id !in old(plans) && r.id == old(nextPlanId) && nextPlanId == r.id + 1
        && plans == old(plans)[r.id := Plan(requests, slotLength, SlotNumber(requests[0].startAt, g),
                                            SlotCount(requests, g), None)]
      ensures requests != [] ==> StartsAndEnds(plans[old(nextPlanId)], requests, slotLength, epoch)
    {
      hide SlotNumber, Batch, Of, Latest, StartsAndEnds;
      if requests == [] {
        return ValueError;
      }
      var g := Grid(slotLength, epoch);
      var startSlot := SlotNumber(requests[0].startAt, g);
      var lastStart := LatestStart(requests);
      var slotCount := SlotNumber(lastStart, g) - startSlot + 1;
      var id := nextPlanId;
      nextPlanId := nextPlanId + 1;
      plans := plans[id := Plan(requests, slotLength, startSlot, slotCount, None)];
      r := Stored(id);
      StoredSpans(plans[id], requests, slotLength, epoch);
    }

    method GetPlanForSlot(slot: int) returns (result: seq<(nat, int)>)
      ensures var ids := Concerned(plans, nextPlanId, slot);
              |result| == |ids| && forall i :: 0 <= i < |ids| ==>
                ids[i] in plans && result[i] == (ids[i], slot - plans[ids[i]].startSlot)
    {
      result := [];
      for id := 0 to nextPlanId
        invariant var ids := Concerned(plans, id, slot);
                  |result| == |ids| && forall i :: 0 <= i < |ids| ==>
                    ids[i] in plans && result[i] == (ids[i], slot - plans[ids[i]].startSlot)
      {
        if id in plans {
          var index := slot - plans[id].startSlot;
          if 0 <= index < plans[id].slotCount {
            result := result + [(id, index)];
          }
        }
      }
    }

    function IsSlotAlreadyProcessed(planId: nat, slot: int): bool
      reads this
    {
      planId in plans && plans[planId].lastProcessed.Some? && slot <= plans[planId].lastProcessed.value
    }

    method MarkSlotProcessed(planId: nat, slot: int)
      modifies this
      ensures plans == if planId in old(plans) then old(plans)[planId := old(plans[planId]).(lastProcessed := Some(slot))]
                       else old(plans)
      ensures sent == old(sent) && nextPlanId == old(nextPlanId)
    {
      if planId in plans {
        plans := plans[planId := plans[planId].(lastProcessed := Some(slot))];
      }
    }

    /** Hands over one plan's batch and remembers the slot. */
    method HandOver(planId: nat, planIndex: int, slot: int, accepts: PlanRequest -> bool) returns (submitted: nat)
      requires planId in plans && Derived(plans[planId], epoch) && planIndex == slot - plans[planId].startSlot
      modifies this
      ensures nextPlanId == old(nextPlanId)
      ensures plans == old(plans)[planId := old(plans[planId]).(lastProcessed := Some(slot))]
      ensures sent == old(sent) + [Sending(planId, slot, BatchFor(old(plans[planId]), epoch, slot))]
      ensures submitted == AcceptedOf(BatchFor(old(plans[planId]), epoch, slot), accepts)
    {
      hide Batch, SlotNumber, SlotCount;
      var plan := plans[planId];
      var batch := GetBatchFromSlot(plan.requests, GridOf(plan, epoch), planIndex, plan.requests[0].startAt);
      submitted := SendSlotBatch(batch, accepts);
      sent := sent + [Sending(planId, slot, batch)];
      MarkSlotProcessed(planId, slot);
    }

    /** One tick: every plan that spans the slot and has not passed it hands its
        batch over and remembers the slot; a plan that has passed it makes the
        tick a duplicate. */
    method ProcessSlotTick(slot: int, accepts: PlanRequest -> bool) returns (r: TickResponse)
      requires Valid()
      modifies this
      ensures Valid() && nextPlanId == old(nextPlanId)
      ensures plans == TickedAll(old(plans), slot)
      ensures var ids := Concerned(old(plans), nextPlanId, slot);
              var more := Sendings(old(plans), epoch, ids, slot);
              && sent == old(sent) + more
              && r.slot == slot && r.submitted == Submitted(more, accepts)
              && Names(old(plans), r.handled, more) && (r.duplicate <==> AnyPassed(old(plans), ids, slot))
      ensures old(sent) <= sent && TickDoes(old(plans), epoch, slot, accepts, plans, sent[|old(sent)|..], r)
    {
      hide BatchFor, SlotNumber, SlotCount, Of, Concerned, InStep, Faithful, AllDerived, Sendings, Submitted, AcceptedOf,
           TickedAll, AnyPassed, Progress, PartlyTicked, TickDoes, Names;
      ghost var before, sentBefore := plans, sent;
      ghost var ids := Concerned(plans, nextPlanId, slot);
      ConcernedFacts(plans, nextPlanId, slot);
      TickKeepsStep(sent, plans, epoch, nextPlanId, slot);
      TickKeepsFaithful(sent, plans, epoch, ids, slot);
      var handled: seq<(nat, int)>, submitted, duplicate := [], 0, false;
      var concerned := GetPlanForSlot(slot);
      NoSendings(plans, epoch, slot, accepts);
      assert ids[..0] == [];
      ghost var more: seq<Sending> := [];
      for k := 0 to |concerned|
        invariant nextPlanId == old(nextPlanId) && sent == sentBefore + more
        invariant PartlyTicked(before, plans, ids[..k], slot)
        invariant Progress(before, epoch, ids[..k], slot, accepts, more, submitted, handled, duplicate)
      {
        var (planId, planIndex) := concerned[k];
        assert ids[..k + 1] == ids[..k] + [planId];
        assert planId !in ids[..k];
        PartlySnoc(before, plans, ids[..k], planId, slot);
        DerivedOne(before, epoch, planId);
        TakesIs(before[planId], slot);
        if IsSlotAlreadyProcessed(planId, slot) {
          ProgressPassed(before, epoch, ids[..k], slot, accepts, more, submitted, handled, duplicate, planId);
          duplicate := true;
        } else {
          ProgressSent(before, epoch, ids[..k], slot, accepts, more, submitted, handled, duplicate, planId);
          var count := HandOver(planId, planIndex, slot, accepts);
          more := more + [Sending(planId, slot, BatchFor(before[planId], epoch, slot))];
          submitted := submitted + count;
          handled := handled + [(planId, planIndex)];
        }
      }
      assert ids[..|ids|] == ids;
      assert Progress(before, epoch, ids, slot, accepts, more, submitted, handled, duplicate);
      ProgressIs(before, epoch, ids, slot, accepts, more, submitted, handled, duplicate);
      TickedAllIs(before, plans, ids, slot);
      r := TickResponse(slot, handled, submitted, duplicate);
      TickIsDone(before, epoch, nextPlanId, slot, accepts, r);
      assert (sentBefore + more)[|sentBefore|..] == more;
    }
  }

  lemma TakesIs(p: Plan, slot: int)
    ensures Takes(p, slot) <==> Spans(p, slot) && (p.lastProcessed.None? || slot > p.lastProcessed.value)
    ensures Ticked(p, slot) == if Takes(p, slot) then p.(lastProcessed := Some(slot)) else p
  {
  }

  /** The plans after the tick has dealt with `done`. */
  ghost predicate PartlyTicked(before: map<nat, Plan>, after: map<nat, Plan>, done: seq<nat>, slot: int) {
    && after.Keys == before.Keys
    && forall id :: id in before ==> after[id] == if id in done then Ticked(before[id], slot) else before[id]
  }

  lemma PartlySnoc(before: map<nat, Plan>, after: map<nat, Plan>, done: seq<nat>, id: nat, slot: int)
    requires PartlyTicked(before, after, done, slot) && id in before && id !in done
    ensures id in after && after[id] == before[id]
    ensures PartlyTicked(before, if Takes(before[id], slot) then after[id := Ticked(before[id], slot)] else after,
                         done + [id], slot)
  {
    hide Takes;
  }

  lemma SendingsSnoc(plans: map<nat, Plan>, epoch: int, ids: seq<nat>, id: nat, slot: int)
    requires AllDerived(plans, epoch) && id in plans
    ensures Sendings(plans, epoch, ids + [id], slot)
         == (var before := Sendings(plans, epoch, ids, slot);
             if Takes(plans[id], slot) then before + [Sending(id, slot, BatchFor(plans[id], epoch, slot))] else before)
  {
    assert (ids + [id])[..|ids|] == ids;
  }

  lemma TickedAllIs(before: map<nat, Plan>, after: map<nat, Plan>, ids: seq<nat>, slot: int)
    requires PartlyTicked(before, after, ids, slot)
    requires forall id :: id in before && Spans(before[id], slot) ==> id in ids
    ensures after == TickedAll(before, slot) && after.Keys == before.Keys
  {
    hide Spans;
  }

  lemma SubmittedSnoc(sendings: seq<Sending>, s: Sending, accepts: PlanRequest -> bool)
    ensures Submitted(sendings + [s], accepts) == Submitted(sendings, accepts) + AcceptedOf(s.batch, accepts)
  {
    assert (sendings + [s])[..|sendings|] == sendings;
  }

  // ── whole runs ─────────────────────────────────────────────────────────

  predicate HandedRest(p: Plan, slots: seq<int>, ticks: seq<int>, all: seq<int>) {
    slots + Handed(p.startSlot, p.slotCount, p.lastProcessed, ticks) == all
  }

  lemma HandedStep(p: Plan, slots: seq<int>, ticks: seq<int>, all: seq<int>)
    requires ticks != [] && HandedRest(p, slots, ticks, all)
    ensures HandedRest(Ticked(p, ticks[0]), slots + (if Takes(p, ticks[0]) then [ticks[0]] else []), ticks[1..], all)
  {
    if Takes(p, ticks[0]) {
      var rest := Handed(p.startSlot, p.slotCount, Some(ticks[0]), ticks[1..]);
      assert slots + ([ticks[0]] + rest) == (slots + [ticks[0]]) + rest;
    } else {
      assert slots + [] == slots;
    }
  }

  lemma HandedStepAll(plans: map<nat, Plan>, sent: seq<Sending>, epoch: int, n: nat, ticks: seq<int>,
                      all: map<nat, seq<int>>)
    requires ticks != [] && AllDerived(plans, epoch) && plans.Keys == all.Keys && forall id :: id in plans ==> id < n
    requires forall id :: id in plans ==> HandedRest(plans[id], Of(sent, id), ticks, all[id])
    ensures var after := sent + Sendings(plans, epoch, Concerned(plans, n, ticks[0]), ticks[0]);
            forall id :: id in plans ==> HandedRest(TickedAll(plans, ticks[0])[id], Of(after, id), ticks[1..], all[id])
  {
    hide AllDerived, Of, Concerned, Sendings, Takes, HandedRest, Ticked;
    forall id | id in plans
      ensures HandedRest(Ticked(plans[id], ticks[0]),
                         Of(sent + Sendings(plans, epoch, Concerned(plans, n, ticks[0]), ticks[0]), id), ticks[1..], all[id])
    {
      OfTick(sent, plans, epoch, n, ticks[0], id);
      HandedStep(plans[id], Of(sent, id), ticks, all[id]);
    }
  }

  /** Any sequence of ticks, late, repeated or out of order. */
  method ServeTicks(store: Store, ticks: seq<int>, accepts: PlanRequest -> bool)
    requires store.Valid()
    modifies store
    ensures store.Valid() && store.plans.Keys == old(store.plans).Keys
    ensures forall id :: id in old(store.plans) ==>
              var p := old(store.plans)[id];
              && store.plans[id] == p.(lastProcessed := store.plans[id].lastProcessed)
              && Of(store.sent, id) == Of(old(store.sent), id) + Handed(p.startSlot, p.slotCount, p.lastProcessed, ticks)
  {
    hide Of, Handed, Sendings, Concerned, InStep, Faithful, AllDerived, HandedRest;
    ghost var all := map id | id in store.plans ::
      var p := store.plans[id]; Of(store.sent, id) + Handed(p.startSlot, p.slotCount, p.lastProcessed, ticks);
    AllToCome(store.plans, store.sent, ticks, all);
    assert ticks[0..] == ticks;
    for k := 0 to |ticks|
      invariant store.Valid() && store.plans.Keys == all.Keys
      invariant forall id :: id in all ==>
        store.plans[id] == old(store.plans)[id].(lastProcessed := store.plans[id].lastProcessed)
      invariant forall id :: id in all ==> HandedRest(store.plans[id], Of(store.sent, id), ticks[k..], all[id])
    {
      assert ticks[k..][0] == ticks[k] && ticks[k..][1..] == ticks[k + 1..];
      HandedStepAll(store.plans, store.sent, store.epoch, store.nextPlanId, ticks[k..], all);
      var r := store.ProcessSlotTick(ticks[k], accepts);
    }
    assert ticks[|ticks|..] == [];
    AllCame(store.plans, store.sent, all);
  }

  lemma AllToCome(plans: map<nat, Plan>, sent: seq<Sending>, ticks: seq<int>, all: map<nat, seq<int>>)
    requires plans.Keys == all.Keys
    requires forall id :: id in plans ==>
      all[id] == Of(sent, id) + Handed(plans[id].startSlot, plans[id].slotCount, plans[id].lastProcessed, ticks)
    ensures forall id :: id in all ==> HandedRest(plans[id], Of(sent, id), ticks, all[id])
  {
    hide Of, Handed;
  }

  lemma AllCame(plans: map<nat, Plan>, sent: seq<Sending>, all: map<nat, seq<int>>)
    requires plans.Keys == all.Keys
    requires forall id :: id in all ==> HandedRest(plans[id], Of(sent, id), [], all[id])
    ensures forall id :: id in all ==> Of(sent, id) == all[id]
  {
    hide Of;
  }

  function Requests(sent: seq<Sending>): seq<PlanRequest> {
    if sent == [] then [] else Requests(sent[..|sent| - 1]) + sent[|sent| - 1].batch
  }

  lemma {:induction false} RequestsAre(sent: seq<Sending>, plans: map<nat, Plan>, epoch: int, id: nat)
    requires AllDerived(plans, epoch) && Faithful(sent, plans, epoch) && plans.Keys == {id}
    ensures Requests(sent) == Delivered(plans[id], epoch, Of(sent, id))
  {
    hide AllDerived, Batch, SlotNumber, SlotCount;
    DerivedOne(plans, epoch, id);
    if sent != [] {
      var front, last := sent[..|sent| - 1], sent[|sent| - 1];
      assert forall i :: 0 <= i < |front| ==> front[i] == sent[i];
      assert last == sent[|sent| - 1];
      RequestsAre(front, plans, epoch, id);
      DeliveredSnoc(plans[id], epoch, Of(front, id), last.slot);
    }
  }

  lemma {:induction false} DeliveredSnoc(p: Plan, epoch: int, slots: seq<int>, slot: int)
    requires Sound(GridOf(p, epoch)) && p.requests != []
    ensures Delivered(p, epoch, slots + [slot]) == Delivered(p, epoch, slots) + BatchFor(p, epoch, slot)
  {
    hide BatchFor;
    if slots == [] {
      assert [slot][1..] == [];
    } else {
      assert (slots + [slot])[1..] == slots[1..] + [slot];
      DeliveredSnoc(p, epoch, slots[1..], slot);
    }
  }

  /** A plan's life: stored, then ticked in any way. No slot's batch is handed
      over twice; which are handed over is settled by the ticks; and over
      gap-free ticks every request is handed over exactly once if and only if
      none starts in a slot before the first one's. */
  method PlanLife(requests: seq<PlanRequest>, slotLength: int, epoch: int, ticks: seq<int>, accepts: PlanRequest -> bool)
      returns (sent: seq<Sending>)
    requires slotLength > 0
    ensures requests == [] ==> sent == []
    ensures requests != [] ==>
            var g := Grid(slotLength, epoch);
            var start, count := SlotNumber(requests[0].startAt, g), SlotCount(requests, g);
            && Of(sent, 1) == Handed(start, count, None, ticks)
            && (forall i, j :: 0 <= i < j < |Of(sent, 1)| ==> Of(sent, 1)[i] != Of(sent, 1)[j])
            && (forall slot :: slot in Of(sent, 1) <==>
                  InRange(start, count, slot) && TickedInTime(start, count, ticks, slot))
            && (GapFree(ticks) && ticks != [] && ticks[0] <= start && start + count - 1 <= ticks[|ticks| - 1] ==>
                  (multiset(Requests(sent)) == multiset(requests) <==> FirstIsEarliest(requests, g)))
  {
    hide SlotNumber, SlotCount, Batch, Handed, TickedInTime, GapFree, FirstIsEarliest, Faithful, Of, Delivered, Requests;
    var store := new Store(epoch);
    var r := store.StorePlan(requests, slotLength);
    if r.ValueError? {
      return [];
    }
    ghost var p := store.plans[1];
    assert store.plans.Keys == {1};
    OfNothing(1);
    ServeTicks(store, ticks, accepts);
    sent := store.sent;
    assert [] + Handed(p.startSlot, p.slotCount, None, ticks) == Handed(p.startSlot, p.slotCount, None, ticks);
    RequestsAre(sent, store.plans, epoch, 1);
    DeliveredSame(store.plans[1], p, epoch, Of(sent, 1));
    LifeFacts(p, epoch, ticks);
  }

  lemma {:induction false} DeliveredSame(p: Plan, q: Plan, epoch: int, slots: seq<int>)
    requires p == q.(lastProcessed := p.lastProcessed) && Sound(GridOf(p, epoch)) && p.requests != []
    ensures Delivered(p, epoch, slots) == Delivered(q, epoch, slots)
  {
    hide Batch;
    if slots != [] {
      DeliveredSame(p, q, epoch, slots[1..]);
    }
  }

  lemma LifeFacts(p: Plan, epoch: int, ticks: seq<int>)
    requires Derived(p, epoch) && p.lastProcessed == None
    ensures var slots := Handed(p.startSlot, p.slotCount, None, ticks);
            && (forall i, j :: 0 <= i < j < |slots| ==> slots[i] != slots[j])
            && (forall slot :: slot in slots <==>
                  InRange(p.startSlot, p.slotCount, slot) && TickedInTime(p.startSlot, p.slotCount, ticks, slot))
            && (GapFree(ticks) && ticks != [] && ticks[0] <= p.startSlot
                && p.startSlot + p.slotCount - 1 <= ticks[|ticks| - 1] ==>
                  (multiset(Delivered(p, epoch, slots)) == multiset(p.requests)
                   <==> FirstIsEarliest(p.requests, GridOf(p, epoch))))
  {
    hide SlotNumber, SlotCount, Batch, Handed, TickedInTime, GapFree, FirstIsEarliest, Delivered;
    HandedAscends(p.startSlot, p.slotCount, None, ticks);
    forall slot ensures slot in Handed(p.startSlot, p.slotCount, None, ticks)
                   <==> InRange(p.startSlot, p.slotCount, slot) && TickedInTime(p.startSlot, p.slotCount, ticks, slot)
    {
      HandedIff(p.startSlot, p.slotCount, None, ticks, slot);
    }
    if GapFree(ticks) && ticks != [] && ticks[0] <= p.startSlot && p.startSlot + p.slotCount - 1 <= ticks[|ticks| - 1] {
      GapFreeDeliversIff(p, epoch, ticks);
    }
  }
}
