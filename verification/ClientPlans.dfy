/** The client's plan store: plans are kept, not run; a tick for a global slot
    hands over the requests of every plan that fall in it, once. */
module ClientPlans {
  import opened Options
  import opened SlotGrid

  datatype PlanRequest = PlanRequest(name: string, startAt: int, deadlineAt: int)

  datatype Grid = Grid(slotLength: int, epoch: int)

  predicate Sound(g: Grid) { g.slotLength > 0 }

  /** The global slot an instant falls in. */
  function SlotNumber(t: int, g: Grid): int
    requires Sound(g)
  {
    SlotOf(FloorToSlot(t, g.slotLength, g.epoch), g.slotLength, g.epoch)
  }

  function SlotIndex(t: int, g: Grid, reference: int): int
    requires Sound(g)
  {
    Truncated(FloorToSlot(t, g.slotLength, g.epoch) - FloorToSlot(reference, g.slotLength, g.epoch), g.slotLength)
  }

  /** The index relative to a reference is the difference of the two global
      slots, whatever the reference's place inside its slot. */
  lemma IndexIsDifference(t: int, g: Grid, reference: int)
    requires Sound(g)
    ensures SlotIndex(t, g, reference) == SlotNumber(t, g) - SlotNumber(reference, g)
    ensures SlotNumber(t, g) == (t - g.epoch) / g.slotLength
  {
    var a, b := (t - g.epoch) / g.slotLength, (reference - g.epoch) / g.slotLength;
    SlotOfStart(a, g.slotLength, g.epoch);
    SlotOfStart(b, g.slotLength, g.epoch);
    SlotOfStart(a - b, g.slotLength, 0);
    Distribute(g.slotLength, a, b);
  }

  lemma Distribute(d: int, a: int, b: int)
    ensures d * (a - b) == d * a - d * b
  {
  }

  lemma LaterIsNotBefore(s: int, t: int, g: Grid)
    requires Sound(g) && s <= t
    ensures SlotNumber(s, g) <= SlotNumber(t, g)
  {
    IndexIsDifference(s, g, s);
    IndexIsDifference(t, g, t);
    var a, b := (s - g.epoch) / g.slotLength, (t - g.epoch) / g.slotLength;
    MulMonotone(g.slotLength, b + 1, a);
    Spread(g.slotLength, b);
  }

  // ── which requests a plan index holds ──────────────────────────────────

  function Batch(requests: seq<PlanRequest>, g: Grid, reference: int, index: int): seq<PlanRequest>
    requires Sound(g)
  {
    if requests == [] then []
    else
      var last := requests[|requests| - 1];
      Batch(requests[..|requests| - 1], g, reference, index)
      + if SlotIndex(last.startAt, g, reference) == index then [last] else []
  }

  function Latest(requests: seq<PlanRequest>): int
    requires requests != []
  {
    if |requests| == 1 then requests[0].startAt
    else
      var m := Latest(requests[..|requests| - 1]);
      if requests[|requests| - 1].startAt > m then requests[|requests| - 1].startAt else m
  }

  function SlotCount(requests: seq<PlanRequest>, g: Grid): int
    requires requests != [] && Sound(g)
  {
    SlotNumber(Latest(requests), g) - SlotNumber(requests[0].startAt, g) + 1
  }

  lemma {:induction false} LatestBounds(requests: seq<PlanRequest>, i: nat)
    requires i < |requests|
    ensures requests[i].startAt <= Latest(requests)
  {
    if |requests| > 1 && i < |requests| - 1 {
      LatestBounds(requests[..|requests| - 1], i);
    } else if |requests| > 1 {
      LatestBounds(requests[..|requests| - 1], 0);
    }
  }

  /** No request starts in a slot before the first request's. */
  predicate FirstIsEarliest(requests: seq<PlanRequest>, g: Grid)
    requires requests != [] && Sound(g)
  {
    forall i :: 0 <= i < |requests| ==> SlotNumber(requests[0].startAt, g) <= SlotNumber(requests[i].startAt, g)
  }

  predicate Indexed(requests: seq<PlanRequest>, g: Grid, i: nat)
    requires i < |requests| && Sound(g)
  {
    0 <= SlotIndex(requests[i].startAt, g, requests[0].startAt) < SlotCount(requests, g)
  }

  /** Every request has its place among the plan's slots exactly when none is in
      a slot before the first request's. */
  lemma IndexedIff(requests: seq<PlanRequest>, g: Grid)
    requires requests != [] && Sound(g)
    ensures (forall i :: 0 <= i < |requests| ==> Indexed(requests, g, i)) <==> FirstIsEarliest(requests, g)
  {
    forall i | 0 <= i < |requests|
      ensures Indexed(requests, g, i)
         <==> SlotNumber(requests[0].startAt, g) <= SlotNumber(requests[i].startAt, g)
    {
      IndexIsDifference(requests[i].startAt, g, requests[0].startAt);
      LatestBounds(requests, i);
      LaterIsNotBefore(requests[i].startAt, Latest(requests), g);
    }
  }

  /** The requests of several indices, in the order given. */
  function Batches(requests: seq<PlanRequest>, g: Grid, reference: int, indices: seq<int>): seq<PlanRequest>
    requires Sound(g)
  {
    if indices == [] then []
    else Batch(requests, g, reference, indices[0]) + Batches(requests, g, reference, indices[1..])
  }

  function Times(indices: seq<int>, index: int): nat {
    if indices == [] then 0 else (if indices[0] == index then 1 else 0) + Times(indices[1..], index)
  }

  lemma BatchSnoc(requests: seq<PlanRequest>, r: PlanRequest, g: Grid, reference: int, index: int)
    requires Sound(g)
    ensures Batch(requests + [r], g, reference, index)
         == Batch(requests, g, reference, index) + if SlotIndex(r.startAt, g, reference) == index then [r] else []
  {
    assert (requests + [r])[..|requests|] == requests;
  }

  function Copies(r: PlanRequest, n: nat): multiset<PlanRequest> { multiset{}[r := n] }

  lemma CopiesAdd(r: PlanRequest, m: nat, n: nat)
    ensures Copies(r, m) + Copies(r, n) == Copies(r, m + n)
    ensures Copies(r, 0) == multiset{} && Copies(r, 1) == multiset{r}
  {
  }

  /** Adding a request to a plan adds it once for every time its index is listed. */
  lemma {:induction false} BatchesSnoc(requests: seq<PlanRequest>, r: PlanRequest, g: Grid, reference: int,
                                       indices: seq<int>)
    requires Sound(g)
    ensures multiset(Batches(requests + [r], g, reference, indices))
         == multiset(Batches(requests, g, reference, indices)) + Copies(r, Times(indices, SlotIndex(r.startAt, g, reference)))
  {
    hide SlotIndex, Batch;
    var index := SlotIndex(r.startAt, g, reference);
    if indices == [] {
      CopiesAdd(r, 0, 0);
    } else {
      BatchSnoc(requests, r, g, reference, indices[0]);
      BatchesSnoc(requests, r, g, reference, indices[1..]);
      CopiesAdd(r, if indices[0] == index then 1 else 0, Times(indices[1..], index));
    }
  }

  lemma {:induction false} BatchesOfNothing(g: Grid, reference: int, indices: seq<int>)
    requires Sound(g)
    ensures Batches([], g, reference, indices) == []
  {
    if indices != [] {
      BatchesOfNothing(g, reference, indices[1..]);
    }
  }

  /** If the listed indices hold each request's index once, each request is in
      the batches exactly as often as in the plan. */
  lemma {:induction false} BatchesConserve(requests: seq<PlanRequest>, g: Grid, reference: int, indices: seq<int>)
    requires Sound(g)
    requires forall i :: 0 <= i < |requests| ==> Times(indices, SlotIndex(requests[i].startAt, g, reference)) == 1
    ensures multiset(Batches(requests, g, reference, indices)) == multiset(requests)
  {
    hide SlotIndex, Times, Batch;
    if requests == [] {
      BatchesOfNothing(g, reference, indices);
    } else {
      var front, last := requests[..|requests| - 1], requests[|requests| - 1];
      assert requests == front + [last];
      BatchesConserve(front, g, reference, indices);
      BatchesSnoc(front, last, g, reference, indices);
      CopiesAdd(last, 0, 1);
    }
  }

  /** A request whose index is not listed is missing from the batches. */
  lemma {:induction false} BatchesMiss(requests: seq<PlanRequest>, g: Grid, reference: int, indices: seq<int>)
    requires Sound(g)
    requires exists i :: 0 <= i < |requests| && Times(indices, SlotIndex(requests[i].startAt, g, reference)) == 0
    requires forall i :: 0 <= i < |requests| ==> Times(indices, SlotIndex(requests[i].startAt, g, reference)) <= 1
    ensures |Batches(requests, g, reference, indices)| < |requests|
  {
    hide SlotIndex, Times, Batch;
    var front, last := requests[..|requests| - 1], requests[|requests| - 1];
    assert requests == front + [last];
    BatchesSnoc(front, last, g, reference, indices);
    BatchesAtMost(front, g, reference, indices);
    CopiesAdd(last, 0, 1);
    assert |Batches(requests, g, reference, indices)| == |multiset(Batches(requests, g, reference, indices))|;
    if Times(indices, SlotIndex(last.startAt, g, reference)) != 0 {
      var i :| 0 <= i < |requests| && Times(indices, SlotIndex(requests[i].startAt, g, reference)) == 0;
      assert front[i] == requests[i];
      BatchesMiss(front, g, reference, indices);
    }
  }

  lemma {:induction false} BatchesAtMost(requests: seq<PlanRequest>, g: Grid, reference: int, indices: seq<int>)
    requires Sound(g)
    requires forall i :: 0 <= i < |requests| ==> Times(indices, SlotIndex(requests[i].startAt, g, reference)) <= 1
    ensures |Batches(requests, g, reference, indices)| <= |requests|
  {
    hide SlotIndex, Times, Batch;
    if requests == [] {
      BatchesOfNothing(g, reference, indices);
    } else {
      var front, last := requests[..|requests| - 1], requests[|requests| - 1];
      assert requests == front + [last];
      BatchesAtMost(front, g, reference, indices);
      BatchesSnoc(front, last, g, reference, indices);
      CopiesAdd(last, 0, 1);
      assert |Batches(requests, g, reference, indices)| == |multiset(Batches(requests, g, reference, indices))|;
    }
  }

  // ── which slots a sequence of ticks hands over ─────────────────────────

  predicate InRange(start: int, count: int, slot: int) { start <= slot < start + count }

  predicate Beyond(last: Option<int>, slot: int) { last.None? || slot > last.value }

  /** The slots of one plan handed over by a sequence of ticks, in order. */
  function Handed(start: int, count: int, last: Option<int>, ticks: seq<int>): seq<int>
    decreases |ticks|
  {
    if ticks == [] then []
    else if InRange(start, count, ticks[0]) && Beyond(last, ticks[0])
      then [ticks[0]] + Handed(start, count, Some(ticks[0]), ticks[1..])
    else Handed(start, count, last, ticks[1..])
  }

  predicate Ascending(slots: seq<int>) {
    forall i, j :: 0 <= i < j < |slots| ==> slots[i] < slots[j]
  }

  predicate Between(start: int, count: int, last: Option<int>, slots: seq<int>) {
    forall i :: 0 <= i < |slots| ==> InRange(start, count, slots[i]) && Beyond(last, slots[i])
  }

  /** Strictly ascending, so no slot is ever handed over twice. */
  lemma {:induction false} HandedAscends(start: int, count: int, last: Option<int>, ticks: seq<int>)
    ensures Ascending(Handed(start, count, last, ticks))
    ensures Between(start, count, last, Handed(start, count, last, ticks))
    decreases |ticks|
  {
    if ticks != [] {
      var t := ticks[0];
      if InRange(start, count, t) && Beyond(last, t) {
        HandedAscends(start, count, Some(t), ticks[1..]);
        var rest, hs := Handed(start, count, Some(t), ticks[1..]), Handed(start, count, last, ticks);
        assert hs == [t] + rest;
      } else {
        HandedAscends(start, count, last, ticks[1..]);
      }
    }
  }

  /** Some tick names the slot before any tick names a later slot of the plan. */
  predicate TickedInTime(start: int, count: int, ticks: seq<int>, slot: int) {
    exists i :: 0 <= i < |ticks| && ticks[i] == slot && NoneLater(start, count, ticks, slot, i)
  }

  predicate NoneLater(start: int, count: int, ticks: seq<int>, slot: int, i: nat)
    requires i <= |ticks|
  {
    forall j :: 0 <= j < i && InRange(start, count, ticks[j]) ==> ticks[j] <= slot
  }

  lemma TickedNow(start: int, count: int, ticks: seq<int>, slot: int)
    requires ticks != [] && ticks[0] == slot
    ensures TickedInTime(start, count, ticks, slot)
  {
    assert NoneLater(start, count, ticks, slot, 0);
  }

  lemma TickedStill(start: int, count: int, ticks: seq<int>, slot: int)
    requires ticks != [] && (InRange(start, count, ticks[0]) ==> ticks[0] <= slot)
    requires TickedInTime(start, count, ticks[1..], slot)
    ensures TickedInTime(start, count, ticks, slot)
  {
    var rest := ticks[1..];
    var i :| 0 <= i < |rest| && rest[i] == slot && NoneLater(start, count, rest, slot, i);
    assert forall j :: 0 < j <= i + 1 ==> ticks[j] == rest[j - 1];
    assert NoneLater(start, count, ticks, slot, i + 1);
  }

  lemma TickedBefore(start: int, count: int, ticks: seq<int>, slot: int)
    requires ticks != [] && ticks[0] != slot && TickedInTime(start, count, ticks, slot)
    ensures InRange(start, count, ticks[0]) ==> ticks[0] <= slot
    ensures TickedInTime(start, count, ticks[1..], slot)
  {
    var i :| 0 <= i < |ticks| && ticks[i] == slot && NoneLater(start, count, ticks, slot, i);
    assert ticks[1..][i - 1] == slot;
    assert NoneLater(start, count, ticks[1..], slot, i - 1);
  }

  lemma TickedInTimeTail(start: int, count: int, ticks: seq<int>, slot: int)
    requires ticks != []
    ensures TickedInTime(start, count, ticks, slot)
       <==> (ticks[0] == slot || ((InRange(start, count, ticks[0]) ==> ticks[0] <= slot)
                                  && TickedInTime(start, count, ticks[1..], slot)))
  {
    hide TickedInTime;
    if ticks[0] == slot {
      TickedNow(start, count, ticks, slot);
    } else {
      if TickedInTime(start, count, ticks, slot) {
        TickedBefore(start, count, ticks, slot);
      }
      if (InRange(start, count, ticks[0]) ==> ticks[0] <= slot) && TickedInTime(start, count, ticks[1..], slot) {
        TickedStill(start, count, ticks, slot);
      }
    }
  }

  /** Exactly which slots are handed over by any sequence of ticks, late,
      repeated or out of order: those of the plan, not yet passed, that are named
      before a later one is. */
  lemma {:induction false} HandedIff(start: int, count: int, last: Option<int>, ticks: seq<int>, slot: int)
    ensures slot in Handed(start, count, last, ticks)
       <==> InRange(start, count, slot) && Beyond(last, slot) && TickedInTime(start, count, ticks, slot)
    decreases |ticks|
  {
    hide TickedInTime;
    if ticks == [] {
      NoTicks(start, count, slot);
    } else {
      TickedInTimeTail(start, count, ticks, slot);
      var t := ticks[0];
      if InRange(start, count, t) && Beyond(last, t) {
        HandedIff(start, count, Some(t), ticks[1..], slot);
      } else {
        HandedIff(start, count, last, ticks[1..], slot);
      }
    }
  }

  lemma NoTicks(start: int, count: int, slot: int)
    ensures !TickedInTime(start, count, [], slot)
  {
  }

  /** Ticks that never step back nor skip a slot; repetitions are allowed. */
  predicate GapFree(ticks: seq<int>) {
    forall i :: 0 <= i < |ticks| - 1 ==> ticks[i] <= ticks[i + 1] <= ticks[i] + 1
  }

  predicate FirstAt(ticks: seq<int>, slot: int, i: nat) {
    i < |ticks| && ticks[i] == slot && forall j :: 0 <= j < i ==> ticks[j] < slot
  }

  lemma {:induction false} GapFreeHits(ticks: seq<int>, slot: int)
    requires GapFree(ticks) && ticks != [] && ticks[0] <= slot <= ticks[|ticks| - 1]
    ensures exists i: nat :: FirstAt(ticks, slot, i)
  {
    if ticks[0] == slot {
      assert FirstAt(ticks, slot, 0);
    } else {
      var rest := ticks[1..];
      assert forall i :: 0 <= i < |rest| ==> rest[i] == ticks[i + 1];
      GapFreeHits(rest, slot);
      var i: nat :| FirstAt(rest, slot, i);
      assert forall j :: 0 < j < i + 1 ==> ticks[j] == rest[j - 1];
      assert FirstAt(ticks, slot, i + 1);
    }
  }

  /** Gap-free ticks over the whole plan hand over every slot of it once. */
  lemma GapFreeHandsAll(start: int, count: int, ticks: seq<int>, slot: int)
    requires GapFree(ticks) && ticks != [] && ticks[0] <= start && start + count - 1 <= ticks[|ticks| - 1]
    requires InRange(start, count, slot)
    ensures Times(Handed(start, count, None, ticks), slot) == 1
  {
    GapFreeHits(ticks, slot);
    var i: nat :| FirstAt(ticks, slot, i);
    assert NoneLater(start, count, ticks, slot, i);
    HandedIff(start, count, None, ticks, slot);
    HandedAscends(start, count, None, ticks);
    TimesInAscending(Handed(start, count, None, ticks), slot);
  }

  lemma {:induction false} TimesInAscending(indices: seq<int>, index: int)
    requires Ascending(indices)
    ensures Times(indices, index) == if index in indices then 1 else 0
  {
    if indices != [] {
      TimesInAscending(indices[1..], index);
    }
  }

  // ── the plan store ─────────────────────────────────────────────────────

  datatype Plan = Plan(requests: seq<PlanRequest>, slotLength: int, startSlot: int, slotCount: int,
                       lastProcessed: Option<int>)

  function GridOf(p: Plan, epoch: int): Grid { Grid(p.slotLength, epoch) }

  predicate Derived(p: Plan, epoch: int) {
    var g := GridOf(p, epoch);
    && Sound(g) && p.requests != []
    && p.startSlot == SlotNumber(p.requests[0].startAt, g) && p.slotCount == SlotCount(p.requests, g)
  }

  predicate Spans(p: Plan, slot: int) { InRange(p.startSlot, p.slotCount, slot) }

  predicate Takes(p: Plan, slot: int) { Spans(p, slot) && Beyond(p.lastProcessed, slot) }

  function Ticked(p: Plan, slot: int): Plan { if Takes(p, slot) then p.(lastProcessed := Some(slot)) else p }

  function BatchFor(p: Plan, epoch: int, slot: int): seq<PlanRequest>
    requires Sound(GridOf(p, epoch)) && p.requests != []
  {
    Batch(p.requests, GridOf(p, epoch), p.requests[0].startAt, slot - p.startSlot)
  }

  /** Over a whole plan: gap-free ticks hand over every request exactly once if
      and only if no request starts in a slot before the first one's. */
  lemma GapFreeDeliversIff(p: Plan, epoch: int, ticks: seq<int>)
    requires Derived(p, epoch) && p.lastProcessed == None
    requires GapFree(ticks) && ticks != []
    requires ticks[0] <= p.startSlot && p.startSlot + p.slotCount - 1 <= ticks[|ticks| - 1]
    ensures multiset(Delivered(p, epoch, Handed(p.startSlot, p.slotCount, None, ticks))) == multiset(p.requests)
       <==> FirstIsEarliest(p.requests, GridOf(p, epoch))
  {
    hide Handed, SlotIndex, GapFree, FirstIsEarliest, SlotCount, SlotNumber, Batch;
    var g, reference := GridOf(p, epoch), p.requests[0].startAt;
    var slots := Handed(p.startSlot, p.slotCount, None, ticks);
    var indices := Shifted(slots, p.startSlot);
    DeliveredIs(p, epoch, slots);
    IndexedIff(p.requests, g);
    forall i | 0 <= i < |p.requests|
      ensures Times(indices, SlotIndex(p.requests[i].startAt, g, reference)) == if Indexed(p.requests, g, i) then 1 else 0
    {
      ShiftedOnce(p.startSlot, p.slotCount, ticks, SlotIndex(p.requests[i].startAt, g, reference));
    }
    if FirstIsEarliest(p.requests, g) {
      BatchesConserve(p.requests, g, reference, indices);
    } else {
      BatchesMiss(p.requests, g, reference, indices);
      SizeOf(p.requests);
      SizeOf(Delivered(p, epoch, slots));
    }
  }

  lemma SizeOf(requests: seq<PlanRequest>)
    ensures |multiset(requests)| == |requests|
  {
  }

  function Shifted(slots: seq<int>, start: int): seq<int> {
    if slots == [] then [] else [slots[0] - start] + Shifted(slots[1..], start)
  }

  function Delivered(p: Plan, epoch: int, slots: seq<int>): seq<PlanRequest>
    requires Sound(GridOf(p, epoch)) && p.requests != []
  {
    if slots == [] then [] else BatchFor(p, epoch, slots[0]) + Delivered(p, epoch, slots[1..])
  }

  lemma {:induction false} DeliveredIs(p: Plan, epoch: int, slots: seq<int>)
    requires Sound(GridOf(p, epoch)) && p.requests != []
    ensures Delivered(p, epoch, slots)
         == Batches(p.requests, GridOf(p, epoch), p.requests[0].startAt, Shifted(slots, p.startSlot))
  {
    hide Batch;
    if slots != [] {
      DeliveredIs(p, epoch, slots[1..]);
    }
  }

  lemma {:induction false} TimesShifted(slots: seq<int>, start: int, index: int)
    ensures Times(Shifted(slots, start), index) == Times(slots, start + index)
  {
    if slots != [] {
      TimesShifted(slots[1..], start, index);
    }
  }

  lemma ShiftedOnce(start: int, count: int, ticks: seq<int>, index: int)
    requires GapFree(ticks) && ticks != [] && ticks[0] <= start && start + count - 1 <= ticks[|ticks| - 1]
    ensures Times(Shifted(Handed(start, count, None, ticks), start), index) == if 0 <= index < count then 1 else 0
  {
    hide Handed, GapFree;
    TimesShifted(Handed(start, count, None, ticks), start, index);
    if 0 <= index < count {
      GapFreeHandsAll(start, count, ticks, start + index);
    } else {
      HandedIff(start, count, None, ticks, start + index);
      HandedAscends(start, count, None, ticks);
      TimesInAscending(Handed(start, count, None, ticks), start + index);
    }
  }

  /** A request in an earlier slot than the first one's is never handed over,
      whatever the ticks: here the second of two. */
  lemma EarlyRequestIsLost(ticks: seq<int>)
    ensures var early := PlanRequest("early", 0, 100);
            var g := Grid(10, 0);
            var requests := [PlanRequest("first", 25, 100), early];
            && SlotNumber(25, g) == 2 && SlotCount(requests, g) == 1
            && early !in Batches(requests, g, 25, Shifted(Handed(2, 1, None, ticks), 2))
  {
    var early, g := PlanRequest("early", 0, 100), Grid(10, 0);
    var requests := [PlanRequest("first", 25, 100), early];
    IndexIsDifference(25, g, 25);
    IndexIsDifference(0, g, 25);
    assert requests[..1] == [requests[0]];
    assert Latest(requests[..1]) == 25;
    assert Latest(requests) == 25;
    var slots := Handed(2, 1, None, ticks);
    HandedAscends(2, 1, None, ticks);
    assert forall i :: 0 <= i < |slots| ==> InRange(2, 1, slots[i]);
    assert SlotIndex(0, g, 25) == -2;
    NotInBatches(requests, g, 25, slots, 2, early);
  }

  lemma {:induction false} NotInBatches(requests: seq<PlanRequest>, g: Grid, reference: int, slots: seq<int>, start: int,
                                        r: PlanRequest)
    requires Sound(g) && forall i :: 0 <= i < |slots| ==> slots[i] - start != SlotIndex(r.startAt, g, reference)
    ensures r !in Batches(requests, g, reference, Shifted(slots, start))
  {
    hide SlotIndex, Batch;
    if slots != [] {
      InBatch(requests, g, reference, slots[0] - start, r);
      NotInBatches(requests, g, reference, slots[1..], start, r);
    }
  }

  lemma {:induction false} InBatch(requests: seq<PlanRequest>, g: Grid, reference: int, index: int, r: PlanRequest)
    requires Sound(g)
    ensures r in Batch(requests, g, reference, index) ==> SlotIndex(r.startAt, g, reference) == index
  {
    hide SlotIndex;
    if requests != [] {
      InBatch(requests[..|requests| - 1], g, reference, index, r);
    }
  }
}
