/** What a tier-checked commit promises: whole batches only, and no request at a
    dearer tier than the solver assumed for its slot. */
module CheckedCommit {
  import opened Tiers
  import opened Ledger

  function InSlot(m: map<nat, Assignment>, slot: nat): set<nat> {
    set id | id in m && m[id].scheduledSlot == slot
  }

  /** Occupancy of a slot over all profiles. */
  function SlotCount(m: map<nat, Assignment>, slot: nat): nat {
    |InSlot(m, slot)|
  }

  function BatchCount(batch: seq<Assignment>, slot: nat): nat {
    if batch == [] then 0
    else BatchCount(batch[..|batch| - 1], slot) + if batch[|batch| - 1].scheduledSlot == slot then 1 else 0
  }

  function RecordAll(b: Book, batch: seq<Assignment>): (after: Book)
    requires ProfilesKnown(b)
    ensures ProfilesKnown(after)
  {
    if batch == [] then b else Record(RecordAll(b, batch[..|batch| - 1]), batch[|batch| - 1])
  }

  function BaselineAt(baseline: map<nat, int>, slot: nat): int {
    if slot in baseline then baseline[slot] else 0
  }

  /** `expected` is the occupancy the solver priced against, on the batch's own slots. */
  ghost predicate ExpectedFrom(baseline: map<nat, int>, batch: seq<Assignment>, expected: map<nat, int>) {
    && (forall slot :: slot in expected <==> BatchCount(batch, slot) > 0)
    && forall slot :: slot in expected ==> expected[slot] == BaselineAt(baseline, slot) + BatchCount(batch, slot)
  }

  lemma {:induction false} BatchCountPositive(batch: seq<Assignment>, slot: nat)
    ensures BatchCount(batch, slot) > 0 <==> exists i :: 0 <= i < |batch| && batch[i].scheduledSlot == slot
  {
    if batch != [] {
      var front := batch[..|batch| - 1];
      BatchCountPositive(front, slot);
      if exists i :: 0 <= i < |batch| && batch[i].scheduledSlot == slot {
        var i :| 0 <= i < |batch| && batch[i].scheduledSlot == slot;
        assert i < |front| ==> front[i].scheduledSlot == slot;
      }
      assert forall i :: 0 <= i < |front| ==> batch[i] == front[i];
      assert batch[|batch| - 1] == batch[|front|];
    }
  }

  /** Baseline plus one per proposed assignment, then only the batch's slots. */
  method ExpectedPerSlot(baseline: map<nat, int>, batch: seq<Assignment>) returns (expected: map<nat, int>)
    ensures ExpectedFrom(baseline, batch, expected)
  {
    var counts := baseline;
    for i := 0 to |batch|
      invariant forall slot :: BaselineAt(counts, slot) == BaselineAt(baseline, slot) + BatchCount(batch[..i], slot)
      invariant forall slot :: BatchCount(batch[..i], slot) > 0 ==> slot in counts
    {
      assert batch[..i + 1][..i] == batch[..i];
      var slot := batch[i].scheduledSlot;
      counts := counts[slot := BaselineAt(counts, slot) + 1];
    }
    assert batch[..|batch|] == batch;
    expected := map slot | slot in counts && exists i :: 0 <= i < |batch| && batch[i].scheduledSlot == slot :: counts[slot];
    forall slot ensures slot in expected <==> BatchCount(batch, slot) > 0 {
      BatchCountPositive(batch, slot);
    }
    assert forall slot :: slot in expected ==> counts[slot] == BaselineAt(counts, slot);
  }

  /** The batch would lift this slot into a dearer tier than the solver expected. */
  predicate BreachAt(b: Book, batch: seq<Assignment>, expected: map<nat, int>, tiers: seq<CapacityTier>, slot: nat)
    requires slot in expected
  {
    var after := SlotCount(b.assignments, slot) + BatchCount(batch, slot);
    after > expected[slot] && Multiplier(tiers, after) > Multiplier(tiers, expected[slot])
  }

  ghost predicate Breaches(b: Book, batch: seq<Assignment>, expected: map<nat, int>, tiers: seq<CapacityTier>) {
    exists slot :: slot in expected && BreachAt(b, batch, expected, tiers, slot)
  }

  /** The rows of a batch that are in `slot`. */
  function RowsIn(batch: seq<Assignment>, slot: nat): set<nat> {
    set i: nat | i < |batch| && batch[i].scheduledSlot == slot
  }

  /** With the batch in it, some slot of the batch would hold more than the solver
      expected, at a dearer tier. */
  ghost predicate Oversteps(b: Book, batch: seq<Assignment>, expected: map<nat, int>, tiers: seq<CapacityTier>) {
    exists slot :: slot in expected && OverstepsAt(b, batch, expected[slot], tiers, slot)
  }

  ghost predicate OverstepsAt(b: Book, batch: seq<Assignment>, expected: int, tiers: seq<CapacityTier>, slot: nat) {
    var there := set id | id in b.assignments && b.assignments[id].scheduledSlot == slot;
    var after := |there| + |RowsIn(batch, slot)|;
    expected < after && Multiplier(tiers, expected) < Multiplier(tiers, after)
  }

  lemma {:induction false} BatchCountIs(batch: seq<Assignment>, slot: nat)
    ensures BatchCount(batch, slot) == |RowsIn(batch, slot)|
  {
    if batch != [] {
      var front := batch[..|batch| - 1];
      BatchCountIs(front, slot);
      assert RowsIn(batch, slot) == RowsIn(front, slot) + if batch[|front|].scheduledSlot == slot then {|front|} else {};
    }
  }

  lemma BreachesAre(b: Book, batch: seq<Assignment>, expected: map<nat, int>, tiers: seq<CapacityTier>)
    ensures Breaches(b, batch, expected, tiers) <==> Oversteps(b, batch, expected, tiers)
  {
    hide BatchCount, RowsIn, Multiplier;
    forall slot | slot in expected
      ensures BreachAt(b, batch, expected, tiers, slot) <==> OverstepsAt(b, batch, expected[slot], tiers, slot)
    {
      BatchCountIs(batch, slot);
      assert InSlot(b.assignments, slot) == set id | id in b.assignments && b.assignments[id].scheduledSlot == slot;
    }
  }

  /** Under an installable ladder the check refuses exactly when some slot's
      last request would sit in a dearer tier than it was priced at. */
  lemma BreachIsDearerTier(b: Book, batch: seq<Assignment>, expected: map<nat, int>, tiers: seq<CapacityTier>)
    requires ValidLadder(tiers)
    ensures Breaches(b, batch, expected, tiers) <==>
              exists slot :: slot in expected && Multiplier(tiers, SlotCount(b.assignments, slot) + BatchCount(batch, slot))
                                                > Multiplier(tiers, expected[slot])
  {
    hide SlotCount, BatchCount, Multiplier, ValidLadder;
    forall slot | slot in expected
      ensures BreachAt(b, batch, expected, tiers, slot)
         <==> Multiplier(tiers, SlotCount(b.assignments, slot) + BatchCount(batch, slot)) > Multiplier(tiers, expected[slot])
    {
      var after := SlotCount(b.assignments, slot) + BatchCount(batch, slot);
      if after <= expected[slot] {
        LadderMonotone(tiers, after, expected[slot]);
      }
    }
  }

  /** A batch solved against an occupancy nobody has added to since is never
      refused, whatever the ladder: the reason serialized workers do not roll back. */
  lemma UncontendedNeverRollsBack(b: Book, batch: seq<Assignment>, baseline: map<nat, int>, expected: map<nat, int>,
                                  tiers: seq<CapacityTier>)
    requires ExpectedFrom(baseline, batch, expected)
    requires forall slot :: slot in expected ==> SlotCount(b.assignments, slot) <= BaselineAt(baseline, slot)
    ensures !Breaches(b, batch, expected, tiers)
  {
    hide SlotCount, BatchCount, Multiplier, BaselineAt;
    assert forall slot :: slot in expected ==> !BreachAt(b, batch, expected, tiers, slot);
  }

  /** No id of the batch is committed yet, and none occurs twice in it. */
  ghost predicate Fresh(b: Book, batch: seq<Assignment>) {
    && (forall i :: 0 <= i < |batch| ==> batch[i].requestId !in b.assignments)
    && forall i, j :: 0 <= i < j < |batch| ==> batch[i].requestId != batch[j].requestId
  }

  /** The assignment map with a batch entered as it is. */
  function PutAll(m: map<nat, Assignment>, batch: seq<Assignment>): map<nat, Assignment> {
    if batch == [] then m
    else
      var a := batch[|batch| - 1];
      PutAll(m, batch[..|batch| - 1])[a.requestId := a]
  }

  lemma {:induction false} PutAllMembers(m: map<nat, Assignment>, batch: seq<Assignment>, id: nat)
    ensures id in PutAll(m, batch) <==> id in m || exists i :: 0 <= i < |batch| && batch[i].requestId == id
    ensures (forall i :: 0 <= i < |batch| ==> batch[i].requestId != id) && id in m ==> PutAll(m, batch)[id] == m[id]
  {
    if batch != [] {
      var front := batch[..|batch| - 1];
      PutAllMembers(m, front, id);
      assert forall i :: 0 <= i < |front| ==> front[i] == batch[i];
      if id == batch[|front|].requestId {
      } else if exists i :: 0 <= i < |batch| && batch[i].requestId == id {
        var i :| 0 <= i < |batch| && batch[i].requestId == id;
        assert front[i].requestId == id;
      }
    }
  }

  lemma {:induction false} PutAllEntry(m: map<nat, Assignment>, batch: seq<Assignment>, i: nat)
    requires i < |batch|
    requires forall j, k :: 0 <= j < k < |batch| ==> batch[j].requestId != batch[k].requestId
    ensures batch[i].requestId in PutAll(m, batch) && PutAll(m, batch)[batch[i].requestId] == batch[i]
  {
    if i < |batch| - 1 {
      PutAllEntry(m, batch[..|batch| - 1], i);
    }
  }

  /** The batch's ids hold the batch's rows, all other ids what they held before. */
  ghost predicate RowsAsProposed(before: map<nat, Assignment>, batch: seq<Assignment>, after: map<nat, Assignment>) {
    && (forall i :: 0 <= i < |batch| ==> batch[i].requestId in after && after[batch[i].requestId] == batch[i])
    && (forall id :: id in before ==> id in after)
    && forall id :: id in after && (forall i :: 0 <= i < |batch| ==> batch[i].requestId != id) ==>
         id in before && after[id] == before[id]
  }

  lemma PutAllRows(m: map<nat, Assignment>, batch: seq<Assignment>)
    requires forall j, k :: 0 <= j < k < |batch| ==> batch[j].requestId != batch[k].requestId
    ensures RowsAsProposed(m, batch, PutAll(m, batch))
  {
    hide PutAll;
    forall i | 0 <= i < |batch|
      ensures batch[i].requestId in PutAll(m, batch) && PutAll(m, batch)[batch[i].requestId] == batch[i]
    {
      PutAllEntry(m, batch, i);
    }
    forall id ensures id in PutAll(m, batch) <==> id in m || exists i :: 0 <= i < |batch| && batch[i].requestId == id {
      PutAllMembers(m, batch, id);
    }
    forall id | id in m && forall i :: 0 <= i < |batch| ==> batch[i].requestId != id
      ensures PutAll(m, batch)[id] == m[id]
    {
      PutAllMembers(m, batch, id);
    }
  }

  lemma SlotCountPut(m: map<nat, Assignment>, id: nat, a: Assignment, slot: nat)
    requires id !in m
    ensures SlotCount(m[id := a], slot) == SlotCount(m, slot) + if a.scheduledSlot == slot then 1 else 0
  {
    if a.scheduledSlot == slot {
      assert InSlot(m[id := a], slot) == InSlot(m, slot) + {id};
    } else {
      assert InSlot(m[id := a], slot) == InSlot(m, slot);
    }
  }

  /** Committing a fresh batch enters exactly that batch, every slot grows by its
      share, and everybody's rows read afterwards as they were proposed or before. */
  lemma {:induction false} RecordAllFresh(b: Book, batch: seq<Assignment>, slot: nat)
    requires ProfilesKnown(b) && Fresh(b, batch)
    ensures RecordAll(b, batch).assignments == PutAll(b.assignments, batch)
    ensures RowsAsProposed(b.assignments, batch, RecordAll(b, batch).assignments)
    ensures SlotCount(RecordAll(b, batch).assignments, slot) == SlotCount(b.assignments, slot) + BatchCount(batch, slot)
  {
    hide SlotCount;
    if batch != [] {
      var front, a := batch[..|batch| - 1], batch[|batch| - 1];
      RecordAllFresh(b, front, slot);
      PutAllMembers(b.assignments, front, a.requestId);
      SlotCountPut(PutAll(b.assignments, front), a.requestId, a, slot);
    }
    PutAllRows(b.assignments, batch);
  }

  /** All but the last request of a fresh batch are a fresh batch, which leaves the last one's id free. */
  lemma FreshFront(b: Book, batch: seq<Assignment>)
    requires ProfilesKnown(b) && Fresh(b, batch) && batch != []
    ensures var front, a := batch[..|batch| - 1], batch[|batch| - 1];
            Fresh(b, front) && a.requestId !in RecordAll(b, front).assignments
  {
    hide RowsAsProposed, SlotCount, BatchCount, RecordAll;
    var front, a := batch[..|batch| - 1], batch[|batch| - 1];
    RecordAllFresh(b, front, 0);
    PutAllMembers(b.assignments, front, a.requestId);
  }

  /** Tier safety of an unforced commit. For each slot the batch touches, no
      position up to the slot's new occupancy is dearer than the position the
      solver expected to be the last; and where occupancy only grew since the
      snapshot, the last batch request of the slot was priced at the true
      multiplier of the new occupancy. */
  lemma CommitPricesHold(b: Book, batch: seq<Assignment>, baseline: map<nat, int>, expected: map<nat, int>,
                            tiers: seq<CapacityTier>, slot: nat)
    requires ProfilesKnown(b) && Fresh(b, batch) && ValidLadder(tiers)
    requires ExpectedFrom(baseline, batch, expected) && !Breaches(b, batch, expected, tiers)
    requires slot in expected
    ensures var occupied := SlotCount(RecordAll(b, batch).assignments, slot);
            && occupied == SlotCount(b.assignments, slot) + BatchCount(batch, slot)
            && (forall position :: position <= occupied ==>
                  Multiplier(tiers, position) <= Multiplier(tiers, expected[slot]))
            && (SlotCount(b.assignments, slot) >= BaselineAt(baseline, slot) ==>
                  Multiplier(tiers, occupied) == Multiplier(tiers, expected[slot]))
  {
    hide SlotCount, BatchCount, RecordAll, Multiplier, ValidLadder, RowsAsProposed;
    RecordAllFresh(b, batch, slot);
    var occupied := SlotCount(b.assignments, slot) + BatchCount(batch, slot);
    assert !BreachAt(b, batch, expected, tiers, slot);
    if occupied <= expected[slot] {
      LadderMonotone(tiers, occupied, expected[slot]);
    } else {
      LadderMonotone(tiers, expected[slot], occupied);
    }
    forall position | position <= occupied
      ensures Multiplier(tiers, position) <= Multiplier(tiers, expected[slot])
    {
      LadderMonotone(tiers, position, occupied);
    }
  }
}
