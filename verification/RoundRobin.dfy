/** Which profile is dispatched next: a cursor walks the sorted eligible
    profiles cyclically, so no profile that stays eligible can be starved. */
module RoundRobin {
  import opened Options
  import opened Queues

  /** A profile and its pending count. */
  datatype Entry = Entry(profile: ProfileId, count: nat)

  /** Enough work, no solve in flight, and not the very queue that just failed in this slot. */
  predicate Eligible(e: Entry, active: set<ProfileId>, lastInfeasible: map<ProfileId, (int, nat)>,
                     slot: int, minPending: nat)
  {
    && e.count >= minPending
    && e.profile !in active
    && !(e.profile in lastInfeasible && lastInfeasible[e.profile] == (slot, e.count))
  }

  function EligibleEntries(pending: seq<Entry>, active: set<ProfileId>, lastInfeasible: map<ProfileId, (int, nat)>,
                           slot: int, minPending: nat): seq<Entry>
  {
    if pending == [] then []
    else
      (if Eligible(pending[0], active, lastInfeasible, slot, minPending) then [pending[0]] else [])
      + EligibleEntries(pending[1..], active, lastInfeasible, slot, minPending)
  }

  function InsertByProfile(e: Entry, sorted: seq<Entry>): seq<Entry> {
    if sorted == [] || e.profile <= sorted[0].profile then [e] + sorted
    else [sorted[0]] + InsertByProfile(e, sorted[1..])
  }

  function SortByProfile(entries: seq<Entry>): seq<Entry> {
    if entries == [] then [] else InsertByProfile(entries[0], SortByProfile(entries[1..]))
  }

  /** Index of the first entry past the cursor, 0 when there is none. */
  function PositionAfter(sorted: seq<Entry>, cursor: ProfileId): nat {
    if exists i :: 0 <= i < |sorted| && sorted[i].profile > cursor
    then FirstPast(sorted, cursor, 0)
    else 0
  }

  function FirstPast(sorted: seq<Entry>, cursor: ProfileId, from: nat): (i: nat)
    requires exists i :: from <= i < |sorted| && sorted[i].profile > cursor
    ensures from <= i < |sorted| && sorted[i].profile > cursor
    ensures forall j :: from <= j < i ==> sorted[j].profile <= cursor
    decreases |sorted| - from
  {
    if sorted[from].profile > cursor then from else FirstPast(sorted, cursor, from + 1)
  }

  /** The next profile to serve and its pending count, if any is eligible. */
  function NextProfileToDispatch(pending: seq<Entry>, last: Option<ProfileId>, active: set<ProfileId>,
                                 lastInfeasible: map<ProfileId, (int, nat)>, slot: int, minPending: nat): Option<Entry>
  {
    var sorted := SortByProfile(EligibleEntries(pending, active, lastInfeasible, slot, minPending));
    if sorted == [] then None
    else
      var next := if last.None? then 0 else PositionAfter(sorted, last.value);
      assert next < |sorted|;
      Some(sorted[next])
  }

  /** `chosen` comes first when the eligible profiles are walked cyclically
      from just after the cursor. */
  ghost predicate CyclicNext(eligible: set<ProfileId>, cursor: Option<ProfileId>, chosen: ProfileId) {
    && chosen in eligible
    && if cursor.Some? && exists q :: q in eligible && q > cursor.value
       then chosen > cursor.value && forall q :: q in eligible && q > cursor.value ==> chosen <= q
       else forall q :: q in eligible ==> chosen <= q
  }

  ghost function Profiles(entries: seq<Entry>): set<ProfileId> { set e | e in entries :: e.profile }

  lemma {:induction false} EligibleEntriesAre(pending: seq<Entry>, active: set<ProfileId>,
                                              lastInfeasible: map<ProfileId, (int, nat)>, slot: int, minPending: nat)
    ensures forall e :: e in EligibleEntries(pending, active, lastInfeasible, slot, minPending) <==>
              e in pending && Eligible(e, active, lastInfeasible, slot, minPending)
  {
    if pending != [] {
      EligibleEntriesAre(pending[1..], active, lastInfeasible, slot, minPending);
    }
  }

  ghost predicate Ascending(entries: seq<Entry>) {
    forall i, j :: 0 <= i < j < |entries| ==> entries[i].profile <= entries[j].profile
  }

  lemma {:induction false} InsertSorted(e: Entry, sorted: seq<Entry>)
    requires Ascending(sorted)
    ensures Ascending(InsertByProfile(e, sorted)) && |InsertByProfile(e, sorted)| == |sorted| + 1
    ensures forall x :: x in InsertByProfile(e, sorted) <==> x == e || x in sorted
  {
    if sorted != [] && sorted[0].profile < e.profile {
      var rest := sorted[1..];
      InsertSorted(e, rest);
      assert sorted == [sorted[0]] + rest;
      forall x | x in InsertByProfile(e, rest) ensures sorted[0].profile <= x.profile {
        assert x == e || x in rest;
      }
    }
  }

  lemma {:induction false} SortSorted(entries: seq<Entry>)
    ensures Ascending(SortByProfile(entries)) && |SortByProfile(entries)| == |entries|
    ensures forall x :: x in SortByProfile(entries) <==> x in entries
  {
    if entries != [] {
      SortSorted(entries[1..]);
      InsertSorted(entries[0], SortByProfile(entries[1..]));
      assert entries == [entries[0]] + entries[1..];
    }
  }

  /** The function picks nothing exactly when nothing is eligible, and otherwise the cyclic successor. */
  lemma NextIsCyclic(pending: seq<Entry>, last: Option<ProfileId>, active: set<ProfileId>,
                     lastInfeasible: map<ProfileId, (int, nat)>, slot: int, minPending: nat)
    ensures var entries := EligibleEntries(pending, active, lastInfeasible, slot, minPending);
            var next := NextProfileToDispatch(pending, last, active, lastInfeasible, slot, minPending);
            && (next.None? <==> forall e :: e in pending ==> !Eligible(e, active, lastInfeasible, slot, minPending))
            && (next.Some? ==>
                  && next.value in pending
                  && Eligible(next.value, active, lastInfeasible, slot, minPending)
                  && CyclicNext(Profiles(entries), last, next.value.profile))
  {
    hide Eligible, EligibleEntries, CyclicNext, SortByProfile, PositionAfter;
    var entries := EligibleEntries(pending, active, lastInfeasible, slot, minPending);
    EligibleEntriesAre(pending, active, lastInfeasible, slot, minPending);
    SortSorted(entries);
    var sorted := SortByProfile(entries);
    if sorted == [] {
      assert entries == [];
    } else {
      SuccessorInSorted(sorted, last);
      assert Profiles(entries) == Profiles(sorted);
      var next := NextProfileToDispatch(pending, last, active, lastInfeasible, slot, minPending);
      assert next.Some? && next.value in entries;
      assert entries[0] in pending && Eligible(entries[0], active, lastInfeasible, slot, minPending);
    }
  }

  /** The profiles with at least `minPending` requests waiting and no solve in
      flight, save one whose solve failed in this very slot with this very count. */
  ghost function Ready(pending: seq<Entry>, active: set<ProfileId>, lastInfeasible: map<ProfileId, (int, nat)>, slot: int,
                       minPending: nat): set<ProfileId>
  {
    set e | e in pending && minPending <= e.count && e.profile !in active
            && (e.profile in lastInfeasible ==>
                  lastInfeasible[e.profile].0 != slot || lastInfeasible[e.profile].1 != e.count) :: e.profile
  }

  /** What is picked: nothing exactly if nobody is ready, and else the ready
      profile next after the cursor, going round, with its count. */
  lemma PickIsNextReady(pending: seq<Entry>, last: Option<ProfileId>, active: set<ProfileId>,
                        lastInfeasible: map<ProfileId, (int, nat)>, slot: int, minPending: nat)
    ensures var ready := Ready(pending, active, lastInfeasible, slot, minPending);
            var next := NextProfileToDispatch(pending, last, active, lastInfeasible, slot, minPending);
            && (next.None? <==> ready == {})
            && (next.Some? ==>
                  && next.value in pending && next.value.count >= minPending
                  && CyclicNext(ready, last, next.value.profile))
  {
    hide CyclicNext, NextProfileToDispatch, EligibleEntries, Eligible;
    var entries := EligibleEntries(pending, active, lastInfeasible, slot, minPending);
    EligibleEntriesAre(pending, active, lastInfeasible, slot, minPending);
    NextIsCyclic(pending, last, active, lastInfeasible, slot, minPending);
    var ready := Ready(pending, active, lastInfeasible, slot, minPending);
    forall e | e in pending && Eligible(e, active, lastInfeasible, slot, minPending)
      ensures e.profile in ready && e.count >= minPending
    {
      ReadyIsEligible(pending, e, active, lastInfeasible, slot, minPending);
    }
    forall p | p in ready ensures exists e :: e in entries && e.profile == p {
      ReadyHasEntry(pending, p, active, lastInfeasible, slot, minPending);
      var e :| e in pending && e.profile == p && Eligible(e, active, lastInfeasible, slot, minPending);
      assert e in entries;
    }
    assert Profiles(entries) == ready;
  }

  lemma ReadyIsEligible(pending: seq<Entry>, e: Entry, active: set<ProfileId>,
                        lastInfeasible: map<ProfileId, (int, nat)>, slot: int, minPending: nat)
    requires e in pending && Eligible(e, active, lastInfeasible, slot, minPending)
    ensures e.profile in Ready(pending, active, lastInfeasible, slot, minPending) && e.count >= minPending
  {
  }

  lemma ReadyHasEntry(pending: seq<Entry>, p: ProfileId, active: set<ProfileId>,
                      lastInfeasible: map<ProfileId, (int, nat)>, slot: int, minPending: nat)
    requires p in Ready(pending, active, lastInfeasible, slot, minPending)
    ensures exists e :: e in pending && e.profile == p && Eligible(e, active, lastInfeasible, slot, minPending)
  {
  }

  lemma SuccessorInSorted(sorted: seq<Entry>, last: Option<ProfileId>)
    requires sorted != [] && Ascending(sorted)
    ensures var next := if last.None? then 0 else PositionAfter(sorted, last.value);
            next < |sorted| && sorted[next] in sorted && CyclicNext(Profiles(sorted), last, sorted[next].profile)
  {
    hide Ascending;
    var all := Profiles(sorted);
    forall q | q in all ensures exists i :: 0 <= i < |sorted| && sorted[i].profile == q {
      HasIndex(sorted, q);
    }
    assert sorted[0] in sorted;
    if last.Some? && exists i :: 0 <= i < |sorted| && sorted[i].profile > last.value {
      var next := FirstPast(sorted, last.value, 0);
      assert sorted[next] in sorted && sorted[next].profile in all;
      forall q | q in all && q > last.value ensures sorted[next].profile <= q {
        var i :| 0 <= i < |sorted| && sorted[i].profile == q;
        AscendingAt(sorted, next, i);
      }
    } else {
      forall q | q in all ensures sorted[0].profile <= q {
        var i :| 0 <= i < |sorted| && sorted[i].profile == q;
        AscendingAt(sorted, 0, i);
      }
    }
  }

  lemma AscendingAt(sorted: seq<Entry>, i: nat, j: nat)
    requires Ascending(sorted) && i <= j < |sorted|
    ensures sorted[i].profile <= sorted[j].profile
  {
  }

  lemma HasIndex(sorted: seq<Entry>, q: ProfileId)
    requires q in Profiles(sorted)
    ensures exists i :: 0 <= i < |sorted| && sorted[i].profile == q
  {
    var e :| e in sorted && e.profile == q;
    var i :| 0 <= i < |sorted| && sorted[i] == e;
    assert sorted[i].profile == q;
  }

  // ── no starvation ──────────────────────────────────────────────────────

  /** Profiles of `universe` the cursor passes before it reaches `p`. */
  ghost function Ahead(universe: set<ProfileId>, cursor: Option<ProfileId>, p: ProfileId): set<ProfileId> {
    if cursor.None? then set q | q in universe && q < p
    else if cursor.value < p then set q | q in universe && cursor.value < q < p
    else set q | q in universe && (q > cursor.value || q < p)
  }

  /** Serving another profile strictly shortens the way to `p`. */
  lemma DistanceShrinks(universe: set<ProfileId>, eligible: set<ProfileId>, cursor: Option<ProfileId>,
                        chosen: ProfileId, p: ProfileId)
    requires eligible <= universe && p in eligible && CyclicNext(eligible, cursor, chosen) && chosen != p
    ensures Ahead(universe, Some(chosen), p) < Ahead(universe, cursor, p)
  {
    assert chosen in Ahead(universe, cursor, p);
    assert chosen !in Ahead(universe, Some(chosen), p);
  }

  /** One dispatch decision. */
  datatype Round = Round(eligible: set<ProfileId>, cursor: Option<ProfileId>, chosen: ProfileId)

  /** Consecutive dispatches: each picks the cyclic successor and leaves the cursor on it. */
  ghost predicate Dispatches(rounds: seq<Round>) {
    && (forall i :: 0 <= i < |rounds| ==> CyclicNext(rounds[i].eligible, rounds[i].cursor, rounds[i].chosen))
    && forall i, j :: 0 <= i && j == i + 1 && j < |rounds| ==> rounds[j].cursor == Some(rounds[i].chosen)
  }

  lemma SizeBelow(a: set<ProfileId>, b: set<ProfileId>)
    requires a < b
    ensures |a| < |b|
  {
    var x :| x in b && x !in a;
    assert x in b - a;
    assert |b| == |a| + |b - a| by { assert b == a + (b - a); }
  }

  lemma {:induction false} WaitIsBounded(universe: set<ProfileId>, rounds: seq<Round>, p: ProfileId, n: nat)
    requires Dispatches(rounds) && n < |rounds|
    requires forall i :: 0 <= i < |rounds| ==> p in rounds[i].eligible && rounds[i].eligible <= universe
    requires forall i :: 0 <= i < n ==> rounds[i].chosen != p
    ensures |Ahead(universe, rounds[n].cursor, p)| + n < |universe|
  {
    if n == 0 {
      assert p in rounds[0].eligible;
      SizeBelow(Ahead(universe, rounds[0].cursor, p), universe);
    } else {
      WaitIsBounded(universe, rounds, p, n - 1);
      var before := rounds[n - 1];
      DistanceShrinks(universe, before.eligible, before.cursor, before.chosen, p);
      SizeBelow(Ahead(universe, Some(before.chosen), p), Ahead(universe, before.cursor, p));
      assert rounds[n].cursor == Some(before.chosen);
    }
  }

  /** A profile eligible at every dispatch is served within as many dispatches
      as there are profiles. */
  lemma NoStarvation(universe: set<ProfileId>, rounds: seq<Round>, p: ProfileId)
    requires Dispatches(rounds) && |rounds| >= |universe| > 0
    requires forall i :: 0 <= i < |rounds| ==> p in rounds[i].eligible && rounds[i].eligible <= universe
    ensures exists i :: 0 <= i < |universe| && rounds[i].chosen == p
  {
    if forall i :: 0 <= i < |universe| ==> rounds[i].chosen != p {
      var n := |universe| - 1;
      WaitIsBounded(universe, rounds, p, n);
      var last := rounds[n];
      DistanceShrinks(universe, last.eligible, last.cursor, last.chosen, p);
      SizeBelow(Ahead(universe, Some(last.chosen), p), Ahead(universe, last.cursor, p));
      assert false;
    }
  }
}
