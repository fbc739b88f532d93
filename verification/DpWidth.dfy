/** How many states a layer of the DP can have: at most as many as there are
    ways to decide the requests before it. */
module DpWidth {
  import opened DpProblem
  import opened DpReference

  /** What the first `n` requests allow: flavours times legal slots, multiplied up. */
  function Width(p: Problem, n: nat): nat
    requires n <= |p.flavours| == |p.first| == |p.last|
  {
    if n == 0 then 1 else Width(p, n - 1) * Ways(p, n - 1)
  }

  /** How many ways there are to decide request `i`. */
  function Ways(p: Problem, i: nat): nat
    requires i < |p.flavours| == |p.first| == |p.last|
  {
    Times(|p.flavours[i]|, Slots(p.first[i], p.last[i]))
  }

  function Slots(first: int, last: int): nat { if first <= last then last - first + 1 else 0 }

  function Times(a: nat, b: nat): nat { a * b }

  /** The slots from `lo` to `hi`. */
  function Range(lo: int, hi: int): set<int>
    decreases hi - lo
  {
    if lo > hi then {} else Range(lo, hi - 1) + {hi}
  }

  lemma {:induction false} RangeHas(lo: int, hi: int)
    ensures forall slot :: slot in Range(lo, hi) <==> lo <= slot <= hi
    ensures |Range(lo, hi)| == Slots(lo, hi)
    decreases hi - lo
  {
    if lo <= hi {
      RangeHas(lo, hi - 1);
    }
  }

  lemma WaysAre(solver: Solver, input: BatchInput, i: nat)
    requires Callable(solver, input) && i < |input.requests|
    ensures var p := Resolve(solver, input);
            |p.flavours[i]| == |Offered(solver, input, i)| && Slots(p.first[i], p.last[i]) == |OpenSlots(solver, input, i)|
  {
    var p := Resolve(solver, input);
    RangeHas(p.first[i], p.last[i]);
    assert OpenSlots(solver, input, i) == Range(p.first[i], p.last[i]);
  }

  /** The width is the number of ways to decide the requests, as the caller counts them. */
  lemma {:induction false} WidthIsDecisions(solver: Solver, input: BatchInput, n: nat)
    requires Callable(solver, input) && n <= |input.requests|
    ensures var p := Resolve(solver, input);
            |p.flavours| == |p.first| == |p.last| == |input.requests| && Width(p, n) == Decisions(solver, input, n)
  {
    hide Resolve, Offered, OpenSlots, Slots;
    SameBatch(solver, input);
    if n > 0 {
      WidthIsDecisions(solver, input, n - 1);
      WaysAre(solver, input, n - 1);
    }
  }

  lemma TimesFacts(a: nat, b: nat, c: nat)
    ensures Times(a, b + 1) == Times(a, b) + a && Times(a, 0) == 0
    ensures Times(a + 1, c) == Times(a, c) + c && Times(0, c) == 0
  {
    assert (a + 1) * c == a * c + c;
  }

  lemma TimesOrder(a: nat, b: nat, c: nat)
    ensures a <= b ==> Times(a, c) <= Times(b, c)
    ensures b > 0 ==> a <= Times(a, b)
  {
    if a <= b {
      assert b * c == a * c + (b - a) * c;
    }
    if b > 0 {
      assert a * b == a + a * (b - 1);
    }
  }

  /** More decisions, more states: a bound that holds late held before. */
  lemma WidthGrows(p: Problem, n: nat)
    requires WellFormed(p) && Placeable(p) && n < |p.requests|
    ensures Width(p, n) <= Width(p, n + 1)
  {
    TimesOrder(|p.flavours[n]|, Slots(p.first[n], p.last[n]), 0);
    TimesOrder(Width(p, n), Ways(p, n), 0);
  }

  // ── the states decisions can reach ─────────────────────────────────────

  function StepOrStay(p: Problem, key: Key, c: Choice): Key {
    if 0 <= c.slot < |key.incCounts| then Step(p, key, c) else key
  }

  function StepAll(p: Problem, keys: set<Key>, c: Choice): set<Key> {
    set key | key in keys :: StepOrStay(p, key, c)
  }

  function StepSlots(p: Problem, keys: set<Key>, f: Flavour, first: int, last: int): set<Key>
    decreases last - first + 1
  {
    if first > last then {} else StepSlots(p, keys, f, first, last - 1) + StepAll(p, keys, Choice(f, last))
  }

  function StepFlavours(p: Problem, keys: set<Key>, fs: seq<Flavour>, first: int, last: int): set<Key> {
    if fs == [] then {}
    else StepFlavours(p, keys, fs[..|fs| - 1], first, last) + StepSlots(p, keys, fs[|fs| - 1], first, last)
  }

  /** Every state `n` decisions can reach. */
  function Reachable(p: Problem, n: nat): set<Key>
    requires n <= |p.flavours| == |p.first| == |p.last|
  {
    if n == 0 then {p.initial}
    else StepFlavours(p, Reachable(p, n - 1), p.flavours[n - 1], p.first[n - 1], p.last[n - 1])
  }

  lemma {:induction false} StepAllBound(p: Problem, keys: set<Key>, c: Choice)
    ensures |StepAll(p, keys, c)| <= |keys|
  {
    hide StepOrStay;
    if keys != {} {
      var key :| key in keys;
      var rest := keys - {key};
      StepAllBound(p, rest, c);
      assert StepAll(p, keys, c) == StepAll(p, rest, c) + {StepOrStay(p, key, c)};
    }
  }

  lemma {:induction false} StepSlotsBound(p: Problem, keys: set<Key>, f: Flavour, first: int, last: int)
    ensures |StepSlots(p, keys, f, first, last)| <= Times(|keys|, Slots(first, last))
    decreases last - first + 1
  {
    hide StepAll, Times;
    TimesFacts(|keys|, Slots(first, last - 1), 0);
    if first <= last {
      StepSlotsBound(p, keys, f, first, last - 1);
      StepAllBound(p, keys, Choice(f, last));
    }
  }

  lemma {:induction false} StepFlavoursBound(p: Problem, keys: set<Key>, fs: seq<Flavour>, first: int, last: int)
    ensures |StepFlavours(p, keys, fs, first, last)| <= Times(|keys|, Times(|fs|, Slots(first, last)))
  {
    hide StepSlots, Times, Slots;
    var slots := Slots(first, last);
    TimesFacts(0, 0, slots);
    TimesFacts(|keys|, 0, 0);
    if fs != [] {
      var front := fs[..|fs| - 1];
      StepFlavoursBound(p, keys, front, first, last);
      StepSlotsBound(p, keys, fs[|fs| - 1], first, last);
      TimesFacts(|front|, 0, slots);
      TimesAdds(|keys|, Times(|front|, slots), slots);
    }
  }

  lemma TimesAdds(a: nat, b: nat, c: nat)
    ensures Times(a, b + c) == Times(a, b) + Times(a, c)
  {
  }

  lemma {:induction false} ReachableBound(p: Problem, n: nat)
    requires n <= |p.flavours| == |p.first| == |p.last|
    ensures |Reachable(p, n)| <= Width(p, n)
  {
    hide StepFlavours, Ways;
    if n > 0 {
      var before := Reachable(p, n - 1);
      ReachableBound(p, n - 1);
      StepFlavoursBound(p, before, p.flavours[n - 1], p.first[n - 1], p.last[n - 1]);
      WaysIs(p, n - 1);
      TimesOrder(|before|, Width(p, n - 1), Ways(p, n - 1));
    }
  }

  lemma WaysIs(p: Problem, i: nat)
    requires i < |p.flavours| == |p.first| == |p.last|
    ensures Ways(p, i) == Times(|p.flavours[i]|, Slots(p.first[i], p.last[i]))
  {
  }

  lemma {:induction false} StepSlotsHas(p: Problem, keys: set<Key>, key: Key, f: Flavour, first: int, last: int, slot: int)
    requires key in keys && first <= slot <= last
    ensures StepOrStay(p, key, Choice(f, slot)) in StepSlots(p, keys, f, first, last)
    decreases last - first + 1
  {
    hide StepOrStay;
    if slot < last {
      StepSlotsHas(p, keys, key, f, first, last - 1, slot);
    }
  }

  lemma {:induction false} StepFlavoursHas(p: Problem, keys: set<Key>, key: Key, fs: seq<Flavour>, first: int, last: int, c: Choice)
    requires key in keys && c.flavour in fs && first <= c.slot <= last
    ensures StepOrStay(p, key, c) in StepFlavours(p, keys, fs, first, last)
  {
    hide StepOrStay, StepSlots;
    var f := fs[|fs| - 1];
    if c.flavour == f {
      StepSlotsHas(p, keys, key, f, first, last, c.slot);
    } else {
      assert c.flavour in fs[..|fs| - 1];
      StepFlavoursHas(p, keys, key, fs[..|fs| - 1], first, last, c);
    }
  }

  lemma {:induction false} PlansReach(p: Problem, cs: seq<Choice>)
    requires WellFormed(p) && LegalPrefix(p, cs)
    ensures KeyAfter(p, cs) in Reachable(p, |cs|)
  {
    hide StepFlavours;
    if cs != [] {
      var before, c := cs[..|cs| - 1], cs[|cs| - 1];
      PlansReach(p, before);
      var n := |before|;
      assert Legal(p, n, c);
      StepFlavoursHas(p, Reachable(p, n), KeyAfter(p, before), p.flavours[n], p.first[n], p.last[n], c);
      assert KeyAfter(p, cs) == StepOrStay(p, KeyAfter(p, before), c);
    }
  }

  lemma SubsetBound(a: set<Key>, b: set<Key>)
    requires a <= b
    ensures |a| <= |b|
  {
    assert b == a + (b - a);
  }

  /** States that plans of `n` decisions reach are at most `Width(p, n)` many. */
  lemma PlansBound(p: Problem, n: nat, keys: set<Key>)
    requires WellFormed(p) && n <= |p.requests|
    requires forall key :: key in keys ==> exists cs :: |cs| == n && LegalPrefix(p, cs) && KeyAfter(p, cs) == key
    ensures |keys| <= Width(p, n)
  {
    hide KeyAfter, Reachable, Width, LegalPrefix;
    forall key | key in keys ensures key in Reachable(p, n) {
      var cs :| |cs| == n && LegalPrefix(p, cs) && KeyAfter(p, cs) == key;
      PlansReach(p, cs);
    }
    ReachableBound(p, n);
    SubsetBound(keys, Reachable(p, n));
  }
}
