/** The warm start of the DP: a request-by-request greedy placement that
    becomes the incumbent which pruning and timeouts may not lose. */
module DpWarmStart {
  import opened DpProblem

  datatype Best = NoBest | Best(cost: real, choice: Choice)

  /** The a-priori check of one candidate. It looks only at placements inside
      the window: anywhere else the candidate passes unexamined. */
  predicate Admissible(p: Problem, key: Key, c: Choice)
    requires 0 <= c.slot < |key.incCounts|
  {
    || p.threshold.None?
    || !InWindow(p, c.slot)
    || Step(p, key, c).errorCountMilli <= 0
    || AverageError(Step(p, key, c)) <= p.threshold.value
  }

  predicate Scannable(p: Problem, key: Key, slot: int, last: int) {
    0 <= slot && last < |p.baseCounts| == |p.forecast| == |key.incCounts|
  }

  predicate Counts(p: Problem, key: Key, checked: bool, c: Choice)
    requires 0 <= c.slot < |key.incCounts|
  {
    checked ==> Admissible(p, key, c)
  }

  function Improve(best: Best, cost: real, c: Choice): Best {
    if best.NoBest? || cost < best.cost then Best(cost, c) else best
  }

  /** First cheapest candidate of one flavour over slots `slot..=last`, against an earlier best. */
  function ScanSlots(p: Problem, key: Key, f: Flavour, slot: int, last: int, checked: bool, best: Best): Best
    requires Scannable(p, key, slot, last)
    decreases last - slot + 1
  {
    if slot > last then best
    else
      var c := Choice(f, slot);
      ScanSlots(p, key, f, slot + 1, last, checked,
                if Counts(p, key, checked, c) then Improve(best, Delta(p, key, c), c) else best)
  }

  /** First cheapest admissible candidate over all flavours. */
  function ScanFlavours(p: Problem, key: Key, fs: seq<Flavour>, first: int, last: int, best: Best): Best
    requires Scannable(p, key, first, last)
  {
    if fs == [] then best
    else ScanFlavours(p, key, fs[1..], first, last, ScanSlots(p, key, fs[0], first, last, true, best))
  }

  lemma {:induction false} ScanSlotsFindsBest(p: Problem, key: Key, f: Flavour, slot: int, last: int,
                                              checked: bool, best: Best)
    requires Scannable(p, key, slot, last)
    ensures var r := ScanSlots(p, key, f, slot, last, checked, best);
            && (best.Best? ==> r.Best? && r.cost <= best.cost)
            && (forall s | slot <= s <= last && Counts(p, key, checked, Choice(f, s)) ::
                  r.Best? && r.cost <= Delta(p, key, Choice(f, s)))
            && (r == best || (&& r.Best? && r.choice.flavour == f && slot <= r.choice.slot <= last
                              && Counts(p, key, checked, r.choice) && r.cost == Delta(p, key, r.choice)))
            && (r == best || (&& (best.Best? ==> r.cost < best.cost)
                              && forall s | slot <= s < r.choice.slot && Counts(p, key, checked, Choice(f, s)) ::
                                   r.cost < Delta(p, key, Choice(f, s))))
    decreases last - slot + 1
  {
    if slot <= last {
      var c := Choice(f, slot);
      ScanSlotsFindsBest(p, key, f, slot + 1, last, checked,
                         if Counts(p, key, checked, c) then Improve(best, Delta(p, key, c), c) else best);
    }
  }

  lemma {:induction false} ScanFlavoursFindsBest(p: Problem, key: Key, fs: seq<Flavour>, first: int, last: int,
                                                 best: Best)
    requires Scannable(p, key, first, last)
    ensures var r := ScanFlavours(p, key, fs, first, last, best);
            && (best.Best? ==> r.Best? && r.cost <= best.cost)
            && (forall f, s | f in fs && first <= s <= last && Admissible(p, key, Choice(f, s)) ::
                  r.Best? && r.cost <= Delta(p, key, Choice(f, s)))
            && (r == best || (&& r.Best? && r.choice.flavour in fs && first <= r.choice.slot <= last
                              && Admissible(p, key, r.choice) && r.cost == Delta(p, key, r.choice)))
  {
    if fs != [] {
      ScanSlotsFindsBest(p, key, fs[0], first, last, true, best);
      var next := ScanSlots(p, key, fs[0], first, last, true, best);
      ScanFlavoursFindsBest(p, key, fs[1..], first, last, next);
      forall f, s | f in fs && first <= s <= last && Admissible(p, key, Choice(f, s))
        ensures ScanFlavours(p, key, fs, first, last, best).Best?
             && ScanFlavours(p, key, fs, first, last, best).cost <= Delta(p, key, Choice(f, s))
      {
        assert f == fs[0] ==> Counts(p, key, true, Choice(f, s));
        assert f == fs[0] || f in fs[1..];
      }
    }
  }

  /** Index of the first flavour of least error. */
  function MostAccurate(fs: seq<Flavour>): (i: nat)
    requires fs != []
    ensures i < |fs|
    ensures forall j :: 0 <= j < |fs| ==> fs[i].error <= fs[j].error
    ensures forall j :: 0 <= j < i ==> fs[i].error < fs[j].error
  {
    if |fs| == 1 then 0
    else
      var m := MostAccurate(fs[..|fs| - 1]);
      if fs[|fs| - 1].error < fs[m].error then |fs| - 1 else m
  }

  /** The warm start's decision for request `i` in state `key`. */
  function WarmChoice(p: Problem, i: nat, key: Key): (c: Choice)
    requires i < |p.flavours| == |p.first| == |p.last|
    requires p.flavours[i] != [] && p.first[i] <= p.last[i]
    requires Scannable(p, key, p.first[i], p.last[i])
    ensures Legal(p, i, c)
  {
    var fs := p.flavours[i];
    var best := ScanFlavours(p, key, fs, p.first[i], p.last[i], NoBest);
    ScanFlavoursFindsBest(p, key, fs, p.first[i], p.last[i], NoBest);
    if best.Best? then best.choice
    else
      var f := fs[MostAccurate(fs)];
      ScanSlotsFindsBest(p, key, f, p.first[i], p.last[i], false, NoBest);
      assert Counts(p, key, false, Choice(f, p.first[i]));
      ScanSlots(p, key, f, p.first[i], p.last[i], false, NoBest).choice
  }

  /** What the decision means: cheapest among admissible candidates if there is
      one, otherwise the most accurate flavour at its cheapest slot. */
  lemma WarmChoiceIsGreedy(p: Problem, i: nat, key: Key)
    requires i < |p.flavours| == |p.first| == |p.last|
    requires p.flavours[i] != [] && p.first[i] <= p.last[i]
    requires Scannable(p, key, p.first[i], p.last[i])
    ensures var w := WarmChoice(p, i, key);
            if exists c :: Legal(p, i, c) && Admissible(p, key, c) then
              && Admissible(p, key, w)
              && forall c :: Legal(p, i, c) && Admissible(p, key, c) ==> Delta(p, key, w) <= Delta(p, key, c)
            else
              && (forall f :: f in p.flavours[i] ==> w.flavour.error <= f.error)
              && (forall s :: p.first[i] <= s <= p.last[i] ==> Delta(p, key, w) <= Delta(p, key, Choice(w.flavour, s)))
  {
    var fs := p.flavours[i];
    var best := ScanFlavours(p, key, fs, p.first[i], p.last[i], NoBest);
    var w := WarmChoice(p, i, key);
    ScanFlavoursFindsBest(p, key, fs, p.first[i], p.last[i], NoBest);
    forall c | Legal(p, i, c) && Admissible(p, key, c)
      ensures best.Best? && best.cost <= Delta(p, key, c)
    {
      assert c == Choice(c.flavour, c.slot);
    }
    if best.NoBest? {
      ScanSlotsFindsBest(p, key, fs[MostAccurate(fs)], p.first[i], p.last[i], false, NoBest);
      forall s | p.first[i] <= s <= p.last[i]
        ensures Delta(p, key, w) <= Delta(p, key, Choice(w.flavour, s))
      {
        assert Counts(p, key, false, Choice(w.flavour, s));
      }
    }
  }

  /** The warm start's decisions for the first `n` requests. */
  ghost function WarmPrefix(p: Problem, n: nat): (cs: seq<Choice>)
    requires WellFormed(p) && Placeable(p) && n <= |p.requests|
    ensures |cs| == n && LegalPrefix(p, cs)
  {
    if n == 0 then []
    else
      var before := WarmPrefix(p, n - 1);
      before + [WarmChoice(p, n - 1, KeyAfter(p, before))]
  }

  ghost function WarmStart(p: Problem): (cs: seq<Choice>)
    requires WellFormed(p) && Placeable(p)
    ensures |cs| == |p.requests| && LegalPrefix(p, cs)
  {
    WarmPrefix(p, |p.requests|)
  }

  ghost predicate WarmFeasible(p: Problem)
    requires WellFormed(p) && Placeable(p)
  {
    WithinThreshold(p, KeyAfter(p, WarmStart(p)))
  }

  /** The keys before the first and after each of `n` warm choices. */
  ghost function WarmKeys(p: Problem, n: nat): (keys: seq<Key>)
    requires WellFormed(p) && Placeable(p) && n <= |p.requests|
    ensures |keys| == n + 1
    ensures forall i :: 0 <= i <= n ==> keys[i] == KeyAfter(p, WarmPrefix(p, i))
  {
    if n == 0 then [p.initial] else WarmKeys(p, n - 1) + [KeyAfter(p, WarmPrefix(p, n))]
  }

  /** The greedy pass has handled `n` requests and stands at `key`. */
  ghost predicate WarmAt(p: Problem, n: nat, assignments: seq<RequestAssignment>, key: Key) {
    && WellFormed(p) && Placeable(p) && n <= |p.requests|
    && assignments == Emit(p, WarmPrefix(p, n))
    && key == KeyAfter(p, WarmPrefix(p, n))
  }

  lemma WarmBegins(p: Problem)
    requires WellFormed(p) && Placeable(p)
    ensures WarmAt(p, 0, [], p.initial) && WarmKeys(p, 0) == [p.initial]
  {
  }

  /** One more warm choice extends assignments, key and key sequence accordingly. */
  lemma WarmExtends(p: Problem, n: nat, assignments: seq<RequestAssignment>, key: Key)
    requires WarmAt(p, n, assignments, key) && n < |p.requests|
    ensures Scannable(p, key, p.first[n], p.last[n])
    ensures var w := WarmChoice(p, n, key);
            && WarmAt(p, n + 1, assignments + [RequestAssignment(p.requests[n].requestId, w, Delta(p, key, w))],
                      Step(p, key, w))
            && WarmKeys(p, n + 1) == WarmKeys(p, n) + [Step(p, key, w)]
  {
    hide Emit, Step, WarmChoice;
    var before := WarmPrefix(p, n);
    var w := WarmChoice(p, n, key);
    assert WarmPrefix(p, n + 1) == before + [w];
    LegalSnoc(p, before, w);
    EmitSnoc(p, before, w);
  }

  /** Builds the warm start and the key before the first and after each request. */
  method ComputeSequentialSolution(p: Problem) returns (assignments: seq<RequestAssignment>, keys: seq<Key>)
    requires WellFormed(p) && Placeable(p)
    ensures assignments == Emit(p, WarmStart(p))
    ensures keys == WarmKeys(p, |p.requests|)
  {
    hide WarmAt, WarmChoice, WarmKeys, WarmPrefix, Delta, Step;
    WarmBegins(p);
    var key := p.initial;
    keys := [key];
    assignments := [];
    for i := 0 to |p.requests|
      invariant WarmAt(p, i, assignments, key)
      invariant keys == WarmKeys(p, i)
    {
      WarmExtends(p, i, assignments, key);
      var w := PickWarm(p, i, key);
      assignments := assignments + [RequestAssignment(p.requests[i].requestId, w, Delta(p, key, w))];
      key := Step(p, key, w);
      keys := keys + [key];
    }
    WarmEnds(p, assignments, key);
  }

  lemma WarmEnds(p: Problem, assignments: seq<RequestAssignment>, key: Key)
    requires WarmAt(p, |p.requests|, assignments, key)
    ensures WellFormed(p) && Placeable(p) && assignments == Emit(p, WarmStart(p))
  {
  }

  /** The nested candidate scan of one request; the last-resort candidate is
      collected in the same pass, when the most accurate flavour comes up. */
  method PickWarm(p: Problem, i: nat, key: Key) returns (c: Choice)
    requires i < |p.flavours| == |p.first| == |p.last|
    requires p.flavours[i] != [] && p.first[i] <= p.last[i]
    requires Scannable(p, key, p.first[i], p.last[i])
    ensures c == WarmChoice(p, i, key)
  {
    var fs, first, last := p.flavours[i], p.first[i], p.last[i];
    var accurate := MostAccurate(fs);
    ghost var goal := ScanFlavours(p, key, fs, first, last, NoBest);
    ghost var lastResort := ScanSlots(p, key, fs[accurate], first, last, false, NoBest);
    var best, fallback := NoBest, NoBest;
    for j := 0 to |fs|
      invariant ScanFlavours(p, key, fs[j..], first, last, best) == goal
      invariant fallback == if accurate < j then lastResort else NoBest
    {
      assert fs[j..][0] == fs[j] && fs[j..][1..] == fs[j + 1..];
      best, fallback := ScanOneFlavour(p, key, fs[j], first, last, j == accurate, best, fallback);
    }
    assert fs[|fs|..] == [];
    ScanSlotsFindsBest(p, key, fs[accurate], first, last, false, NoBest);
    assert Counts(p, key, false, Choice(fs[accurate], first));
    c := if best.Best? then best.choice else fallback.choice;
  }

  /** The inner loop of that scan. */
  method ScanOneFlavour(p: Problem, key: Key, f: Flavour, first: int, last: int, accurate: bool,
                        best0: Best, fallback0: Best) returns (best: Best, fallback: Best)
    requires Scannable(p, key, first, last) && first <= last
    ensures best == ScanSlots(p, key, f, first, last, true, best0)
    ensures fallback == if accurate then ScanSlots(p, key, f, first, last, false, fallback0) else fallback0
  {
    best, fallback := best0, fallback0;
    for slot := first to last + 1
      invariant ScanSlots(p, key, f, slot, last, true, best) == ScanSlots(p, key, f, first, last, true, best0)
      invariant ScanSlots(p, key, f, slot, last, false, fallback)
             == ScanSlots(p, key, f, first, last, false, fallback0) || !accurate
      invariant accurate || fallback == fallback0
    {
      var candidate := Choice(f, slot);
      var cost := Delta(p, key, candidate);
      if accurate {
        fallback := Improve(fallback, cost, candidate);
      }
      if Admissible(p, key, candidate) {
        best := Improve(best, cost, candidate);
      }
    }
  }

  // ── when the warm start meets the threshold ────────────────────────────

  /** Request `i` of the warm start found a candidate that passes the check. */
  ghost predicate HadCandidate(p: Problem, i: nat)
    requires WellFormed(p) && Placeable(p) && i < |p.requests|
  {
    exists c :: Legal(p, i, c) && Admissible(p, KeyAfter(p, WarmPrefix(p, i)), c)
  }

  /** Started within the threshold, with a candidate at every request, the warm
      start ends within it. */
  lemma {:induction false} WarmStaysWithin(p: Problem, n: nat)
    requires WellFormed(p) && Placeable(p) && n <= |p.requests|
    requires p.initial.errorCountMilli >= 0 && WithinThreshold(p, p.initial)
    requires forall i :: 0 <= i < n ==> HadCandidate(p, i)
    ensures WithinThreshold(p, KeyAfter(p, WarmPrefix(p, n)))
  {
    if n > 0 {
      WarmStaysWithin(p, n - 1);
      var before := WarmPrefix(p, n - 1);
      var key := KeyAfter(p, before);
      var w := WarmChoice(p, n - 1, key);
      assert HadCandidate(p, n - 1);
      WarmChoiceIsGreedy(p, n - 1, key);
      LegalSnoc(p, before, w);
      CountNonNegative(p, before);
      StepStaysWithin(p, key, w);
    }
  }

  lemma StepStaysWithin(p: Problem, key: Key, c: Choice)
    requires 0 <= c.slot < |key.incCounts| && key.errorCountMilli >= 0
    requires WithinThreshold(p, key) && Admissible(p, key, c)
    ensures WithinThreshold(p, Step(p, key, c))
  {
    if !InWindow(p, c.slot) && key.errorCountMilli != 0 {
      assert AverageError(Step(p, key, c)) == AverageError(key);
    }
  }

  lemma {:induction false} CountNonNegative(p: Problem, cs: seq<Choice>)
    requires WellFormed(p) && LegalPrefix(p, cs) && p.initial.errorCountMilli >= 0
    ensures KeyAfter(p, cs).errorCountMilli >= 0
  {
    if cs != [] {
      CountNonNegative(p, cs[..|cs| - 1]);
    }
  }

  /** Request `i` of the warm start was placed inside the window. */
  ghost predicate PlacedInWindow(p: Problem, i: nat)
    requires WellFormed(p) && Placeable(p) && i < |p.requests|
  {
    InWindow(p, WarmPrefix(p, i + 1)[i].slot)
  }

  /** Of the first `n` requests, `i` is the last one placed inside the window. */
  ghost predicate LastInWindow(p: Problem, n: nat, i: nat)
    requires WellFormed(p) && Placeable(p) && n <= |p.requests|
  {
    i < n && PlacedInWindow(p, i) && forall j :: i < j < n ==> !PlacedInWindow(p, j)
  }

  /** One request: inside the window the threshold is met just when a candidate
      passed the check, outside it just when it was met before. */
  lemma WarmStepWithinIff(p: Problem, i: nat)
    requires WellFormed(p) && Placeable(p) && i < |p.requests| && p.initial.errorCountMilli >= 0
    ensures WithinThreshold(p, KeyAfter(p, WarmPrefix(p, i + 1)))
       <==> if PlacedInWindow(p, i) then HadCandidate(p, i) else WithinThreshold(p, KeyAfter(p, WarmPrefix(p, i)))
  {
    hide AverageError, WarmChoice;
    var before := WarmPrefix(p, i);
    var key := KeyAfter(p, before);
    var w := WarmChoice(p, i, key);
    WarmChoiceIsGreedy(p, i, key);
    LegalSnoc(p, before, w);
    CountNonNegative(p, before);
    StepWithinIff(p, key, w);
    assert WarmPrefix(p, i + 1) == before + [w];
  }

  lemma StepWithinIff(p: Problem, key: Key, c: Choice)
    requires 0 <= c.slot < |key.incCounts| && key.errorCountMilli >= 0
    ensures WithinThreshold(p, Step(p, key, c))
       <==> if InWindow(p, c.slot) then Admissible(p, key, c) else WithinThreshold(p, key)
  {
    if !InWindow(p, c.slot) && key.errorCountMilli != 0 {
      assert AverageError(Step(p, key, c)) == AverageError(key);
    }
  }

  /** Exactly when the warm start meets the threshold: if the last request it
      placed inside the window had a candidate that passed the check, */
  lemma {:induction false} WarmWithinIff(p: Problem, n: nat, i: nat)
    requires WellFormed(p) && Placeable(p) && n <= |p.requests| && p.initial.errorCountMilli >= 0
    requires LastInWindow(p, n, i)
    ensures WithinThreshold(p, KeyAfter(p, WarmPrefix(p, n))) <==> HadCandidate(p, i)
  {
    hide HadCandidate, PlacedInWindow, WithinThreshold, KeyAfter, LegalPrefix, WarmPrefix;
    WarmStepWithinIff(p, n - 1);
    if i < n - 1 {
      WarmWithinIff(p, n - 1, i);
    }
  }

  /** and with none inside the window, if the threshold was met at the start. */
  lemma {:induction false} WarmOutsideIff(p: Problem, n: nat)
    requires WellFormed(p) && Placeable(p) && n <= |p.requests| && p.initial.errorCountMilli >= 0
    requires forall i :: 0 <= i < n ==> !PlacedInWindow(p, i)
    ensures WithinThreshold(p, KeyAfter(p, WarmPrefix(p, n))) <==> WithinThreshold(p, p.initial)
  {
    hide HadCandidate, PlacedInWindow, WithinThreshold, KeyAfter, LegalPrefix, WarmPrefix;
    if n == 0 {
      WarmFromInitial(p);
    } else {
      WarmStepWithinIff(p, n - 1);
      WarmOutsideIff(p, n - 1);
    }
  }

  lemma WarmFromInitial(p: Problem)
    requires WellFormed(p) && Placeable(p)
    ensures KeyAfter(p, WarmPrefix(p, 0)) == p.initial
  {
  }
}
