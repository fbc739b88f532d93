/** When an empty answer of the batch solver is right: a failing batch for every
    timer and every pruning width, and the exact condition on a cut. */
module DpExactness {
  import opened Options
  import opened Tiers
  import opened DpProblem
  import opened DpWarmStart
  import opened DpBudget
  import opened DpWidth
  import opened DpSolver

  // ── batches the warm start gets wrong ──────────────────────────────────

  const ACCURATE := Flavour("Accurate", 0.0, 1.0)

  function Prices(slots: nat): seq<real> { seq(slots, s => if s == 0 then 2.0 else 1.0) }

  /** `n` requests, a window of one slot that is already over its threshold, and
      cheaper slots outside it. */
  function OverBudget(n: nat, slots: nat): Problem {
    Problem(seq(n, i requires 0 <= i < n => SolveRequest(i, 0, slots - 1)),
            seq(n, _ => [ACCURATE]), seq(n, _ => 0), seq(n, _ => slots - 1),
            [CapacityTier(None, 1.0)], seq(slots, _ => 0), Prices(slots), 1.0, 0, 0,
            Key(600, 1000, 0, seq(slots, _ => 0)), 0, Some(4.0))
  }

  function OverBudgetSolver(slots: nat): Solver { Solver([ACCURATE], Prices(slots), slots, 1.0) }

  function OverBudgetInput(n: nat, slots: nat): BatchInput {
    BatchInput(seq(n, i requires 0 <= i < n => SolveRequest(i, 0, slots - 1)), 0, 1.0,
               [CapacityTier(None, 1.0)], map[], 6.0, 1.0, Some(4.0), 0, 0, None, 0, 0.0, map[])
  }

  lemma OverBudgetResolves(n: nat, slots: nat)
    requires slots >= 2
    ensures Callable(OverBudgetSolver(slots), OverBudgetInput(n, slots))
    ensures Resolve(OverBudgetSolver(slots), OverBudgetInput(n, slots)) == OverBudget(n, slots)
    ensures WellFormed(OverBudget(n, slots)) && Placeable(OverBudget(n, slots))
  {
    var p, q := Resolve(OverBudgetSolver(slots), OverBudgetInput(n, slots)), OverBudget(n, slots);
    assert p.flavours == q.flavours;
    assert p.first == q.first && p.last == q.last;
    assert p.baseCounts == q.baseCounts;
    assert p.initial.incCounts == q.initial.incCounts;
  }

  lemma OverBudgetPrices(n: nat, slots: nat, key: Key, slot: nat)
    requires slot < slots == |key.incCounts|
    ensures Delta(OverBudget(n, slots), key, Choice(ACCURATE, slot)) == if slot == 0 then 2.0 else 1.0
  {
    var p := OverBudget(n, slots);
    assert Multiplier(p.tiers, p.baseCounts[slot] + key.incCounts[slot] + 1) == 1.0;
  }

  /** The warm start prefers the slots it need not check, so the window stays over. */
  lemma {:induction false} WarmStaysOut(n: nat, slots: nat, i: nat)
    requires slots >= 2 && i <= n && WellFormed(OverBudget(n, slots)) && Placeable(OverBudget(n, slots))
    ensures var key := KeyAfter(OverBudget(n, slots), WarmPrefix(OverBudget(n, slots), i));
            key.errorSumBp == 600 && key.errorCountMilli == 1000
  {
    hide Delta, Admissible, WarmChoice;
    if i > 0 {
      var p := OverBudget(n, slots);
      WarmStaysOut(n, slots, i - 1);
      var before := WarmPrefix(p, i - 1);
      var key := KeyAfter(p, before);
      var w := WarmChoice(p, i - 1, key);
      WarmAvoidsWindow(n, slots, i - 1, key);
      LegalSnoc(p, before, w);
      assert WarmPrefix(p, i) == before + [w];
    }
  }

  lemma WarmAvoidsWindow(n: nat, slots: nat, i: nat, key: Key)
    requires slots >= 2 && i < n && |key.incCounts| == slots
    ensures WarmChoice(OverBudget(n, slots), i, key).slot != 0
  {
    hide Delta, WarmChoice;
    var p := OverBudget(n, slots);
    var outside, w := Choice(ACCURATE, 1), WarmChoice(p, i, key);
    WarmChoiceIsGreedy(p, i, key);
    assert Legal(p, i, outside) && Admissible(p, key, outside);
    assert w == Choice(ACCURATE, w.slot);
    OverBudgetPrices(n, slots, key, 0);
    OverBudgetPrices(n, slots, key, 1);
  }

  function Inside(n: nat): seq<Choice> { seq(n, _ => Choice(ACCURATE, 0)) }

  lemma {:induction false} InsideAccounted(n: nat, slots: nat, i: nat)
    requires slots >= 2 && i <= n && WellFormed(OverBudget(n, slots))
    ensures LegalPrefix(OverBudget(n, slots), Inside(i))
    ensures var key := KeyAfter(OverBudget(n, slots), Inside(i)); key.errorSumBp == 600 && key.errorCountMilli == 1000 * (i + 1)
  {
    if i > 0 {
      InsideAccounted(n, slots, i - 1);
      assert Inside(i)[..i - 1] == Inside(i - 1);
    }
  }

  /** For any number of requests and slots: over the threshold at the start, the
      warm start stays over it although placing everything in the window would
      bring it back. */
  lemma WarmStartCanMissFeasiblePlan(n: nat, slots: nat)
    requires n >= 1 && slots >= 2
    ensures WellFormed(OverBudget(n, slots)) && Placeable(OverBudget(n, slots))
    ensures !WarmFeasible(OverBudget(n, slots))
    ensures HasPlan(OverBudget(n, slots))
  {
    hide WarmPrefix, KeyAfter;
    var p := OverBudget(n, slots);
    OverBudgetResolves(n, slots);
    WarmStaysOut(n, slots, n);
    InsideAccounted(n, slots, n);
    var warm, inside := KeyAfter(p, WarmStart(p)), KeyAfter(p, Inside(n));
    assert AverageError(warm) == 6.0;
    var count := inside.errorCountMilli as real / 1000.0;
    assert count == (n + 1) as real;
    assert AverageError(inside) == 6.0 / count;
    Halves(count);
    assert Feasible(p, Inside(n));
  }

  lemma Halves(count: real)
    requires count >= 2.0
    ensures 6.0 / count <= 3.0
  {
    assert 6.0 == (6.0 / count) * count;
  }

  /** Whatever the timer, some batch with a feasible plan gets an empty answer
      when it expires. */
  method TimeoutHidesFeasiblePlan(pruning: Pruning, k: nat, expiresAt: nat) returns (r: seq<RequestAssignment>)
    ensures Callable(OverBudgetSolver(2), OverBudgetInput(expiresAt + 1, 2))
    ensures Resolve(OverBudgetSolver(2), OverBudgetInput(expiresAt + 1, 2)) == OverBudget(expiresAt + 1, 2)
    ensures WellFormed(OverBudget(expiresAt + 1, 2))
    ensures r == [] && HasPlan(OverBudget(expiresAt + 1, 2))
  {
    hide WarmFeasible, HasPlan, Settled, AnswersFrom, Exact;
    var n := expiresAt + 1;
    OverBudgetResolves(n, 2);
    WarmStartCanMissFeasiblePlan(n, 2);
    ghost var last;
    r, last := SolveBatch(OverBudgetSolver(2), OverBudgetInput(n, 2), pruning, k, Some(expiresAt));
  }

  /** Exactly when a timed-out answer is empty, and exactly when its being empty is
      right: the warm start meets the threshold, or no number of placements in the
      window fits, which a caller can tell before the solve. */
  lemma TimedOutEmptyIff(p: Problem, r: seq<RequestAssignment>)
    requires WellFormed(p) && Placeable(p) && p.requests != [] && r == WarmAnswer(p)
    ensures r == [] <==> !WarmFeasible(p)
    ensures p.initial.errorCountMilli >= 0 ==> ((r == [] ==> !HasPlan(p)) <==> WarmFeasible(p) || !SomeCountFits(p))
  {
    hide WarmFeasible, HasPlan, SomeCountFits;
    if p.initial.errorCountMilli >= 0 {
      HasPlanIff(p);
    }
  }

  // ── what a cut hides ───────────────────────────────────────────────────

  /** States over the threshold that cost less than every state within it. */
  ghost function Cheaper(p: Problem, full: Layer): set<Key> {
    set key | key in full && !WithinThreshold(p, key)
              && forall b :: b in full && WithinThreshold(p, b) ==> full[key].cost < full[b].cost
  }

  /** The same, ties included. */
  ghost function NotDearer(p: Problem, full: Layer): set<Key> {
    set key | key in full && !WithinThreshold(p, key)
              && forall b :: b in full && WithinThreshold(p, b) ==> full[key].cost <= full[b].cost
  }

  ghost predicate NoneWithin(p: Problem, dp: Layer) { forall key :: key in dp ==> !WithinThreshold(p, key) }

  /** If the states ahead of every good one, with the incumbent, fill the width,
      no good state survives. */
  lemma CrowdedCutHides(p: Problem, pruning: Pruning, k: nat, full: Layer, kept: Layer, warmKey: Key)
    requires Trimmed(pruning, k, full, kept, warmKey) && !pruning.NoPruning? && |full| > k
    requires !WithinThreshold(p, warmKey) && |Cheaper(p, full) + {warmKey}| >= Max(1, k)
    ensures NoneWithin(p, kept)
  {
    hide WithinThreshold;
    forall a | a in kept ensures !WithinThreshold(p, a) {
      if WithinThreshold(p, a) {
        forall b | b in Cheaper(p, full) ensures b in kept {
          AheadIsKept(p, pruning, k, full, kept, warmKey, a, b);
        }
        SubsetBound(Cheaper(p, full) + {warmKey} + {a}, kept.Keys);
      }
    }
  }

  lemma AheadIsKept(p: Problem, pruning: Pruning, k: nat, full: Layer, kept: Layer, warmKey: Key, a: Key, b: Key)
    requires Trimmed(pruning, k, full, kept, warmKey)
    requires a in kept && a != warmKey && WithinThreshold(p, a) && b in Cheaper(p, full)
    ensures b in kept
  {
    hide WithinThreshold;
    assert b in full && full[b].cost < full[a].cost;
  }

  /** If no good state survives, the states no dearer than any good one, with the
      incumbent, fill the width. */
  lemma HiddenMeansCrowded(p: Problem, pruning: Pruning, k: nat, full: Layer, kept: Layer, warmKey: Key)
    requires Trimmed(pruning, k, full, kept, warmKey) && !pruning.NoPruning? && |full| > k
    requires NoneWithin(p, kept)
    ensures |NotDearer(p, full) + {warmKey}| >= Max(1, k)
  {
    hide WithinThreshold;
    forall a | a in kept ensures a in NotDearer(p, full) + {warmKey} {
      if a != warmKey {
        forall b | b in full && WithinThreshold(p, b) ensures full[a].cost <= full[b].cost {
          assert b !in kept;
          assert NoWorse(pruning, full, a, b);
        }
      }
    }
    SubsetBound(kept.Keys, NotDearer(p, full) + {warmKey});
  }

  /** In a complete layer, some state is within the threshold exactly if some plan is feasible. */
  lemma CompleteShowsFeasible(p: Problem, full: Layer)
    requires WellFormed(p) && Sound(p, |p.requests|, full) && Complete(p, |p.requests|, full)
    ensures NoneWithin(p, full) <==> !HasPlan(p)
  {
    forall cs | Feasible(p, cs) ensures !NoneWithin(p, full) {
      assert Reached(full, KeyAfter(p, cs), CostOf(p, cs));
    }
    forall key | key in full && WithinThreshold(p, key) ensures HasPlan(p) {
      assert EntryOk(p, |p.requests|, key, full[key]);
      assert Feasible(p, ChoicesOf(full[key].assignments));
    }
  }

  /** The cut of the last layer is what the answer turns on: it is made, the
      incumbent is over the threshold, and the states ahead of the first good
      one fill the width. */
  ghost predicate Crowded(p: Problem, pruning: Pruning, k: nat, last: LastLayer, ahead: set<Key>)
    requires WellFormed(p) && Placeable(p)
  {
    && !pruning.NoPruning? && |last.full| > k && !WarmFeasible(p)
    && |ahead + {KeyAfter(p, WarmStart(p))}| >= Max(1, k)
  }

  /** Exactly when an answer without a timeout is empty, the earlier layers being
      whole: no plan is feasible, or the last layer is crowded. Ties between a
      state over the threshold and a cheapest good one leave both outcomes open;
      without such ties the two conditions meet. */
  lemma EmptyIff(p: Problem, pruning: Pruning, k: nat, last: LastLayer, r: seq<RequestAssignment>)
    requires WellFormed(p) && Placeable(p) && Settled(p, pruning, k, last) && AnswersFrom(p, last.kept, r)
    requires last.whole
    ensures r == [] ==> !HasPlan(p) || Crowded(p, pruning, k, last, NotDearer(p, last.full))
    ensures r == [] <== !HasPlan(p) || Crowded(p, pruning, k, last, Cheaper(p, last.full))
    ensures NotDearer(p, last.full) == Cheaper(p, last.full) ==>
              (r == [] <==> !HasPlan(p) || Crowded(p, pruning, k, last, Cheaper(p, last.full)))
  {
    hide WithinThreshold, Sound, Complete, KeyAfter, WarmStart, Cheaper, NotDearer, IncumbentAlive;
    var full, kept, warmKey := last.full, last.kept, KeyAfter(p, WarmStart(p));
    CompleteShowsFeasible(p, full);
    if !pruning.NoPruning? && |full| > k {
      if NoneWithin(p, kept) {
        HiddenMeansCrowded(p, pruning, k, full, kept, warmKey);
      }
      if !WithinThreshold(p, warmKey) && |Cheaper(p, full) + {warmKey}| >= Max(1, k) {
        CrowdedCutHides(p, pruning, k, full, kept, warmKey);
      }
    }
  }

  /** With room for one state only the incumbent counts, however many layers are
      cut: then the answer is empty, and rightly so, exactly as after a timeout. */
  lemma NarrowIsWarm(p: Problem, pruning: Pruning, k: nat, last: LastLayer, r: seq<RequestAssignment>)
    requires WellFormed(p) && Placeable(p) && Settled(p, pruning, k, last) && AnswersFrom(p, last.kept, r)
    requires !pruning.NoPruning? && k <= 1
    ensures r == [] <==> !WarmFeasible(p)
    ensures p.initial.errorCountMilli >= 0 ==> ((r == [] ==> !HasPlan(p)) <==> WarmFeasible(p) || !SomeCountFits(p))
  {
    hide WarmFeasible, HasPlan, SomeCountFits;
    OnlyTheIncumbent(p, pruning, k, last, r);
    if p.initial.errorCountMilli >= 0 {
      HasPlanIff(p);
    }
  }

  lemma OnlyTheIncumbent(p: Problem, pruning: Pruning, k: nat, last: LastLayer, r: seq<RequestAssignment>)
    requires WellFormed(p) && Placeable(p) && Settled(p, pruning, k, last) && AnswersFrom(p, last.kept, r)
    requires !pruning.NoPruning? && k <= 1
    ensures r == [] <==> !WarmFeasible(p)
  {
    hide WithinThreshold, Sound, Complete, KeyAfter, WarmStart, IncumbentAlive;
    var kept, warmKey := last.kept, KeyAfter(p, WarmStart(p));
    assert |kept.Keys| <= 1;
    Single(kept.Keys, warmKey);
  }

  lemma Single(keys: set<Key>, key: Key)
    requires key in keys && |keys| <= 1
    ensures keys == {key}
  {
    assert |keys - {key}| == 0;
  }

  // ── every width is too narrow for some batch ───────────────────────────

  /** The state of the one request placed outside the window, in slot `s`. */
  function OutsideKey(slots: nat, s: nat): Key
    requires s < slots
  {
    Key(600, 1000, 0, seq(slots, _ => 0)[s := 1])
  }

  function OutsideKeys(slots: nat, m: nat): set<Key>
    requires m < slots
  {
    if m == 0 then {} else OutsideKeys(slots, m - 1) + {OutsideKey(slots, m)}
  }

  lemma {:induction false} OutsideKeysFacts(slots: nat, m: nat)
    requires m < slots
    ensures |OutsideKeys(slots, m)| == m
    ensures forall key :: key in OutsideKeys(slots, m) ==> exists s :: 1 <= s <= m && key == OutsideKey(slots, s)
  {
    hide OutsideKey;
    if m > 0 {
      OutsideKeysFacts(slots, m - 1);
      forall s | 1 <= s <= m - 1 ensures OutsideKey(slots, s) != OutsideKey(slots, m) {
        OutsideKeysDiffer(slots, s, m);
      }
    }
  }

  lemma OutsideKeysDiffer(slots: nat, s: nat, m: nat)
    requires s < m < slots
    ensures OutsideKey(slots, s) != OutsideKey(slots, m)
  {
    assert OutsideKey(slots, s).incCounts[m] == 0 && OutsideKey(slots, m).incCounts[m] == 1;
  }

  lemma OneRequest(slots: nat, c: Choice)
    requires slots >= 2 && WellFormed(OverBudget(1, slots)) && Legal(OverBudget(1, slots), 0, c)
    ensures var p := OverBudget(1, slots);
            && LegalPrefix(p, [c]) && c.slot < slots
            && CostOf(p, [c]) == (if c.slot == 0 then 2.0 else 1.0)
            && (c.slot != 0 ==> KeyAfter(p, [c]) == OutsideKey(slots, c.slot) && !WithinThreshold(p, KeyAfter(p, [c])))
  {
    hide Delta, WithinThreshold;
    var p := OverBudget(1, slots);
    LegalSnoc(p, [], c);
    assert [] + [c] == [c] && KeyAfter(p, []) == p.initial;
    assert c == Choice(ACCURATE, c.slot);
    OverBudgetPrices(1, slots, p.initial, c.slot);
    if c.slot != 0 {
      OverBudgetOver(slots, OutsideKey(slots, c.slot));
    }
  }

  lemma OverBudgetOver(slots: nat, key: Key)
    requires key.errorSumBp == 600 && key.errorCountMilli == 1000
    ensures !WithinThreshold(OverBudget(1, slots), key)
  {
    assert AverageError(key) == 6.0;
  }

  /** In that batch's layer every state outside the window is ahead of the good one. */
  lemma OutsideIsAhead(slots: nat, s: nat, full: Layer)
    requires slots >= 2 && 1 <= s < slots && WellFormed(OverBudget(1, slots))
    requires Sound(OverBudget(1, slots), 1, full) && Complete(OverBudget(1, slots), 1, full)
    ensures OutsideKey(slots, s) in Cheaper(OverBudget(1, slots), full)
  {
    hide WithinThreshold, OutsideKey, KeyAfter, CostOf, LegalPrefix;
    var p := OverBudget(1, slots);
    var c := Choice(ACCURATE, s);
    assert Legal(p, 0, c);
    OneRequest(slots, c);
    assert Reached(full, KeyAfter(p, [c]), CostOf(p, [c]));
    forall b | b in full && WithinThreshold(p, b) ensures full[b].cost == 2.0 {
      assert EntryOk(p, 1, b, full[b]);
      WithinCostsTwo(slots, b, full[b]);
    }
  }

  lemma WithinCostsTwo(slots: nat, key: Key, e: Entry)
    requires slots >= 2 && WellFormed(OverBudget(1, slots))
    requires EntryOk(OverBudget(1, slots), 1, key, e) && WithinThreshold(OverBudget(1, slots), key)
    ensures e.cost == 2.0
  {
    hide WithinThreshold;
    var cs := ChoicesOf(e.assignments);
    assert cs == [cs[0]];
    OneRequest(slots, cs[0]);
  }

  lemma CrowdedExample(pruning: Pruning, k: nat, last: LastLayer)
    requires !pruning.NoPruning? && WellFormed(OverBudget(1, k + 2)) && Placeable(OverBudget(1, k + 2))
    requires Settled(OverBudget(1, k + 2), pruning, k, last)
    ensures last.whole && Crowded(OverBudget(1, k + 2), pruning, k, last, Cheaper(OverBudget(1, k + 2), last.full))
  {
    hide Sound, Complete, Cheaper, IncumbentAlive, Trimmed, OutsideKey, OutsideKeys, WarmFeasible, WarmStart;
    var slots := k + 2;
    var p := OverBudget(1, slots);
    WarmStartCanMissFeasiblePlan(1, slots);
    OutsideKeysFacts(slots, k + 1);
    forall key | key in OutsideKeys(slots, k + 1) ensures key in Cheaper(p, last.full) {
      var s :| 1 <= s <= k + 1 && key == OutsideKey(slots, s);
      OutsideIsAhead(slots, s, last.full);
    }
    CheaperIsInLayer(p, last.full);
    SubsetBound(OutsideKeys(slots, k + 1), Cheaper(p, last.full));
    SubsetBound(Cheaper(p, last.full), last.full.Keys);
    SubsetBound(Cheaper(p, last.full), Cheaper(p, last.full) + {KeyAfter(p, WarmStart(p))});
  }

  lemma CheaperIsInLayer(p: Problem, full: Layer)
    ensures Cheaper(p, full) <= full.Keys
  {
  }

  /** Whatever the width of the beam or of the k best, some batch with a feasible
      plan gets an empty answer, without any timeout and however ties fall. */
  method PruningHidesFeasiblePlan(pruning: Pruning, k: nat) returns (r: seq<RequestAssignment>)
    requires !pruning.NoPruning?
    ensures Callable(OverBudgetSolver(k + 2), OverBudgetInput(1, k + 2))
    ensures Resolve(OverBudgetSolver(k + 2), OverBudgetInput(1, k + 2)) == OverBudget(1, k + 2)
    ensures WellFormed(OverBudget(1, k + 2))
    ensures r == [] && HasPlan(OverBudget(1, k + 2))
  {
    hide WarmFeasible, HasPlan, Settled, AnswersFrom, Exact, Crowded, Cheaper;
    OverBudgetResolves(1, k + 2);
    WarmStartCanMissFeasiblePlan(1, k + 2);
    ghost var last;
    r, last := SolveBatch(OverBudgetSolver(k + 2), OverBudgetInput(1, k + 2), pruning, k, None);
    CrowdedExample(pruning, k, last);
    EmptyIff(OverBudget(1, k + 2), pruning, k, last, r);
  }
}
