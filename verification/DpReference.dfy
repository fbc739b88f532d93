/** What a batch asks for and what its answer must be, read off the solver's
    configuration and the caller's input alone: slot bounds, flavours, prices and
    the window average, each written out over the rows of a plan.

    The resolved problem the DP works on is proved to mean exactly this. */
module DpReference {
  import opened Tiers
  import opened DpProblem

  // ── the reference ──────────────────────────────────────────────────────

  /** The slots open to request `i`: within the horizon, not before it arrives or
      now, and not past its deadline or the assignment bound; a deadline or a bound
      in the past leaves the current slot open. */
  predicate OpenTo(solver: Solver, input: BatchInput, i: nat, slot: int)
    requires i < |input.requests|
  {
    var r := input.requests[i];
    && r.earliestSlot <= slot && input.currentSlot <= slot < solver.windowSize
    && (slot <= r.deadlineSlot || slot <= input.currentSlot)
    && (input.assignmentMaxSlot.Some? ==> slot <= input.assignmentMaxSlot.value || slot <= input.currentSlot)
  }

  /** A request's own flavours, if it brings any list of its own. */
  function Offered(solver: Solver, input: BatchInput, i: nat): seq<Flavour>
    requires i < |input.requests|
  {
    var id := input.requests[i].requestId;
    if id in input.requestFlavours then input.requestFlavours[id] else solver.flavours
  }

  predicate MayTake(solver: Solver, input: BatchInput, i: nat, c: Choice)
    requires i < |input.requests|
  {
    c.flavour in Offered(solver, input, i) && OpenTo(solver, input, i, c.slot)
  }

  function OpenSlots(solver: Solver, input: BatchInput, i: nat): set<int>
    requires i < |input.requests|
  {
    set slot | 0 <= slot < solver.windowSize && OpenTo(solver, input, i, slot)
  }

  /** In how many ways the first `n` requests can be decided. */
  function Decisions(solver: Solver, input: BatchInput, n: nat): nat
    requires n <= |input.requests|
  {
    if n == 0 then 1
    else Decisions(solver, input, n - 1) * (|Offered(solver, input, n - 1)| * |OpenSlots(solver, input, n - 1)|)
  }

  /** Every row of `cs` is allowed its request. */
  ghost predicate Permitted(solver: Solver, input: BatchInput, cs: seq<Choice>) {
    |cs| <= |input.requests| && forall i :: 0 <= i < |cs| ==> MayTake(solver, input, i, cs[i])
  }

  /** The first `n` rows that are in `slot`. */
  function RowsIn(cs: seq<Choice>, slot: int, n: nat): set<nat>
    requires n <= |cs|
  {
    set j: nat | j < n && cs[j].slot == slot
  }

  function TierRate(input: BatchInput, position: int): real {
    if input.capacityTiers == [] then input.capacityMultiplier else Multiplier(input.capacityTiers, position)
  }

  /** What row `i` pays: carbon of its slot, times the tier of the place it takes
      behind the baseline and the earlier rows of the slot, times its duration. */
  function Fare(solver: Solver, input: BatchInput, cs: seq<Choice>, i: nat): real
    requires i < |cs| && 0 <= cs[i].slot < |solver.carbonForecast|
  {
    var slot := cs[i].slot;
    var baseline := if slot in input.baselineSlotCounts then input.baselineSlotCounts[slot] else 0;
    solver.carbonForecast[slot] * TierRate(input, baseline + |RowsIn(cs, slot, i)| + 1)
    * cs[i].flavour.duration * solver.carbonCostScale
  }

  predicate SlotsOpen(solver: Solver, cs: seq<Choice>) {
    forall i :: 0 <= i < |cs| ==> 0 <= cs[i].slot < |solver.carbonForecast|
  }

  ghost function Fares(solver: Solver, input: BatchInput, cs: seq<Choice>, n: nat): real
    requires n <= |cs| && SlotsOpen(solver, cs)
  {
    if n == 0 then 0.0 else Fares(solver, input, cs, n - 1) + Fare(solver, input, cs, n - 1)
  }

  /** The slots whose errors count: so many before and after the current one. */
  predicate Counted(solver: Solver, input: BatchInput, slot: int) {
    && input.currentSlot - input.errorWindowPast <= slot <= input.currentSlot + input.errorWindowFuture
    && 0 <= slot < solver.windowSize
  }

  /** The first `n` rows whose errors count. */
  function CountedRows(solver: Solver, input: BatchInput, cs: seq<Choice>, n: nat): set<nat>
    requires n <= |cs|
  {
    set i: nat | i < n && Counted(solver, input, cs[i].slot)
  }

  /** Errors of the counted rows, in basis points. */
  function CountedErrors(solver: Solver, input: BatchInput, cs: seq<Choice>, n: nat): int
    requires n <= |cs|
  {
    if n == 0 then 0
    else
      CountedErrors(solver, input, cs, n - 1)
      + if Counted(solver, input, cs[n - 1].slot) then Round(cs[n - 1].flavour.error * 100.0) else 0
  }

  /** Mocks that counted rows replace: one each while there are any, if mocks carry an error. */
  function MocksUsed(solver: Solver, input: BatchInput, cs: seq<Choice>): int {
    var rows := |CountedRows(solver, input, cs, |cs|)|;
    if Round(input.mockErrorPerRequest * 100.0) <= 0 || input.mockCount <= 0 then 0
    else if input.mockCount <= rows then input.mockCount else rows
  }

  /** The window's errors, baseline included, less those of the mocks replaced. */
  function ErrorTotal(solver: Solver, input: BatchInput, cs: seq<Choice>): int {
    Round(input.baselineErrorSum * 100.0) + CountedErrors(solver, input, cs, |cs|)
    - Round(input.mockErrorPerRequest * 100.0) * MocksUsed(solver, input, cs)
  }

  /** The window's requests in thousandths, likewise. */
  function CountTotal(solver: Solver, input: BatchInput, cs: seq<Choice>): int {
    Round(input.baselineRequestCount * 1000.0)
    + 1000 * (|CountedRows(solver, input, cs, |cs|)| - MocksUsed(solver, input, cs))
  }

  /** Their average is within the threshold, if there is one and anything to average. */
  predicate AveragesWithin(solver: Solver, input: BatchInput, cs: seq<Choice>) {
    var errors, count := ErrorTotal(solver, input, cs), CountTotal(solver, input, cs);
    || input.maxErrorThreshold.None? || count == 0
    || (errors as real / 100.0) / (count as real / 1000.0) <= input.maxErrorThreshold.value
  }

  /** A plan for the whole batch that meets the threshold. */
  ghost predicate Admitted(solver: Solver, input: BatchInput, cs: seq<Choice>) {
    |cs| == |input.requests| && Permitted(solver, input, cs) && AveragesWithin(solver, input, cs)
  }

  /** Rounding is to the nearest integer, away from zero when two are as near. */
  lemma RoundIsNearest(x: real)
    ensures -0.5 <= Round(x) as real - x <= 0.5
    ensures Round(x) as real - x == 0.5 ==> x > 0.0
    ensures Round(x) as real - x == -0.5 ==> x < 0.0
  {
  }

  // ── the resolved problem means it ──────────────────────────────────────

  lemma SlotsMean(solver: Solver, input: BatchInput, i: nat, c: Choice)
    requires Callable(solver, input) && i < |input.requests|
    ensures Legal(Resolve(solver, input), i, c) <==> MayTake(solver, input, i, c)
  {
  }

  lemma PlansMean(solver: Solver, input: BatchInput, cs: seq<Choice>)
    requires Callable(solver, input) && WellFormed(Resolve(solver, input))
    ensures LegalPrefix(Resolve(solver, input), cs) <==> Permitted(solver, input, cs)
  {
    hide Resolve, MayTake, Legal, WellFormed;
    SameBatch(solver, input);
    forall i | 0 <= i < |cs| && |cs| <= |input.requests|
      ensures Legal(Resolve(solver, input), i, cs[i]) <==> MayTake(solver, input, i, cs[i])
    {
      SlotsMean(solver, input, i, cs[i]);
    }
  }

  lemma SameBatch(solver: Solver, input: BatchInput)
    requires Callable(solver, input)
    ensures var p := Resolve(solver, input);
            && p.requests == input.requests && |p.flavours| == |p.first| == |p.last| == |p.requests|
            && p.forecast == solver.carbonForecast && |p.baseCounts| == |p.forecast|
            && p.threshold == input.maxErrorThreshold
            && p.initial.errorSumBp == Round(input.baselineErrorSum * 100.0)
            && p.initial.errorCountMilli == Round(input.baselineRequestCount * 1000.0)
  {
  }

  lemma RateMeans(solver: Solver, input: BatchInput, position: int)
    requires Callable(solver, input)
    ensures Multiplier(Resolve(solver, input).tiers, position) == TierRate(input, position)
  {
  }

  lemma WindowMeans(solver: Solver, input: BatchInput, slot: int)
    requires Callable(solver, input)
    ensures 0 <= slot < solver.windowSize ==> (InWindow(Resolve(solver, input), slot) <==> Counted(solver, input, slot))
  {
  }

  lemma {:induction false} PlacedIsRows(cs: seq<Choice>, slot: int, n: nat)
    requires n <= |cs|
    ensures Placed(cs[..n], slot) == |RowsIn(cs, slot, n)|
  {
    if n > 0 {
      PlacedIsRows(cs, slot, n - 1);
      assert cs[..n][..n - 1] == cs[..n - 1];
      assert RowsIn(cs, slot, n) == RowsIn(cs, slot, n - 1) + if cs[n - 1].slot == slot then {n - 1} else {};
    }
  }

  lemma FareMeans(solver: Solver, input: BatchInput, cs: seq<Choice>, i: nat)
    requires Callable(solver, input) && i < |cs| && 0 <= cs[i].slot < |solver.carbonForecast|
    ensures var p, c := Resolve(solver, input), cs[i];
            InHorizon(p, c.slot)
            && PriceAt(p, c, p.baseCounts[c.slot] + Placed(cs[..i], c.slot) + 1) == Fare(solver, input, cs, i)
  {
    hide Multiplier, Placed, TierRate;
    var p, c := Resolve(solver, input), cs[i];
    PlacedIsRows(cs, c.slot, i);
    RateMeans(solver, input, p.baseCounts[c.slot] + Placed(cs[..i], c.slot) + 1);
  }

  lemma PermittedSlots(solver: Solver, input: BatchInput, cs: seq<Choice>)
    requires Callable(solver, input) && Permitted(solver, input, cs)
    ensures SlotsOpen(solver, cs)
  {
    forall i | 0 <= i < |cs| ensures 0 <= cs[i].slot < |solver.carbonForecast| {
      assert MayTake(solver, input, i, cs[i]);
    }
  }

  /** Each row pays its fare, and the plan all of them. */
  lemma {:induction false} CostMeans(solver: Solver, input: BatchInput, cs: seq<Choice>, n: nat)
    requires Callable(solver, input) && WellFormed(Resolve(solver, input)) && n <= |cs|
    requires LegalPrefix(Resolve(solver, input), cs)
    requires SlotsOpen(solver, cs)
    ensures var p := Resolve(solver, input);
            && LegalPrefix(p, cs[..n]) && CostOf(p, cs[..n]) == Fares(solver, input, cs, n)
            && forall i :: 0 <= i < n ==> Emit(p, cs[..n])[i].carbonCost == Fare(solver, input, cs, i)
  {
    hide Resolve, WellFormed, Fare, Placed, PriceAt;
    if n > 0 {
      CostMeans(solver, input, cs, n - 1);
      assert cs[..n][..n - 1] == cs[..n - 1];
      FareMeans(solver, input, cs, n - 1);
    }
  }

  lemma {:induction false} ErrorsMean(solver: Solver, input: BatchInput, cs: seq<Choice>, n: nat)
    requires Callable(solver, input) && n <= |cs|
    requires SlotsOpen(solver, cs)
    ensures WindowErrorsBp(Resolve(solver, input), cs[..n]) == CountedErrors(solver, input, cs, n)
  {
    hide Resolve, Counted, Round, InWindow;
    if n > 0 {
      ErrorsMean(solver, input, cs, n - 1);
      assert cs[..n][..n - 1] == cs[..n - 1];
      WindowMeans(solver, input, cs[n - 1].slot);
    }
  }

  lemma {:induction false} CountMeans(solver: Solver, input: BatchInput, cs: seq<Choice>, n: nat)
    requires Callable(solver, input) && n <= |cs|
    requires SlotsOpen(solver, cs)
    ensures WindowCount(Resolve(solver, input), cs[..n]) == |CountedRows(solver, input, cs, n)|
  {
    hide Resolve, Counted, InWindow;
    if n > 0 {
      CountMeans(solver, input, cs, n - 1);
      assert cs[..n][..n - 1] == cs[..n - 1];
      WindowMeans(solver, input, cs[n - 1].slot);
      assert CountedRows(solver, input, cs, n)
          == CountedRows(solver, input, cs, n - 1) + if Counted(solver, input, cs[n - 1].slot) then {n - 1} else {};
    }
  }

  lemma MocksMean(solver: Solver, input: BatchInput, cs: seq<Choice>)
    requires Callable(solver, input)
    ensures ConsumedMocks(Resolve(solver, input), |CountedRows(solver, input, cs, |cs|)|) == MocksUsed(solver, input, cs)
    ensures Resolve(solver, input).mockErrorBp == Round(input.mockErrorPerRequest * 100.0)
  {
    hide Round, CountedRows;
  }

  lemma TotalsMean(solver: Solver, input: BatchInput, cs: seq<Choice>)
    requires Callable(solver, input) && WellFormed(Resolve(solver, input)) && input.baselineRequestCount >= 0.0
    requires LegalPrefix(Resolve(solver, input), cs)
    requires SlotsOpen(solver, cs)
    ensures var key := KeyAfter(Resolve(solver, input), cs);
            && key.errorSumBp == ErrorTotal(solver, input, cs)
            && key.errorCountMilli == CountTotal(solver, input, cs)
  {
    hide Resolve, WellFormed, KeyAfter, Round, WindowErrorsBp, WindowCount, CountedErrors, CountedRows,
         LegalPrefix, MocksUsed, ConsumedMocks;
    SameBatch(solver, input);
    NonNegativeCount(input);
    KeyAccounting(Resolve(solver, input), cs);
    ErrorsMean(solver, input, cs, |cs|);
    CountMeans(solver, input, cs, |cs|);
    assert cs[..|cs|] == cs;
    MocksMean(solver, input, cs);
  }

  /** The threshold test on the key of a plan is the test on its rows. */
  lemma ThresholdMeans(solver: Solver, input: BatchInput, cs: seq<Choice>)
    requires Callable(solver, input) && WellFormed(Resolve(solver, input)) && input.baselineRequestCount >= 0.0
    requires LegalPrefix(Resolve(solver, input), cs)
    requires SlotsOpen(solver, cs)
    ensures WithinThreshold(Resolve(solver, input), KeyAfter(Resolve(solver, input), cs))
       <==> AveragesWithin(solver, input, cs)
  {
    hide Resolve, WellFormed, KeyAfter, LegalPrefix, ErrorTotal, CountTotal;
    SameBatch(solver, input);
    TotalsMean(solver, input, cs);
  }

  lemma NonNegativeCount(input: BatchInput)
    requires input.baselineRequestCount >= 0.0
    ensures Round(input.baselineRequestCount * 1000.0) >= 0
  {
  }

  /** A feasible plan of the resolved problem is an admitted plan, at the same price. */
  lemma FeasibleMeans(solver: Solver, input: BatchInput, cs: seq<Choice>)
    requires Callable(solver, input) && WellFormed(Resolve(solver, input)) && input.baselineRequestCount >= 0.0
    ensures Feasible(Resolve(solver, input), cs) <==> Admitted(solver, input, cs)
    ensures Admitted(solver, input, cs) ==>
              && LegalPrefix(Resolve(solver, input), cs) && SlotsOpen(solver, cs)
              && CostOf(Resolve(solver, input), cs) == Fares(solver, input, cs, |cs|)
  {
    hide Resolve, WellFormed, LegalPrefix, Permitted, WithinThreshold, AveragesWithin, CostOf, Fares, KeyAfter;
    PlansMean(solver, input, cs);
    SameBatch(solver, input);
    if Permitted(solver, input, cs) {
      PermittedSlots(solver, input, cs);
      ThresholdMeans(solver, input, cs);
      CostMeans(solver, input, cs, |cs|);
      assert cs[..|cs|] == cs;
    }
  }

  // ── answers ────────────────────────────────────────────────────────────

  /** One row per request, in order, each with a permitted choice at its fare. */
  ghost predicate Answers(solver: Solver, input: BatchInput, r: seq<RequestAssignment>) {
    && |r| == |input.requests|
    && forall i :: 0 <= i < |r| ==>
         && r[i].requestId == input.requests[i].requestId
         && MayTake(solver, input, i, r[i].choice)
         && 0 <= r[i].choice.slot < |solver.carbonForecast|
         && r[i].carbonCost == Fare(solver, input, ChoicesOf(r), i)
  }

  /** As good as trying every plan: nothing exactly if none is admitted, and
      otherwise no dearer than any that is. */
  ghost predicate BestOfAll(solver: Solver, input: BatchInput, r: seq<RequestAssignment>)
    requires |solver.carbonForecast| == solver.windowSize && input.currentSlot >= 0
  {
    && (r == [] <==> forall cs :: !Admitted(solver, input, cs))
    && forall cs :: Admitted(solver, input, cs) ==>
         SlotsOpen(solver, cs) && TotalCost(r) <= Fares(solver, input, cs, |cs|)
  }

  lemma AnswersMean(solver: Solver, input: BatchInput, r: seq<RequestAssignment>)
    requires Callable(solver, input) && WellFormed(Resolve(solver, input))
    requires LegalPrefix(Resolve(solver, input), ChoicesOf(r)) && |r| == |input.requests|
    requires r == Emit(Resolve(solver, input), ChoicesOf(r))
    ensures Answers(solver, input, r)
  {
    hide Resolve, WellFormed, MayTake, Fare, CostOf, Emit, LegalPrefix;
    var p, cs := Resolve(solver, input), ChoicesOf(r);
    PlansMean(solver, input, cs);
    PermittedSlots(solver, input, cs);
    SameBatch(solver, input);
    EmitFaithful(p, cs);
    CostMeans(solver, input, cs, |cs|);
    assert cs[..|cs|] == cs;
    forall i | 0 <= i < |r|
      ensures r[i].requestId == input.requests[i].requestId && MayTake(solver, input, i, r[i].choice)
      ensures 0 <= r[i].choice.slot < |solver.carbonForecast| && r[i].carbonCost == Fare(solver, input, cs, i)
    {
      assert MayTake(solver, input, i, cs[i]);
    }
  }
}
