/** One batch-solve problem of the rolling-window DP: legal choices, sequential
    pricing, and the accounting key on which the DP merges states.

    Money is `real`; window error is kept in integer basis points and the
    weighted request count in integer thousandths, as the DP keys keep them. */
module DpProblem {
  import opened Options
  import opened Tiers

  datatype Flavour = Flavour(name: string, error: real, duration: real)

  datatype SolveRequest = SolveRequest(requestId: nat, earliestSlot: int, deadlineSlot: int)

  /** One request's decision. */
  datatype Choice = Choice(flavour: Flavour, slot: int)

  /** The whole flavour stands where the solver copies its name and error. */
  datatype RequestAssignment = RequestAssignment(requestId: nat, choice: Choice, carbonCost: real)

  datatype Key = Key(errorSumBp: int, errorCountMilli: int, mockRemaining: int, incCounts: seq<nat>)

  /** A batch after bounds, tiers, window and baseline have been resolved. */
  datatype Problem = Problem(
    requests: seq<SolveRequest>,
    flavours: seq<seq<Flavour>>,  // candidate flavours of each request
    first: seq<int>,              // earliest legal slot of each request
    last: seq<int>,               // latest legal slot of each request
    tiers: seq<CapacityTier>,
    baseCounts: seq<int>,
    forecast: seq<real>,
    scale: real,
    windowStart: int,
    windowEnd: int,
    initial: Key,
    mockErrorBp: int,
    threshold: Option<real>)

  // ── solver configuration and resolution ────────────────────────────────

  datatype Solver = Solver(flavours: seq<Flavour>, carbonForecast: seq<real>, windowSize: int,
                           carbonCostScale: real)

  datatype BatchInput = BatchInput(
    requests: seq<SolveRequest>,
    currentSlot: int,
    capacityMultiplier: real,
    capacityTiers: seq<CapacityTier>,
    baselineSlotCounts: map<int, int>,
    baselineErrorSum: real,
    baselineRequestCount: real,
    maxErrorThreshold: Option<real>,
    errorWindowPast: int,
    errorWindowFuture: int,
    assignmentMaxSlot: Option<int>,
    mockCount: int,
    mockErrorPerRequest: real,
    requestFlavours: map<nat, seq<Flavour>>)

  function Max(a: int, b: int): int { if a >= b then a else b }

  function Min(a: int, b: int): int { if a <= b then a else b }

  /** Rounding half away from zero. */
  function Round(x: real): int {
    if x >= 0.0 then (x + 0.5).Floor else -((0.5 - x).Floor)
  }

  function FlavoursFor(solver: Solver, input: BatchInput, requestId: nat): seq<Flavour> {
    if requestId in input.requestFlavours then input.requestFlavours[requestId] else solver.flavours
  }

  function AssignmentCap(solver: Solver, input: BatchInput): int {
    var bound := if input.assignmentMaxSlot.Some? then input.assignmentMaxSlot.value else solver.windowSize - 1;
    Max(Min(bound, solver.windowSize - 1), input.currentSlot)
  }

  function LastSlot(solver: Solver, input: BatchInput, request: SolveRequest): int {
    Min(Min(Max(request.deadlineSlot, input.currentSlot), AssignmentCap(solver, input)), solver.windowSize - 1)
  }

  /** What the solver demands of its caller: a forecast for the whole horizon,
      a non-negative slot, and a flavour for every request. */
  predicate Callable(solver: Solver, input: BatchInput) {
    && |solver.carbonForecast| == solver.windowSize
    && input.currentSlot >= 0
    && forall r :: r in input.requests ==> FlavoursFor(solver, input, r.requestId) != []
  }

  function Resolve(solver: Solver, input: BatchInput): Problem
    requires Callable(solver, input)
  {
    var n := |input.requests|;
    Problem(
      requests := input.requests,
      flavours := seq(n, i requires 0 <= i < n => FlavoursFor(solver, input, input.requests[i].requestId)),
      first := seq(n, i requires 0 <= i < n => Max(input.requests[i].earliestSlot, input.currentSlot)),
      last := seq(n, i requires 0 <= i < n => LastSlot(solver, input, input.requests[i])),
      tiers := if input.capacityTiers == [] then [CapacityTier(None, input.capacityMultiplier)]
               else input.capacityTiers,
      baseCounts := seq(solver.windowSize, s =>
          if s in input.baselineSlotCounts then input.baselineSlotCounts[s] else 0),
      forecast := solver.carbonForecast,
      scale := solver.carbonCostScale,
      windowStart := Max(input.currentSlot - input.errorWindowPast, 0),
      windowEnd := Min(input.currentSlot + input.errorWindowFuture, solver.windowSize - 1),
      initial := Key(Round(input.baselineErrorSum * 100.0), Round(input.baselineRequestCount * 1000.0),
                     Max(input.mockCount, 0), seq(solver.windowSize, _ => 0)),
      mockErrorBp := Round(input.mockErrorPerRequest * 100.0),
      threshold := input.maxErrorThreshold)
  }

  ghost predicate WellFormed(p: Problem) {
    && |p.flavours| == |p.first| == |p.last| == |p.requests|
    && |p.forecast| == |p.baseCounts| == |p.initial.incCounts|
    && (forall s :: 0 <= s < |p.initial.incCounts| ==> p.initial.incCounts[s] == 0)
    && p.initial.mockRemaining >= 0
    && (forall i :: 0 <= i < |p.requests| ==> p.flavours[i] != [])
    && (forall i :: 0 <= i < |p.requests| ==> 0 <= p.first[i] && p.last[i] < |p.baseCounts|)
  }

  /** Every request has at least one legal slot. */
  predicate Placeable(p: Problem)
    requires |p.first| == |p.last| == |p.requests|
  {
    forall i :: 0 <= i < |p.requests| ==> p.first[i] <= p.last[i]
  }

  lemma ResolveWellFormed(solver: Solver, input: BatchInput)
    requires Callable(solver, input)
    ensures WellFormed(Resolve(solver, input))
  {
    var p := Resolve(solver, input);
    forall i | 0 <= i < |p.requests| ensures p.flavours[i] != [] {
      assert input.requests[i] in input.requests;
    }
  }

  // ── choices, prices and keys ───────────────────────────────────────────

  predicate InHorizon(p: Problem, slot: int) {
    0 <= slot < |p.baseCounts| == |p.forecast|
  }

  predicate Legal(p: Problem, i: nat, c: Choice)
    requires i < |p.flavours| == |p.first| == |p.last|
  {
    c.flavour in p.flavours[i] && p.first[i] <= c.slot <= p.last[i]
  }

  /** `cs` decides the first |cs| requests, each from its own legal range and flavour list. */
  ghost predicate LegalPrefix(p: Problem, cs: seq<Choice>)
    requires WellFormed(p)
  {
    |cs| <= |p.requests| && forall i :: 0 <= i < |cs| ==> Legal(p, i, cs[i])
  }

  /** Price of being the `position`-th request (1-indexed) of a slot. */
  function PriceAt(p: Problem, c: Choice, position: int): real
    requires InHorizon(p, c.slot)
  {
    p.forecast[c.slot] * Multiplier(p.tiers, position) * c.flavour.duration * p.scale
  }

  /** How many of the choices fall in `slot`. */
  function Placed(cs: seq<Choice>, slot: int): nat {
    if cs == [] then 0
    else Placed(cs[..|cs| - 1], slot) + if cs[|cs| - 1].slot == slot then 1 else 0
  }

  /** Reference cost: each request is priced at the position it takes behind
      the baseline and the earlier requests of the batch. */
  ghost function CostOf(p: Problem, cs: seq<Choice>): real
    requires WellFormed(p) && LegalPrefix(p, cs)
  {
    if cs == [] then 0.0
    else
      var before, c := cs[..|cs| - 1], cs[|cs| - 1];
      CostOf(p, before) + PriceAt(p, c, p.baseCounts[c.slot] + Placed(before, c.slot) + 1)
  }

  /** The assignments a choice sequence stands for, each with the price it pays. */
  ghost function Emit(p: Problem, cs: seq<Choice>): (out: seq<RequestAssignment>)
    requires WellFormed(p) && LegalPrefix(p, cs)
    ensures |out| == |cs|
  {
    if cs == [] then []
    else
      var before, c := cs[..|cs| - 1], cs[|cs| - 1];
      Emit(p, before) + [RequestAssignment(p.requests[|cs| - 1].requestId, c,
                                           PriceAt(p, c, p.baseCounts[c.slot] + Placed(before, c.slot) + 1))]
  }

  function ChoicesOf(assignments: seq<RequestAssignment>): (cs: seq<Choice>)
    ensures |cs| == |assignments|
    ensures forall i :: 0 <= i < |cs| ==> cs[i] == assignments[i].choice
  {
    seq(|assignments|, i requires 0 <= i < |assignments| => assignments[i].choice)
  }

  predicate InWindow(p: Problem, slot: int) { p.windowStart <= slot <= p.windowEnd }

  function ErrorBp(f: Flavour): int { Round(f.error * 100.0) }

  /** Marginal cost of a choice in a DP state; it reads only the key's occupancy. */
  function Delta(p: Problem, key: Key, c: Choice): real
    requires InHorizon(p, c.slot) && c.slot < |key.incCounts|
  {
    PriceAt(p, c, p.baseCounts[c.slot] + key.incCounts[c.slot] + 1)
  }

  /** Accounting transition of one choice. */
  function Step(p: Problem, key: Key, c: Choice): Key
    requires 0 <= c.slot < |key.incCounts|
  {
    var inc := key.incCounts[c.slot := key.incCounts[c.slot] + 1];
    if !InWindow(p, c.slot) then
      key.(incCounts := inc)
    else if key.mockRemaining > 0 && p.mockErrorBp > 0 then
      Key(key.errorSumBp + ErrorBp(c.flavour) - p.mockErrorBp, Max(key.errorCountMilli + 1000 - 1000, 0),
          key.mockRemaining - 1, inc)
    else
      Key(key.errorSumBp + ErrorBp(c.flavour), key.errorCountMilli + 1000, key.mockRemaining, inc)
  }

  ghost function KeyAfter(p: Problem, cs: seq<Choice>): (key: Key)
    requires WellFormed(p) && LegalPrefix(p, cs)
    ensures |key.incCounts| == |p.baseCounts|
  {
    if cs == [] then p.initial else Step(p, KeyAfter(p, cs[..|cs| - 1]), cs[|cs| - 1])
  }

  /** Average window error in per cent. */
  function AverageError(key: Key): real
    requires key.errorCountMilli != 0
  {
    (key.errorSumBp as real / 100.0) / (key.errorCountMilli as real / 1000.0)
  }

  /** The window-average test on a key. */
  predicate WithinThreshold(p: Problem, key: Key) {
    p.threshold.None? || key.errorCountMilli == 0 || AverageError(key) <= p.threshold.value
  }

  /** A complete legal decision that meets the window-average threshold. */
  ghost predicate Feasible(p: Problem, cs: seq<Choice>)
    requires WellFormed(p)
  {
    |cs| == |p.requests| && LegalPrefix(p, cs) && WithinThreshold(p, KeyAfter(p, cs))
  }

  /** Some complete legal decision meets the threshold. */
  ghost predicate HasPlan(p: Problem)
    requires WellFormed(p)
  {
    exists cs :: Feasible(p, cs)
  }

  // ── the key says what it should about the choices ──────────────────────

  function WindowErrorsBp(p: Problem, cs: seq<Choice>): int {
    if cs == [] then 0
    else
      var c := cs[|cs| - 1];
      WindowErrorsBp(p, cs[..|cs| - 1]) + if InWindow(p, c.slot) then ErrorBp(c.flavour) else 0
  }

  function WindowCount(p: Problem, cs: seq<Choice>): nat {
    if cs == [] then 0
    else WindowCount(p, cs[..|cs| - 1]) + if InWindow(p, cs[|cs| - 1].slot) then 1 else 0
  }

  /** Synthetic requests used up once `placed` real ones are in the window. */
  function ConsumedMocks(p: Problem, placed: nat): int {
    if p.mockErrorBp > 0 then Min(p.initial.mockRemaining, placed) else 0
  }

  lemma {:induction false} OccupancyIsPlaced(p: Problem, cs: seq<Choice>, slot: int)
    requires WellFormed(p) && LegalPrefix(p, cs) && 0 <= slot < |p.baseCounts|
    ensures KeyAfter(p, cs).incCounts[slot] == Placed(cs, slot)
  {
    if cs != [] {
      OccupancyIsPlaced(p, cs[..|cs| - 1], slot);
    }
  }

  lemma {:induction false} MocksConsumed(p: Problem, cs: seq<Choice>)
    requires WellFormed(p) && LegalPrefix(p, cs)
    ensures KeyAfter(p, cs).mockRemaining == p.initial.mockRemaining - ConsumedMocks(p, WindowCount(p, cs))
  {
    if cs != [] {
      MocksConsumed(p, cs[..|cs| - 1]);
    }
  }

  /** One more placement uses a mock exactly if one is left and mocks count. */
  lemma OneMoreMock(p: Problem, placed: nat)
    requires p.initial.mockRemaining >= 0
    ensures var used := ConsumedMocks(p, placed);
            var more := if p.initial.mockRemaining - used > 0 && p.mockErrorBp > 0 then 1 else 0;
            && ConsumedMocks(p, placed + 1) == used + more
            && p.mockErrorBp * ConsumedMocks(p, placed + 1) == p.mockErrorBp * used + p.mockErrorBp * more
            && used <= placed
  {
  }

  lemma {:induction false} ErrorsAccounted(p: Problem, cs: seq<Choice>)
    requires WellFormed(p) && LegalPrefix(p, cs)
    ensures KeyAfter(p, cs).errorSumBp
         == p.initial.errorSumBp + WindowErrorsBp(p, cs) - p.mockErrorBp * ConsumedMocks(p, WindowCount(p, cs))
  {
    if cs == [] {
      OneMoreMock(p, 0);
    } else {
      ErrorsAccounted(p, cs[..|cs| - 1]);
      ErrorsAccountedStep(p, cs);
    }
  }

  lemma ErrorsAccountedStep(p: Problem, cs: seq<Choice>)
    requires WellFormed(p) && LegalPrefix(p, cs) && cs != []
    requires KeyAfter(p, cs[..|cs| - 1]).errorSumBp
          == p.initial.errorSumBp + WindowErrorsBp(p, cs[..|cs| - 1])
             - p.mockErrorBp * ConsumedMocks(p, WindowCount(p, cs[..|cs| - 1]))
    ensures KeyAfter(p, cs).errorSumBp
         == p.initial.errorSumBp + WindowErrorsBp(p, cs) - p.mockErrorBp * ConsumedMocks(p, WindowCount(p, cs))
  {
    hide ConsumedMocks, ErrorBp;
    var before := cs[..|cs| - 1];
    MocksConsumed(p, before);
    OneMoreMock(p, WindowCount(p, before));
  }

  lemma {:induction false} CountAccounted(p: Problem, cs: seq<Choice>)
    requires WellFormed(p) && LegalPrefix(p, cs) && p.initial.errorCountMilli >= 0
    ensures KeyAfter(p, cs).errorCountMilli
         == p.initial.errorCountMilli + 1000 * (WindowCount(p, cs) - ConsumedMocks(p, WindowCount(p, cs)))
  {
    if cs != [] {
      CountAccounted(p, cs[..|cs| - 1]);
      MocksConsumed(p, cs[..|cs| - 1]);
    }
  }

  /** Closed form of every key component, for every legal choice sequence: the
      threshold test on a key is a statement about the decisions themselves. */
  lemma KeyAccounting(p: Problem, cs: seq<Choice>)
    requires WellFormed(p) && LegalPrefix(p, cs)
    ensures var key, used := KeyAfter(p, cs), ConsumedMocks(p, WindowCount(p, cs));
            && key.errorSumBp == p.initial.errorSumBp + WindowErrorsBp(p, cs) - p.mockErrorBp * used
            && key.mockRemaining == p.initial.mockRemaining - used
            && (p.initial.errorCountMilli >= 0 ==>
                  key.errorCountMilli == p.initial.errorCountMilli + 1000 * (WindowCount(p, cs) - used))
            && forall s :: 0 <= s < |p.baseCounts| ==> key.incCounts[s] == Placed(cs, s)
  {
    hide KeyAfter, Placed, WindowCount, WindowErrorsBp;
    ErrorsAccounted(p, cs);
    MocksConsumed(p, cs);
    if p.initial.errorCountMilli >= 0 {
      CountAccounted(p, cs);
    }
    forall s | 0 <= s < |p.baseCounts| ensures KeyAfter(p, cs).incCounts[s] == Placed(cs, s) {
      OccupancyIsPlaced(p, cs, s);
    }
  }

  lemma {:induction false} LegalSnoc(p: Problem, cs: seq<Choice>, c: Choice)
    requires WellFormed(p) && LegalPrefix(p, cs) && |cs| < |p.requests| && Legal(p, |cs|, c)
    ensures LegalPrefix(p, cs + [c])
    ensures KeyAfter(p, cs + [c]) == Step(p, KeyAfter(p, cs), c)
    ensures CostOf(p, cs + [c]) == CostOf(p, cs) + Delta(p, KeyAfter(p, cs), c)
  {
    var more := cs + [c];
    assert more[..|more| - 1] == cs && more[|more| - 1] == c;
    OccupancyIsPlaced(p, cs, c.slot);
  }

  lemma {:induction false} EmitSnoc(p: Problem, cs: seq<Choice>, c: Choice)
    requires WellFormed(p) && LegalPrefix(p, cs) && |cs| < |p.requests| && Legal(p, |cs|, c)
    requires LegalPrefix(p, cs + [c])
    ensures Emit(p, cs + [c])
         == Emit(p, cs) + [RequestAssignment(p.requests[|cs|].requestId, c, Delta(p, KeyAfter(p, cs), c))]
  {
    var more := cs + [c];
    assert more[..|more| - 1] == cs && more[|more| - 1] == c;
    OccupancyIsPlaced(p, cs, c.slot);
  }

  /** Optimal substructure: what a continuation costs and where it ends is a
      function of the key alone, so keeping the cheaper of two paths with
      equal keys loses nothing. */
  lemma {:induction false} EqualKeysShareFutures(p: Problem, a: seq<Choice>, b: seq<Choice>, future: seq<Choice>)
    requires WellFormed(p) && LegalPrefix(p, a) && LegalPrefix(p, b) && |a| == |b|
    requires KeyAfter(p, a) == KeyAfter(p, b)
    requires LegalPrefix(p, a + future)
    ensures LegalPrefix(p, b + future)
    ensures KeyAfter(p, a + future) == KeyAfter(p, b + future)
    ensures CostOf(p, a + future) - CostOf(p, a) == CostOf(p, b + future) - CostOf(p, b)
    decreases |future|
  {
    if future == [] {
      assert a + future == a && b + future == b;
    } else {
      hide KeyAfter, CostOf, Delta, Step;
      var c, rest := future[0], future[1..];
      assert a + future == (a + [c]) + rest && b + future == (b + [c]) + rest;
      assert (a + future)[|a|] == c;
      LegalSnoc(p, a, c);
      LegalSnoc(p, b, c);
      EqualKeysShareFutures(p, a + [c], b + [c], rest);
    }
  }

  /** Sum of the prices written into assignments. */
  function TotalCost(assignments: seq<RequestAssignment>): real {
    if assignments == [] then 0.0
    else TotalCost(assignments[..|assignments| - 1]) + assignments[|assignments| - 1].carbonCost
  }

  lemma {:induction false} EmitTotal(p: Problem, cs: seq<Choice>)
    requires WellFormed(p) && LegalPrefix(p, cs)
    ensures TotalCost(Emit(p, cs)) == CostOf(p, cs)
  {
    if cs != [] {
      var out := Emit(p, cs);
      assert out[..|out| - 1] == Emit(p, cs[..|cs| - 1]);
      EmitTotal(p, cs[..|cs| - 1]);
    }
  }

  lemma {:induction false} EmitInOrder(p: Problem, cs: seq<Choice>, i: nat)
    requires WellFormed(p) && LegalPrefix(p, cs) && i < |cs|
    ensures InHorizon(p, cs[i].slot)
    ensures Emit(p, cs)[i] == RequestAssignment(p.requests[i].requestId, cs[i],
                                                PriceAt(p, cs[i], p.baseCounts[cs[i].slot] + Placed(cs[..i], cs[i].slot) + 1))
  {
    if i < |cs| - 1 {
      EmitInOrder(p, cs[..|cs| - 1], i);
      assert cs[..|cs| - 1][..i] == cs[..i];
    }
  }

  /** The emitted prices add up to the sequential cost, and each emitted
      assignment answers its own request with its own choice. */
  lemma EmitFaithful(p: Problem, cs: seq<Choice>)
    requires WellFormed(p) && LegalPrefix(p, cs)
    ensures TotalCost(Emit(p, cs)) == CostOf(p, cs)
    ensures ChoicesOf(Emit(p, cs)) == cs
    ensures forall i :: 0 <= i < |cs| ==> Emit(p, cs)[i].requestId == p.requests[i].requestId
  {
    EmitTotal(p, cs);
    forall i | 0 <= i < |cs|
      ensures Emit(p, cs)[i].requestId == p.requests[i].requestId && Emit(p, cs)[i].choice == cs[i]
    {
      EmitInOrder(p, cs, i);
    }
  }
}
