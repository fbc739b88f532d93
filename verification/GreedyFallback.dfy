/** The last-resort placement used when the DP cannot cover a batch: each
    request takes its longest flavour at the then cheapest legal slot.

    It is the warm start of an unconstrained problem with one flavour per
    request, and when ranges and durations coincide it is globally cheapest. */
module GreedyFallback {
  import opened Options
  import opened Tiers
  import opened DpProblem
  import opened DpReference
  import opened DpWarmStart

  datatype Call = Call(requests: seq<SolveRequest>, currentSlot: int, tiers: seq<CapacityTier>,
                       baseCounts: seq<int>, requestFlavours: map<nat, seq<Flavour>>)

  predicate Callable(solver: Solver, call: Call) {
    && |solver.carbonForecast| == |call.baseCounts| == solver.windowSize
    && call.currentSlot >= 0
    && forall r :: r in call.requests ==> Candidates(solver, call, r) != []
  }

  function Candidates(solver: Solver, call: Call, r: SolveRequest): seq<Flavour> {
    if r.requestId in call.requestFlavours then call.requestFlavours[r.requestId] else solver.flavours
  }

  /** `f` stands in the list, nothing in front of it lasts longer and nothing behind it as long. */
  ghost predicate IsLastLongest(fs: seq<Flavour>, f: Flavour) {
    exists i :: 0 <= i < |fs| && fs[i] == f && LastLongestAt(fs, i)
  }

  ghost predicate LastLongestAt(fs: seq<Flavour>, i: nat)
    requires i < |fs|
  {
    && (forall j :: 0 <= j < i ==> fs[j].duration <= fs[i].duration)
    && forall j :: i < j < |fs| ==> fs[j].duration < fs[i].duration
  }

  /** The last flavour of greatest duration. */
  function Longest(fs: seq<Flavour>): (f: Flavour)
    requires fs != []
    ensures IsLastLongest(fs, f)
  {
    LongestStep(fs, if |fs| == 1 then fs[0] else Longest(fs[..|fs| - 1]));
    if |fs| == 1 then fs[0]
    else
      var m := Longest(fs[..|fs| - 1]);
      if fs[|fs| - 1].duration >= m.duration then fs[|fs| - 1] else m
  }

  lemma LongestStep(fs: seq<Flavour>, m: Flavour)
    requires fs != [] && (|fs| > 1 ==> IsLastLongest(fs[..|fs| - 1], m)) && (|fs| == 1 ==> m == fs[0])
    ensures IsLastLongest(fs, if |fs| == 1 || fs[|fs| - 1].duration >= m.duration then fs[|fs| - 1] else m)
  {
    var last := |fs| - 1;
    if |fs| == 1 {
      assert LastLongestAt(fs, 0);
    } else {
      var front := fs[..last];
      var i :| 0 <= i < |front| && front[i] == m && LastLongestAt(front, i);
      forall j | 0 <= j < last ensures front[j] == fs[j] && fs[j].duration <= m.duration {
      }
      if fs[last].duration >= m.duration {
        assert LastLongestAt(fs, last);
      } else {
        assert LastLongestAt(fs, i);
      }
    }
  }

  function FirstSlot(call: Call, r: SolveRequest): int { Max(r.earliestSlot, call.currentSlot) }

  function FinalSlot(solver: Solver, call: Call, r: SolveRequest): int {
    Min(Max(r.deadlineSlot, call.currentSlot), solver.windowSize - 1)
  }

  /** The requests that have a legal slot; the others are left out of the answer. */
  function Kept(solver: Solver, call: Call, rs: seq<SolveRequest>): seq<SolveRequest> {
    if rs == [] then []
    else
      var r := rs[|rs| - 1];
      Kept(solver, call, rs[..|rs| - 1])
      + if FirstSlot(call, r) <= FinalSlot(solver, call, r) then [r] else []
  }

  lemma {:induction false} KeptComeFrom(solver: Solver, call: Call, rs: seq<SolveRequest>)
    ensures forall r :: r in Kept(solver, call, rs) ==> r in rs && FirstSlot(call, r) <= FinalSlot(solver, call, r)
  {
    if rs != [] {
      KeptComeFrom(solver, call, rs[..|rs| - 1]);
    }
  }

  /** How many of the first `i` requests have a legal slot. */
  function KeptCount(solver: Solver, call: Call, i: nat): nat
    requires i <= |call.requests|
  {
    |Kept(solver, call, call.requests[..i])|
  }

  lemma {:induction false} KeptGrow(solver: Solver, call: Call, rs: seq<SolveRequest>, i: nat)
    requires i < |rs|
    ensures Kept(solver, call, rs[..i + 1]) <= Kept(solver, call, rs)
    ensures Kept(solver, call, rs[..i + 1])
         == Kept(solver, call, rs[..i])
            + if FirstSlot(call, rs[i]) <= FinalSlot(solver, call, rs[i]) then [rs[i]] else []
  {
    assert rs[..i + 1][..i] == rs[..i];
    if i == |rs| - 1 {
      assert rs[..i + 1] == rs;
    } else {
      KeptGrow(solver, call, rs[..|rs| - 1], i);
      assert rs[..|rs| - 1][..i + 1] == rs[..i + 1];
    }
  }

  lemma KeptNext(solver: Solver, call: Call, i: nat)
    requires i < |call.requests|
    ensures var n, r := KeptCount(solver, call, i), call.requests[i];
            var kept := Kept(solver, call, call.requests);
            if FirstSlot(call, r) <= FinalSlot(solver, call, r) then
              KeptCount(solver, call, i + 1) == n + 1 && n < |kept| && kept[n] == r
            else
              KeptCount(solver, call, i + 1) == n
  {
    KeptGrow(solver, call, call.requests, i);
  }

  function GreedyProblem(solver: Solver, call: Call): Problem
    requires Callable(solver, call)
  {
    var rs := Kept(solver, call, call.requests);
    KeptComeFrom(solver, call, call.requests);
    assert forall i :: 0 <= i < |rs| ==> rs[i] in rs;
    Problem(
      requests := rs,
      flavours := seq(|rs|, i requires 0 <= i < |rs| => [Longest(Candidates(solver, call, rs[i]))]),
      first := seq(|rs|, i requires 0 <= i < |rs| => FirstSlot(call, rs[i])),
      last := seq(|rs|, i requires 0 <= i < |rs| => FinalSlot(solver, call, rs[i])),
      tiers := call.tiers,
      baseCounts := call.baseCounts,
      forecast := solver.carbonForecast,
      scale := solver.carbonCostScale,
      windowStart := 0,
      windowEnd := -1,
      initial := Key(0, 0, 0, seq(solver.windowSize, _ => 0)),
      mockErrorBp := 0,
      threshold := None)
  }

  lemma GreedyProblemOk(solver: Solver, call: Call)
    requires Callable(solver, call)
    ensures var p := GreedyProblem(solver, call);
            && WellFormed(p) && Placeable(p) && p.threshold.None?
            && p.requests == Kept(solver, call, call.requests)
            && KeptCount(solver, call, 0) == 0 && KeptCount(solver, call, |call.requests|) == |p.requests|
  {
    assert call.requests[..|call.requests|] == call.requests;
    var rs := Kept(solver, call, call.requests);
    KeptComeFrom(solver, call, call.requests);
    assert forall i :: 0 <= i < |rs| ==> rs[i] in rs;
  }

  lemma GreedyProblemAt(solver: Solver, call: Call, n: nat)
    requires Callable(solver, call) && n < |GreedyProblem(solver, call).requests|
    ensures var p := GreedyProblem(solver, call);
            var r := p.requests[n];
            && |p.flavours| == |p.first| == |p.last| == |p.requests|
            && r in call.requests && Candidates(solver, call, r) != []
            && p.flavours[n] == [Longest(Candidates(solver, call, r))]
            && p.first[n] == FirstSlot(call, r) && p.last[n] == FinalSlot(solver, call, r)
            && 0 <= p.first[n] && p.last[n] < |p.baseCounts|
  {
    KeptComeFrom(solver, call, call.requests);
  }

  /** The whole problem of one request: the cheapest slot of its one flavour. */
  lemma OneFlavourChoice(p: Problem, i: nat, key: Key)
    requires i < |p.flavours| == |p.first| == |p.last|
    requires |p.flavours[i]| == 1 && p.first[i] <= p.last[i] && p.threshold.None?
    requires Scannable(p, key, p.first[i], p.last[i])
    ensures var best := ScanSlots(p, key, p.flavours[i][0], p.first[i], p.last[i], true, NoBest);
            best.Best? && WarmChoice(p, i, key) == best.choice
    ensures forall s :: p.first[i] <= s < WarmChoice(p, i, key).slot ==>
              Delta(p, key, WarmChoice(p, i, key)) < Delta(p, key, Choice(p.flavours[i][0], s))
  {
    var fs := p.flavours[i];
    var best := ScanSlots(p, key, fs[0], p.first[i], p.last[i], true, NoBest);
    ScanSlotsFindsBest(p, key, fs[0], p.first[i], p.last[i], true, NoBest);
    assert Counts(p, key, true, Choice(fs[0], p.first[i]));
    assert fs[1..] == [] && ScanFlavours(p, key, [], p.first[i], p.last[i], best) == best;
    assert forall s :: p.first[i] <= s <= p.last[i] ==> Counts(p, key, true, Choice(fs[0], s));
  }

  // ── what the call asks for, read off solver and call alone ─────────────

  predicate FreeTo(solver: Solver, call: Call, r: SolveRequest, slot: int) {
    && r.earliestSlot <= slot && call.currentSlot <= slot < solver.windowSize
    && (slot <= r.deadlineSlot || slot <= call.currentSlot)
  }

  /** The requests with a slot open to them, in order. */
  ghost function Servable(solver: Solver, call: Call, rs: seq<SolveRequest>): seq<SolveRequest> {
    if rs == [] then []
    else
      var r := rs[|rs| - 1];
      Servable(solver, call, rs[..|rs| - 1]) + if exists slot :: FreeTo(solver, call, r, slot) then [r] else []
  }

  /** The price of row `k` if it were in `slot`, behind the base load and the rows in front of it. */
  function PriceIn(solver: Solver, call: Call, rows: seq<Choice>, k: nat, slot: int): real
    requires k < |rows| && 0 <= slot < |solver.carbonForecast| == |call.baseCounts|
  {
    solver.carbonForecast[slot] * Multiplier(call.tiers, call.baseCounts[slot] + |RowsIn(rows, slot, k)| + 1)
    * rows[k].flavour.duration * solver.carbonCostScale
  }

  /** Row `k` answers request `r`: its longest flavour (the last of several as long), in the first open slot where it costs least. */
  ghost predicate RowServes(solver: Solver, call: Call, assignments: seq<RequestAssignment>, k: nat, r: SolveRequest)
    requires k < |assignments| && |solver.carbonForecast| == |call.baseCounts| == solver.windowSize && call.currentSlot >= 0
  {
    var a, rows := assignments[k], ChoicesOf(assignments);
    var flavours := if r.requestId in call.requestFlavours then call.requestFlavours[r.requestId] else solver.flavours;
    && a.requestId == r.requestId
    && IsLastLongest(flavours, a.choice.flavour)
    && FreeTo(solver, call, r, a.choice.slot)
    && a.carbonCost == PriceIn(solver, call, rows, k, a.choice.slot)
    && (forall slot :: FreeTo(solver, call, r, slot) ==> a.carbonCost <= PriceIn(solver, call, rows, k, slot))
    && forall slot :: FreeTo(solver, call, r, slot) && slot < a.choice.slot ==>
         a.carbonCost < PriceIn(solver, call, rows, k, slot)
  }

  ghost predicate Serves(solver: Solver, call: Call, assignments: seq<RequestAssignment>)
    requires |solver.carbonForecast| == |call.baseCounts| == solver.windowSize && call.currentSlot >= 0
  {
    var rs := Servable(solver, call, call.requests);
    |assignments| == |rs| && forall k :: 0 <= k < |rs| ==> RowServes(solver, call, assignments, k, rs[k])
  }

  lemma OpenMeans(solver: Solver, call: Call, r: SolveRequest)
    ensures forall slot :: FreeTo(solver, call, r, slot) <==> FirstSlot(call, r) <= slot <= FinalSlot(solver, call, r)
    ensures FirstSlot(call, r) <= FinalSlot(solver, call, r) <==> exists slot :: FreeTo(solver, call, r, slot)
  {
    if FirstSlot(call, r) <= FinalSlot(solver, call, r) {
      assert FreeTo(solver, call, r, FirstSlot(call, r));
    }
  }

  lemma {:induction false} KeptAreServable(solver: Solver, call: Call, rs: seq<SolveRequest>)
    ensures Kept(solver, call, rs) == Servable(solver, call, rs)
  {
    hide FreeTo, FirstSlot, FinalSlot;
    if rs != [] {
      KeptAreServable(solver, call, rs[..|rs| - 1]);
      OpenMeans(solver, call, rs[|rs| - 1]);
    }
  }

  lemma {:induction false} WarmPrefixAt(p: Problem, n: nat, k: nat)
    requires WellFormed(p) && Placeable(p) && k < n <= |p.requests|
    ensures WarmPrefix(p, n)[..k] == WarmPrefix(p, k)
    ensures WarmPrefix(p, n)[k] == WarmChoice(p, k, KeyAfter(p, WarmPrefix(p, k)))
  {
    hide WarmChoice, KeyAfter;
    if k < n - 1 {
      WarmPrefixAt(p, n - 1, k);
      assert WarmPrefix(p, n)[..k] == WarmPrefix(p, n - 1)[..k];
    }
  }

  /** With no threshold each warm choice is a cheapest legal one where it stands. */
  lemma WarmRowIsCheapest(p: Problem, n: nat, k: nat, c: Choice)
    requires WellFormed(p) && Placeable(p) && p.threshold.None? && k < n <= |p.requests| && Legal(p, k, c)
    requires |p.flavours[k]| == 1
    ensures var cs := WarmPrefix(p, n);
            && InHorizon(p, c.slot) && InHorizon(p, cs[k].slot)
            && var mine, other := PriceAt(p, cs[k], p.baseCounts[cs[k].slot] + Placed(cs[..k], cs[k].slot) + 1),
                                  PriceAt(p, c, p.baseCounts[c.slot] + Placed(cs[..k], c.slot) + 1);
            mine <= other && (c.slot < cs[k].slot ==> mine < other)
  {
    hide PriceAt, WarmPrefix, WarmChoice, KeyAfter, Placed, ScanSlots;
    assert c == Choice(p.flavours[k][0], c.slot);
    OneFlavourChoice(p, k, KeyAfter(p, WarmPrefix(p, k)));
    WarmPrefixAt(p, n, k);
    var before := WarmPrefix(p, k);
    var key := KeyAfter(p, before);
    WarmChoiceIsGreedy(p, k, key);
    assert Admissible(p, key, c);
    OccupancyIsPlaced(p, before, c.slot);
    OccupancyIsPlaced(p, before, WarmChoice(p, k, key).slot);
  }

  lemma GreedyPrices(solver: Solver, call: Call, rows: seq<Choice>, k: nat, c: Choice)
    requires Callable(solver, call) && k < |rows| && c.flavour == rows[k].flavour && 0 <= c.slot < solver.windowSize
    ensures var p := GreedyProblem(solver, call);
            && InHorizon(p, c.slot)
            && PriceAt(p, c, p.baseCounts[c.slot] + Placed(rows[..k], c.slot) + 1) == PriceIn(solver, call, rows, k, c.slot)
  {
    hide Kept, Placed, Longest;
    PlacedIsRows(rows, c.slot, k);
  }

  lemma EmittedRowServes(solver: Solver, call: Call, k: nat)
    requires Callable(solver, call) && WellFormed(GreedyProblem(solver, call)) && Placeable(GreedyProblem(solver, call))
    requires k < |GreedyProblem(solver, call).requests| && GreedyProblem(solver, call).threshold.None?
    ensures var p := GreedyProblem(solver, call);
            RowServes(solver, call, Emit(p, WarmStart(p)), k, p.requests[k])
  {
    hide Kept, Placed, PriceAt, PriceIn, GreedyProblem, WellFormed, Placeable, Emit, WarmPrefix, FreeTo, FirstSlot, FinalSlot;
    var p := GreedyProblem(solver, call);
    var cs, r := WarmStart(p), p.requests[k];
    GreedyProblemAt(solver, call, k);
    EmitFaithful(p, cs);
    EmitInOrder(p, cs, k);
    OpenMeans(solver, call, r);
    assert Legal(p, k, cs[k]);
    OpenInHorizon(solver, call, r, cs[k].slot);
    GreedyPrices(solver, call, cs, k, cs[k]);
    forall slot | FreeTo(solver, call, r, slot)
      ensures 0 <= slot < solver.windowSize
      ensures Emit(p, cs)[k].carbonCost <= PriceIn(solver, call, cs, k, slot)
      ensures slot < cs[k].slot ==> Emit(p, cs)[k].carbonCost < PriceIn(solver, call, cs, k, slot)
    {
      OpenInHorizon(solver, call, r, slot);
      var c := Choice(cs[k].flavour, slot);
      WarmRowIsCheapest(p, |p.requests|, k, c);
      GreedyPrices(solver, call, cs, k, c);
    }
  }

  lemma OpenInHorizon(solver: Solver, call: Call, r: SolveRequest, slot: int)
    requires FreeTo(solver, call, r, slot) && call.currentSlot >= 0
    ensures 0 <= slot < solver.windowSize
  {
  }

  /** Places the requests one by one, each seeing the occupancy of the earlier ones. */
  method Place(solver: Solver, call: Call) returns (assignments: seq<RequestAssignment>)
    requires Callable(solver, call)
    ensures Serves(solver, call, assignments)
    ensures var p := GreedyProblem(solver, call);
            WellFormed(p) && Placeable(p) && assignments == Emit(p, WarmStart(p))
  {
    hide WarmAt, WarmPrefix, WarmChoice, Delta, Step, Kept, KeptCount, GreedyProblem, Longest, WellFormed, Candidates;
    GreedyProblemOk(solver, call);
    var p := GreedyProblem(solver, call);
    WarmBegins(p);
    var key := p.initial;
    assignments := [];
    ghost var n := 0;
    for i := 0 to |call.requests|
      invariant n == KeptCount(solver, call, i) <= |p.requests|
      invariant WarmAt(p, n, assignments, key)
    {
      KeptNext(solver, call, i);
      var request := call.requests[i];
      var first, last := FirstSlot(call, request), FinalSlot(solver, call, request);
      if first <= last {
        GreedyProblemAt(solver, call, n);
        WarmExtends(p, n, assignments, key);
        var f := Longest(Candidates(solver, call, request));
        var c := CheapestSlot(p, n, key, f, first, last);
        assignments := assignments + [RequestAssignment(request.requestId, c, Delta(p, key, c))];
        key := Step(p, key, c);
        n := n + 1;
      }
    }
    WarmEnds(p, assignments, key);
    EmittedServe(solver, call);
  }

  lemma EmittedServe(solver: Solver, call: Call)
    requires Callable(solver, call)
    ensures var p := GreedyProblem(solver, call);
            WellFormed(p) && Placeable(p) && Serves(solver, call, Emit(p, WarmStart(p)))
  {
    hide Kept, Servable, GreedyProblem, WellFormed, Placeable, Emit, WarmPrefix, RowServes;
    GreedyProblemOk(solver, call);
    KeptAreServable(solver, call, call.requests);
    var p := GreedyProblem(solver, call);
    forall k | 0 <= k < |p.requests| ensures RowServes(solver, call, Emit(p, WarmStart(p)), k, p.requests[k]) {
      EmittedRowServes(solver, call, k);
    }
  }

  method CheapestSlot(p: Problem, ghost i: nat, key: Key, f: Flavour, first: int, last: int) returns (c: Choice)
    requires i < |p.flavours| == |p.first| == |p.last|
    requires p.flavours[i] == [f] && p.first[i] == first <= last == p.last[i]
    requires Scannable(p, key, first, last) && p.threshold.None?
    ensures c == WarmChoice(p, i, key)
  {
    var best := NoBest;
    for slot := first to last + 1
      invariant ScanSlots(p, key, f, slot, last, true, best) == ScanSlots(p, key, f, first, last, true, NoBest)
      invariant slot > first ==> best.Best?
    {
      best := Improve(best, Delta(p, key, Choice(f, slot)), Choice(f, slot));
    }
    OneFlavourChoice(p, i, key);
    c := best.choice;
  }

  // ── optimality by exchange of marginals ────────────────────────────────

  /** Every request may go anywhere in `lo..=hi` at one duration, carbon is not
      negative, and a fuller slot is never cheaper. */
  ghost predicate Uniform(p: Problem, lo: int, hi: int, duration: real) {
    && lo <= hi
    && WellFormed(p)
    && p.threshold.None?
    && (forall i :: 0 <= i < |p.requests| ==> p.first[i] == lo && p.last[i] == hi)
    && (forall i, f :: 0 <= i < |p.requests| && f in p.flavours[i] ==> f.duration == duration)
    && 0 <= lo && hi < |p.baseCounts|
    && duration * p.scale >= 0.0
    && (forall s :: lo <= s <= hi ==> p.forecast[s] >= 0.0)
    && NeverCheaper(p.tiers)
  }

  ghost predicate NeverCheaper(tiers: seq<CapacityTier>) {
    forall a, b :: a <= b ==> Multiplier(tiers, a) <= Multiplier(tiers, b)
  }

  /** Every ladder the administrator may install qualifies. */
  lemma ValidLaddersNeverCheaper(tiers: seq<CapacityTier>)
    requires ValidLadder(tiers)
    ensures NeverCheaper(tiers)
  {
    forall a, b | a <= b ensures Multiplier(tiers, a) <= Multiplier(tiers, b) {
      LadderMonotone(tiers, a, b);
    }
  }

  /** Price of the `k`-th request this batch adds to slot `s`. */
  function Marginal(p: Problem, duration: real, s: int, k: int): real
    requires InHorizon(p, s)
  {
    PriceAt(p, Choice(Flavour("", 0.0, duration), s), p.baseCounts[s] + k)
  }

  lemma MarginalRises(p: Problem, lo: int, hi: int, duration: real, s: int, a: int, b: int)
    requires Uniform(p, lo, hi, duration) && lo <= s <= hi && a <= b
    ensures Marginal(p, duration, s, a) <= Marginal(p, duration, s, b)
  {
    var x, y := Multiplier(p.tiers, p.baseCounts[s] + a), Multiplier(p.tiers, p.baseCounts[s] + b);
    var f, w := p.forecast[s], duration * p.scale;
    assert x <= y;
    ScaleUp(f, x, y);
    ScaleUp(w, f * x, f * y);
    assert f * x * duration * p.scale == w * (f * x);
    assert f * y * duration * p.scale == w * (f * y);
  }

  lemma ScaleUp(w: real, x: real, y: real)
    requires w >= 0.0 && x <= y
    ensures w * x <= w * y
  {
  }

  /** Price of the first `n` requests this batch adds to slot `s`. */
  function SlotCost(p: Problem, duration: real, s: int, n: nat): real
    requires InHorizon(p, s)
  {
    if n == 0 then 0.0 else SlotCost(p, duration, s, n - 1) + Marginal(p, duration, s, n)
  }

  /** Price of a placement, slot by slot. */
  function CostBySlots(p: Problem, duration: real, cs: seq<Choice>, lo: int, hi: int): real
    requires 0 <= lo && hi < |p.baseCounts| == |p.forecast|
    decreases hi - lo + 1
  {
    if lo > hi then 0.0
    else CostBySlots(p, duration, cs, lo, hi - 1) + SlotCost(p, duration, hi, Placed(cs, hi))
  }

  function PlacedIn(cs: seq<Choice>, lo: int, hi: int): nat
    decreases hi - lo + 1
  {
    if lo > hi then 0 else PlacedIn(cs, lo, hi - 1) + Placed(cs, hi)
  }

  lemma {:induction false} CostBySlotsSnoc(p: Problem, duration: real, cs: seq<Choice>, c: Choice, lo: int, hi: int)
    requires 0 <= lo && hi < |p.baseCounts| == |p.forecast|
    ensures CostBySlots(p, duration, cs + [c], lo, hi)
         == CostBySlots(p, duration, cs, lo, hi)
            + if lo <= c.slot <= hi then Marginal(p, duration, c.slot, Placed(cs, c.slot) + 1) else 0.0
    ensures PlacedIn(cs + [c], lo, hi) == PlacedIn(cs, lo, hi) + if lo <= c.slot <= hi then 1 else 0
    decreases hi - lo + 1
  {
    hide Marginal;
    assert (cs + [c])[..|cs|] == cs;
    if lo <= hi {
      CostBySlotsSnoc(p, duration, cs, c, lo, hi - 1);
    }
  }

  lemma {:induction false} EmptyCostsNothing(p: Problem, duration: real, lo: int, hi: int)
    requires 0 <= lo && hi < |p.baseCounts| == |p.forecast|
    ensures CostBySlots(p, duration, [], lo, hi) == 0.0 && PlacedIn([], lo, hi) == 0
    decreases hi - lo + 1
  {
    if lo <= hi {
      EmptyCostsNothing(p, duration, lo, hi - 1);
    }
  }

  lemma DeltaIsMarginal(p: Problem, lo: int, hi: int, duration: real, before: seq<Choice>, c: Choice)
    requires Uniform(p, lo, hi, duration) && LegalPrefix(p, before)
    requires |before| < |p.requests| && Legal(p, |before|, c)
    ensures Delta(p, KeyAfter(p, before), c) == Marginal(p, duration, c.slot, Placed(before, c.slot) + 1)
  {
    hide NeverCheaper, KeyAfter, PriceAt;
    OccupancyIsPlaced(p, before, c.slot);
    var named := Choice(Flavour("", 0.0, duration), c.slot);
    SamePrice(p, c, named, p.baseCounts[c.slot] + Placed(before, c.slot) + 1);
  }

  lemma SamePrice(p: Problem, c: Choice, d: Choice, position: int)
    requires InHorizon(p, c.slot) && c.slot == d.slot && c.flavour.duration == d.flavour.duration
    ensures PriceAt(p, c, position) == PriceAt(p, d, position)
  {
  }

  /** Sequential pricing depends only on how many requests each slot receives. */
  lemma {:induction false} CostIsBySlots(p: Problem, lo: int, hi: int, duration: real, cs: seq<Choice>)
    requires Uniform(p, lo, hi, duration) && LegalPrefix(p, cs)
    ensures CostOf(p, cs) == CostBySlots(p, duration, cs, lo, hi)
    ensures PlacedIn(cs, lo, hi) == |cs|
  {
    if cs == [] {
      EmptyCostsNothing(p, duration, lo, hi);
    } else {
      var before, c := cs[..|cs| - 1], cs[|cs| - 1];
      CostIsBySlots(p, lo, hi, duration, before);
      assert cs == before + [c];
      CostBySlotsSnoc(p, duration, before, c, lo, hi);
      LegalSnoc(p, before, c);
      DeltaIsMarginal(p, lo, hi, duration, before, c);
      hide NeverCheaper, CostOf, CostBySlots, PlacedIn, KeyAfter, Delta, Marginal;
    }
  }

  /** Every request already placed costs no more than any place still free. */
  ghost predicate Balanced(p: Problem, duration: real, cs: seq<Choice>, lo: int, hi: int)
    requires 0 <= lo && hi < |p.baseCounts| == |p.forecast|
  {
    forall s, t :: lo <= s <= hi && lo <= t <= hi && Placed(cs, s) > 0 ==>
      Marginal(p, duration, s, Placed(cs, s)) <= Marginal(p, duration, t, Placed(cs, t) + 1)
  }

  lemma {:induction false} WarmBalanced(p: Problem, lo: int, hi: int, duration: real, n: nat)
    requires Uniform(p, lo, hi, duration) && n <= |p.requests|
    ensures Placeable(p) && Balanced(p, duration, WarmPrefix(p, n), lo, hi)
  {
    hide Uniform, WarmChoice, WarmPrefix, KeyAfter, Balanced;
    UniformPlaceable(p, lo, hi, duration);
    if n == 0 {
      NothingPlacedBalanced(p, duration, lo, hi);
    } else {
      WarmBalanced(p, lo, hi, duration, n - 1);
      WarmBalancedStep(p, lo, hi, duration, n);
    }
  }

  lemma UniformPlaceable(p: Problem, lo: int, hi: int, duration: real)
    requires Uniform(p, lo, hi, duration)
    ensures WellFormed(p) && Placeable(p) && 0 <= lo && hi < |p.baseCounts| == |p.forecast|
  {
  }

  lemma NothingPlacedBalanced(p: Problem, duration: real, lo: int, hi: int)
    requires WellFormed(p) && Placeable(p) && 0 <= lo && hi < |p.baseCounts| == |p.forecast|
    ensures Balanced(p, duration, WarmPrefix(p, 0), lo, hi)
  {
  }

  lemma WarmBalancedStep(p: Problem, lo: int, hi: int, duration: real, n: nat)
    requires Uniform(p, lo, hi, duration) && Placeable(p) && 0 < n <= |p.requests|
    requires Balanced(p, duration, WarmPrefix(p, n - 1), lo, hi)
    ensures Balanced(p, duration, WarmPrefix(p, n), lo, hi)
  {
    hide NeverCheaper, Marginal, WarmChoice, KeyAfter, Balanced;
    var before := WarmPrefix(p, n - 1);
    var w := WarmChoice(p, n - 1, KeyAfter(p, before));
    PickedIsCheapest(p, lo, hi, duration, n - 1);
    BalancedSnoc(p, lo, hi, duration, before, w);
  }

  lemma BalancedSnoc(p: Problem, lo: int, hi: int, duration: real, before: seq<Choice>, w: Choice)
    requires Uniform(p, lo, hi, duration) && Balanced(p, duration, before, lo, hi) && lo <= w.slot <= hi
    requires forall t | lo <= t <= hi ::
               Marginal(p, duration, w.slot, Placed(before, w.slot) + 1) <= Marginal(p, duration, t, Placed(before, t) + 1)
    ensures Balanced(p, duration, before + [w], lo, hi)
  {
    hide NeverCheaper, Marginal;
    var cs := before + [w];
    assert cs[..|cs| - 1] == before;
    forall s, t | lo <= s <= hi && lo <= t <= hi && Placed(cs, s) > 0
      ensures Marginal(p, duration, s, Placed(cs, s)) <= Marginal(p, duration, t, Placed(cs, t) + 1)
    {
      MarginalRises(p, lo, hi, duration, t, Placed(before, t) + 1, Placed(cs, t) + 1);
    }
  }

  lemma PickedIsCheapest(p: Problem, lo: int, hi: int, duration: real, i: nat)
    requires Uniform(p, lo, hi, duration) && i < |p.requests| && Placeable(p)
    ensures var before := WarmPrefix(p, i);
            var w := WarmChoice(p, i, KeyAfter(p, before));
            forall t :: lo <= t <= hi ==>
              Marginal(p, duration, w.slot, Placed(before, w.slot) + 1) <= Marginal(p, duration, t, Placed(before, t) + 1)
  {
    hide NeverCheaper, WarmPrefix, KeyAfter, WarmChoice, Delta, Marginal;
    var before := WarmPrefix(p, i);
    var key := KeyAfter(p, before);
    var w := WarmChoice(p, i, key);
    WarmChoiceIsGreedy(p, i, key);
    DeltaIsMarginal(p, lo, hi, duration, before, w);
    forall t | lo <= t <= hi
      ensures Marginal(p, duration, w.slot, Placed(before, w.slot) + 1) <= Marginal(p, duration, t, Placed(before, t) + 1)
    {
      var other := Choice(p.flavours[i][0], t);
      assert Legal(p, i, other) && Admissible(p, key, other);
      DeltaIsMarginal(p, lo, hi, duration, before, other);
    }
  }

  /** The cheapest place still free. */
  function Cheapest(p: Problem, duration: real, cs: seq<Choice>, lo: int, hi: int): (price: real)
    requires 0 <= lo <= hi < |p.baseCounts| == |p.forecast|
    decreases hi - lo
  {
    var here := Marginal(p, duration, hi, Placed(cs, hi) + 1);
    if lo == hi then here
    else
      var rest := Cheapest(p, duration, cs, lo, hi - 1);
      if rest <= here then rest else here
  }

  lemma {:induction false} CheapestIsLeast(p: Problem, duration: real, cs: seq<Choice>, lo: int, hi: int)
    requires 0 <= lo <= hi < |p.baseCounts| == |p.forecast|
    ensures forall t :: lo <= t <= hi ==>
              Cheapest(p, duration, cs, lo, hi) <= Marginal(p, duration, t, Placed(cs, t) + 1)
    ensures exists t :: lo <= t <= hi && Cheapest(p, duration, cs, lo, hi) == Marginal(p, duration, t, Placed(cs, t) + 1)
    decreases hi - lo
  {
    hide Marginal;
    var here := Marginal(p, duration, hi, Placed(cs, hi) + 1);
    if lo < hi {
      CheapestIsLeast(p, duration, cs, lo, hi - 1);
      var t :| lo <= t <= hi - 1 && Cheapest(p, duration, cs, lo, hi - 1) == Marginal(p, duration, t, Placed(cs, t) + 1);
      var least := if Cheapest(p, duration, cs, lo, hi - 1) <= here then t else hi;
      assert Cheapest(p, duration, cs, lo, hi) == Marginal(p, duration, least, Placed(cs, least) + 1);
    } else {
      assert Cheapest(p, duration, cs, lo, hi) == Marginal(p, duration, hi, Placed(cs, hi) + 1);
    }
  }

  /** Moving from `g` to `n` requests in a slot changes its cost by at least `price` for each. */
  lemma {:induction false} ExchangeInSlot(p: Problem, duration: real, s: int, g: nat, n: nat, price: real)
    requires InHorizon(p, s)
    requires forall k :: 1 <= k <= g ==> Marginal(p, duration, s, k) <= price
    requires forall k :: k > g ==> price <= Marginal(p, duration, s, k)
    ensures SlotCost(p, duration, s, n) - SlotCost(p, duration, s, g) >= price * (n - g) as real
    decreases if n > g then n - g else g - n
  {
    hide Marginal;
    if n > g {
      ExchangeInSlot(p, duration, s, g, n - 1, price);
      assert price * (n - g) as real == price * (n - 1 - g) as real + price;
    } else if n < g {
      ExchangeInSlot(p, duration, s, g, n + 1, price);
      assert price * (n - g) as real == price * (n + 1 - g) as real - price;
      assert SlotCost(p, duration, s, n + 1) == SlotCost(p, duration, s, n) + Marginal(p, duration, s, n + 1);
    }
  }

  ghost predicate Separates(p: Problem, duration: real, g: seq<Choice>, s: int, price: real)
    requires InHorizon(p, s)
  {
    && (forall k :: 1 <= k <= Placed(g, s) ==> Marginal(p, duration, s, k) <= price)
    && forall k :: k > Placed(g, s) ==> price <= Marginal(p, duration, s, k)
  }

  lemma {:induction false} ExchangeAll(p: Problem, duration: real, g: seq<Choice>, cs: seq<Choice>,
                                       lo: int, hi: int, price: real)
    requires 0 <= lo && hi < |p.baseCounts| == |p.forecast|
    requires forall s :: lo <= s <= hi ==> Separates(p, duration, g, s, price)
    ensures CostBySlots(p, duration, cs, lo, hi) - CostBySlots(p, duration, g, lo, hi)
         >= price * (PlacedIn(cs, lo, hi) - PlacedIn(g, lo, hi)) as real
    decreases hi - lo + 1
  {
    hide Marginal, SlotCost;
    if lo <= hi {
      ExchangeAll(p, duration, g, cs, lo, hi - 1, price);
      assert Separates(p, duration, g, hi, price);
      ExchangeInSlot(p, duration, hi, Placed(g, hi), Placed(cs, hi), price);
      var rest, here := PlacedIn(cs, lo, hi - 1) - PlacedIn(g, lo, hi - 1), Placed(cs, hi) - Placed(g, hi);
      assert price * (rest + here) as real == price * rest as real + price * here as real;
    }
  }

  lemma BalancedSeparates(p: Problem, lo: int, hi: int, duration: real, g: seq<Choice>)
    requires Uniform(p, lo, hi, duration) && Balanced(p, duration, g, lo, hi)
    ensures forall s :: lo <= s <= hi ==> Separates(p, duration, g, s, Cheapest(p, duration, g, lo, hi))
  {
    hide NeverCheaper, Marginal;
    var price := Cheapest(p, duration, g, lo, hi);
    CheapestIsLeast(p, duration, g, lo, hi);
    var t :| lo <= t <= hi && price == Marginal(p, duration, t, Placed(g, t) + 1);
    forall s | lo <= s <= hi ensures Separates(p, duration, g, s, price) {
      forall k | 1 <= k <= Placed(g, s) ensures Marginal(p, duration, s, k) <= price {
        MarginalRises(p, lo, hi, duration, s, k, Placed(g, s));
      }
      forall k | k > Placed(g, s) ensures price <= Marginal(p, duration, s, k) {
        MarginalRises(p, lo, hi, duration, s, Placed(g, s) + 1, k);
      }
    }
  }

  /** Any balanced placement costs no more than any other of as many requests. */
  lemma BalancedIsCheapest(p: Problem, lo: int, hi: int, duration: real, g: seq<Choice>, cs: seq<Choice>)
    requires Uniform(p, lo, hi, duration) && LegalPrefix(p, g) && LegalPrefix(p, cs) && |cs| == |g|
    requires Balanced(p, duration, g, lo, hi)
    ensures CostOf(p, g) <= CostOf(p, cs)
  {
    hide NeverCheaper, Marginal, CostBySlots, PlacedIn, CostOf, KeyAfter, Separates, Balanced, Cheapest, LegalPrefix;
    BalancedSeparates(p, lo, hi, duration, g);
    var price := Cheapest(p, duration, g, lo, hi);
    ExchangeAll(p, duration, g, cs, lo, hi, price);
    CostIsBySlots(p, lo, hi, duration, g);
    CostIsBySlots(p, lo, hi, duration, cs);
    assert PlacedIn(cs, lo, hi) - PlacedIn(g, lo, hi) == 0;
    assert price * 0 as real == 0.0;
  }

  /** With a common range and duration the greedy placement is a cheapest one
      among all placements of the same requests. */
  lemma GreedyIsOptimal(p: Problem, lo: int, hi: int, duration: real, cs: seq<Choice>)
    requires Uniform(p, lo, hi, duration) && LegalPrefix(p, cs) && |cs| == |p.requests|
    ensures Placeable(p) && CostOf(p, WarmStart(p)) <= CostOf(p, cs)
  {
    WarmBalanced(p, lo, hi, duration, |p.requests|);
    BalancedIsCheapest(p, lo, hi, duration, WarmStart(p), cs);
  }

  /** The same for the routine itself: the prices it reports add up to the
      least total over all placements of the requests it serves. */
  lemma FallbackIsOptimal(solver: Solver, call: Call, lo: int, hi: int, duration: real, cs: seq<Choice>)
    requires Callable(solver, call)
    requires Uniform(GreedyProblem(solver, call), lo, hi, duration)
    requires LegalPrefix(GreedyProblem(solver, call), cs) && |cs| == |GreedyProblem(solver, call).requests|
    ensures var p := GreedyProblem(solver, call);
            Placeable(p) && TotalCost(Emit(p, WarmStart(p))) <= CostOf(p, cs)
  {
    var p := GreedyProblem(solver, call);
    GreedyIsOptimal(p, lo, hi, duration, cs);
    EmitFaithful(p, WarmStart(p));
  }

  // ── both uniformity conditions are needed ──────────────────────────────

  function Lasting(duration: real): Flavour { Flavour("Lasting", 0.0, duration) }

  const UNEVEN_SOLVER := Solver([Lasting(1.0)], [2.0, 3.0], 2, 1.0)

  /** Two requests and two slots; the second slot is half as dear again, the second
      place in a slot three times as dear. The first request may go to either
      slot; the second has a deadline and a duration of its own. */
  function UnevenCall(deadline: int, duration: real): Call {
    Call([SolveRequest(0, 0, 1), SolveRequest(1, 0, deadline)], 0,
         [CapacityTier(Some(1), 1.0), CapacityTier(None, 3.0)], [0, 0],
         map[0 := [Lasting(1.0)], 1 := [Lasting(duration)]])
  }

  function Uneven(deadline: int, duration: real): Problem {
    Problem([SolveRequest(0, 0, 1), SolveRequest(1, 0, deadline)], [[Lasting(1.0)], [Lasting(duration)]],
            [0, 0], [1, deadline], [CapacityTier(Some(1), 1.0), CapacityTier(None, 3.0)], [0, 0], [2.0, 3.0], 1.0,
            0, -1, Key(0, 0, 0, [0, 0]), 0, None)
  }

  lemma UnevenKept(deadline: int, duration: real)
    requires 0 <= deadline <= 1
    ensures var call := UnevenCall(deadline, duration); Kept(UNEVEN_SOLVER, call, call.requests) == call.requests
  {
    var call := UnevenCall(deadline, duration);
    var rs := call.requests;
    assert rs[..1] == [rs[0]] && rs[..1][..0] == [] && rs[..2] == rs;
    assert Kept(UNEVEN_SOLVER, call, rs[..1]) == [rs[0]];
  }

  lemma UnevenResolves(deadline: int, duration: real)
    requires 0 <= deadline <= 1
    ensures Callable(UNEVEN_SOLVER, UnevenCall(deadline, duration))
    ensures GreedyProblem(UNEVEN_SOLVER, UnevenCall(deadline, duration)) == Uneven(deadline, duration)
    ensures WellFormed(Uneven(deadline, duration)) && Placeable(Uneven(deadline, duration))
    ensures ValidLadder(UnevenCall(deadline, duration).tiers)
  {
    hide Kept;
    var call := UnevenCall(deadline, duration);
    UnevenKept(deadline, duration);
    var p, q := GreedyProblem(UNEVEN_SOLVER, call), Uneven(deadline, duration);
    assert p.flavours == q.flavours;
    assert p.first == q.first && p.last == q.last;
    assert p.initial.incCounts == q.initial.incCounts;
  }

  lemma UnevenPrices(deadline: int, duration: real, d: real, slot: int, n: nat)
    requires 0 <= slot <= 1
    ensures PriceAt(Uneven(deadline, duration), Choice(Lasting(d), slot), n + 1)
         == (if slot == 0 then 2.0 else 3.0) * (if n == 0 then 1.0 else 3.0) * d
  {
    var tiers := Uneven(deadline, duration).tiers;
    assert Multiplier(tiers, n + 1) == if n == 0 then 1.0 else 3.0 by {
      assert tiers[1..] == [tiers[1]];
    }
  }

  /** The first request takes the cheap place, and the second pays for it. */
  lemma UnevenWarm(deadline: int, duration: real)
    requires 0 <= deadline <= 1 && duration >= 1.0
    requires WellFormed(Uneven(deadline, duration)) && Placeable(Uneven(deadline, duration))
    ensures CostOf(Uneven(deadline, duration), WarmStart(Uneven(deadline, duration)))
         >= 2.0 + duration * if deadline == 0 then 6.0 else 3.0
  {
    hide PriceAt;
    var p := Uneven(deadline, duration);
    var f, g := Lasting(1.0), Lasting(duration);
    var w0 := WarmChoice(p, 0, p.initial);
    WarmChoiceIsGreedy(p, 0, p.initial);
    assert Legal(p, 0, Choice(f, 0)) && Admissible(p, p.initial, Choice(f, 0));
    UnevenPrices(deadline, duration, 1.0, 0, 0);
    UnevenPrices(deadline, duration, 1.0, 1, 0);
    assert w0 == Choice(f, 0);
    assert WarmPrefix(p, 0) == [] && WarmPrefix(p, 1) == [w0] by {
      assert KeyAfter(p, []) == p.initial;
    }
    var w := WarmStart(p);
    assert w == [w0, w[1]];
    assert Legal(p, 1, w[1]) && w[1] == Choice(g, w[1].slot);
    assert w[..1] == [w0] && w[..1][..0] == [];
    UnevenPrices(deadline, duration, duration, w[1].slot, Placed([w0], w[1].slot));
    assert Placed([w0], 0) == 1 && Placed([w0], 1) == 0;
    assert CostOf(p, [w0]) == 2.0;
  }

  /** Some placement of the same requests costs less than the routine's prices add up to. */
  ghost predicate Beaten(p: Problem)
    requires WellFormed(p) && Placeable(p)
  {
    exists cs :: LegalPrefix(p, cs) && |cs| == |p.requests| && CostOf(p, cs) < TotalCost(Emit(p, WarmStart(p)))
  }

  lemma UnevenIsBeaten(deadline: int, duration: real)
    requires 0 <= deadline <= 1 && duration >= 1.0 && (deadline == 0 || duration > 1.0)
    requires WellFormed(Uneven(deadline, duration)) && Placeable(Uneven(deadline, duration))
    ensures Beaten(Uneven(deadline, duration))
  {
    hide PriceAt;
    var p := Uneven(deadline, duration);
    UnevenWarm(deadline, duration);
    EmitFaithful(p, WarmStart(p));
    var c0, c1 := Choice(Lasting(1.0), 1), Choice(Lasting(duration), 0);
    var cs := [c0, c1];
    assert cs[..1] == [c0] && cs[..1][..0] == [];
    UnevenPrices(deadline, duration, 1.0, 1, 0);
    UnevenPrices(deadline, duration, duration, 0, 0);
    assert CostOf(p, [c0]) == 3.0;
    assert Placed([c0], 0) == 0;
    assert LegalPrefix(p, cs) && CostOf(p, cs) == 3.0 + 2.0 * duration;
  }

  /** Both uniformity conditions are needed: in this family of calls the routine
      is beaten as soon as ranges or durations differ, and only then. */
  lemma UnevenIsBeatenIff(deadline: int, duration: real)
    requires 0 <= deadline <= 1 && duration >= 1.0
    ensures var call := UnevenCall(deadline, duration);
            && Callable(UNEVEN_SOLVER, call) && ValidLadder(call.tiers)
            && Placeable(GreedyProblem(UNEVEN_SOLVER, call))
            && (Beaten(GreedyProblem(UNEVEN_SOLVER, call)) <==> deadline == 0 || duration > 1.0)
  {
    hide PriceAt, Beaten, GreedyProblem, ValidLadder, NeverCheaper;
    UnevenResolves(deadline, duration);
    var p := Uneven(deadline, duration);
    if deadline == 0 || duration > 1.0 {
      UnevenIsBeaten(deadline, duration);
    } else {
      ValidLaddersNeverCheaper(p.tiers);
      UniformIsUnbeaten(p, 0, 1, 1.0);
    }
  }

  lemma UniformIsUnbeaten(p: Problem, lo: int, hi: int, duration: real)
    requires Uniform(p, lo, hi, duration)
    ensures Placeable(p) && !Beaten(p)
  {
    hide Uniform, CostOf, LegalPrefix, WarmPrefix;
    UniformPlaceable(p, lo, hi, duration);
    EmitFaithful(p, WarmStart(p));
    forall cs | LegalPrefix(p, cs) && |cs| == |p.requests| ensures CostOf(p, cs) >= TotalCost(Emit(p, WarmStart(p))) {
      GreedyIsOptimal(p, lo, hi, duration, cs);
    }
  }
}
