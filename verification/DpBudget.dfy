/** Error budgets of a batch that a caller can check before solving it: when the
    warm start is certain to meet the threshold, whatever it picks, and when any
    plan does. */
module DpBudget {
  import opened Options
  import opened DpProblem
  import opened DpWarmStart

  // ── the budget of a state ──────────────────────────────────────────────

  function Mul(a: real, b: real): real { a * b }

  /** What the window may still spend: threshold times count, less the errors. */
  function Slack(threshold: real, key: Key): real {
    Mul(threshold, key.errorCountMilli as real / 1000.0) - key.errorSumBp as real / 100.0
  }

  lemma MulAdd(a: real, b: real)
    ensures Mul(a, b + 1.0) == Mul(a, b) + a && Mul(a, 0.0) == 0.0 && Mul(a, 1.0) == a
  {
  }

  lemma RatioWithin(sum: real, n: real, threshold: real)
    requires n > 0.0
    ensures sum / n <= threshold <==> sum <= Mul(threshold, n)
  {
    var ratio := sum / n;
    assert sum == ratio * n;
    assert (threshold - ratio) * n == threshold * n - ratio * n;
    SignOfProduct(threshold - ratio, n);
  }

  lemma SignOfProduct(a: real, n: real)
    requires n > 0.0
    ensures a >= 0.0 <==> a * n >= 0.0
  {
  }

  /** With anything in the window the average test is a test of the slack. */
  lemma SlackMeans(p: Problem, key: Key)
    requires p.threshold.Some? && key.errorCountMilli > 0
    ensures WithinThreshold(p, key) <==> Slack(p.threshold.value, key) >= 0.0
    ensures AverageError(key) <= p.threshold.value <==> Slack(p.threshold.value, key) >= 0.0
  {
    hide Mul;
    RatioWithin(key.errorSumBp as real / 100.0, key.errorCountMilli as real / 1000.0, p.threshold.value);
  }

  /** What one choice adds to the slack, without and with a mock to replace. */
  lemma StepSlack(p: Problem, key: Key, c: Choice, threshold: real)
    requires 0 <= c.slot < |key.incCounts| && key.errorCountMilli >= 0
    ensures Slack(threshold, Step(p, key, c))
         == Slack(threshold, key)
            + (if !InWindow(p, c.slot) then 0.0
               else if key.mockRemaining > 0 && p.mockErrorBp > 0 then (p.mockErrorBp - ErrorBp(c.flavour)) as real / 100.0
               else threshold - ErrorBp(c.flavour) as real / 100.0)
  {
    hide Mul;
    MulAdd(threshold, key.errorCountMilli as real / 1000.0);
    assert (key.errorCountMilli + 1000) as real / 1000.0 == key.errorCountMilli as real / 1000.0 + 1.0;
  }

  // ── the warm start's guarantee ─────────────────────────────────────────

  predicate UsesMocks(p: Problem) { p.initial.mockRemaining > 0 && p.mockErrorBp > 0 }

  predicate InBudget(p: Problem, key: Key)
    requires p.threshold.Some?
  {
    && key.errorCountMilli >= 0 && (UsesMocks(p) ==> key.errorCountMilli > 0)
    && key.mockRemaining <= p.initial.mockRemaining
    && Slack(p.threshold.value, key) >= 0.0
  }

  /** A flavour whose error is within the threshold, and no worse than the mock it may replace. */
  predicate Affords(fs: seq<Flavour>, threshold: real, mocks: bool, mockErrorBp: int) {
    exists i :: 0 <= i < |fs| && Affordable(fs[i], threshold, mocks, mockErrorBp)
  }

  predicate Affordable(f: Flavour, threshold: real, mocks: bool, mockErrorBp: int) {
    ErrorBp(f) as real / 100.0 <= threshold && (mocks ==> ErrorBp(f) <= mockErrorBp)
  }

  /** The condition on the batch: the window starts within budget and every
      request has an affordable flavour. */
  predicate Sustainable(p: Problem)
    requires |p.flavours| == |p.requests|
  {
    p.threshold.Some? ==>
      && InBudget(p, p.initial)
      && forall i :: 0 <= i < |p.requests| ==> Affords(p.flavours[i], p.threshold.value, UsesMocks(p), p.mockErrorBp)
  }

  lemma AffordableIsAdmissible(p: Problem, key: Key, c: Choice)
    requires p.threshold.Some? && InBudget(p, key) && 0 <= c.slot < |key.incCounts|
    requires Affordable(c.flavour, p.threshold.value, UsesMocks(p), p.mockErrorBp)
    ensures Admissible(p, key, c)
  {
    hide Slack, AverageError;
    StepSlack(p, key, c, p.threshold.value);
    if Step(p, key, c).errorCountMilli > 0 {
      SlackMeans(p, Step(p, key, c));
    }
  }

  lemma AdmissibleStaysInBudget(p: Problem, key: Key, c: Choice)
    requires p.threshold.Some? && InBudget(p, key) && 0 <= c.slot < |key.incCounts| && Admissible(p, key, c)
    ensures InBudget(p, Step(p, key, c))
  {
    hide Slack, AverageError;
    StepSlack(p, key, c, p.threshold.value);
    if InWindow(p, c.slot) {
      SlackMeans(p, Step(p, key, c));
    }
  }

  /** The warm start's next decision keeps the budget: where an affordable flavour
      passes its check, so does whatever it picks instead. */
  lemma WarmChoiceInBudget(p: Problem, i: nat, key: Key)
    requires WellFormed(p) && Placeable(p) && i < |p.requests| && |key.incCounts| == |p.baseCounts|
    requires p.threshold.Some? && InBudget(p, key) && Sustainable(p)
    ensures InBudget(p, Step(p, key, WarmChoice(p, i, key)))
  {
    hide InBudget, Affordable, Admissible, WarmChoice, Step;
    var fs := p.flavours[i];
    assert Affords(fs, p.threshold.value, UsesMocks(p), p.mockErrorBp);
    var j :| 0 <= j < |fs| && Affordable(fs[j], p.threshold.value, UsesMocks(p), p.mockErrorBp);
    var c := Choice(fs[j], p.first[i]);
    assert Legal(p, i, c);
    AffordableIsAdmissible(p, key, c);
    WarmChoiceIsGreedy(p, i, key);
    AdmissibleStaysInBudget(p, key, WarmChoice(p, i, key));
  }

  lemma {:induction false} WarmInBudget(p: Problem, n: nat)
    requires WellFormed(p) && Placeable(p) && n <= |p.requests| && p.threshold.Some? && Sustainable(p)
    ensures InBudget(p, KeyAfter(p, WarmPrefix(p, n)))
  {
    hide InBudget, Affords, WarmChoice, Step;
    if n > 0 {
      WarmInBudget(p, n - 1);
      var before := WarmPrefix(p, n - 1);
      var key := KeyAfter(p, before);
      WarmChoiceInBudget(p, n - 1, key);
      LegalSnoc(p, before, WarmChoice(p, n - 1, key));
    }
  }

  /** A sustainable batch is met by the warm start, whatever cheaper flavours it
      spends the budget on and wherever it places the requests. */
  lemma SustainableIsWarmFeasible(p: Problem)
    requires WellFormed(p) && Placeable(p) && Sustainable(p)
    ensures WarmFeasible(p)
  {
    hide Slack, AverageError, WarmPrefix, KeyAfter;
    if p.threshold.Some? {
      WarmInBudget(p, |p.requests|);
      var key := KeyAfter(p, WarmStart(p));
      if key.errorCountMilli > 0 {
        SlackMeans(p, key);
      }
    }
  }

  // ── the condition is exact over all batches of a profile ───────────────

  /** Batches of one profile: its flavours, threshold and mock error, any
      requests, any history within budget. */
  ghost predicate OfProfile(p: Problem, fs: seq<Flavour>, threshold: real, mockErrorBp: int) {
    && WellFormed(p) && Placeable(p)
    && p.threshold == Some(threshold) && p.mockErrorBp == mockErrorBp && InBudget(p, p.initial)
    && forall i :: 0 <= i < |p.requests| ==> p.flavours[i] == fs
  }

  /** `n` requests for the one slot there is, which is in the window. */
  function Tight(fs: seq<Flavour>, threshold: real, mockErrorBp: int, n: nat, mocks: nat): Problem {
    Problem(seq(n, i requires 0 <= i < n => SolveRequest(i, 0, 0)), seq(n, _ => fs), seq(n, _ => 0), seq(n, _ => 0),
            [], [0], [1.0], 1.0, 0, 0, Key((threshold * 100.0).Floor, 1000, mocks, [0]), mockErrorBp, Some(threshold))
  }

  lemma TightIsOfProfile(fs: seq<Flavour>, threshold: real, mockErrorBp: int, n: nat, mocks: nat)
    requires fs != []
    ensures OfProfile(Tight(fs, threshold, mockErrorBp, n, mocks), fs, threshold, mockErrorBp)
  {
    MulAdd(threshold, 0.0);
  }

  lemma {:induction false} TightErrors(fs: seq<Flavour>, threshold: real, mockErrorBp: int, n: nat, mocks: nat,
                                       cs: seq<Choice>, least: int)
    requires fs != [] && WellFormed(Tight(fs, threshold, mockErrorBp, n, mocks))
    requires LegalPrefix(Tight(fs, threshold, mockErrorBp, n, mocks), cs)
    requires forall f :: f in fs ==> ErrorBp(f) >= least
    ensures WindowCount(Tight(fs, threshold, mockErrorBp, n, mocks), cs) == |cs|
    ensures WindowErrorsBp(Tight(fs, threshold, mockErrorBp, n, mocks), cs) >= |cs| * least
  {
    hide ErrorBp;
    if cs != [] {
      var p := Tight(fs, threshold, mockErrorBp, n, mocks);
      TightErrors(fs, threshold, mockErrorBp, n, mocks, cs[..|cs| - 1], least);
      assert Legal(p, |cs| - 1, cs[|cs| - 1]);
    }
  }

  /** Every flavour above the threshold: a long enough batch has no feasible plan. */
  lemma TooDearEventually(fs: seq<Flavour>, threshold: real, mockErrorBp: int) returns (n: nat)
    requires fs != [] && forall f :: f in fs ==> ErrorBp(f) as real / 100.0 > threshold
    ensures OfProfile(Tight(fs, threshold, mockErrorBp, n, 0), fs, threshold, mockErrorBp)
    ensures !HasPlan(Tight(fs, threshold, mockErrorBp, n, 0))
  {
    hide ErrorBp, WindowErrorsBp, WindowCount, KeyAfter, LegalPrefix, Placed;
    var floor := (threshold * 100.0).Floor;
    var rest := threshold * 100.0 - floor as real;
    n := Archimedes(rest);
    TightIsOfProfile(fs, threshold, mockErrorBp, n, 0);
    var p := Tight(fs, threshold, mockErrorBp, n, 0);
    forall cs | |cs| == n && LegalPrefix(p, cs) ensures !WithinThreshold(p, KeyAfter(p, cs)) {
      TightErrors(fs, threshold, mockErrorBp, n, 0, cs, floor + 1);
      KeyAccounting(p, cs);
      OverAverage(p, KeyAfter(p, cs), floor, rest, n);
    }
  }

  lemma Archimedes(rest: real) returns (n: nat)
    requires 0.0 <= rest < 1.0
    ensures n as real > rest * (n + 1) as real
  {
    var q := rest / (1.0 - rest);
    assert rest == q * (1.0 - rest);
    SignOfProduct(q, 1.0 - rest);
    n := q.Floor + 1;
    var gap := n as real - q;
    SignOfProduct(-gap, 1.0 - rest);
    assert gap * (1.0 - rest) == n as real * (1.0 - rest) - q * (1.0 - rest);
    assert n as real * (1.0 - rest) == n as real - rest * n as real;
    assert rest * (n + 1) as real == rest * n as real + rest;
  }

  lemma OverAverage(p: Problem, key: Key, floor: int, rest: real, n: nat)
    requires p.threshold.Some? && p.threshold.value * 100.0 == floor as real + rest
    requires key.errorSumBp >= floor + n * (floor + 1) && key.errorCountMilli == 1000 * (n + 1)
    requires n as real > rest * (n + 1) as real
    ensures !WithinThreshold(p, key)
  {
    var t, m := p.threshold.value, (n + 1) as real;
    assert floor + n * (floor + 1) == (n + 1) * floor + n;
    SlackMeans(p, key);
    assert Mul(t, m) * 100.0 == m * (floor as real) + m * rest;
    assert ((n + 1) * floor) as real == m * floor as real;
    assert key.errorCountMilli as real / 1000.0 == m;
  }

  /** Some flavour within the threshold, but all of them worse than the mocks they
      replace: one request is enough. */
  lemma WorseThanMocks(fs: seq<Flavour>, threshold: real, mockErrorBp: int)
    requires fs != [] && mockErrorBp > 0 && forall f :: f in fs ==> ErrorBp(f) > mockErrorBp
    ensures OfProfile(Tight(fs, threshold, mockErrorBp, 1, 1), fs, threshold, mockErrorBp)
    ensures !HasPlan(Tight(fs, threshold, mockErrorBp, 1, 1))
  {
    hide ErrorBp, WindowErrorsBp, WindowCount, KeyAfter, LegalPrefix, Placed;
    TightIsOfProfile(fs, threshold, mockErrorBp, 1, 1);
    var p := Tight(fs, threshold, mockErrorBp, 1, 1);
    var floor := (threshold * 100.0).Floor;
    forall cs | |cs| == 1 && LegalPrefix(p, cs) ensures !WithinThreshold(p, KeyAfter(p, cs)) {
      TightErrors(fs, threshold, mockErrorBp, 1, 1, cs, mockErrorBp + 1);
      KeyAccounting(p, cs);
      var key := KeyAfter(p, cs);
      assert key.errorSumBp >= floor + 1 && key.errorCountMilli == 1000;
      SlackMeans(p, key);
      MulAdd(threshold, 0.0);
    }
  }

  /** A profile's batches always get a feasible warm start exactly when it has an
      affordable flavour; without one, some batch has no feasible plan at all. */
  lemma AffordingIsExact(fs: seq<Flavour>, threshold: real, mockErrorBp: int)
    requires fs != []
    ensures Affords(fs, threshold, mockErrorBp > 0, mockErrorBp)
       <==> forall p :: OfProfile(p, fs, threshold, mockErrorBp) ==> WarmFeasible(p)
    ensures Affords(fs, threshold, mockErrorBp > 0, mockErrorBp)
       <==> forall p :: OfProfile(p, fs, threshold, mockErrorBp) ==> HasPlan(p)
  {
    hide WarmFeasible, HasPlan, WellFormed, InBudget, ErrorBp;
    if Affords(fs, threshold, mockErrorBp > 0, mockErrorBp) {
      forall p | OfProfile(p, fs, threshold, mockErrorBp) ensures WarmFeasible(p) && HasPlan(p) {
        ProfileSustains(p, fs, threshold, mockErrorBp);
      }
    } else if forall f :: f in fs ==> ErrorBp(f) as real / 100.0 > threshold {
      var n := TooDearEventually(fs, threshold, mockErrorBp);
      WarmIsPlan(Tight(fs, threshold, mockErrorBp, n, 0));
    } else {
      NoneAffordable(fs, threshold, mockErrorBp);
      WorseThanMocks(fs, threshold, mockErrorBp);
      WarmIsPlan(Tight(fs, threshold, mockErrorBp, 1, 1));
    }
  }

  lemma ProfileSustains(p: Problem, fs: seq<Flavour>, threshold: real, mockErrorBp: int)
    requires OfProfile(p, fs, threshold, mockErrorBp) && Affords(fs, threshold, mockErrorBp > 0, mockErrorBp)
    ensures WarmFeasible(p) && HasPlan(p)
  {
    hide ErrorBp, InBudget;
    var j :| 0 <= j < |fs| && Affordable(fs[j], threshold, mockErrorBp > 0, mockErrorBp);
    assert Affordable(fs[j], threshold, UsesMocks(p), mockErrorBp);
    assert Affords(fs, threshold, UsesMocks(p), mockErrorBp);
    SustainableIsWarmFeasible(p);
    WarmIsPlan(p);
  }

  lemma WarmIsPlan(p: Problem)
    requires WellFormed(p) && Placeable(p)
    ensures WarmFeasible(p) ==> HasPlan(p)
  {
    assert WarmFeasible(p) ==> Feasible(p, WarmStart(p));
  }

  lemma NoneAffordable(fs: seq<Flavour>, threshold: real, mockErrorBp: int)
    requires !Affords(fs, threshold, mockErrorBp > 0, mockErrorBp)
    requires exists f :: f in fs && ErrorBp(f) as real / 100.0 <= threshold
    ensures mockErrorBp > 0 && forall f :: f in fs ==> ErrorBp(f) > mockErrorBp
  {
    hide ErrorBp;
    var i :| 0 <= i < |fs| && ErrorBp(fs[i]) as real / 100.0 <= threshold;
    assert !Affordable(fs[i], threshold, mockErrorBp > 0, mockErrorBp);
    forall f | f in fs ensures ErrorBp(f) > mockErrorBp {
      var j :| 0 <= j < |fs| && fs[j] == f;
      assert !Affordable(fs[j], threshold, mockErrorBp > 0, mockErrorBp);
    }
  }

  // ── which batches have a feasible plan ─────────────────────────────────

  /** Request `i` can be placed inside the window. */
  predicate CanEnter(p: Problem, i: nat)
    requires i < |p.first| == |p.last|
  {
    Max(p.first[i], p.windowStart) <= Min(p.last[i], p.windowEnd)
  }

  /** It can be placed outside. */
  predicate CanAvoid(p: Problem, i: nat)
    requires i < |p.first| == |p.last|
  {
    p.first[i] < p.windowStart || p.last[i] > p.windowEnd
  }

  function Added(sum: Option<int>, error: int): Option<int> { if sum.None? then None else Some(sum.value + error) }

  function Lower(a: Option<int>, b: Option<int>): Option<int> {
    if a.None? then b else if b.None? then a else Some(Min(a.value, b.value))
  }

  function LeastError(p: Problem, i: nat): int
    requires i < |p.flavours| && p.flavours[i] != []
  {
    ErrorBp(p.flavours[i][MostAccurate(p.flavours[i])])
  }

  /** The least error the first `n` requests can bring into the window if exactly
      `m` of them go there; nothing if they cannot. */
  function Least(p: Problem, n: nat, m: nat): Option<int>
    requires WellFormed(p) && n <= |p.requests|
  {
    if n == 0 then if m == 0 then Some(0) else None
    else Lower(if CanAvoid(p, n - 1) then Least(p, n - 1, m) else None,
               if m > 0 && CanEnter(p, n - 1) then Added(Least(p, n - 1, m - 1), LeastError(p, n - 1)) else None)
  }

  lemma ErrorBpMonotone(f: Flavour, g: Flavour)
    requires f.error <= g.error
    ensures ErrorBp(f) <= ErrorBp(g)
  {
    assert f.error * 100.0 <= g.error * 100.0;
  }

  /** No legal plan brings in less. */
  lemma {:induction false} LeastIsLeast(p: Problem, cs: seq<Choice>)
    requires WellFormed(p) && LegalPrefix(p, cs)
    ensures var least := Least(p, |cs|, WindowCount(p, cs)); least.Some? && least.value <= WindowErrorsBp(p, cs)
  {
    hide ErrorBp;
    if cs != [] {
      var n := |cs| - 1;
      LeastIsLeast(p, cs[..n]);
      assert Legal(p, n, cs[n]);
      ErrorBpMonotone(p.flavours[n][MostAccurate(p.flavours[n])], cs[n].flavour);
    }
  }

  /** The most accurate flavour at a legal slot inside the window, or outside. */
  function PlacedAt(p: Problem, i: nat, inside: bool): Choice
    requires i < |p.flavours| == |p.first| == |p.last| && p.flavours[i] != []
  {
    Choice(p.flavours[i][MostAccurate(p.flavours[i])],
           if inside then Max(p.first[i], p.windowStart)
           else if p.first[i] < p.windowStart then p.first[i] else p.last[i])
  }

  /** The plan that brings in the least. */
  function LeastPlan(p: Problem, n: nat, m: nat): seq<Choice>
    requires WellFormed(p) && n <= |p.requests|
  {
    if n == 0 then []
    else if CanAvoid(p, n - 1) && Least(p, n, m) == Least(p, n - 1, m)
    then LeastPlan(p, n - 1, m) + [PlacedAt(p, n - 1, false)]
    else LeastPlan(p, n - 1, if m > 0 then m - 1 else 0) + [PlacedAt(p, n - 1, true)]
  }

  /** `cs` decides the first `n` requests, `m` of them inside the window at a sum of `errors`. */
  ghost predicate Attains(p: Problem, cs: seq<Choice>, n: nat, m: nat, errors: int)
    requires WellFormed(p)
  {
    |cs| == n && LegalPrefix(p, cs) && WindowCount(p, cs) == m && WindowErrorsBp(p, cs) == errors
  }

  lemma OneMorePlaced(p: Problem, before: seq<Choice>, i: nat, m: nat, errors: int, inside: bool)
    requires WellFormed(p) && Placeable(p) && i < |p.requests| && Attains(p, before, i, m, errors)
    requires if inside then CanEnter(p, i) else CanAvoid(p, i)
    ensures Attains(p, before + [PlacedAt(p, i, inside)], i + 1, if inside then m + 1 else m,
                    if inside then errors + LeastError(p, i) else errors)
  {
    hide ErrorBp;
    OneMoreChoice(p, before, PlacedAt(p, i, inside));
  }

  /** The last request of a least sum is outside, or inside and adds its least error. */
  lemma LeastComesFrom(p: Problem, n: nat, m: nat)
    requires WellFormed(p) && 0 < n <= |p.requests| && Least(p, n, m).Some?
    requires !(CanAvoid(p, n - 1) && Least(p, n, m) == Least(p, n - 1, m))
    ensures m > 0 && CanEnter(p, n - 1) && Least(p, n - 1, m - 1).Some?
    ensures Least(p, n, m).value == Least(p, n - 1, m - 1).value + LeastError(p, n - 1)
  {
    hide LeastError, CanAvoid, CanEnter;
  }

  lemma {:induction false} LeastIsReached(p: Problem, n: nat, m: nat)
    requires WellFormed(p) && Placeable(p) && n <= |p.requests| && Least(p, n, m).Some?
    ensures Attains(p, LeastPlan(p, n, m), n, m, Least(p, n, m).value)
  {
    hide Placeable, LeastError, PlacedAt, CanAvoid, CanEnter, Attains;
    if n == 0 {
      NothingAttained(p);
    } else if CanAvoid(p, n - 1) && Least(p, n, m) == Least(p, n - 1, m) {
      LeastIsReached(p, n - 1, m);
      OneMorePlaced(p, LeastPlan(p, n - 1, m), n - 1, m, Least(p, n, m).value, false);
    } else {
      LeastComesFrom(p, n, m);
      LeastIsReached(p, n - 1, m - 1);
      OneMorePlaced(p, LeastPlan(p, n - 1, m - 1), n - 1, m - 1, Least(p, n - 1, m - 1).value, true);
    }
  }

  lemma NothingAttained(p: Problem)
    requires WellFormed(p)
    ensures Attains(p, [], 0, 0, 0)
  {
  }

  lemma OneMoreChoice(p: Problem, before: seq<Choice>, c: Choice)
    ensures WindowCount(p, before + [c]) == WindowCount(p, before) + if InWindow(p, c.slot) then 1 else 0
    ensures WindowErrorsBp(p, before + [c]) == WindowErrorsBp(p, before) + if InWindow(p, c.slot) then ErrorBp(c.flavour) else 0
  {
    hide ErrorBp;
    assert (before + [c])[..|before|] == before;
  }

  /** The window's totals after `m` placements in it that bring in `errors`. */
  function TotalsWith(p: Problem, m: nat, errors: int): Key {
    var used := ConsumedMocks(p, m);
    Key(p.initial.errorSumBp + errors - p.mockErrorBp * used, p.initial.errorCountMilli + 1000 * (m - used), 0, [])
  }

  /** Some plan places exactly `m` requests in the window and meets the threshold. */
  predicate CountFits(p: Problem, m: nat)
    requires WellFormed(p)
  {
    var least := Least(p, |p.requests|, m);
    least.Some? && WithinThreshold(p, TotalsWith(p, m, least.value))
  }

  predicate SomeCountFits(p: Problem)
    requires WellFormed(p)
  {
    exists m: nat :: m <= |p.requests| && CountFits(p, m)
  }

  lemma FewerErrorsFit(p: Problem, a: Key, b: Key)
    requires a.errorCountMilli == b.errorCountMilli >= 0 && a.errorSumBp <= b.errorSumBp
    requires WithinThreshold(p, b)
    ensures WithinThreshold(p, a)
  {
    hide AverageError, WithinThreshold;
    if p.threshold.Some? && a.errorCountMilli > 0 {
      SlackMeans(p, a);
      SlackMeans(p, b);
    } else {
      NothingToExceed(p, a);
    }
  }

  lemma NothingToExceed(p: Problem, key: Key)
    requires p.threshold.None? || key.errorCountMilli == 0
    ensures WithinThreshold(p, key)
  {
  }

  lemma TotalsAre(p: Problem, cs: seq<Choice>)
    requires WellFormed(p) && LegalPrefix(p, cs) && p.initial.errorCountMilli >= 0
    ensures var totals := TotalsWith(p, WindowCount(p, cs), WindowErrorsBp(p, cs));
            && totals.errorSumBp == KeyAfter(p, cs).errorSumBp
            && totals.errorCountMilli == KeyAfter(p, cs).errorCountMilli >= 0
            && (WithinThreshold(p, totals) <==> WithinThreshold(p, KeyAfter(p, cs)))
  {
    hide KeyAfter, WindowCount, WindowErrorsBp;
    KeyAccounting(p, cs);
    OneMoreMock(p, WindowCount(p, cs));
  }

  lemma {:induction false} WindowCountBound(p: Problem, cs: seq<Choice>)
    ensures WindowCount(p, cs) <= |cs|
  {
    if cs != [] {
      WindowCountBound(p, cs[..|cs| - 1]);
    }
  }

  /** Which batches have a feasible plan, for any baseline, mocks and windows: those
      for which some number of placements in the window fits. A table of least
      sums over requests and counts decides it, without looking at plans. */
  lemma HasPlanIff(p: Problem)
    requires WellFormed(p) && Placeable(p) && p.initial.errorCountMilli >= 0
    ensures HasPlan(p) <==> SomeCountFits(p)
  {
    hide KeyAfter, WindowCount, WindowErrorsBp, WithinThreshold, Least, LeastPlan, TotalsWith, LegalPrefix;
    var n := |p.requests|;
    forall cs | Feasible(p, cs) ensures SomeCountFits(p) {
      var m := WindowCount(p, cs);
      LeastIsLeast(p, cs);
      TotalsAre(p, cs);
      WindowCountBound(p, cs);
      FewerTotals(p, m, Least(p, n, m).value, WindowErrorsBp(p, cs));
      FewerErrorsFit(p, TotalsWith(p, m, Least(p, n, m).value), TotalsWith(p, m, WindowErrorsBp(p, cs)));
      assert CountFits(p, m);
    }
    if SomeCountFits(p) {
      var m: nat :| m <= n && CountFits(p, m);
      LeastIsReached(p, n, m);
      TotalsAre(p, LeastPlan(p, n, m));
      assert Feasible(p, LeastPlan(p, n, m));
    }
  }

  lemma FewerTotals(p: Problem, m: nat, a: int, b: int)
    ensures TotalsWith(p, m, a).errorCountMilli == TotalsWith(p, m, b).errorCountMilli
    ensures a <= b ==> TotalsWith(p, m, a).errorSumBp <= TotalsWith(p, m, b).errorSumBp
  {
  }
}
