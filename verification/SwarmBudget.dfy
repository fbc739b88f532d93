/** The cumulative error budget of a QoS profile under the online strategies:
    flavour picks that respect it, and why concurrent workers of other profiles
    and rolled-back batches cannot break it. */
module SwarmBudget {
  import opened Options
  import opened Queues
  import opened Ledger
  import opened CheckedCommit
  import opened DpProblem
  import opened DpWarmStart

  datatype Policy = Policy(flavours: seq<Flavour>, maxError: real, windowPast: int, windowFuture: int,
                           cumulative: bool)

  /** Committed errors the solver starts from, extended as it places a batch. */
  datatype Context = Context(slotErrors: map<int, seq<real>>, errorSum: real, count: nat)

  // ── picking a flavour ──────────────────────────────────────────────────

  function Sum(errors: seq<real>): real {
    if errors == [] then 0.0 else Sum(errors[..|errors| - 1]) + errors[|errors| - 1]
  }

  function ErrorsAt(ctx: Context, slot: int): seq<real> {
    if slot in ctx.slotErrors then ctx.slotErrors[slot] else []
  }

  /** Error sum and size of the window `lo..=hi`. */
  function WindowSum(ctx: Context, lo: int, hi: int): real
    decreases hi - lo + 1
  {
    if lo > hi then 0.0 else WindowSum(ctx, lo, hi - 1) + Sum(ErrorsAt(ctx, hi))
  }

  function WindowSize(ctx: Context, lo: int, hi: int): nat
    decreases hi - lo + 1
  {
    if lo > hi then 0 else WindowSize(ctx, lo, hi - 1) + |ErrorsAt(ctx, hi)|
  }

  /** Would this flavour keep both averages within the threshold? */
  predicate Admits(policy: Policy, ctx: Context, slot: int, f: Flavour) {
    var lo, hi := slot - policy.windowPast, slot + policy.windowFuture;
    && (policy.cumulative ==> (ctx.errorSum + f.error) / (ctx.count as real + 1.0) <= policy.maxError)
    && (f.error + WindowSum(ctx, lo, hi)) / (1 + WindowSize(ctx, lo, hi)) as real <= policy.maxError
  }

  function InsertByDuration(f: Flavour, sorted: seq<Flavour>): seq<Flavour> {
    if sorted == [] || f.duration <= sorted[0].duration then [f] + sorted
    else [sorted[0]] + InsertByDuration(f, sorted[1..])
  }

  /** Stable sort, shortest first. */
  function SortByDuration(fs: seq<Flavour>): seq<Flavour> {
    if fs == [] then [] else InsertByDuration(fs[0], SortByDuration(fs[1..]))
  }

  function PickFeasible(policy: Policy, ctx: Context, slot: int, sorted: seq<Flavour>): Option<Flavour> {
    if sorted == [] then None
    else if Admits(policy, ctx, slot, sorted[0]) then Some(sorted[0])
    else PickFeasible(policy, ctx, slot, sorted[1..])
  }

  /** The flavour a request gets in its chosen slot. */
  function Chosen(policy: Policy, ctx: Context, slot: int): Flavour
    requires policy.flavours != []
  {
    var pick := PickFeasible(policy, ctx, slot, SortByDuration(policy.flavours));
    if pick.Some? then pick.value else policy.flavours[MostAccurate(policy.flavours)]
  }

  function Extend(ctx: Context, slot: int, error: real): Context {
    Context(ctx.slotErrors[slot := ErrorsAt(ctx, slot) + [error]], ctx.errorSum + error, ctx.count + 1)
  }

  ghost predicate Ascending(fs: seq<Flavour>) {
    forall i, j :: 0 <= i < j < |fs| ==> fs[i].duration <= fs[j].duration
  }

  lemma {:induction false} InsertAscending(f: Flavour, sorted: seq<Flavour>)
    requires Ascending(sorted)
    ensures Ascending(InsertByDuration(f, sorted))
    ensures forall g :: g in InsertByDuration(f, sorted) <==> g == f || g in sorted
  {
    if sorted != [] && sorted[0].duration < f.duration {
      var rest := sorted[1..];
      InsertAscending(f, rest);
      assert sorted == [sorted[0]] + rest;
      forall g | g in InsertByDuration(f, rest) ensures sorted[0].duration <= g.duration {
        assert g == f || g in rest;
      }
    }
  }

  lemma {:induction false} SortAscending(fs: seq<Flavour>)
    ensures Ascending(SortByDuration(fs))
    ensures forall g :: g in SortByDuration(fs) <==> g in fs
  {
    if fs != [] {
      SortAscending(fs[1..]);
      InsertAscending(fs[0], SortByDuration(fs[1..]));
      assert fs == [fs[0]] + fs[1..];
    }
  }

  lemma {:induction false} PickIsFirst(policy: Policy, ctx: Context, slot: int, sorted: seq<Flavour>)
    requires Ascending(sorted)
    ensures var pick := PickFeasible(policy, ctx, slot, sorted);
            && (pick.None? <==> forall f :: f in sorted ==> !Admits(policy, ctx, slot, f))
            && (pick.Some? ==> && pick.value in sorted && Admits(policy, ctx, slot, pick.value)
                               && forall f :: f in sorted && Admits(policy, ctx, slot, f) ==>
                                    pick.value.duration <= f.duration)
  {
    hide Admits;
    if sorted != [] {
      PickIsFirst(policy, ctx, slot, sorted[1..]);
      assert sorted == [sorted[0]] + sorted[1..];
    }
  }

  /** A shortest flavour that keeps the averages, or the most accurate one when none does. */
  lemma ChosenIsCheapestAdmitted(policy: Policy, ctx: Context, slot: int)
    requires policy.flavours != []
    ensures var c := Chosen(policy, ctx, slot);
            && c in policy.flavours
            && if exists f :: f in policy.flavours && Admits(policy, ctx, slot, f) then
                 && Admits(policy, ctx, slot, c)
                 && forall f :: f in policy.flavours && Admits(policy, ctx, slot, f) ==> c.duration <= f.duration
               else
                 forall f :: f in policy.flavours ==> c.error <= f.error
  {
    hide Admits;
    SortAscending(policy.flavours);
    PickIsFirst(policy, ctx, slot, SortByDuration(policy.flavours));
  }

  // ── what keeping the averages means ────────────────────────────────────

  /** All errors committed in slots `lo..=hi`. */
  function WindowErrors(ctx: Context, lo: int, hi: int): seq<real>
    decreases hi - lo + 1
  {
    if lo > hi then [] else WindowErrors(ctx, lo, hi - 1) + if hi in ctx.slotErrors then ctx.slotErrors[hi] else []
  }

  /** With this flavour in `slot` the errors of the slots around it, its own among
      them, average within the threshold, and under a cumulative policy so do all
      of the profile's. */
  predicate KeepsAverages(policy: Policy, ctx: Context, slot: int, f: Flavour) {
    var around := WindowErrors(ctx, slot - policy.windowPast, slot + policy.windowFuture) + [f.error];
    && Sum(around) <= policy.maxError * |around| as real
    && (policy.cumulative ==> ctx.errorSum + f.error <= policy.maxError * (ctx.count + 1) as real)
  }

  lemma {:induction false} SumConcat(a: seq<real>, b: seq<real>)
    ensures Sum(a + b) == Sum(a) + Sum(b)
  {
    if b == [] {
      assert a + b == a;
    } else {
      assert (a + b)[..|a + b| - 1] == a + b[..|b| - 1];
      SumConcat(a, b[..|b| - 1]);
    }
  }

  lemma {:induction false} WindowIs(ctx: Context, lo: int, hi: int)
    ensures WindowSum(ctx, lo, hi) == Sum(WindowErrors(ctx, lo, hi))
    ensures WindowSize(ctx, lo, hi) == |WindowErrors(ctx, lo, hi)|
    decreases hi - lo + 1
  {
    if lo <= hi {
      WindowIs(ctx, lo, hi - 1);
      SumConcat(WindowErrors(ctx, lo, hi - 1), ErrorsAt(ctx, hi));
    }
  }

  lemma AdmitsIsKeeping(policy: Policy, ctx: Context, slot: int, f: Flavour)
    ensures Admits(policy, ctx, slot, f) <==> KeepsAverages(policy, ctx, slot, f)
  {
    hide WithinBudget, WindowSum, WindowSize, WindowErrors, Sum;
    var lo, hi := slot - policy.windowPast, slot + policy.windowFuture;
    var window := WindowErrors(ctx, lo, hi);
    WindowIs(ctx, lo, hi);
    SumConcat(window, [f.error]);
    SumOfOne(f.error);
    BudgetIsAverage(Sum(window + [f.error]), |window + [f.error]|, policy.maxError);
    BudgetMeans(Sum(window + [f.error]), |window + [f.error]|, policy.maxError);
    assert (ctx.count + 1) as real == ctx.count as real + 1.0;
    BudgetIsAverage(ctx.errorSum + f.error, ctx.count + 1, policy.maxError);
    BudgetMeans(ctx.errorSum + f.error, ctx.count + 1, policy.maxError);
  }

  lemma SumOfOne(x: real)
    ensures Sum([x]) == x
  {
    assert [x][..0] == [];
  }

  lemma BudgetMeans(errorSum: real, count: nat, maxError: real)
    ensures WithinBudget(errorSum, count, maxError) <==> errorSum <= maxError * count as real
  {
  }

  /** The context after the first `k` placements. */
  function After(ctx: Context, slots: seq<int>, placed: seq<Flavour>, k: nat): Context
    requires k <= |slots| == |placed|
  {
    if k == 0 then ctx
    else
      var before, slot, error := After(ctx, slots, placed, k - 1), slots[k - 1], placed[k - 1].error;
      var here := if slot in before.slotErrors then before.slotErrors[slot] else [];
      Context(before.slotErrors[slot := here + [error]], before.errorSum + error, before.count + 1)
  }

  /** The `k`-th flavour is one of the policy's: a shortest that keeps the averages
      behind the earlier placements, and a most accurate one if none does. */
  ghost predicate PlacedRight(policy: Policy, ctx: Context, slots: seq<int>, placed: seq<Flavour>, k: nat)
    requires k < |slots| == |placed|
  {
    var now := After(ctx, slots, placed, k);
    && placed[k] in policy.flavours
    && if exists f :: f in policy.flavours && KeepsAverages(policy, now, slots[k], f) then
         && KeepsAverages(policy, now, slots[k], placed[k])
         && forall f :: f in policy.flavours && KeepsAverages(policy, now, slots[k], f) ==> placed[k].duration <= f.duration
       else
         forall f :: f in policy.flavours ==> placed[k].error <= f.error
  }

  lemma ChosenIsRight(policy: Policy, ctx: Context, slots: seq<int>, placed: seq<Flavour>, k: nat)
    requires policy.flavours != [] && k < |slots| == |placed|
    requires placed[k] == Chosen(policy, After(ctx, slots, placed, k), slots[k])
    ensures PlacedRight(policy, ctx, slots, placed, k)
  {
    hide Admits, KeepsAverages, Chosen;
    var now := After(ctx, slots, placed, k);
    ChosenIsCheapestAdmitted(policy, now, slots[k]);
    forall f ensures Admits(policy, now, slots[k], f) <==> KeepsAverages(policy, now, slots[k], f) {
      AdmitsIsKeeping(policy, now, slots[k], f);
    }
  }

  lemma {:induction false} AfterSame(ctx: Context, slots: seq<int>, placed: seq<Flavour>, more: seq<Flavour>, all: seq<int>, k: nat)
    requires k <= |slots| == |placed| && |all| == |more| && slots <= all && placed <= more
    ensures After(ctx, slots, placed, k) == After(ctx, all, more, k)
  {
    if k > 0 {
      AfterSame(ctx, slots, placed, more, all, k - 1);
    }
  }

  lemma RightStays(policy: Policy, ctx: Context, slots: seq<int>, placed: seq<Flavour>, more: seq<Flavour>, all: seq<int>, k: nat)
    requires k < |slots| == |placed| && |all| == |more| && slots <= all && placed <= more
    requires PlacedRight(policy, ctx, slots, placed, k)
    ensures PlacedRight(policy, ctx, all, more, k)
  {
    hide KeepsAverages;
    AfterSame(ctx, slots, placed, more, all, k);
  }

  // ── placing a batch ────────────────────────────────────────────────────

  /** Errors of the flavours given to requests placed in `slots`, in turn, and the context after them. */
  function PlaceAll(policy: Policy, ctx: Context, slots: seq<int>): (r: (seq<real>, Context))
    requires policy.flavours != []
    ensures |r.0| == |slots|
  {
    if slots == [] then ([], ctx)
    else
      var (errors, before) := PlaceAll(policy, ctx, slots[..|slots| - 1]);
      var slot := slots[|slots| - 1];
      var f := Chosen(policy, before, slot);
      (errors + [f.error], Extend(before, slot, f.error))
  }

  ghost predicate AllRight(policy: Policy, ctx: Context, slots: seq<int>, placed: seq<Flavour>)
    requires |slots| == |placed|
  {
    forall k :: 0 <= k < |slots| ==> PlacedRight(policy, ctx, slots, placed, k)
  }

  lemma OneMoreRight(policy: Policy, ctx: Context, slots: seq<int>, placed: seq<Flavour>, slot: int, f: Flavour)
    requires policy.flavours != [] && |slots| == |placed| && AllRight(policy, ctx, slots, placed)
    requires f == Chosen(policy, After(ctx, slots, placed, |slots|), slot)
    ensures AllRight(policy, ctx, slots + [slot], placed + [f])
    ensures After(ctx, slots + [slot], placed + [f], |slots| + 1) == Extend(After(ctx, slots, placed, |slots|), slot, f.error)
  {
    hide Chosen, PlacedRight;
    var all, more := slots + [slot], placed + [f];
    AfterSame(ctx, slots, placed, more, all, |slots|);
    ChosenIsRight(policy, ctx, all, more, |slots|);
    forall k | 0 <= k < |all| ensures PlacedRight(policy, ctx, all, more, k) {
      if k < |slots| {
        RightStays(policy, ctx, slots, placed, more, all, k);
      }
    }
  }

  lemma OneMorePlaced(policy: Policy, ctx: Context, slots: seq<int>, slot: int)
    requires policy.flavours != []
    ensures var (errors, before) := PlaceAll(policy, ctx, slots);
            var f := Chosen(policy, before, slot);
            PlaceAll(policy, ctx, slots + [slot]) == (errors + [f.error], Extend(before, slot, f.error))
  {
    hide Chosen;
    assert (slots + [slot])[..|slots|] == slots;
  }

  /** The placement loop shared by both online strategies; slot choice is an oracle. */
  method PlaceBatch(policy: Policy, ctx: Context, slots: seq<int>) returns (placed: seq<Flavour>, errors: seq<real>)
    requires policy.flavours != []
    ensures |placed| == |slots| && forall k :: 0 <= k < |placed| ==> PlacedRight(policy, ctx, slots, placed, k)
    ensures |errors| == |placed| && forall k :: 0 <= k < |placed| ==> errors[k] == placed[k].error
    ensures errors == PlaceAll(policy, ctx, slots).0
  {
    hide Chosen, PlacedRight, PlaceAll, After;
    var sorted := SortByDuration(policy.flavours);
    var fallback := policy.flavours[MostAccurate(policy.flavours)];
    var slotErrors, errorSum, count := ctx.slotErrors, ctx.errorSum, ctx.count;
    placed, errors := [], [];
    NothingPlaced(policy, ctx);
    for k := 0 to |slots|
      invariant |placed| == |errors| == k && forall i :: 0 <= i < k ==> errors[i] == placed[i].error
      invariant Context(slotErrors, errorSum, count) == After(ctx, slots[..k], placed, k)
      invariant AllRight(policy, ctx, slots[..k], placed)
      invariant (errors, Context(slotErrors, errorSum, count)) == PlaceAll(policy, ctx, slots[..k])
    {
      assert slots[..k + 1] == slots[..k] + [slots[k]];
      var slot, now := slots[k], Context(slotErrors, errorSum, count);
      ChosenIs(policy, now, slot);
      OneMorePlaced(policy, ctx, slots[..k], slot);
      OneMoreRight(policy, ctx, slots[..k], placed, slot, Chosen(policy, now, slot));
      var pick := PickFeasible(policy, now, slot, sorted);
      var f := if pick.Some? then pick.value else fallback;
      slotErrors := slotErrors[slot := ErrorsAt(now, slot) + [f.error]];
      errorSum := errorSum + f.error;
      count := count + 1;
      placed, errors := placed + [f], errors + [f.error];
    }
    assert slots[..|slots|] == slots;
  }

  lemma NothingPlaced(policy: Policy, ctx: Context)
    requires policy.flavours != []
    ensures PlaceAll(policy, ctx, []) == ([], ctx) && After(ctx, [], [], 0) == ctx
  {
  }

  lemma ChosenIs(policy: Policy, ctx: Context, slot: int)
    requires policy.flavours != []
    ensures var pick := PickFeasible(policy, ctx, slot, SortByDuration(policy.flavours));
            Chosen(policy, ctx, slot) == if pick.Some? then pick.value else policy.flavours[MostAccurate(policy.flavours)]
  {
  }

  // ── the budget ─────────────────────────────────────────────────────────

  /** Cumulative average within the threshold, stated without dividing by a zero count. */
  predicate WithinBudget(errorSum: real, count: nat, maxError: real) {
    errorSum <= maxError * count as real
  }

  lemma BudgetIsAverage(errorSum: real, count: nat, maxError: real)
    requires count > 0
    ensures WithinBudget(errorSum, count, maxError) <==> errorSum / count as real <= maxError
  {
    var n, avg := count as real, errorSum / count as real;
    assert errorSum == avg * n;
    AverageAgainst(avg, n, maxError);
  }

  lemma AverageAgainst(avg: real, n: real, maxError: real)
    requires n > 0.0
    ensures avg * n <= maxError * n <==> avg <= maxError
  {
    assert (maxError - avg) * n == maxError * n - avg * n;
  }

  /** The cumulative rule is on and the policy has a flavour within the threshold. */
  ghost predicate Sustainable(policy: Policy) {
    && policy.cumulative && policy.flavours != []
    && policy.flavours[MostAccurate(policy.flavours)].error <= policy.maxError
  }

  lemma AccurateWithin(errorSum: real, count: nat, error: real, maxError: real)
    requires WithinBudget(errorSum, count, maxError) && error <= maxError
    ensures WithinBudget(errorSum + error, count + 1, maxError)
  {
    var n := count as real;
    assert (count + 1) as real == n + 1.0;
    assert maxError * (n + 1.0) == maxError * n + maxError;
  }

  lemma AdmittedWithin(policy: Policy, ctx: Context, slot: int, f: Flavour)
    requires policy.cumulative && Admits(policy, ctx, slot, f)
    ensures WithinBudget(ctx.errorSum + f.error, ctx.count + 1, policy.maxError)
  {
    hide WithinBudget, WindowSum, WindowSize;
    assert (ctx.count + 1) as real == ctx.count as real + 1.0;
    BudgetIsAverage(ctx.errorSum + f.error, ctx.count + 1, policy.maxError);
  }

  lemma PlacementKeepsBudget(policy: Policy, ctx: Context, slot: int)
    requires Sustainable(policy) && WithinBudget(ctx.errorSum, ctx.count, policy.maxError)
    ensures WithinBudget(ctx.errorSum + Chosen(policy, ctx, slot).error, ctx.count + 1, policy.maxError)
  {
    hide WithinBudget, Admits, Chosen;
    ChosenIsCheapestAdmitted(policy, ctx, slot);
    var f := Chosen(policy, ctx, slot);
    if Admits(policy, ctx, slot, f) {
      AdmittedWithin(policy, ctx, slot, f);
    } else {
      assert policy.flavours[MostAccurate(policy.flavours)] in policy.flavours;
      AccurateWithin(ctx.errorSum, ctx.count, f.error, policy.maxError);
    }
  }

  /** Placing a whole batch keeps a budget that holds, wherever the slots are. */
  lemma {:induction false} BatchKeepsBudget(policy: Policy, ctx: Context, slots: seq<int>)
    requires Sustainable(policy) && WithinBudget(ctx.errorSum, ctx.count, policy.maxError)
    ensures var (errors, after) := PlaceAll(policy, ctx, slots);
            && after.errorSum == ctx.errorSum + Sum(errors) && after.count == ctx.count + |slots|
            && WithinBudget(after.errorSum, after.count, policy.maxError)
  {
    hide Chosen, WithinBudget;
    if slots != [] {
      var front, slot := slots[..|slots| - 1], slots[|slots| - 1];
      BatchKeepsBudget(policy, ctx, front);
      var (errors, before) := PlaceAll(policy, ctx, front);
      PlacementKeepsBudget(policy, before, slot);
      var f := Chosen(policy, before, slot);
      assert (errors + [f.error])[..|errors|] == errors;
    }
  }

  /** The condition is exact: a cumulative policy keeps its budget over every
      batch from an empty history just when its most accurate flavour meets it. */
  lemma SustainableIsExact(policy: Policy)
    requires policy.cumulative && policy.flavours != []
    ensures Sustainable(policy) <==>
              forall slots :: WithinBudget(Sum(PlaceAll(policy, Context(map[], 0.0, 0), slots).0), |slots|, policy.maxError)
  {
    var empty := Context(map[], 0.0, 0);
    if Sustainable(policy) {
      forall slots ensures WithinBudget(Sum(PlaceAll(policy, empty, slots).0), |slots|, policy.maxError) {
        BatchKeepsBudget(policy, empty, slots);
      }
    } else {
      FirstPlacementOverspends(policy);
    }
  }

  lemma FirstPlacementOverspends(policy: Policy)
    requires policy.cumulative && policy.flavours != [] && !Sustainable(policy)
    ensures !WithinBudget(Sum(PlaceAll(policy, Context(map[], 0.0, 0), [0]).0), 1, policy.maxError)
  {
    var empty := Context(map[], 0.0, 0);
    assert [0][..0] == [] && PlaceAll(policy, empty, []) == ([], empty);
    var f := Chosen(policy, empty, 0);
    assert PlaceAll(policy, empty, [0]).0 == [f.error];
    assert [f.error][..0] == [] && Sum([f.error]) == f.error;
    ChosenIsCheapestAdmitted(policy, empty, 0);
    assert policy.flavours[MostAccurate(policy.flavours)].error <= f.error;
  }

  // ── concurrent workers ─────────────────────────────────────────────────

  datatype Worker =
    | Claimed
    | Snapped(ctx: Context)
    | Proposed(ctx: Context, batch: seq<Assignment>)

  /** The committed book and at most one worker per profile. */
  datatype State = State(book: Book, workers: map<ProfileId, Worker>)

  datatype Event =
    | Begin(p: ProfileId)
    | Snapshot(p: ProfileId, slotErrors: map<int, seq<real>>)
    | Solve(p: ProfileId, ids: seq<nat>, slots: seq<nat>, costs: seq<real>)
    | Rollback(p: ProfileId)
    | Commit(p: ProfileId)
    | End(p: ProfileId)

  function Totals(b: Book, p: ProfileId): (real, nat) {
    if p in b.profileStats then (b.profileStats[p].errorSum, b.profileStats[p].count) else (0.0, 0)
  }

  function AsInts(slots: seq<nat>): seq<int> { seq(|slots|, i requires 0 <= i < |slots| => slots[i]) }

  function BatchOf(p: ProfileId, ids: seq<nat>, slots: seq<nat>, errors: seq<real>, costs: seq<real>): seq<Assignment>
    requires |ids| == |slots| == |errors| == |costs|
  {
    seq(|ids|, i requires 0 <= i < |ids| => Assignment(ids[i], slots[i], errors[i], costs[i], p))
  }

  /** One step; an event that is not enabled changes nothing. Commits take new
      ids only: neither re-planning nor measured corrections are part of these runs. */
  ghost function Next(policies: ProfileId -> Policy, s: State, e: Event): State
    requires ProfilesKnown(s.book)
  {
    match e
    case Begin(p) => if p in s.workers then s else s.(workers := s.workers[p := Claimed])
    case Snapshot(p, slotErrors) =>
      if p in s.workers && s.workers[p].Claimed? then
        var (sum, count) := Totals(s.book, p);
        s.(workers := s.workers[p := Snapped(Context(slotErrors, sum, count))])
      else s
    case Solve(p, ids, slots, costs) =>
      if p in s.workers && s.workers[p].Snapped? && |ids| == |slots| == |costs| && policies(p).flavours != [] then
        var ctx := s.workers[p].ctx;
        var errors := PlaceAll(policies(p), ctx, AsInts(slots)).0;
        s.(workers := s.workers[p := Proposed(ctx, BatchOf(p, ids, slots, errors, costs))])
      else s
    case Rollback(p) =>
      if p in s.workers && s.workers[p].Proposed? then s.(workers := s.workers[p := Claimed]) else s
    case Commit(p) =>
      if p in s.workers && s.workers[p].Proposed? && Fresh(s.book, s.workers[p].batch) then
        State(RecordAll(s.book, s.workers[p].batch), s.workers - {p})
      else s
    case End(p) => s.(workers := s.workers - {p})
  }

  ghost predicate BudgetKept(policies: ProfileId -> Policy, b: Book, p: ProfileId) {
    Sustainable(policies(p)) ==> WithinBudget(Totals(b, p).0, Totals(b, p).1, policies(p).maxError)
  }

  function Errors(batch: seq<Assignment>): seq<real> {
    seq(|batch|, i requires 0 <= i < |batch| => batch[i].error)
  }

  ghost predicate Homogeneous(batch: seq<Assignment>, p: ProfileId) {
    forall i :: 0 <= i < |batch| ==> batch[i].profile == p
  }

  /** A worker's snapshot is still the truth about its own profile, and its
      proposal would keep the budget. */
  ghost predicate WorkerOk(policies: ProfileId -> Policy, b: Book, p: ProfileId, w: Worker) {
    && (!w.Claimed? ==> (w.ctx.errorSum, w.ctx.count) == Totals(b, p))
    && (w.Proposed? ==>
          && Homogeneous(w.batch, p)
          && (Sustainable(policies(p)) ==>
                WithinBudget(w.ctx.errorSum + Sum(Errors(w.batch)), w.ctx.count + |w.batch|, policies(p).maxError)))
  }

  ghost predicate Inv(policies: ProfileId -> Policy, s: State) {
    && ProfilesKnown(s.book)
    && (forall p :: BudgetKept(policies, s.book, p))
    && forall p :: p in s.workers ==> WorkerOk(policies, s.book, p, s.workers[p])
  }

  lemma RecordTotals(b: Book, a: Assignment, r: ProfileId)
    requires ProfilesKnown(b) && a.requestId !in b.assignments
    ensures Totals(Record(b, a), r)
         == if r == a.profile then (Totals(b, r).0 + a.error, Totals(b, r).1 + 1) else Totals(b, r)
  {
    hide Average;
  }

  /** A fresh one-profile batch moves that profile's totals by its errors, and no other's. */
  lemma {:induction false} RecordAllTotals(b: Book, batch: seq<Assignment>, p: ProfileId, r: ProfileId)
    requires ProfilesKnown(b) && Fresh(b, batch) && Homogeneous(batch, p)
    ensures Totals(RecordAll(b, batch), r)
         == if r == p then (Totals(b, p).0 + Sum(Errors(batch)), Totals(b, p).1 + |batch|) else Totals(b, r)
  {
    hide Record, Totals, PutAll, BatchCount, SlotCount, RowsAsProposed, Fresh;
    if batch != [] {
      var front, a := batch[..|batch| - 1], batch[|batch| - 1];
      FreshFront(b, batch);
      RecordAllTotals(b, front, p, r);
      RecordTotals(RecordAll(b, front), a, r);
      assert Errors(batch)[..|batch| - 1] == Errors(front);
    }
  }

  lemma CommitKeeps(policies: ProfileId -> Policy, s: State, p: ProfileId)
    requires Inv(policies, s) && p in s.workers && s.workers[p].Proposed? && Fresh(s.book, s.workers[p].batch)
    ensures Inv(policies, Next(policies, s, Event.Commit(p)))
  {
    hide Sustainable, WithinBudget, Totals, Homogeneous;
    var t, w := Next(policies, s, Event.Commit(p)), s.workers[p];
    assert WorkerOk(policies, s.book, p, w);
    forall r
      ensures BudgetKept(policies, t.book, r)
      ensures r in t.workers ==> WorkerOk(policies, t.book, r, t.workers[r])
    {
      RecordAllTotals(s.book, w.batch, p, r);
      assert BudgetKept(policies, s.book, r);
      assert r in t.workers ==> WorkerOk(policies, s.book, r, s.workers[r]);
    }
  }

  lemma ProposalOk(policies: ProfileId -> Policy, b: Book, p: ProfileId, ctx: Context,
                   ids: seq<nat>, slots: seq<nat>, costs: seq<real>)
    requires |ids| == |slots| == |costs| && policies(p).flavours != []
    requires (ctx.errorSum, ctx.count) == Totals(b, p) && BudgetKept(policies, b, p)
    ensures var errors := PlaceAll(policies(p), ctx, AsInts(slots)).0;
            WorkerOk(policies, b, p, Proposed(ctx, BatchOf(p, ids, slots, errors, costs)))
  {
    hide Sustainable, WithinBudget, Totals, PlaceAll;
    var errors := PlaceAll(policies(p), ctx, AsInts(slots)).0;
    assert Errors(BatchOf(p, ids, slots, errors, costs)) == errors;
    if Sustainable(policies(p)) {
      BatchKeepsBudget(policies(p), ctx, AsInts(slots));
    }
  }

  lemma SolveKeeps(policies: ProfileId -> Policy, s: State, e: Event)
    requires Inv(policies, s) && e.Solve?
    ensures Inv(policies, Next(policies, s, e))
  {
    hide BudgetKept, Totals, PlaceAll, BatchOf, Homogeneous, Sustainable, WithinBudget, AsInts, ProfilesKnown;
    var p := e.p;
    if p in s.workers && s.workers[p].Snapped? && |e.ids| == |e.slots| == |e.costs| && policies(p).flavours != [] {
      assert WorkerOk(policies, s.book, p, s.workers[p]);
      assert BudgetKept(policies, s.book, p);
      ProposalOk(policies, s.book, p, s.workers[p].ctx, e.ids, e.slots, e.costs);
    }
  }

  lemma StepKeeps(policies: ProfileId -> Policy, s: State, e: Event)
    requires Inv(policies, s)
    ensures Inv(policies, Next(policies, s, e))
  {
    hide Sustainable, WithinBudget, Totals, Homogeneous, BudgetKept;
    match e
    case Begin(_) =>
    case Snapshot(_, _) =>
    case Solve(_, _, _, _) => SolveKeeps(policies, s, e);
    case Rollback(_) =>
    case Commit(p) =>
      if p in s.workers && s.workers[p].Proposed? && Fresh(s.book, s.workers[p].batch) {
        CommitKeeps(policies, s, p);
      }
    case End(_) =>
  }

  ghost function Run(policies: ProfileId -> Policy, events: seq<Event>): (s: State)
    ensures Inv(policies, s)
  {
    if events == [] then State(EMPTY_BOOK, map[])
    else
      var before := Run(policies, events[..|events| - 1]);
      StepKeeps(policies, before, events[|events| - 1]);
      Next(policies, before, events[|events| - 1])
  }

  /** In every interleaving of snapshots, solves, rollbacks and commits of any
      profiles, a sustainable profile's cumulative average stays within its threshold. */
  lemma CumulativeAverageHolds(policies: ProfileId -> Policy, events: seq<Event>, p: ProfileId)
    requires Sustainable(policies(p)) && p in Run(policies, events).book.profileStats
    requires Run(policies, events).book.profileStats[p].count > 0
    ensures var stats := Run(policies, events).book.profileStats[p];
            stats.errorSum / stats.count as real <= policies(p).maxError
  {
    var s := Run(policies, events);
    assert BudgetKept(policies, s.book, p);
    BudgetIsAverage(s.book.profileStats[p].errorSum, s.book.profileStats[p].count, policies(p).maxError);
  }
}
