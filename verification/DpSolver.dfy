/** The layered DP: one layer per request, states merged by key, optional beam
    or k-best pruning around a protected incumbent, a timeout exit and a final
    window-average filter.

    Hash-map order and the ties of the unstable sort are arbitrary choices; the
    moment the timer expires is an input. */
module DpSolver {
  import opened Options
  import opened DpProblem
  import opened DpReference
  import opened DpWarmStart
  import opened DpBudget
  import opened DpWidth

  datatype Pruning = NoPruning | Beam | Kbest

  datatype Entry = Entry(cost: real, assignments: seq<RequestAssignment>)

  type Layer = map<Key, Entry>

  // ── what a layer means ─────────────────────────────────────────────────

  /** The entry is a legal plan for the first `i` requests that reaches `key` at `cost`. */
  ghost predicate EntryOk(p: Problem, i: nat, key: Key, e: Entry)
    requires WellFormed(p)
  {
    var cs := ChoicesOf(e.assignments);
    |cs| == i && LegalPrefix(p, cs) && e.assignments == Emit(p, cs) && KeyAfter(p, cs) == key && CostOf(p, cs) == e.cost
  }

  ghost predicate Sound(p: Problem, i: nat, dp: Layer)
    requires WellFormed(p)
  {
    forall key :: key in dp ==> EntryOk(p, i, key, dp[key])
  }

  predicate Reached(dp: Layer, key: Key, cost: real) {
    key in dp && dp[key].cost <= cost
  }

  /** Every legal plan for the first `i` requests is matched by a state of its key that costs no more. */
  ghost predicate Complete(p: Problem, i: nat, dp: Layer)
    requires WellFormed(p)
  {
    forall cs :: |cs| == i && LegalPrefix(p, cs) ==> Reached(dp, KeyAfter(p, cs), CostOf(p, cs))
  }

  /** The incumbent's state is alive and no dearer than the incumbent. */
  ghost predicate IncumbentAlive(p: Problem, i: nat, dp: Layer)
    requires WellFormed(p) && Placeable(p) && i <= |p.requests|
  {
    Reached(dp, KeyAfter(p, WarmPrefix(p, i)), CostOf(p, WarmPrefix(p, i)))
  }

  ghost predicate Grows(before: Layer, after: Layer) {
    forall key :: key in before ==> Reached(after, key, before[key].cost)
  }

  /** State `key` extended by `c`, at the extended cost, is in the layer. */
  ghost predicate Extended(p: Problem, key: Key, cost: real, c: Choice, dp: Layer) {
    && InHorizon(p, c.slot) && c.slot < |key.incCounts|
    && Reached(dp, Step(p, key, c), cost + Delta(p, key, c))
  }

  /** All legal continuations of one state are present at no more than their own cost. */
  ghost predicate Expanded(p: Problem, i: nat, key: Key, cost: real, dp: Layer)
    requires WellFormed(p) && i < |p.requests|
  {
    forall c :: Legal(p, i, c) ==> Extended(p, key, cost, c, dp)
  }

  lemma ExtendedGrows(p: Problem, key: Key, cost: real, c: Choice, dp: Layer, more: Layer)
    requires Extended(p, key, cost, c, dp) && Grows(dp, more)
    ensures Extended(p, key, cost, c, more)
  {
  }

  lemma ExpandedGrows(p: Problem, i: nat, key: Key, cost: real, dp: Layer, more: Layer)
    requires WellFormed(p) && i < |p.requests|
    requires Expanded(p, i, key, cost, dp) && Grows(dp, more)
    ensures Expanded(p, i, key, cost, more)
  {
    hide Extended, Grows;
    forall c | Legal(p, i, c) ensures Extended(p, key, cost, c, more) {
      ExtendedGrows(p, key, cost, c, dp, more);
    }
  }

  lemma GrowsReflexive(a: Layer)
    ensures Grows(a, a)
  {
  }

  lemma GrowsTransitive(a: Layer, b: Layer, c: Layer)
    requires Grows(a, b) && Grows(b, c)
    ensures Grows(a, c)
  {
  }

  // ── expanding a layer ──────────────────────────────────────────────────

  /** Keeps the cheaper of the recorded and the new path to `key`. */
  method Relax(p: Problem, i: nat, dp: Layer, key: Key, e: Entry) returns (more: Layer)
    requires WellFormed(p) && Sound(p, i, dp) && EntryOk(p, i, key, e)
    ensures more == if key !in dp || e.cost < dp[key].cost then dp[key := e] else dp
    ensures Sound(p, i, more) && Grows(dp, more) && Reached(more, key, e.cost)
  {
    hide EntryOk;
    more := if key !in dp || e.cost < dp[key].cost then dp[key := e] else dp;
  }

  lemma EntrySized(p: Problem, i: nat, key: Key, e: Entry)
    requires WellFormed(p) && EntryOk(p, i, key, e)
    ensures |key.incCounts| == |p.baseCounts|
  {
  }

  lemma ExtendedIfReached(p: Problem, key: Key, cost: real, c: Choice)
    requires InHorizon(p, c.slot) && c.slot < |key.incCounts|
    ensures forall dp :: Reached(dp, Step(p, key, c), cost + Delta(p, key, c)) ==> Extended(p, key, cost, c, dp)
  {
  }

  method ExpandFlavour(p: Problem, i: nat, key: Key, e: Entry, f: Flavour, dp0: Layer) returns (dp: Layer)
    requires WellFormed(p) && i < |p.requests| && f in p.flavours[i]
    requires EntryOk(p, i, key, e) && Sound(p, i + 1, dp0)
    ensures Sound(p, i + 1, dp) && Grows(dp0, dp)
    ensures forall s | p.first[i] <= s <= p.last[i] :: Extended(p, key, e.cost, Choice(f, s), dp)
  {
    hide EntryOk, Sound, Step, Delta, Grows, Extended;
    EntrySized(p, i, key, e);
    GrowsReflexive(dp0);
    dp := dp0;
    var slot := p.first[i];
    while slot <= p.last[i]
      invariant p.first[i] <= slot
      invariant Sound(p, i + 1, dp) && Grows(dp0, dp)
      invariant forall s | p.first[i] <= s < slot && s <= p.last[i] :: Extended(p, key, e.cost, Choice(f, s), dp)
    {
      var c := Choice(f, slot);
      ContinuationOk(p, i, key, e, c);
      ExtendedIfReached(p, key, e.cost, c);
      var path := e.assignments + [RequestAssignment(p.requests[i].requestId, c, Delta(p, key, c))];
      var more := Relax(p, i + 1, dp, Step(p, key, c), Entry(e.cost + Delta(p, key, c), path));
      forall s | p.first[i] <= s < slot ensures Extended(p, key, e.cost, Choice(f, s), more) {
        ExtendedGrows(p, key, e.cost, Choice(f, s), dp, more);
      }
      GrowsTransitive(dp0, dp, more);
      dp := more;
      slot := slot + 1;
    }
  }

  lemma ContinuationOk(p: Problem, i: nat, key: Key, e: Entry, c: Choice)
    requires WellFormed(p) && i < |p.requests| && EntryOk(p, i, key, e) && Legal(p, i, c)
    ensures EntryOk(p, i + 1, Step(p, key, c),
                    Entry(e.cost + Delta(p, key, c),
                          e.assignments + [RequestAssignment(p.requests[i].requestId, c, Delta(p, key, c))]))
  {
    var cs := ChoicesOf(e.assignments);
    var path := e.assignments + [RequestAssignment(p.requests[i].requestId, c, Delta(p, key, c))];
    assert ChoicesOf(path) == cs + [c];
    LegalSnoc(p, cs, c);
    EmitSnoc(p, cs, c);
  }

  method ExpandState(p: Problem, i: nat, key: Key, e: Entry, dp0: Layer) returns (dp: Layer)
    requires WellFormed(p) && i < |p.requests|
    requires EntryOk(p, i, key, e) && Sound(p, i + 1, dp0)
    ensures Sound(p, i + 1, dp) && Grows(dp0, dp)
    ensures Expanded(p, i, key, e.cost, dp)
  {
    dp := dp0;
    var fs := p.flavours[i];
    for j := 0 to |fs|
      invariant Sound(p, i + 1, dp) && Grows(dp0, dp)
      invariant forall c :: Legal(p, i, c) && c.flavour in fs[..j] ==> Extended(p, key, e.cost, c, dp)
    {
      var more := ExpandFlavour(p, i, key, e, fs[j], dp);
      forall c | Legal(p, i, c) && c.flavour in fs[..j + 1]
        ensures Extended(p, key, e.cost, c, more)
      {
        assert c == Choice(c.flavour, c.slot);
        assert c.flavour == fs[j] || c.flavour in fs[..j];
      }
      dp := more;
    }
    assert fs[..|fs|] == fs;
  }

  /** One DP layer, visiting the previous states in any order. */
  method ExpandLayer(p: Problem, i: nat, prev: Layer) returns (dp: Layer)
    requires WellFormed(p) && i < |p.requests| && Sound(p, i, prev)
    ensures Sound(p, i + 1, dp)
    ensures forall key :: key in prev ==> Expanded(p, i, key, prev[key].cost, dp)
  {
    hide EntryOk, Expanded, Grows;
    dp := map[];
    var todo := prev.Keys;
    while todo != {}
      invariant todo <= prev.Keys
      invariant Sound(p, i + 1, dp)
      invariant forall key :: key in prev && key !in todo ==> Expanded(p, i, key, prev[key].cost, dp)
      decreases |todo|
    {
      var key :| key in todo;
      var more := ExpandState(p, i, key, prev[key], dp);
      forall k | k in prev && k !in todo
        ensures Expanded(p, i, k, prev[k].cost, more)
      {
        ExpandedGrows(p, i, k, prev[k].cost, dp, more);
      }
      dp := more;
      todo := todo - {key};
    }
  }

  /** An expanded complete layer is complete: merging by key loses nothing. */
  lemma ExpansionComplete(p: Problem, i: nat, prev: Layer, dp: Layer)
    requires WellFormed(p) && i < |p.requests| && Sound(p, i, prev) && Complete(p, i, prev)
    requires forall key :: key in prev ==> Expanded(p, i, key, prev[key].cost, dp)
    ensures Complete(p, i + 1, dp)
  {
    hide EntryOk, Expanded;
    forall cs | |cs| == i + 1 && LegalPrefix(p, cs)
      ensures Reached(dp, KeyAfter(p, cs), CostOf(p, cs))
    {
      var before, c := cs[..i], cs[i];
      assert cs == before + [c];
      PathExtends(p, i, prev, dp, before, c);
    }
  }

  /** A matched plan stays matched when both take the same next choice. */
  lemma PathExtends(p: Problem, i: nat, prev: Layer, dp: Layer, before: seq<Choice>, c: Choice)
    requires WellFormed(p) && i < |p.requests| && |before| == i && LegalPrefix(p, before) && Legal(p, i, c)
    requires Sound(p, i, prev) && Reached(prev, KeyAfter(p, before), CostOf(p, before))
    requires forall key :: key in prev ==> Expanded(p, i, key, prev[key].cost, dp)
    ensures LegalPrefix(p, before + [c])
    ensures Reached(dp, KeyAfter(p, before + [c]), CostOf(p, before + [c]))
  {
    LegalSnoc(p, before, c);
    var key := KeyAfter(p, before);
    assert Expanded(p, i, key, prev[key].cost, dp);
    assert Extended(p, key, prev[key].cost, c, dp);
  }

  lemma ExpansionKeepsIncumbent(p: Problem, i: nat, prev: Layer, dp: Layer)
    requires WellFormed(p) && Placeable(p) && i < |p.requests| && IncumbentAlive(p, i, prev) && Sound(p, i, prev)
    requires forall key :: key in prev ==> Expanded(p, i, key, prev[key].cost, dp)
    ensures IncumbentAlive(p, i + 1, dp)
  {
    var before := WarmPrefix(p, i);
    var w := WarmChoice(p, i, KeyAfter(p, before));
    assert WarmPrefix(p, i + 1) == before + [w];
    PathExtends(p, i, prev, dp, before, w);
  }

  // ── pruning ────────────────────────────────────────────────────────────

  function RankError(key: Key): real {
    if key.errorCountMilli > 0 then key.errorSumBp as real / (key.errorCountMilli as real / 1000.0) else 0.0
  }

  /** The sort order: by cost, and for k-best also by average error. */
  predicate NoWorse(pruning: Pruning, dp: Layer, a: Key, b: Key)
    requires a in dp && b in dp
  {
    || dp[a].cost < dp[b].cost
    || (dp[a].cost == dp[b].cost && (pruning.Kbest? ==> RankError(a) <= RankError(b)))
  }

  lemma LeastExists(pruning: Pruning, dp: Layer, keys: set<Key>)
    requires keys != {} && keys <= dp.Keys
    ensures exists a :: a in keys && forall b :: b in keys ==> NoWorse(pruning, dp, a, b)
    decreases |keys|
  {
    var x :| x in keys;
    var rest := keys - {x};
    if rest == {} {
      assert keys == {x};
    } else {
      LeastExists(pruning, dp, rest);
      var a :| a in rest && forall b :: b in rest ==> NoWorse(pruning, dp, a, b);
      var least := if NoWorse(pruning, dp, a, x) then a else x;
      forall b | b in keys ensures NoWorse(pruning, dp, least, b) {
        assert b in rest || b == x;
      }
    }
  }

  ghost predicate Sorted(pruning: Pruning, dp: Layer, items: seq<Key>) {
    && (forall i :: 0 <= i < |items| ==> items[i] in dp)
    && forall i, j :: 0 <= i < j < |items| ==> items[i] != items[j] && NoWorse(pruning, dp, items[i], items[j])
  }

  /** Any sorted arrangement of the layer's keys. */
  method SortKeys(pruning: Pruning, dp: Layer) returns (items: seq<Key>)
    ensures Sorted(pruning, dp, items)
    ensures |items| == |dp| && forall key :: key in dp ==> key in items
  {
    items := [];
    var rest := dp.Keys;
    while rest != {}
      invariant rest <= dp.Keys
      invariant Sorted(pruning, dp, items)
      invariant forall i :: 0 <= i < |items| ==> items[i] !in rest
      invariant forall i, b :: 0 <= i < |items| && b in rest ==> NoWorse(pruning, dp, items[i], b)
      invariant |items| + |rest| == |dp.Keys|
      invariant forall key :: key in dp ==> key in rest || key in items
      decreases |rest|
    {
      LeastExists(pruning, dp, rest);
      var a :| a in rest && forall b :: b in rest ==> NoWorse(pruning, dp, a, b);
      items := items + [a];
      rest := rest - {a};
    }
  }

  function Restrict(dp: Layer, kept: seq<Key>): Layer
    requires forall i :: 0 <= i < |kept| ==> kept[i] in dp
  {
    map key | key in kept :: dp[key]
  }

  /** `kept` is what pruning may leave of `full`: all of it unless it is cut, and
      otherwise max(1, k) states, the incumbent's among them, the others no
      worse than any state left out. */
  ghost predicate Trimmed(pruning: Pruning, k: nat, full: Layer, kept: Layer, warmKey: Key) {
    && warmKey in kept
    && (forall key :: key in kept ==> key in full && kept[key] == full[key])
    && (pruning.NoPruning? || |full| <= k ==> kept == full)
    && (!pruning.NoPruning? && |full| > k ==> |kept| == Max(1, k))
    && forall a, b :: a in kept && a != warmKey && b in full && b !in kept ==> NoWorse(pruning, full, a, b)
  }

  /** The rank is the window average, in basis points instead of per cent. */
  lemma RankIsAverage(key: Key)
    ensures RankError(key) == if key.errorCountMilli > 0 then 100.0 * AverageError(key) else 0.0
  {
    if key.errorCountMilli > 0 {
      Hundredfold(key.errorSumBp as real, key.errorCountMilli as real / 1000.0);
    }
  }

  lemma Hundredfold(sum: real, count: real)
    requires count > 0.0
    ensures sum / count == 100.0 * ((sum / 100.0) / count)
  {
    var q := (sum / 100.0) / count;
    assert q * count == sum / 100.0;
    assert (100.0 * q) * count == 100.0 * (q * count);
  }

  /** Window average of a state, nothing counted as nothing wrong. */
  function Average(key: Key): real {
    if key.errorCountMilli > 0 then AverageError(key) else 0.0
  }

  lemma NoWorseMeans(pruning: Pruning, dp: Layer, a: Key, b: Key)
    requires a in dp && b in dp && NoWorse(pruning, dp, a, b)
    ensures dp[a].cost <= dp[b].cost
    ensures pruning == Kbest && dp[a].cost == dp[b].cost ==> Average(a) <= Average(b)
  {
    RankIsAverage(a);
    RankIsAverage(b);
  }

  /** Keeps the best states up to `k`, giving up one place for the incumbent's
      state when it would fall outside. Cheaper states come first, and for k-best
      at equal cost those of a lower window average. */
  method Prune(pruning: Pruning, k: nat, dp: Layer, warmKey: Key) returns (kept: Layer)
    requires warmKey in dp
    ensures Trimmed(pruning, k, dp, kept, warmKey)
    ensures forall a, b :: a in kept && a != warmKey && b in dp && b !in kept ==>
              a in dp && dp[a].cost <= dp[b].cost
              && (pruning == Kbest && dp[a].cost == dp[b].cost ==> Average(a) <= Average(b))
  {
    hide NoWorse, Average;
    if pruning.NoPruning? || |dp| <= k {
      return dp;
    }
    var chosen := ChooseKeys(pruning, k, dp, warmKey);
    kept := Restrict(dp, chosen);
    assert kept.Keys == set key | key in chosen;
    DistinctCount(chosen);
    forall a, b | a in kept && a != warmKey && b in dp && b !in kept
      ensures dp[a].cost <= dp[b].cost
      ensures pruning == Kbest && dp[a].cost == dp[b].cost ==> Average(a) <= Average(b)
    {
      NoWorseMeans(pruning, dp, a, b);
    }
  }

  lemma SortedFacts(pruning: Pruning, dp: Layer, items: seq<Key>)
    requires Sorted(pruning, dp, items)
    ensures forall i :: 0 <= i < |items| ==> items[i] in dp
    ensures forall i, j :: 0 <= i < j < |items| ==> items[i] != items[j]
  {
  }

  lemma TakeKeepsBest(pruning: Pruning, dp: Layer, items: seq<Key>, n: nat)
    requires Sorted(pruning, dp, items) && n <= |items| && forall key :: key in dp ==> key in items
    ensures forall a, b :: a in items[..n] && b in dp && b !in items[..n] ==> a in dp && NoWorse(pruning, dp, a, b)
  {
    hide NoWorse;
    forall a, b | a in items[..n] && b in dp && b !in items[..n]
      ensures a in dp && NoWorse(pruning, dp, a, b)
    {
      var i :| 0 <= i < n && items[i] == a;
      var j :| 0 <= j < |items| && items[j] == b;
      assert forall m :: 0 <= m < n ==> items[m] in items[..n];
    }
  }

  method ChooseKeys(pruning: Pruning, k: nat, dp: Layer, warmKey: Key) returns (chosen: seq<Key>)
    requires warmKey in dp && |dp| > k
    ensures forall i :: 0 <= i < |chosen| ==> chosen[i] in dp
    ensures forall i, j :: 0 <= i < j < |chosen| ==> chosen[i] != chosen[j]
    ensures |chosen| == Max(1, k) && warmKey in chosen
    ensures forall a, b :: a in chosen && a != warmKey && b in dp && b !in chosen ==> NoWorse(pruning, dp, a, b)
  {
    hide NoWorse, Sorted;
    var items := SortKeys(pruning, dp);
    SortedFacts(pruning, dp, items);
    var warmIndex :| 0 <= warmIndex < |items| && items[warmIndex] == warmKey;
    var takeN := if warmIndex >= k then Max(k - 1, 0) else k;
    chosen := items[..takeN];
    TakeKeepsBest(pruning, dp, items, takeN);
    if warmIndex >= k {
      chosen := chosen + [warmKey];
    } else {
      assert chosen[warmIndex] == warmKey;
    }
  }

  lemma {:induction false} DistinctCount(s: seq<Key>)
    requires forall i, j :: 0 <= i < j < |s| ==> s[i] != s[j]
    ensures |set x | x in s| == |s|
  {
    if s != [] {
      var front := s[..|s| - 1];
      DistinctCount(front);
      assert (set x | x in s) == (set x | x in front) + {s[|s| - 1]};
    }
  }

  // ── the solver ─────────────────────────────────────────────────────────

  /** A state of least cost, whichever the iteration order offers. */
  method Cheapest(dp: Layer) returns (e: Entry)
    requires dp != map[]
    ensures exists key :: key in dp && e == dp[key]
    ensures forall key :: key in dp ==> e.cost <= dp[key].cost
  {
    var any :| any in dp;
    e := dp[any];
    var todo := dp.Keys;
    while todo != {}
      invariant todo <= dp.Keys
      invariant exists key :: key in dp && e == dp[key]
      invariant forall key :: key in dp && key !in todo ==> e.cost <= dp[key].cost
      decreases |todo|
    {
      var key :| key in todo;
      if dp[key].cost < e.cost {
        e := dp[key];
      }
      todo := todo - {key};
    }
  }

  /** The result answers every request in order with a legal choice at its
      sequential price, and the window average of those choices is in budget. */
  ghost predicate GoodAnswer(p: Problem, r: seq<RequestAssignment>)
    requires WellFormed(p)
  {
    Feasible(p, ChoicesOf(r)) && r == Emit(p, ChoicesOf(r))
  }

  /** The incumbent, if it meets the threshold. */
  ghost function WarmAnswer(p: Problem): seq<RequestAssignment>
    requires WellFormed(p) && Placeable(p)
  {
    if WarmFeasible(p) then Emit(p, WarmStart(p)) else []
  }

  /** A layer holds at most as many states as there are decisions leading to it. */
  lemma LayerBound(p: Problem, n: nat, dp: Layer)
    requires WellFormed(p) && n <= |p.requests| && Sound(p, n, dp)
    ensures |dp| <= Width(p, n)
  {
    hide KeyAfter, Width, LegalPrefix;
    forall key | key in dp ensures exists cs :: |cs| == n && LegalPrefix(p, cs) && KeyAfter(p, cs) == key {
      assert EntryOk(p, n, key, dp[key]);
    }
    PlansBound(p, n, dp.Keys);
  }

  // ── the layers ─────────────────────────────────────────────────────────

  /** The last layer before and after pruning, and whether no earlier one was cut. */
  datatype LastLayer = LastLayer(full: Layer, kept: Layer, whole: bool)

  /** What a run that was not timed out leaves. Earlier layers are certainly
      whole without pruning, for a single request, or when `k` is at least the
      number of decisions the earlier requests allow. */
  ghost predicate Settled(p: Problem, pruning: Pruning, k: nat, last: LastLayer)
    requires WellFormed(p) && Placeable(p)
  {
    && p.requests != []
    && Sound(p, |p.requests|, last.full) && IncumbentAlive(p, |p.requests|, last.kept)
    && Trimmed(pruning, k, last.full, last.kept, KeyAfter(p, WarmStart(p)))
    && (last.whole ==> Complete(p, |p.requests|, last.full))
    && (pruning.NoPruning? || |p.requests| == 1 || k >= Width(p, |p.requests| - 1) ==> last.whole)
  }

  /** The layers. `done` is false when the timer expired on the way. */
  method RunLayers(p: Problem, pruning: Pruning, k: nat, keys: seq<Key>, expiresAt: Option<nat>)
    returns (dp: Layer, done: bool, ghost last: LastLayer)
    requires WellFormed(p) && Placeable(p)
    requires keys == WarmKeys(p, |p.requests|)
    ensures done <==> expiresAt.None? || expiresAt.value >= |p.requests|
    ensures done ==> Sound(p, |p.requests|, dp) && IncumbentAlive(p, |p.requests|, dp)
    ensures done && p.requests != [] ==> Settled(p, pruning, k, last) && dp == last.kept
    ensures done && pruning.NoPruning? ==> Complete(p, |p.requests|, dp)
    ensures done && !pruning.NoPruning? && |p.requests| > 0 ==> |dp| <= Max(1, k)
  {
    hide Sound, Complete, IncumbentAlive, WarmPrefix, KeyAfter, WarmKeys, Width;
    dp := map[p.initial := Entry(0.0, [])];
    last := LastLayer(dp, dp, true);
    FirstLayer(p);
    ghost var uncut := true;      // no layer so far was cut
    for i := 0 to |p.requests|
      invariant expiresAt.Some? ==> i <= expiresAt.value
      invariant Sound(p, i, dp) && IncumbentAlive(p, i, dp)
      invariant uncut ==> Complete(p, i, dp)
      invariant pruning.NoPruning? || i == 0 || k >= Width(p, i) ==> uncut
      invariant i == 0 || LayerDone(p, pruning, k, i, last, dp)
      invariant !pruning.NoPruning? && i > 0 ==> |dp| <= Max(1, k)
    {
      assert keys[i + 1] == KeyAfter(p, WarmPrefix(p, i + 1));
      ghost var full;
      WidthGrows(p, i);
      dp, full := NextLayer(p, i, pruning, k, keys[i + 1], uncut, dp);
      last := LastLayer(full, dp, uncut);
      uncut := uncut && (pruning.NoPruning? || |full| <= k);
      if expiresAt.Some? && i >= expiresAt.value {
        return dp, false, last;
      }
    }
    done := true;
  }

  /** `Settled`, for the first `i` requests. */
  ghost predicate LayerDone(p: Problem, pruning: Pruning, k: nat, i: nat, last: LastLayer, dp: Layer)
    requires WellFormed(p) && Placeable(p) && 0 < i <= |p.requests|
  {
    && last.kept == dp && Sound(p, i, last.full)
    && Trimmed(pruning, k, last.full, dp, KeyAfter(p, WarmPrefix(p, i)))
    && (last.whole ==> Complete(p, i, last.full))
    && (pruning.NoPruning? || i == 1 || k >= Width(p, i - 1) ==> last.whole)
  }

  lemma FirstLayer(p: Problem)
    requires WellFormed(p) && Placeable(p)
    ensures var dp := map[p.initial := Entry(0.0, [])];
            Sound(p, 0, dp) && IncumbentAlive(p, 0, dp) && Complete(p, 0, dp)
  {
    assert ChoicesOf([]) == [];
    assert forall cs: seq<Choice> :: |cs| == 0 ==> cs == [];
  }

  /** One layer: expand, then prune around the incumbent. */
  method NextLayer(p: Problem, i: nat, pruning: Pruning, k: nat, warmKey: Key, ghost complete: bool, prev: Layer)
      returns (dp: Layer, ghost full: Layer)
    requires WellFormed(p) && Placeable(p) && i < |p.requests|
    requires warmKey == KeyAfter(p, WarmPrefix(p, i + 1))
    requires Sound(p, i, prev) && IncumbentAlive(p, i, prev) && (complete ==> Complete(p, i, prev))
    ensures Sound(p, i + 1, dp) && IncumbentAlive(p, i + 1, dp)
    ensures Sound(p, i + 1, full) && |full| <= Width(p, i + 1) && Trimmed(pruning, k, full, dp, warmKey)
    ensures complete ==> Complete(p, i + 1, full)
  {
    hide EntryOk, Width, Complete;
    var curr := ExpandLayer(p, i, prev);
    full := curr;
    // The source's empty-layer exit cannot be taken: the incumbent is in every layer.
    ExpansionKeepsIncumbent(p, i, prev, curr);
    if complete {
      ExpansionComplete(p, i, prev, curr);
    }
    LayerBound(p, i + 1, curr);
    dp := Prune(pruning, k, curr, warmKey);
  }

  /** What every exit owes the resolved problem. */
  ghost predicate SolvesResolved(p: Problem, pruning: Pruning, k: nat, expiresAt: Option<nat>, r: seq<RequestAssignment>)
    requires WellFormed(p)
  {
    && (r != [] ==> GoodAnswer(p, r))
    && (p.requests == [] || !Placeable(p) ==> r == [])
    && (p.requests != [] && Placeable(p) ==>
          && (WarmFeasible(p) ==> r != [] && TotalCost(r) <= CostOf(p, WarmStart(p)))
          && (Sustainable(p) ==> r != [])
          && (expiresAt.Some? && expiresAt.value < |p.requests| ==> r == WarmAnswer(p)))
    && (p.requests != [] && (expiresAt.Some? ==> expiresAt.value >= |p.requests|)
        && (pruning.NoPruning? || k >= Width(p, |p.requests|))
        ==> Exact(p, r))
  }

  /** Solves one batch.

      Every exit: a non-empty answer has a row per request, in order, within the
      bounds and flavours the caller gave, priced behind the baseline and the
      rows in front, and meets the threshold. With any pruning, size and timeout: if the warm
      start meets the threshold the answer is non-empty and costs no more, which
      is certain for a sustainable batch; on a timeout it is exactly the warm
      start or empty. Without a timeout the
      answer is a cheapest state of the last layer within the threshold, empty
      only if no state is. If moreover no layer is cut, which is certain without
      pruning and for a `k` of at least the number of decisions, the answer is a
      cheapest feasible plan, and is empty only if there is none. */
  method SolveBatch(solver: Solver, input: BatchInput, pruning: Pruning, pruningK: nat, expiresAt: Option<nat>)
    returns (r: seq<RequestAssignment>, ghost last: LastLayer)
    requires Callable(solver, input)
    ensures r != [] ==> Answers(solver, input, r)
    ensures r != [] && input.baselineRequestCount >= 0.0 ==> AveragesWithin(solver, input, ChoicesOf(r))
    ensures input.requests != [] && input.baselineRequestCount >= 0.0
            && (expiresAt.Some? ==> expiresAt.value >= |input.requests|)
            && (pruning.NoPruning? || pruningK >= Decisions(solver, input, |input.requests|))
            ==> BestOfAll(solver, input, r)
    ensures WellFormed(Resolve(solver, input))
    ensures SolvesResolved(Resolve(solver, input), pruning, pruningK, expiresAt, r)
    ensures var p := Resolve(solver, input);
            p.requests != [] && Placeable(p) && (expiresAt.Some? ==> expiresAt.value >= |p.requests|) ==>
              Settled(p, pruning, pruningK, last) && AnswersFrom(p, last.kept, r)
  {
    hide Sound, Complete, Trimmed, Width, Settled, AnswersFrom, Exact, Callable, Sustainable, Resolve, WellFormed, Answers,
         BestOfAll, AveragesWithin, WarmFeasible, WarmAnswer, GoodAnswer, Decisions;
    SameBatch(solver, input);
    WidthIsDecisions(solver, input, |input.requests|);
    r, last := SolveResolved(solver, input, pruning, pruningK, expiresAt);
    ReadBack(solver, input, r);
  }

  /** What a good and an exact answer to the resolved problem are to the caller. */
  lemma ReadBack(solver: Solver, input: BatchInput, r: seq<RequestAssignment>)
    requires Callable(solver, input) && WellFormed(Resolve(solver, input))
    requires r != [] ==> GoodAnswer(Resolve(solver, input), r)
    ensures r != [] ==> Answers(solver, input, r)
    ensures input.baselineRequestCount >= 0.0 ==>
              && (r != [] ==> AveragesWithin(solver, input, ChoicesOf(r)))
              && (Exact(Resolve(solver, input), r) ==> BestOfAll(solver, input, r))
  {
    hide Resolve, WellFormed, Feasible, LegalPrefix, Admitted, Answers, AveragesWithin, SlotsOpen, Fares, CostOf, TotalCost;
    var p, cs := Resolve(solver, input), ChoicesOf(r);
    SameBatch(solver, input);
    if r != [] {
      FeasibleIsComplete(p, cs);
      AnswersMean(solver, input, r);
    }
    if input.baselineRequestCount >= 0.0 {
      if r != [] {
        FeasibleMeans(solver, input, cs);
        AdmittedAverages(solver, input, cs);
      }
      forall plan ensures Feasible(p, plan) <==> Admitted(solver, input, plan)
                  ensures Admitted(solver, input, plan) ==>
                            LegalPrefix(p, plan) && SlotsOpen(solver, plan)
                            && CostOf(p, plan) == Fares(solver, input, plan, |plan|)
      {
        FeasibleMeans(solver, input, plan);
      }
    }
  }

  lemma FeasibleIsComplete(p: Problem, cs: seq<Choice>)
    requires WellFormed(p) && Feasible(p, cs)
    ensures |cs| == |p.requests| && LegalPrefix(p, cs)
  {
  }

  lemma AdmittedAverages(solver: Solver, input: BatchInput, cs: seq<Choice>)
    requires Admitted(solver, input, cs)
    ensures AveragesWithin(solver, input, cs)
  {
  }

  /** The solve itself, in terms of the resolved problem. */
  method SolveResolved(solver: Solver, input: BatchInput, pruning: Pruning, pruningK: nat, expiresAt: Option<nat>)
    returns (r: seq<RequestAssignment>, ghost last: LastLayer)
    requires Callable(solver, input)
    ensures WellFormed(Resolve(solver, input))
    ensures SolvesResolved(Resolve(solver, input), pruning, pruningK, expiresAt, r)
    ensures var p := Resolve(solver, input);
            p.requests != [] && Placeable(p) && (expiresAt.Some? ==> expiresAt.value >= |p.requests|) ==>
              Settled(p, pruning, pruningK, last) && AnswersFrom(p, last.kept, r)
  {
    hide Sound, Complete, IncumbentAlive, KeyAfter, Trimmed, Settled, AnswersFrom, Callable, Resolve, WellFormed,
         LegalPrefix, SolvesResolved;
    SameBatch(solver, input);
    ResolveWellFormed(solver, input);
    var p := Resolve(solver, input);
    last := LastLayer(map[], map[], false);
    if input.requests == [] {
      NothingSolves(p, pruning, pruningK, expiresAt);
      return [], last;
    }
    if input.currentSlot >= solver.windowSize {
      NothingPastTheHorizon(solver, input);
      NothingSolves(p, pruning, pruningK, expiresAt);
      return [], last;
    }
    if !Placeable(p) {
      NoPlanWithoutSlots(p);
      NothingSolves(p, pruning, pruningK, expiresAt);
      return [], last;
    }
    var warm, keys := ComputeSequentialSolution(p);
    var warmFeasible := WithinThreshold(p, keys[|p.requests|]);
    var dp, done;
    dp, done, last := RunLayers(p, pruning, pruningK, keys, expiresAt);
    if !done {
      r := if warmFeasible then warm else [];
      WarmSolves(p, pruning, pruningK, expiresAt, r);
      return;
    }
    r := Select(p, dp);
    SelectedSolves(p, pruning, pruningK, expiresAt, last, r);
  }

  lemma NothingSolves(p: Problem, pruning: Pruning, k: nat, expiresAt: Option<nat>)
    requires WellFormed(p) && (p.requests == [] || (!Placeable(p) && !HasPlan(p)))
    ensures SolvesResolved(p, pruning, k, expiresAt, [])
  {
  }

  lemma WarmIsGood(p: Problem)
    requires WellFormed(p) && Placeable(p) && p.requests != [] && WarmFeasible(p)
    ensures var warm := Emit(p, WarmStart(p));
            GoodAnswer(p, warm) && warm != [] && TotalCost(warm) <= CostOf(p, WarmStart(p))
  {
    hide Emit, CostOf, TotalCost, WarmPrefix, KeyAfter;
    EmitFaithful(p, WarmStart(p));
  }

  lemma WarmSolves(p: Problem, pruning: Pruning, k: nat, expiresAt: Option<nat>, r: seq<RequestAssignment>)
    requires WellFormed(p) && Placeable(p) && p.requests != [] && r == WarmAnswer(p)
    requires expiresAt.Some? && expiresAt.value < |p.requests|
    ensures SolvesResolved(p, pruning, k, expiresAt, r)
  {
    hide Exact, Sustainable, WarmFeasible, GoodAnswer, Emit, CostOf, TotalCost, WarmPrefix, Width;
    if WarmFeasible(p) {
      WarmIsGood(p);
    }
    if Sustainable(p) {
      SustainableIsWarmFeasible(p);
    }
  }

  lemma SelectedSolves(p: Problem, pruning: Pruning, k: nat, expiresAt: Option<nat>, last: LastLayer,
                       r: seq<RequestAssignment>)
    requires WellFormed(p) && Placeable(p) && Settled(p, pruning, k, last) && AnswersFrom(p, last.kept, r)
    requires (expiresAt.Some? ==> expiresAt.value >= |p.requests|) && (r != [] ==> GoodAnswer(p, r))
    ensures SolvesResolved(p, pruning, k, expiresAt, r)
  {
    hide Sound, Complete, Trimmed, AnswersFrom, GoodAnswer, WarmFeasible, Width, Exact, Sustainable;
    AnswersCoverWarm(p, last.kept, r);
    if Sustainable(p) {
      SustainableIsWarmFeasible(p);
    }
    if pruning.NoPruning? || k >= Width(p, |p.requests|) {
      UncutIsExact(p, pruning, k, last, r);
    }
  }

  /** The answer given from the surviving states. */
  ghost predicate AnswersFrom(p: Problem, kept: Layer, r: seq<RequestAssignment>)
    requires WellFormed(p)
  {
    && (r == [] <==> forall key :: key in kept ==> !WithinThreshold(p, key))
    && forall key :: key in kept && WithinThreshold(p, key) ==> TotalCost(r) <= kept[key].cost
  }

  /** As good as brute force: empty exactly when no plan is feasible, and as cheap as any that is. */
  ghost predicate Exact(p: Problem, r: seq<RequestAssignment>)
    requires WellFormed(p)
  {
    && (r == [] <==> !HasPlan(p))
    && forall cs :: Feasible(p, cs) ==> TotalCost(r) <= CostOf(p, cs)
  }

  /** Final threshold filter and choice of a cheapest surviving state. */
  method Select(p: Problem, dp: Layer) returns (r: seq<RequestAssignment>)
    requires WellFormed(p) && p.requests != [] && Sound(p, |p.requests|, dp)
    ensures r != [] ==> GoodAnswer(p, r)
    ensures AnswersFrom(p, dp, r)
  {
    hide EntryOk, GoodAnswer, WithinThreshold, TotalCost;
    var kept := map key | key in dp && WithinThreshold(p, key) :: dp[key];
    if kept == map[] {
      assert forall key :: key in dp ==> key !in kept;
      return [];
    }
    var e := Cheapest(kept);
    r := e.assignments;
    var key :| key in kept && kept[key] == e;
    EntryAnswers(p, key, e);
    assert key in dp && WithinThreshold(p, key);
    forall k | k in dp && WithinThreshold(p, k) ensures TotalCost(r) <= dp[k].cost {
      assert k in kept;
    }
  }

  lemma EntryAnswers(p: Problem, key: Key, e: Entry)
    requires WellFormed(p) && p.requests != [] && EntryOk(p, |p.requests|, key, e) && WithinThreshold(p, key)
    ensures e.assignments != [] && GoodAnswer(p, e.assignments) && TotalCost(e.assignments) == e.cost
  {
    EmitFaithful(p, ChoicesOf(e.assignments));
  }

  lemma AnswersCoverWarm(p: Problem, dp: Layer, r: seq<RequestAssignment>)
    requires WellFormed(p) && Placeable(p) && IncumbentAlive(p, |p.requests|, dp) && AnswersFrom(p, dp, r)
    ensures WarmFeasible(p) ==> r != [] && TotalCost(r) <= CostOf(p, WarmStart(p))
  {
  }

  /** An answer from a last layer that matches every plan is exact. */
  lemma CompleteIsExact(p: Problem, dp: Layer, r: seq<RequestAssignment>)
    requires WellFormed(p) && Sound(p, |p.requests|, dp) && Complete(p, |p.requests|, dp) && AnswersFrom(p, dp, r)
    ensures Exact(p, r)
  {
    forall cs | Feasible(p, cs) ensures r != [] && TotalCost(r) <= CostOf(p, cs) {
      assert Reached(dp, KeyAfter(p, cs), CostOf(p, cs));
    }
    forall key | key in dp && WithinThreshold(p, key) ensures HasPlan(p) {
      assert EntryOk(p, |p.requests|, key, dp[key]);
      assert Feasible(p, ChoicesOf(dp[key].assignments));
    }
  }

  lemma UncutIsExact(p: Problem, pruning: Pruning, k: nat, last: LastLayer, r: seq<RequestAssignment>)
    requires WellFormed(p) && Placeable(p) && Settled(p, pruning, k, last) && AnswersFrom(p, last.kept, r)
    requires pruning.NoPruning? || k >= Width(p, |p.requests|)
    ensures Exact(p, r)
  {
    hide Sound, Complete, IncumbentAlive, KeyAfter, Width, AnswersFrom, Exact;
    WidthGrows(p, |p.requests| - 1);
    LayerBound(p, |p.requests|, last.full);
    CompleteIsExact(p, last.full, r);
  }

  lemma NoPlanWithoutSlots(p: Problem)
    requires WellFormed(p) && !Placeable(p)
    ensures !HasPlan(p)
  {
    var i :| 0 <= i < |p.requests| && p.first[i] > p.last[i];
    forall cs | |cs| == |p.requests| ensures !LegalPrefix(p, cs) {
      assert !Legal(p, i, cs[i]);
    }
  }

  lemma NothingPastTheHorizon(solver: Solver, input: BatchInput)
    requires Callable(solver, input) && input.requests != [] && input.currentSlot >= solver.windowSize
    ensures WellFormed(Resolve(solver, input)) && !Placeable(Resolve(solver, input))
    ensures !HasPlan(Resolve(solver, input))
  {
    ResolveWellFormed(solver, input);
    var p := Resolve(solver, input);
    assert p.first[0] > p.last[0];
    NoPlanWithoutSlots(p);
  }
}
