/** The online bandit's running means, learned in place and as mergeable deltas.

    Real arithmetic stands for the floating-point costs; slot and cost of each
    sample come from the solve and are inputs here. */
module Bandit {

  /** One placement's slot and the carbon cost it paid. */
  datatype Sample = Sample(slot: int, cost: real)

  /** Per-slot running mean and sample count. */
  datatype Means = Means(q: seq<real>, n: seq<nat>)

  datatype Delta = Delta(nDelta: seq<nat>, costSumDelta: seq<real>)

  predicate Sized(m: Means) { |m.q| == |m.n| }

  predicate Fits(m: Means, d: Delta) { |d.nDelta| == |d.costSumDelta| == |m.q| == |m.n| }

  // ── what a batch of samples adds up to ─────────────────────────────────

  function SampleCount(samples: seq<Sample>, slot: int): nat {
    if samples == [] then 0
    else SampleCount(samples[..|samples| - 1], slot) + if samples[|samples| - 1].slot == slot then 1 else 0
  }

  function CostSum(samples: seq<Sample>, slot: int): real {
    if samples == [] then 0.0
    else
      var last := samples[|samples| - 1];
      CostSum(samples[..|samples| - 1], slot) + if last.slot == slot then last.cost else 0.0
  }

  /** The cost sum a mean of `n` samples stands for. */
  function Total(q: real, n: nat): real { q * n as real }

  /** `after` is `before` with the samples averaged in: per slot the count grows
      by the samples, mean times count by their costs, and a slot without
      samples keeps its value. */
  ghost predicate Absorbs(before: Means, samples: seq<Sample>, after: Means) {
    && Sized(before) && |after.q| == |after.n| == |before.q|
    && forall i :: 0 <= i < |before.q| ==> AbsorbsAt(before, samples, after, i)
  }

  ghost predicate AbsorbsAt(before: Means, samples: seq<Sample>, after: Means, i: nat)
    requires i < |before.q| == |before.n| == |after.q| == |after.n|
  {
    && after.n[i] == before.n[i] + SampleCount(samples, i)
    && Total(after.q[i], after.n[i]) == Total(before.q[i], before.n[i]) + CostSum(samples, i)
    && (SampleCount(samples, i) == 0 ==> after.q[i] == before.q[i])
  }

  /** The costs the samples report for one slot, in order. */
  function CostsOf(samples: seq<Sample>, slot: int): seq<real> {
    if samples == [] then []
    else (if samples[0].slot == slot then [samples[0].cost] else []) + CostsOf(samples[1..], slot)
  }

  function SumOf(costs: seq<real>): real { if costs == [] then 0.0 else costs[0] + SumOf(costs[1..]) }

  /** Slot `i` has seen these costs more: its mean is again the mean of all it has seen. */
  predicate AveragesIn(q: real, n: nat, costs: seq<real>, q': real, n': nat) {
    && n' == n + |costs|
    && q' * n' as real == q * n as real + SumOf(costs)
    && (costs == [] ==> q' == q)
  }

  lemma {:induction false} SumOfConcat(a: seq<real>, b: seq<real>)
    ensures SumOf(a + b) == SumOf(a) + SumOf(b)
  {
    if a == [] {
      assert a + b == b;
    } else {
      assert (a + b)[1..] == a[1..] + b;
      SumOfConcat(a[1..], b);
    }
  }

  lemma {:induction false} CostsOfConcat(a: seq<Sample>, b: seq<Sample>, slot: int)
    ensures CostsOf(a + b, slot) == CostsOf(a, slot) + CostsOf(b, slot)
  {
    if a == [] {
      assert a + b == b;
    } else {
      CostsOfConcat(a[1..], b, slot);
      var first := if a[0].slot == slot then [a[0].cost] else [];
      assert (a + b)[0] == a[0] && (a + b)[1..] == a[1..] + b;
      assert first + (CostsOf(a[1..], slot) + CostsOf(b, slot)) == (first + CostsOf(a[1..], slot)) + CostsOf(b, slot);
    }
  }

  /** Count and sum are those of the slot's costs. */
  lemma {:induction false} CostsAddUp(samples: seq<Sample>, slot: int)
    ensures SampleCount(samples, slot) == |CostsOf(samples, slot)|
    ensures CostSum(samples, slot) == SumOf(CostsOf(samples, slot))
  {
    if samples != [] {
      var front, last := samples[..|samples| - 1], samples[|samples| - 1];
      assert samples == front + [last];
      CostsAddUp(front, slot);
      CostsOfConcat(front, [last], slot);
      SumOfConcat(CostsOf(front, slot), CostsOf([last], slot));
    }
  }

  lemma AbsorbsAverages(before: Means, samples: seq<Sample>, after: Means)
    requires Absorbs(before, samples, after)
    ensures forall i :: 0 <= i < |before.q| ==>
              AveragesIn(before.q[i], before.n[i], CostsOf(samples, i), after.q[i], after.n[i])
  {
    hide CostSum, SampleCount, CostsOf, SumOf;
    forall i | 0 <= i < |before.q|
      ensures AveragesIn(before.q[i], before.n[i], CostsOf(samples, i), after.q[i], after.n[i])
    {
      CostsAddUp(samples, i);
      assert AbsorbsAt(before, samples, after, i);
    }
  }

  /** A mean is determined by its count and sum wherever there are samples. */
  lemma MeanUnique(a: real, b: real, n: nat)
    requires n > 0 && Total(a, n) == Total(b, n)
    ensures a == b
  {
    var x := n as real;
    assert (a - b) * x == 0.0;
  }

  lemma NoSamplesNoCost(samples: seq<Sample>, slot: int)
    requires SampleCount(samples, slot) == 0
    ensures CostSum(samples, slot) == 0.0
  {
  }

  /** Absorbing is a function of the samples: two results of the same batch on
      the same state are the same state. */
  lemma AbsorbsUnique(before: Means, samples: seq<Sample>, a: Means, b: Means)
    requires Absorbs(before, samples, a) && Absorbs(before, samples, b)
    ensures a == b
  {
    forall i | 0 <= i < |before.q| ensures a.n[i] == b.n[i] && a.q[i] == b.q[i] {
      assert AbsorbsAt(before, samples, a, i) && AbsorbsAt(before, samples, b, i);
      if SampleCount(samples, i) > 0 {
        MeanUnique(a.q[i], b.q[i], a.n[i]);
      }
    }
    assert a.q == b.q && a.n == b.n;
  }

  /** Incremental mean update. */
  function Observe(m: Means, s: Sample): Means
    requires Sized(m)
  {
    if 0 <= s.slot < |m.n| then
      var n := m.n[s.slot] + 1;
      Means(m.q[s.slot := m.q[s.slot] + (s.cost - m.q[s.slot]) / n as real], m.n[s.slot := n])
    else m
  }

  lemma RunningMean(q: real, n: nat, cost: real)
    ensures Total(q + (cost - q) / (n + 1) as real, n + 1) == Total(q, n) + cost
  {
    var m := (n + 1) as real;
    assert m == n as real + 1.0 && m != 0.0;
    assert ((cost - q) / m) * m == cost - q;
    assert (q + (cost - q) / m) * m == q * m + ((cost - q) / m) * m;
    assert q * m == q * n as real + q;
  }

  lemma ObserveAbsorbs(before: Means, samples: seq<Sample>, m: Means, s: Sample)
    requires Absorbs(before, samples, m)
    ensures Absorbs(before, samples + [s], Observe(m, s))
  {
    var more, after := samples + [s], Observe(m, s);
    assert more[..|samples|] == samples;
    forall i | 0 <= i < |before.q| ensures AbsorbsAt(before, more, after, i) {
      assert AbsorbsAt(before, samples, m, i);
      if i == s.slot {
        RunningMean(m.q[i], m.n[i], s.cost);
      }
    }
  }

  // ── serialized: learning in place ──────────────────────────────────────

  /** The bandit's persistent state. */
  class OnlineBanditState {
    var q: seq<real>
    var n: seq<nat>

    function View(): Means
      reads this
    {
      Means(q, n)
    }

    constructor (totalSlots: nat, initialQ: real)
      ensures |q| == |n| == totalSlots
      ensures forall i :: 0 <= i < totalSlots ==> q[i] == initialQ && n[i] == 0
    {
      q := seq(totalSlots, _ => initialQ);
      n := seq(totalSlots, _ => 0);
    }

    /** The serialized batch: each sample moves its slot's mean at once. */
    method LearnInPlace(samples: seq<Sample>)
      requires Sized(View())
      modifies this
      ensures Absorbs(old(View()), samples, View())
      ensures |q| == |n| == |old(q)|
      ensures forall i :: 0 <= i < |q| ==> AveragesIn(old(q)[i], old(n)[i], CostsOf(samples, i), q[i], n[i])
    {
      hide AveragesIn;
      for i := 0 to |samples|
        invariant Absorbs(old(View()), samples[..i], View())
      {
        ObserveAbsorbs(old(View()), samples[..i], View(), samples[i]);
        assert samples[..i + 1] == samples[..i] + [samples[i]];
        var idx := samples[i].slot;
        if 0 <= idx < |n| {
          n := n[idx := n[idx] + 1];
          q := q[idx := q[idx] + (samples[i].cost - q[idx]) / n[idx] as real];
        }
      }
      assert samples[..|samples|] == samples;
      AbsorbsAverages(old(View()), samples, View());
    }

    /** The merge backend's batch: learns on working copies and returns the net effect. */
    method DeltaOf(samples: seq<Sample>) returns (d: Delta)
      requires Sized(View())
      ensures Fits(View(), d)
      ensures forall i :: 0 <= i < |n| ==> d.nDelta[i] == SampleCount(samples, i)
      ensures forall i :: 0 <= i < |n| ==> d.costSumDelta[i] == CostSum(samples, i)
      ensures forall i :: 0 <= i < |n| ==>
                d.nDelta[i] == |CostsOf(samples, i)| && d.costSumDelta[i] == SumOf(CostsOf(samples, i))
    {
      hide CostsOf, SumOf, AveragesIn;
      var work := new OnlineBanditState(0, 0.0);
      work.q, work.n := q, n;
      work.LearnInPlace(samples);
      var q', n' := work.q, work.n;
      var nDelta := seq(|n|, _ => 0);
      var costSumDelta := seq(|q|, _ => 0.0);
      for i := 0 to |n|
        invariant Absorbs(View(), samples, Means(q', n'))
        invariant |nDelta| == |costSumDelta| == |n|
        invariant forall j :: 0 <= j < i ==> nDelta[j] == SampleCount(samples, j) && costSumDelta[j] == CostSum(samples, j)
        invariant forall j :: i <= j < |n| ==> nDelta[j] == 0 && costSumDelta[j] == 0.0
      {
        assert AbsorbsAt(View(), samples, Means(q', n'), i);
        var dn := n'[i] - n[i];
        if dn > 0 {
          nDelta := nDelta[i := dn];
          costSumDelta := costSumDelta[i := q'[i] * n'[i] as real - q[i] * n[i] as real];
        } else {
          NoSamplesNoCost(samples, i);
        }
      }
      d := Delta(nDelta, costSumDelta);
      forall i | 0 <= i < |n| ensures d.nDelta[i] == |CostsOf(samples, i)| && d.costSumDelta[i] == SumOf(CostsOf(samples, i)) {
        CostsAddUp(samples, i);
      }
    }

    /** Merges a delta computed from any earlier snapshot into the present state. */
    method MergeDelta(d: Delta)
      requires Fits(View(), d)
      modifies this
      ensures View() == Merge(old(View()), d)
      ensures |q| == |n| == |old(q)|
      ensures forall i :: 0 <= i < |q| ==>
                && n[i] == old(n)[i] + d.nDelta[i]
                && if d.nDelta[i] == 0 then q[i] == old(q)[i]
                   else q[i] * n[i] as real == old(q)[i] * old(n)[i] as real + d.costSumDelta[i]
    {
      hide CombinedMean;
      ghost var was := View();
      for i := 0 to |q|
        invariant |q| == |n| == |was.q|
        invariant forall j :: 0 <= j < i ==> q[j] == Merge(was, d).q[j] && n[j] == Merge(was, d).n[j]
        invariant forall j :: i <= j < |q| ==> q[j] == was.q[j] && n[j] == was.n[j]
      {
        var dn := d.nDelta[i];
        CombinedMeanKeeps(q[i], n[i], d.costSumDelta[i]);
        if dn != 0 {
          q := q[i := CombinedMean(q[i], n[i], d.costSumDelta[i], dn)];
          n := n[i := n[i] + dn];
        }
      }
      assert q == Merge(was, d).q && n == Merge(was, d).n;
      forall i | 0 <= i < |q|
        ensures d.nDelta[i] == 0 ==> q[i] == was.q[i]
        ensures d.nDelta[i] != 0 ==> q[i] * n[i] as real == was.q[i] * was.n[i] as real + d.costSumDelta[i]
      {
        if d.nDelta[i] == 0 {
          CombinedMeanKeeps(was.q[i], was.n[i], d.costSumDelta[i]);
        } else {
          CombinedMeanSums(was.q[i], was.n[i], d.costSumDelta[i], d.nDelta[i]);
        }
      }
    }
  }

  // ── merging deltas ─────────────────────────────────────────────────────

  /** Mean of `n` samples averaging `q` and `dn` more that sum to `costSum`. */
  function CombinedMean(q: real, n: nat, costSum: real, dn: nat): real {
    if dn == 0 then q else (q * n as real + costSum) / (n + dn) as real
  }

  lemma CombinedMeanKeeps(q: real, n: nat, costSum: real)
    ensures CombinedMean(q, n, costSum, 0) == q
  {
  }

  lemma CombinedMeanSums(q: real, n: nat, costSum: real, dn: nat)
    requires dn > 0
    ensures CombinedMean(q, n, costSum, dn) * (n + dn) as real == q * n as real + costSum
  {
    var sum, count := q * n as real + costSum, (n + dn) as real;
    assert count != 0.0 && (sum / count) * count == sum;
  }

  function Merge(m: Means, d: Delta): (after: Means)
    requires Fits(m, d)
    ensures Fits(after, d)
  {
    Means(seq(|m.q|, i requires 0 <= i < |m.q| => CombinedMean(m.q[i], m.n[i], d.costSumDelta[i], d.nDelta[i])),
          seq(|m.n|, i requires 0 <= i < |m.n| => m.n[i] + d.nDelta[i]))
  }

  /** The delta of a batch; it does not depend on the snapshot it was learned from. */
  function DeltaFor(samples: seq<Sample>, slots: nat): Delta {
    Delta(seq(slots, i => SampleCount(samples, i)), seq(slots, i => CostSum(samples, i)))
  }

  /** Merging a batch's delta has the effect of learning the batch in place,
      whatever has been merged since the batch's snapshot. */
  lemma MergeAbsorbs(m: Means, samples: seq<Sample>)
    requires Sized(m)
    ensures Absorbs(m, samples, Merge(m, DeltaFor(samples, |m.q|)))
  {
    var d := DeltaFor(samples, |m.q|);
    var after := Merge(m, d);
    forall i | 0 <= i < |m.q| ensures AbsorbsAt(m, samples, after, i) {
      if d.nDelta[i] == 0 {
        NoSamplesNoCost(samples, i);
      } else {
        var sum, n := m.q[i] * m.n[i] as real + d.costSumDelta[i], (m.n[i] + d.nDelta[i]) as real;
        assert n != 0.0 && (sum / n) * n == sum;
      }
    }
  }

  /** Solving, then merging the returned delta, on an unchanged state equals the
      serialized in-place update exactly. */
  method SolveThenMerge(merge: OnlineBanditState, serial: OnlineBanditState, samples: seq<Sample>)
    requires merge != serial && merge.View() == serial.View() && Sized(serial.View())
    modifies merge, serial
    ensures merge.View() == serial.View()
    ensures Absorbs(old(serial.View()), samples, serial.View())
  {
    ghost var was := merge.View();
    var d := merge.DeltaOf(samples);
    assert d.nDelta == DeltaFor(samples, |was.q|).nDelta;
    assert d.costSumDelta == DeltaFor(samples, |was.q|).costSumDelta;
    merge.MergeDelta(d);
    serial.LearnInPlace(samples);
    MergeAbsorbs(was, samples);
    AbsorbsUnique(was, samples, merge.View(), serial.View());
  }

  // ── any number of workers, any order ───────────────────────────────────

  /** State after merging the deltas of several batches one after the other. */
  function MergeAll(m: Means, batches: seq<seq<Sample>>): (after: Means)
    requires Sized(m)
    ensures Sized(after) && |after.q| == |m.q|
  {
    if batches == [] then m
    else
      var before := MergeAll(m, batches[..|batches| - 1]);
      Merge(before, DeltaFor(batches[|batches| - 1], |m.q|))
  }

  function Flatten(batches: seq<seq<Sample>>): seq<Sample> {
    if batches == [] then [] else Flatten(batches[..|batches| - 1]) + batches[|batches| - 1]
  }

  lemma {:induction false} CountConcat(a: seq<Sample>, b: seq<Sample>, slot: int)
    ensures SampleCount(a + b, slot) == SampleCount(a, slot) + SampleCount(b, slot)
    ensures CostSum(a + b, slot) == CostSum(a, slot) + CostSum(b, slot)
  {
    if b == [] {
      assert a + b == a;
    } else {
      assert (a + b)[..|a + b| - 1] == a + b[..|b| - 1];
      CountConcat(a, b[..|b| - 1], slot);
    }
  }

  lemma AbsorbsConcat(a: Means, s1: seq<Sample>, b: Means, s2: seq<Sample>, c: Means)
    requires Absorbs(a, s1, b) && Absorbs(b, s2, c)
    ensures Absorbs(a, s1 + s2, c)
  {
    forall i | 0 <= i < |a.q| ensures AbsorbsAt(a, s1 + s2, c, i) {
      assert AbsorbsAt(a, s1, b, i) && AbsorbsAt(b, s2, c, i);
      CountConcat(s1, s2, i);
    }
  }

  /** After any merges n counts every sample of every batch and q times n sums their costs. */
  lemma {:induction false} MergeAllAbsorbs(m: Means, batches: seq<seq<Sample>>)
    requires Sized(m)
    ensures Absorbs(m, Flatten(batches), MergeAll(m, batches))
  {
    if batches != [] {
      var front, last := batches[..|batches| - 1], batches[|batches| - 1];
      MergeAllAbsorbs(m, front);
      MergeAbsorbs(MergeAll(m, front), last);
      AbsorbsConcat(m, Flatten(front), MergeAll(m, front), last, MergeAll(m, batches));
    }
  }

  /** The last of `a` occurs in any permutation of it, and what is left are permutations again. */
  lemma DropFromBoth<T>(a: seq<T>, b: seq<T>) returns (k: nat)
    requires multiset(a) == multiset(b) && a != []
    ensures k < |b| && b[k] == a[|a| - 1]
    ensures multiset(a[..|a| - 1]) == multiset(b[..k] + b[k + 1..])
  {
    var front, last := a[..|a| - 1], a[|a| - 1];
    assert a == front + [last];
    assert last in multiset(b);
    k :| 0 <= k < |b| && b[k] == last;
    var rest := b[..k] + b[k + 1..];
    assert b == b[..k] + [last] + b[k + 1..];
    assert multiset(rest) == multiset(b) - multiset{last};
    assert multiset(front) == multiset(a) - multiset{last};
  }

  lemma {:induction false} TotalsOfPermutation(a: seq<seq<Sample>>, b: seq<seq<Sample>>, slot: int)
    requires multiset(a) == multiset(b)
    ensures SampleCount(Flatten(a), slot) == SampleCount(Flatten(b), slot)
    ensures CostSum(Flatten(a), slot) == CostSum(Flatten(b), slot)
    decreases |a|
  {
    hide SampleCount, CostSum;
    assert |a| == |multiset(a)| == |multiset(b)| == |b|;
    if a != [] {
      var front, last := a[..|a| - 1], a[|a| - 1];
      var k := DropFromBoth(a, b);
      TotalsOfPermutation(front, b[..k] + b[k + 1..], slot);
      FlattenWithout(b, k, slot);
      CountConcat(Flatten(front), last, slot);
    }
  }

  lemma {:induction false} FlattenWithout(b: seq<seq<Sample>>, k: nat, slot: int)
    requires k < |b|
    ensures SampleCount(Flatten(b), slot) == SampleCount(Flatten(b[..k] + b[k + 1..]), slot) + SampleCount(b[k], slot)
    ensures CostSum(Flatten(b), slot) == CostSum(Flatten(b[..k] + b[k + 1..]), slot) + CostSum(b[k], slot)
  {
    var front, last := b[..|b| - 1], b[|b| - 1];
    CountConcat(Flatten(front), last, slot);
    if k == |b| - 1 {
      assert b[..k] + b[k + 1..] == front;
    } else {
      FlattenWithout(front, k, slot);
      var rest, restFront := b[..k] + b[k + 1..], front[..k] + front[k + 1..];
      assert rest[..|rest| - 1] == restFront && rest[|rest| - 1] == last;
      CountConcat(Flatten(restFront), last, slot);
    }
  }

  /** Merge order is irrelevant: any permutation of the same batches gives the
      same means and counts, and that of one worker learning everything in turn. */
  lemma MergeOrderIrrelevant(m: Means, a: seq<seq<Sample>>, b: seq<seq<Sample>>)
    requires Sized(m) && multiset(a) == multiset(b)
    ensures MergeAll(m, a) == MergeAll(m, b)
  {
    MergeAllAbsorbs(m, a);
    MergeAllAbsorbs(m, b);
    forall i | 0 <= i < |m.q| ensures AbsorbsAt(m, Flatten(a), MergeAll(m, b), i) {
      assert AbsorbsAt(m, Flatten(b), MergeAll(m, b), i);
      TotalsOfPermutation(a, b, i);
    }
    AbsorbsUnique(m, Flatten(a), MergeAll(m, a), MergeAll(m, b));
  }
}
