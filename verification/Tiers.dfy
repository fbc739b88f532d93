/** The capacity-tier ladder: the first-match multiplier lookup that prices
    every request by its position in a slot, and the validator that decides
    which ladders an administrator may install. */
module Tiers {
  import opened Options

  /** `maxRequests` is an inclusive bound on 1-indexed positions; `None` is the overflow tier. */
  datatype CapacityTier = CapacityTier(maxRequests: Option<int>, multiplier: real)

  predicate Covers(tier: CapacityTier, count: int) {
    tier.maxRequests.None? || count <= tier.maxRequests.value
  }

  /** The first tier covering `count` wins; failing that the last tier, and 1.0 for no tier at all. */
  function Multiplier(tiers: seq<CapacityTier>, count: int): real {
    if tiers == [] then 1.0
    else if Covers(tiers[0], count) || |tiers| == 1 then tiers[0].multiplier
    else Multiplier(tiers[1..], count)
  }

  lemma {:induction false} MultiplierIsFirstCover(tiers: seq<CapacityTier>, count: int, i: nat)
    requires i < |tiers| && (tiers[i].maxRequests == None || count <= tiers[i].maxRequests.value)
    requires forall j :: 0 <= j < i ==> tiers[j].maxRequests != None && tiers[j].maxRequests.value < count
    ensures Multiplier(tiers, count) == tiers[i].multiplier
  {
    if i > 0 {
      MultiplierIsFirstCover(tiers[1..], count, i - 1);
    }
  }

  lemma {:induction false} MultiplierWithoutCover(tiers: seq<CapacityTier>, count: int)
    requires forall j :: 0 <= j < |tiers| ==> tiers[j].maxRequests != None && tiers[j].maxRequests.value < count
    ensures Multiplier(tiers, count) == if tiers == [] then 1.0 else tiers[|tiers| - 1].multiplier
  {
    if |tiers| > 1 {
      MultiplierWithoutCover(tiers[1..], count);
    }
  }

  // ── what the admin endpoint accepts ────────────────────────────────────

  /** Baseline 1.0 first, multipliers never decreasing, positive strictly
      increasing finite bounds, and exactly the last tier unbounded. */
  ghost predicate ValidLadder(tiers: seq<CapacityTier>) {
    && tiers != []
    && tiers[0].multiplier == 1.0
    && (forall i, j :: 0 <= i < j < |tiers| ==> tiers[i].multiplier <= tiers[j].multiplier)
    && (forall i :: 0 <= i < |tiers| ==> (tiers[i].maxRequests.None? <==> i == |tiers| - 1))
    && (forall i :: 0 <= i < |tiers| - 1 ==> tiers[i].maxRequests.value > 0)
    && (forall i, j :: 0 <= i < j < |tiers| - 1 ==> tiers[i].maxRequests.value < tiers[j].maxRequests.value)
  }

  datatype LadderError =
    | EmptyLadder | NonPositiveMultiplier | FirstNotBaseline | DecreasingMultiplier
    | NonPositiveBound | LastNotOverflow | BoundsNotIncreasing | EarlyOverflow

  /** Tier `i` has the defect the error names. */
  predicate Defect(tiers: seq<CapacityTier>, i: nat, error: LadderError)
    requires i < |tiers|
  {
    var tier, last := tiers[i], |tiers| - 1;
    match error
    case EmptyLadder => false
    case NonPositiveMultiplier => tier.multiplier <= 0.0
    case FirstNotBaseline => i == 0 && tier.multiplier != 1.0
    case DecreasingMultiplier => i > 0 && tier.multiplier < tiers[i - 1].multiplier
    case NonPositiveBound => tier.maxRequests.Some? && tier.maxRequests.value <= 0
    case LastNotOverflow => i == last && tier.maxRequests.Some?
    case BoundsNotIncreasing =>
      0 < i < last && tier.maxRequests.Some? && tiers[i - 1].maxRequests.Some?
      && tier.maxRequests.value <= tiers[i - 1].maxRequests.value
    case EarlyOverflow => i < last && tier.maxRequests.None?
  }

  ghost predicate Clean(tiers: seq<CapacityTier>, i: nat)
    requires i < |tiers|
  {
    forall e :: !Defect(tiers, i, e)
  }

  /** The tier-by-tier comparisons, spelled out. */
  lemma CleanMeans(tiers: seq<CapacityTier>, i: nat)
    requires i < |tiers|
    ensures var tier := tiers[i];
            Clean(tiers, i) <==>
              && tier.multiplier > 0.0 && (i == 0 ==> tier.multiplier == 1.0)
              && (i > 0 ==> tiers[i - 1].multiplier <= tier.multiplier)
              && (tier.maxRequests.None? <==> i == |tiers| - 1)
              && (tier.maxRequests.Some? ==> tier.maxRequests.value > 0)
              && (0 < i < |tiers| - 1 && tiers[i - 1].maxRequests.Some? ==>
                    tiers[i - 1].maxRequests.value < tier.maxRequests.value)
  {
    assert Clean(tiers, i) ==>
      && !Defect(tiers, i, NonPositiveMultiplier) && !Defect(tiers, i, FirstNotBaseline)
      && !Defect(tiers, i, DecreasingMultiplier) && !Defect(tiers, i, NonPositiveBound)
      && !Defect(tiers, i, LastNotOverflow) && !Defect(tiers, i, BoundsNotIncreasing)
      && !Defect(tiers, i, EarlyOverflow);
  }

  lemma {:induction false} CleanRises(tiers: seq<CapacityTier>, i: nat, j: nat)
    requires i < j < |tiers| && forall k: nat :: k < |tiers| ==> Clean(tiers, k)
    ensures tiers[i].multiplier <= tiers[j].multiplier
    ensures tiers[i].maxRequests.Some? && (j < |tiers| - 1 ==>
              tiers[j].maxRequests.Some? && tiers[i].maxRequests.value < tiers[j].maxRequests.value)
    decreases j
  {
    hide Clean;
    CleanMeans(tiers, i);
    CleanMeans(tiers, j - 1);
    CleanMeans(tiers, j);
    if i < j - 1 {
      CleanRises(tiers, i, j - 1);
    }
  }

  /** Comparing each tier with its predecessor is enough for the whole ladder. */
  lemma CleanLaddersAreValid(tiers: seq<CapacityTier>)
    ensures tiers != [] && (forall i: nat :: i < |tiers| ==> Clean(tiers, i)) <==> ValidLadder(tiers)
  {
    hide Clean;
    if tiers != [] && forall i: nat :: i < |tiers| ==> Clean(tiers, i) {
      CleanMeans(tiers, 0);
      forall i: nat, j: nat | i < j < |tiers|
        ensures tiers[i].multiplier <= tiers[j].multiplier
        ensures tiers[i].maxRequests.Some? && (j < |tiers| - 1 ==>
                  tiers[j].maxRequests.Some? && tiers[i].maxRequests.value < tiers[j].maxRequests.value)
      {
        CleanRises(tiers, i, j);
      }
      forall i: nat | i < |tiers|
        ensures tiers[i].maxRequests.None? <==> i == |tiers| - 1
        ensures tiers[i].maxRequests.Some? ==> tiers[i].maxRequests.value > 0
      {
        CleanMeans(tiers, i);
      }
    }
    if ValidLadder(tiers) {
      forall i: nat | i < |tiers| ensures Clean(tiers, i) {
        CleanMeans(tiers, i);
        assert i > 0 ==> tiers[0].multiplier <= tiers[i].multiplier;
      }
    }
  }

  /** Accepts exactly the valid ladders, comparing each tier only with the one
      before it; otherwise it names a defect of the first defective tier. */
  method ValidateLadder(tiers: seq<CapacityTier>) returns (error: Option<LadderError>)
    ensures error.None? <==> ValidLadder(tiers)
    ensures error == Some(EmptyLadder) <==> tiers == []
    ensures error.Some? && tiers != [] ==>
              exists i: nat :: i < |tiers| && Defect(tiers, i, error.value) && forall j: nat :: j < i ==> Clean(tiers, j)
  {
    hide ValidLadder, Clean;
    CleanLaddersAreValid(tiers);
    if tiers == [] {
      return Some(EmptyLadder);
    }
    var lastIndex := |tiers| - 1;
    var previousMax: Option<int> := None;
    var previousMultiplier: Option<real> := None;
    for index := 0 to |tiers|
      invariant previousMultiplier == if index == 0 then None else Some(tiers[index - 1].multiplier)
      invariant index <= lastIndex ==> previousMax == if index == 0 then None else tiers[index - 1].maxRequests
      invariant forall j: nat :: j < index ==> Clean(tiers, j)
    {
      CleanMeans(tiers, index);
      var tier := tiers[index];
      if tier.multiplier <= 0.0 {
        assert Defect(tiers, index, NonPositiveMultiplier);
        return Some(NonPositiveMultiplier);
      }
      if index == 0 && tier.multiplier != 1.0 {
        assert Defect(tiers, index, FirstNotBaseline);
        return Some(FirstNotBaseline);
      }
      if previousMultiplier.Some? && tier.multiplier < previousMultiplier.value {
        assert Defect(tiers, index, DecreasingMultiplier);
        return Some(DecreasingMultiplier);
      }
      previousMultiplier := Some(tier.multiplier);
      match tier.maxRequests {
        case Some(bound) =>
          if bound <= 0 {
            assert Defect(tiers, index, NonPositiveBound);
            return Some(NonPositiveBound);
          }
          if index == lastIndex {
            assert Defect(tiers, index, LastNotOverflow);
            return Some(LastNotOverflow);
          }
          if previousMax.Some? && bound <= previousMax.value {
            assert Defect(tiers, index, BoundsNotIncreasing);
            return Some(BoundsNotIncreasing);
          }
          previousMax := Some(bound);
        case None =>
          if index != lastIndex {
            assert Defect(tiers, index, EarlyOverflow);
            return Some(EarlyOverflow);
          }
      }
    }
    return None;
  }

  /** A tail of a valid ladder minus its baseline clause; enough for monotonicity. */
  ghost predicate Rising(tiers: seq<CapacityTier>) {
    && tiers != []
    && forall i, j :: 0 <= i < j < |tiers| ==> tiers[i].multiplier <= tiers[j].multiplier
  }

  lemma {:induction false} RisingMonotone(tiers: seq<CapacityTier>, p: int, q: int)
    requires Rising(tiers) && p <= q
    ensures tiers[0].multiplier <= Multiplier(tiers, p) <= Multiplier(tiers, q)
  {
    if |tiers| > 1 {
      RisingMonotone(tiers[1..], p, q);
    }
  }

  /** Filling a slot further never makes the next position cheaper, and no position is below baseline. */
  lemma LadderMonotone(tiers: seq<CapacityTier>, p: int, q: int)
    requires ValidLadder(tiers) && p <= q
    ensures 1.0 <= Multiplier(tiers, p) <= Multiplier(tiers, q)
  {
    RisingMonotone(tiers, p, q);
  }
}
