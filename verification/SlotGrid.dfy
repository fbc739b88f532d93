/** The provider's slot grid and its manual clock, which an advance moves by
    exactly one slot. Instants and lengths are whole microseconds. */
module SlotGrid {
  import opened Options

  // ── slot arithmetic ────────────────────────────────────────────────────

  /** Quotient rounded toward zero, as an integer cast of a ratio does. */
  function Truncated(n: int, d: int): int
    requires d > 0
  {
    if n >= 0 then n / d else -((-n) / d)
  }

  function SlotOf(instant: int, slotLength: int, epoch: int): int
    requires slotLength > 0
  {
    Truncated(instant - epoch, slotLength)
  }

  function SlotStart(slot: int, slotLength: int, epoch: int): int { epoch + slotLength * slot }

  function FloorToSlot(instant: int, slotLength: int, epoch: int): int
    requires slotLength > 0
  {
    SlotStart((instant - epoch) / slotLength, slotLength, epoch)
  }

  /** The floor of an instant is the last multiple of the slot length, counted from
      the epoch, that is not after it. */
  lemma FloorIsOnGrid(instant: int, slotLength: int, epoch: int)
    requires slotLength > 0
    ensures FloorToSlot(instant, slotLength, epoch) <= instant < FloorToSlot(instant, slotLength, epoch) + slotLength
    ensures (FloorToSlot(instant, slotLength, epoch) - epoch) % slotLength == 0
  {
    var q := (instant - epoch) / slotLength;
    assert instant - epoch == slotLength * q + (instant - epoch) % slotLength;
    ExactQuotient(q, slotLength);
    assert slotLength * q == slotLength * (slotLength * q / slotLength) + (slotLength * q) % slotLength;
  }

  lemma MulMonotone(d: int, a: int, b: int)
    requires d > 0
    ensures a <= b ==> d * a <= d * b
  {
  }

  lemma ExactQuotient(slot: int, d: int)
    requires d > 0
    ensures d * slot / d == slot
  {
    var q, r := d * slot / d, (d * slot) % d;
    assert d * slot == d * q + r;
    MulMonotone(d, q + 1, slot);
    MulMonotone(d, slot, q - 1);
    Spread(d, q);
  }

  lemma Spread(d: int, q: int)
    ensures d * (q + 1) == d * q + d && d * (q - 1) == d * q - d
  {
  }

  /** On the grid the slot number and the slot's start are inverse, before the
      epoch too. */
  lemma SlotOfStart(slot: int, slotLength: int, epoch: int)
    requires slotLength > 0
    ensures SlotOf(SlotStart(slot, slotLength, epoch), slotLength, epoch) == slot
  {
    ExactQuotient(slot, slotLength);
    ExactQuotient(-slot, slotLength);
    assert slotLength * -slot == -(slotLength * slot);
  }

  /** The slot number is the floor the documentation promises exactly from the
      epoch on and on the grid; elsewhere it is one too high. */
  lemma SlotOfIsFloorIff(instant: int, slotLength: int, epoch: int)
    requires slotLength > 0
    ensures SlotStart(SlotOf(instant, slotLength, epoch), slotLength, epoch) == FloorToSlot(instant, slotLength, epoch)
       <==> (instant >= epoch || (instant - epoch) % slotLength == 0)
  {
    var n := instant - epoch;
    var q, r := n / slotLength, n % slotLength;
    assert n == slotLength * q + r;
    if n < 0 {
      var q', r' := (-n) / slotLength, (-n) % slotLength;
      assert -n == slotLength * q' + r';
      assert slotLength * (q + q') == -(r + r');
      if r == 0 {
        ExactQuotient(-q, slotLength);
        assert slotLength * -q == -n;
      } else {
        assert q + q' == -1 by { Between(slotLength, q + q', r + r'); }
        assert slotLength * (q + 1) == slotLength * q + slotLength;
      }
    }
  }

  lemma Between(d: int, k: int, r: int)
    requires d > 0 && 0 < r < 2 * d && d * k == -r
    ensures k == -1
  {
    MulMonotone(d, 0, k);
    MulMonotone(d, k, -2);
  }

  // ── the clock ──────────────────────────────────────────────────────────

  datatype Tick = Tick(globalSlot: int, localStep: nat, startedAt: int, previousSlot: int)

  class ProviderClock {
    const manual: bool
    const slotLength: int
    const epoch: int
    var frozenNow: int
    var localStep: nat

    ghost predicate OnGrid()
      reads this
    {
      slotLength > 0 && SlotStart(CurrentSlot(), slotLength, epoch) == frozenNow
    }

    /** The slot of the frozen instant; only a manual clock is asked. */
    function CurrentSlot(): int
      requires slotLength > 0
      reads this
    {
      SlotOf(frozenNow, slotLength, epoch)
    }

    constructor (manual: bool, slotLength: int, epoch: int, startAt: int)
      requires slotLength > 0
      ensures this.manual == manual && this.slotLength == slotLength && this.epoch == epoch
      ensures OnGrid() && localStep == 0 && frozenNow == FloorToSlot(startAt, slotLength, epoch)
      ensures CurrentSlot() == (startAt - epoch) / slotLength
      ensures frozenNow <= startAt < frozenNow + slotLength && (frozenNow - epoch) % slotLength == 0
    {
      this.manual, this.slotLength, this.epoch := manual, slotLength, epoch;
      frozenNow := FloorToSlot(startAt, slotLength, epoch);
      localStep := 0;
      SlotOfStart((startAt - epoch) / slotLength, slotLength, epoch);
      FloorIsOnGrid(startAt, slotLength, epoch);
    }

    /** Refused unless the clock is manual. */
    method Advance() returns (r: Option<Tick>)
      requires OnGrid()
      modifies this
      ensures !manual ==> r == None && unchanged(this)
      ensures manual ==>
        && OnGrid() && CurrentSlot() == old(CurrentSlot()) + 1 && localStep == old(localStep) + 1
        && r == Some(Tick(CurrentSlot(), localStep, frozenNow, old(CurrentSlot())))
        && frozenNow == old(frozenNow) + slotLength
    {
      if !manual {
        return None;
      }
      var previous := CurrentSlot();
      SlotOfStart(previous + 1, slotLength, epoch);
      Spread(slotLength, previous);
      frozenNow := frozenNow + slotLength;
      localStep := localStep + 1;
      r := Some(Tick(CurrentSlot(), localStep, frozenNow, previous));
    }
  }
}
