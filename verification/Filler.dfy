/** Filling a loop volume to just below the reclaim threshold, in bounded, aligned steps. */
module Filler {
  import opened Common

  const MIB := 1024 * 1024
  const MAX_FILLER := 256 * MIB
  const CHUNK := 16 * MIB
  const MAX_STEPS := 64
  const MIN_GUARD := 2 * MIB

  datatype Band = Band(start: int, emergency: int, unit: int) {
    /** Free space that must remain above the emergency threshold. */
    function Guard(): int {
      if MIN_GUARD > unit * 2 then MIN_GUARD else unit * 2
    }

    function Target(): int
      requires unit > 0
    {
      (start - 1) / unit * unit
    }
  }

  function Min(a: int, b: int): int {
    if a < b then a else b
  }

  /** `_filler_allocation_increment`; None is its refusal. */
  function Increment(b: Band, free: int, filler: int): Option<int> {
    if free < 0 || b.start < 0 || b.emergency < 0 || b.unit < 0 || filler < 0 then None
    else if !(b.emergency < b.start <= free) || b.unit <= 0 || filler > MAX_FILLER then None
    else if b.Target() <= b.emergency + b.Guard() then None
    else
      var wanted := Min(Min(free - b.Target(), MAX_FILLER - filler), CHUNK);
      var increment := wanted - wanted % b.unit;
      if increment <= 0 || free - increment <= b.emergency + b.Guard() then None else Some(increment)
  }

  /** `_validate_filler_allocation_observation` accepts what was observed. */
  predicate Plausible(b: Band, before: int, after: int, increment: int) {
    && 0 < before - after <= increment + b.unit
    && after > b.emergency + b.Guard()
  }

  predicate Aligned(x: int, unit: int)
    requires unit > 0
  {
    x % unit == 0
  }

  lemma MultipleIsAligned(q: int, unit: int)
    requires unit > 0
    ensures Aligned(q * unit, unit)
  {
    var x := q * unit;
    assert x == x / unit * unit + x % unit;
    var d := q - x / unit;
    assert x % unit == d * unit;
    AwayFromZero(d, unit);
  }

  lemma AwayFromZero(d: int, unit: int)
    requires unit > 0
    ensures d * unit >= unit || d * unit <= -unit || d == 0
  {
    if d >= 1 {
      assert d * unit >= unit;
    } else if d <= -1 {
      assert d * unit <= -unit;
    }
  }

  lemma AlignedDifference(x: int, y: int, unit: int)
    requires unit > 0 && Aligned(x, unit) && Aligned(y, unit)
    ensures Aligned(x - y, unit) && Aligned(x + y, unit)
  {
    assert x - y == (x / unit - y / unit) * unit;
    assert x + y == (x / unit + y / unit) * unit;
    MultipleIsAligned(x / unit - y / unit, unit);
    MultipleIsAligned(x / unit + y / unit, unit);
  }

  lemma MonotoneMultiples(q: int, t: int, unit: int)
    requires unit > 0
    ensures q <= t ==> q * unit <= t * unit
    ensures q > t ==> q * unit >= t * unit + unit
  {
    assert (q - t) * unit == q * unit - t * unit;
    if q > t {
      AtLeastOnce(q - t, unit);
    } else {
      AtLeastOnce(t - q + 1, unit);
      assert (t - q + 1) * unit == t * unit - q * unit + unit;
    }
  }

  lemma AtLeastOnce(d: int, unit: int)
    requires unit > 0 && d >= 1
    ensures d * unit >= unit
  {
  }

  /** The target is the largest aligned value below the threshold. */
  lemma TargetIsLargestAligned(b: Band, x: int)
    requires b.unit > 0 && Aligned(x, b.unit) && x < b.start
    ensures Aligned(b.Target(), b.unit) && x <= b.Target() < b.start
  {
    MultipleIsAligned((b.start - 1) / b.unit, b.unit);
    MonotoneMultiples(x / b.unit, (b.start - 1) / b.unit, b.unit);
    assert x / b.unit * b.unit == x;
  }

  function CeilDiv(x: int, y: int): int
    requires y > 0
  {
    (x + y - 1) / y
  }

  /** The volume is filled with whole allocation units, of which a chunk holds a whole number. */
  predicate WholeUnits(b: Band, free: int, filler: int) {
    && b.unit > 0 && b.start >= 0 && b.emergency >= 0 && 0 <= filler <= MAX_FILLER && free >= 0
    && Aligned(free, b.unit) && Aligned(filler, b.unit) && Aligned(CHUNK, b.unit)
  }

  /** The threshold band leaves room for the guard, and the budgets of bytes and steps suffice. */
  predicate Feasible(b: Band, free: int, filler: int, steps: int)
    requires b.unit > 0
  {
    && b.emergency < b.start
    && b.Target() > b.emergency + b.Guard()
    && free - b.Target() <= MAX_FILLER - filler
    && steps + CeilDiv(free - b.Target(), CHUNK) <= MAX_STEPS
  }

  lemma IncrementIs(b: Band, free: int, filler: int)
    requires WholeUnits(b, free, filler) && b.start <= free
    ensures b.emergency < b.start && b.Target() > b.emergency + b.Guard() && filler < MAX_FILLER <==>
            Increment(b, free, filler).Some?
    ensures Increment(b, free, filler).Some? ==>
              var i := Increment(b, free, filler).value;
              i == Min(Min(free - b.Target(), MAX_FILLER - filler), CHUNK) && Aligned(i, b.unit)
  {
    MultipleIsAligned((b.start - 1) / b.unit, b.unit);
    AlignedDifference(free, b.Target(), b.unit);
    assert MAX_FILLER == 16 * CHUNK;
    AlignedDifference(16 * CHUNK, filler, b.unit) by {
      assert 16 * CHUNK == 16 * (CHUNK / b.unit) * b.unit;
      MultipleIsAligned(16 * (CHUNK / b.unit), b.unit);
    }
    assert b.Target() < b.start;
  }

  /** Where a fill with exact drops stands after `k` allocations. */
  ghost predicate OnTrack(b: Band, free0: int, filler0: int, k: nat, free: int, filler: int) {
    && WholeUnits(b, free, filler)
    && free + filler == free0 + filler0
    && b.Target() < b.start <= free0
    && (k > 0 ==> b.emergency < b.start && b.Target() > b.emergency + b.Guard() && free >= b.Target())
    && (if free > b.Target() then free0 - free == k * CHUNK
        else free == b.Target() && k == CeilDiv(free0 - free, CHUNK))
  }

  lemma StartsOnTrack(b: Band, free: int, filler: int)
    requires WholeUnits(b, free, filler) && b.start <= free
    ensures OnTrack(b, free, filler, 0, free, filler)
  {
  }

  lemma StaysOnTrack(b: Band, free0: int, filler0: int, k: nat, free: int, filler: int)
    requires OnTrack(b, free0, filler0, k, free, filler) && b.start <= free
    requires Increment(b, free, filler).Some? && free0 - b.Target() <= MAX_FILLER - filler0
    ensures var i := Increment(b, free, filler).value;
            OnTrack(b, free0, filler0, k + 1, free - i, filler + i) && Plausible(b, free, free - i, i)
  {
    IncrementIs(b, free, filler);
    var i := Increment(b, free, filler).value;
    AlignedDifference(free, i, b.unit);
    AlignedDifference(filler, i, b.unit);
  }

  lemma WholeUnitsKept(b: Band, free: int, filler: int)
    requires WholeUnits(b, free, filler) && b.start <= free && Increment(b, free, filler).Some?
    ensures var i := Increment(b, free, filler).value; WholeUnits(b, free - i, filler + i)
  {
    IncrementIs(b, free, filler);
    var i := Increment(b, free, filler).value;
    AlignedDifference(free, i, b.unit);
    AlignedDifference(filler, i, b.unit);
  }

  /** What is known about a fill with exact drops, whether or not it is feasible. */
  ghost predicate FillInv(b: Band, free0: int, filler0: int, k: nat, free: int, filler: int) {
    && WholeUnits(b, free, filler)
    && free + filler == free0 + filler0
    && b.start <= free0
    && (free0 - b.Target() <= MAX_FILLER - filler0 ==> OnTrack(b, free0, filler0, k, free, filler))
  }

  lemma FillInvStep(b: Band, free0: int, filler0: int, k: nat, free: int, filler: int)
    requires FillInv(b, free0, filler0, k, free, filler) && b.start <= free && Increment(b, free, filler).Some?
    ensures var i := Increment(b, free, filler).value;
            && FillInv(b, free0, filler0, k + 1, free - i, filler + i)
            && Plausible(b, free, free - i, i)
  {
    IncrementIs(b, free, filler);
    WholeUnitsKept(b, free, filler);
    if free0 - b.Target() <= MAX_FILLER - filler0 {
      StaysOnTrack(b, free0, filler0, k, free, filler);
    }
  }

  /** A fill stops below the threshold only where a feasible one should. */
  lemma FillInvEnd(b: Band, free0: int, filler0: int, steps0: int, k: nat, free: int, filler: int)
    requires FillInv(b, free0, filler0, k, free, filler) && free < b.start && steps0 + k <= MAX_STEPS
    ensures Feasible(b, free0, filler0, steps0) && free == b.Target() && k == CeilDiv(free0 - b.Target(), CHUNK)
  {
    TargetIsLargestAligned(b, free);
  }

  lemma FillInvRefused(b: Band, free0: int, filler0: int, steps0: int, k: nat, free: int, filler: int)
    requires FillInv(b, free0, filler0, k, free, filler) && b.start <= free
    requires steps0 + k >= MAX_STEPS || Increment(b, free, filler).None?
    ensures !Feasible(b, free0, filler0, steps0)
  {
    IncrementIs(b, free, filler);
  }

  datatype FillEnd = FillEnd(ok: bool, free: int, filler: int, steps: int)

  /** Where a fill that has made `k` allocations ends, for whatever drops are observed. */
  function FillFrom(b: Band, free: int, filler: int, steps: int, noise: nat -> int, k: nat): FillEnd
    decreases MAX_STEPS - steps
  {
    if free < b.start then FillEnd(true, free, filler, steps)
    else if steps >= MAX_STEPS then FillEnd(false, free, filler, steps)
    else
      var increment := Increment(b, free, filler);
      if increment.None? then FillEnd(false, free, filler, steps)
      else
        var after := free - increment.value - noise(k);
        if !Plausible(b, free, after, increment.value) then FillEnd(false, after, filler + increment.value, steps + 1)
        else FillFrom(b, after, filler + increment.value, steps + 1, noise, k + 1)
  }

  /**
    Whatever is observed, a fill that is not refused ends below the threshold and above the guard, within its
    budgets.
   */
  lemma {:induction false} FillIsSafe(b: Band, free: int, filler: int, steps: int, noise: nat -> int, k: nat)
    requires b.unit > 0 && b.start <= free
    ensures var e := FillFrom(b, free, filler, steps, noise, k);
            e.ok ==> b.emergency + b.Guard() < e.free < b.start && e.filler <= MAX_FILLER && e.steps <= MAX_STEPS
    decreases MAX_STEPS - steps
  {
    var i := Increment(b, free, filler);
    if steps < MAX_STEPS && i.Some? {
      var after := free - i.value - noise(k);
      if Plausible(b, free, after, i.value) && b.start <= after {
        FillIsSafe(b, after, filler + i.value, steps + 1, noise, k + 1);
      }
    }
  }

  ghost predicate Exact(noise: nat -> int) {
    forall k: nat :: noise(k) == 0
  }

  /** A fill is where it should be after `k` exact drops, so it ends where it should. */
  lemma {:induction false} FillStaysOnTrack(b: Band, free0: int, filler0: int, steps0: int, noise: nat -> int,
                                            k: nat, free: int, filler: int)
    requires Exact(noise) && FillInv(b, free0, filler0, k, free, filler) && steps0 + k <= MAX_STEPS
    ensures var e := FillFrom(b, free, filler, steps0 + k, noise, k);
            && (e.ok <==> Feasible(b, free0, filler0, steps0))
            && (e.ok ==> e == OnTarget(b, free0, filler0, steps0))
    decreases MAX_STEPS - (steps0 + k)
  {
    if free < b.start {
      FillInvEnd(b, free0, filler0, steps0, k, free, filler);
    } else if steps0 + k >= MAX_STEPS || Increment(b, free, filler).None? {
      FillInvRefused(b, free0, filler0, steps0, k, free, filler);
    } else {
      var i := Increment(b, free, filler).value;
      FillInvStep(b, free0, filler0, k, free, filler);
      FillStaysOnTrack(b, free0, filler0, steps0, noise, k + 1, free - i, filler + i);
    }
  }

  function OnTarget(b: Band, free: int, filler: int, steps: int): FillEnd
    requires b.unit > 0
  {
    FillEnd(true, b.Target(), filler + free - b.Target(), steps + CeilDiv(free - b.Target(), CHUNK))
  }

  /**
    If every drop is exact, a fill is refused exactly if it is not feasible, and otherwise it hits the target, in as
    many steps as whole chunks cover the distance.
   */
  lemma {:induction false} ExactFillHitsTheTarget(b: Band, free: int, filler: int, steps: int, noise: nat -> int)
    requires Exact(noise) && WholeUnits(b, free, filler) && b.start <= free
    ensures var e := FillFrom(b, free, filler, steps, noise, 0);
            && (e.ok <==> Feasible(b, free, filler, steps))
            && (e.ok ==> e == OnTarget(b, free, filler, steps))
  {
    StartsOnTrack(b, free, filler);
    if steps > MAX_STEPS {
      FillInvRefused(b, free, filler, steps, 0, free, filler);
    } else {
      FillStaysOnTrack(b, free, filler, steps, noise, 0, free, filler);
    }
  }

  /**
    One fill.  After each allocation the observed free space has dropped by the requested increment and `noise(k)`
    bytes more.
   */
  method Fill(b: Band, free0: int, filler0: int, steps0: int, noise: nat -> int)
    returns (ok: bool, free: int, filler: int, steps: int)
    ensures FillEnd(ok, free, filler, steps) == FillFrom(b, free0, filler0, steps0, noise, 0)
  {
    free, filler, steps := free0, filler0, steps0;
    var k: nat := 0;
    while free >= b.start
      invariant FillFrom(b, free0, filler0, steps0, noise, 0) == FillFrom(b, free, filler, steps, noise, k)
      decreases MAX_STEPS - steps
    {
      if steps >= MAX_STEPS {
        return false, free, filler, steps;
      }
      var increment := Increment(b, free, filler);
      if increment.None? {
        return false, free, filler, steps;
      }
      var before := free;
      filler := filler + increment.value;
      steps := steps + 1;
      free := before - increment.value - noise(k);
      k := k + 1;
      if !Plausible(b, before, free, increment.value) {
        return false, free, filler, steps;
      }
    }
    ok := true;
  }

  lemma {:induction false} CeilDivSum(first: nat, second: nat, third: nat)
    requires first + second + third <= MAX_FILLER
    ensures CeilDiv(first, CHUNK) + CeilDiv(second, CHUNK) + CeilDiv(third, CHUNK) <= 18
    ensures CeilDiv(first, CHUNK) <= 16
  {
  }

  /** The band leaves room for a fill, whose target is `t`. */
  predicate HasRoom(b: Band, t: int) {
    b.unit > 0 && b.emergency < b.start && t == b.Target() && t > b.emergency + b.Guard()
  }

  lemma {:induction false} TargetIsBelow(b: Band, t: int)
    requires HasRoom(b, t)
    ensures Aligned(t, b.unit) && t < b.start
  {
    MultipleIsAligned((b.start - 1) / b.unit, b.unit);
  }

  /** One of several exact fills that share the budgets, with `done` bytes allocated in `steps` steps before it. */
  lemma {:induction false} NextFill(b: Band, t: int, free: int, done: int, steps: int, noise: nat -> int)
    requires Exact(noise) && WholeUnits(b, free, done) && b.start <= free && HasRoom(b, t)
    requires done + (free - t) <= MAX_FILLER && steps + CeilDiv(free - t, CHUNK) <= MAX_STEPS
    ensures FillFrom(b, free, done, steps, noise, 0) ==
              FillEnd(true, t, done + (free - t), steps + CeilDiv(free - t, CHUNK))
  {
    ExactFillHitsTheTarget(b, free, done, steps, noise);
  }

  /** After a fill the file still ends on a whole unit. */
  lemma {:induction false} StillWhole(b: Band, t: int, free: int, done: int, next: int)
    requires WholeUnits(b, free, done) && HasRoom(b, t) && b.start <= free && done + (free - t) <= MAX_FILLER
    requires Aligned(next, b.unit) && b.start <= next
    ensures WholeUnits(b, next, done + (free - t)) && free > t
  {
    TargetIsBelow(b, t);
    AlignedDifference(free, t, b.unit);
    AlignedDifference(free - t, done, b.unit);
  }

  /** Three fills may begin at these sizes of free space, and the bytes suffice for all of them. */
  predicate ThreeCycles(b: Band, t: int, free1: int, free2: int, free3: int) {
    && HasRoom(b, t) && WholeUnits(b, free1, 0)
    && Aligned(free2, b.unit) && Aligned(free3, b.unit)
    && b.start <= free1 && b.start <= free2 && b.start <= free3
    && (free1 - t) + (free2 - t) + (free3 - t) <= MAX_FILLER
  }

  lemma {:induction false} StepsSuffice(b: Band, t: int, free1: int, free2: int, free3: int)
    requires ThreeCycles(b, t, free1, free2, free3)
    ensures free1 > t && free2 > t && free3 > t
    ensures CeilDiv(free1 - t, CHUNK) + CeilDiv(free2 - t, CHUNK) + CeilDiv(free3 - t, CHUNK) <= 18
    ensures CeilDiv(free1 - t, CHUNK) <= 16
  {
    TargetIsBelow(b, t);
    CeilDivSum(free1 - t, free2 - t, free3 - t);
  }

  lemma {:induction false} FirstEnd(b: Band, t: int, free1: int, free2: int, free3: int, noise: nat -> int)
    returns (e: FillEnd)
    requires Exact(noise) && ThreeCycles(b, t, free1, free2, free3)
    ensures e == FillEnd(true, t, free1 - t, CeilDiv(free1 - t, CHUNK))
    ensures e == FillFrom(b, free1, 0, 0, noise, 0)
  {
    StepsSuffice(b, t, free1, free2, free3);
    NextFill(b, t, free1, 0, 0, noise);
    e := FillFrom(b, free1, 0, 0, noise, 0);
  }

  lemma {:induction false} SecondEnd(b: Band, t: int, free1: int, free2: int, free3: int, noise: nat -> int,
          e1: FillEnd)
    returns (e: FillEnd)
    requires Exact(noise) && ThreeCycles(b, t, free1, free2, free3)
    requires e1 == FillEnd(true, t, free1 - t, CeilDiv(free1 - t, CHUNK))
    ensures e == FillEnd(true, t, e1.filler + (free2 - t), e1.steps + CeilDiv(free2 - t, CHUNK))
    ensures e == FillFrom(b, free2, e1.filler, e1.steps, noise, 0)
  {
    StepsSuffice(b, t, free1, free2, free3);
    StillWhole(b, t, free1, 0, free2);
    NextFill(b, t, free2, e1.filler, e1.steps, noise);
    e := FillFrom(b, free2, e1.filler, e1.steps, noise, 0);
  }

  lemma {:induction false} ThirdEnd(b: Band, t: int, free1: int, free2: int, free3: int, noise: nat -> int,
          e1: FillEnd, e2: FillEnd)
    returns (e: FillEnd)
    requires Exact(noise) && ThreeCycles(b, t, free1, free2, free3)
    requires e1 == FillEnd(true, t, free1 - t, CeilDiv(free1 - t, CHUNK))
    requires e2 == FillEnd(true, t, e1.filler + (free2 - t), e1.steps + CeilDiv(free2 - t, CHUNK))
    ensures e == FillEnd(true, t, e2.filler + (free3 - t), e2.steps + CeilDiv(free3 - t, CHUNK))
    ensures e == FillFrom(b, free3, e2.filler, e2.steps, noise, 0)
  {
    StepsSuffice(b, t, free1, free2, free3);
    StillWhole(b, t, free1, 0, free2);
    StillWhole(b, t, free2, e1.filler, free3);
    NextFill(b, t, free3, e2.filler, e2.steps, noise);
    e := FillFrom(b, free3, e2.filler, e2.steps, noise, 0);
  }

  /**
    The three cycles of one check fill the volume from wherever reclaiming has brought it, into one growing file: if
    drops are exact and the bytes suffice, all three hit the target, and they need at most 18 of the 64 steps.
   */
  lemma {:induction false} ThreeFillsNeedFewSteps(b: Band, t: int, free1: int, free2: int, free3: int,
          noise: nat -> int)
    returns (e1: FillEnd, e2: FillEnd, e3: FillEnd)
    requires Exact(noise) && ThreeCycles(b, t, free1, free2, free3)
    ensures e1 == FillFrom(b, free1, 0, 0, noise, 0)
    ensures e2 == FillFrom(b, free2, e1.filler, e1.steps, noise, 0)
    ensures e3 == FillFrom(b, free3, e2.filler, e2.steps, noise, 0)
    ensures e1.ok && e2.ok && e3.ok && e1.free == e2.free == e3.free == t
    ensures e1.steps <= 16 && e3.steps <= 18
  {
    e1 := FirstEnd(b, t, free1, free2, free3, noise);
    e2 := SecondEnd(b, t, free1, free2, free3, noise, e1);
    e3 := ThirdEnd(b, t, free1, free2, free3, noise, e1, e2);
    StepsSuffice(b, t, free1, free2, free3);
  }
}
