/**
 * Frame-counter (MSC) arithmetic of the DRI2 swap and wait scheduler in
 * src/uxa/intel_dri.c: which vblank sequence a swap or a wait asks the kernel
 * for, how a pipe is addressed in the request, what GetMSC reports, and the
 * guard the flip-completion handler applies to impossible frame numbers.
 *
 * Frame counters are unbounded naturals here: the conversion between the
 * 64-bit MSC and the kernel's 32-bit sequence is taken as the identity.
 */
module Msc {
  import opened Common

  // ---------------------------------------------------------------------
  // Addressing a pipe in a vblank request (crtc_select)
  // ---------------------------------------------------------------------

  /** Bits of libdrm's vblank request type word. */
  const VblankSecondary: bv32 := 0x2000_0000
  const VblankHighCrtcShift: int := 1
  const VblankHighCrtcMask: bv32 := 0x0000_003e

  /** crtc_select: the request-type bits naming pipe `index`. */
  function CrtcSelect(index: bv32): (sel: bv32)
    requires index < 32
    ensures index > 1 ==> sel & VblankSecondary == 0
  {
    if index > 1 then index << VblankHighCrtcShift
    else if index > 0 then VblankSecondary
    else 0
  }

  /** How the kernel decodes those bits: the high-crtc field first, then the secondary flag. */
  function SelectedPipe(sel: bv32): bv32
  {
    var high := (sel & VblankHighCrtcMask) >> VblankHighCrtcShift;
    if high != 0 then high
    else if sel & VblankSecondary != 0 then 1
    else 0
  }

  /** Every pipe the 5-bit high-crtc field can name is addressed correctly. */
  lemma CrtcSelectAddressesPipe(index: bv32)
    requires index < 32
    ensures SelectedPipe(CrtcSelect(index)) == index
  {
  }

  // ---------------------------------------------------------------------
  // Target frames
  // ---------------------------------------------------------------------

  /** A target already passed is raised to the current frame counter. */
  function ClampToCurrent(current: nat, target: nat): (t: nat)
    ensures t >= current && t >= target
    ensures t == current || t == target
  {
    if current > target then current else target
  }

  /** A flip queued at the event for frame N shows at N + 1, so a flip's target moves one frame early, never below 0. */
  function FlipTarget(target: nat): (t: nat)
    ensures target > 0 ==> t + 1 == target
    ensures target == 0 ==> t == 0
  {
    if target > 0 then target - 1 else target
  }

  /**
   * The frame I830DRI2ScheduleSwap aims for once `current` is at or past the
   * target and a divisor is given: the phase of the current divisor period
   * moved to `remainder`, and one period later if that is not after `current`.
   */
  function SwapDivisorTarget(current: nat, divisor: nat, remainder: nat): nat
    requires divisor > 0
  {
    var request := current - current % divisor + remainder;
    if request <= current then request + divisor else request
  }

  /**
   * The same computation in I830DRI2ScheduleWaitMSC, which adds the period
   * when the current phase is at or past `remainder`.
   */
  function WaitDivisorTarget(current: nat, divisor: nat, remainder: nat): nat
    requires divisor > 0
  {
    var request := current - current % divisor + remainder;
    if current % divisor >= remainder then request + divisor else request
  }

  lemma MulMonotone(a: int, b: int, d: nat)
    requires a <= b
    ensures a * d <= b * d
  {
    assert b * d - a * d == (b - a) * d;
  }

  /** A later multiple of a non-negative `d` is at least one period further. */
  lemma NextMultiple(a: int, b: int, d: int)
    ensures d >= 0 && a < b ==> a * d + d <= b * d
  {
    if d >= 0 && a < b {
      MulMonotone(a + 1, b, d);
      assert (a + 1) * d == a * d + d;
    }
  }

  /** Euclidean division is unique. */
  lemma DivModUnique(n: int, d: int, q: int, r: int)
    requires d > 0 && 0 <= r < d && n == q * d + r
    ensures n / d == q && n % d == r
  {
    var q0, r0 := n / d, n % d;
    NextMultiple(q0, q, d);
    NextMultiple(q, q0, d);
  }

  /** Adding whole periods does not change the phase. */
  lemma MulPlusMod(k: nat, d: nat, r: nat)
    requires d > 0
    ensures (k * d + r) % d == r % d
  {
    var rq, rr := r / d, r % d;
    assert r == rq * d + rr;
    assert k * d + r == (k + rq) * d + rr;
    DivModUnique(k * d + r, d, k + rq, rr);
  }

  /** The swap's divisor target is `remainder` plus a whole number of periods. */
  lemma SwapDivisorTargetShape(current: nat, divisor: nat, remainder: nat) returns (k: nat)
    requires divisor > 0
    ensures SwapDivisorTarget(current, divisor, remainder) == k * divisor + remainder
    ensures remainder <= current % divisor ==> k == current / divisor + 1
    ensures remainder > current % divisor ==> k == current / divisor
  {
    var q := current / divisor;
    assert current - current % divisor == q * divisor;
    if remainder <= current % divisor {
      k := q + 1;
      assert (q + 1) * divisor == q * divisor + divisor;
    } else {
      k := q;
    }
  }

  /** No frame after `current` and before the divisor target is in phase `remainder`. */
  lemma SwapDivisorTargetIsFirst(current: nat, divisor: nat, remainder: nat, f: nat)
    requires divisor > 0 && remainder < divisor
    requires current < f < SwapDivisorTarget(current, divisor, remainder)
    ensures f % divisor != remainder
  {
    var k := SwapDivisorTargetShape(current, divisor, remainder);
    var q, m := current / divisor, current % divisor;
    assert current == q * divisor + m;
    if f % divisor == remainder {
      var qf := f / divisor;
      assert f == qf * divisor + remainder;
      if remainder <= m {
        NextMultiple(q, qf, divisor);
        MulMonotone(qf, q, divisor);
      } else {
        NextMultiple(qf, q, divisor);
        MulMonotone(q, qf, divisor);
      }
    }
  }

  /**
   * The swap's divisor target lies strictly after `current`, is congruent to
   * `remainder` modulo `divisor`, and no earlier frame after `current` is.
   */
  lemma {:induction false} SwapDivisorTargetIsNextMatch(current: nat, divisor: nat, remainder: nat)
    requires divisor > 0
    ensures SwapDivisorTarget(current, divisor, remainder) > current
    ensures SwapDivisorTarget(current, divisor, remainder) % divisor == remainder % divisor
    ensures remainder < divisor ==>
      forall f: nat :: current < f < SwapDivisorTarget(current, divisor, remainder) ==> f % divisor != remainder
  {
    var k := SwapDivisorTargetShape(current, divisor, remainder);
    MulPlusMod(k, divisor, remainder);
    if remainder < divisor {
      forall f: nat | current < f < SwapDivisorTarget(current, divisor, remainder)
        ensures f % divisor != remainder
      {
        SwapDivisorTargetIsFirst(current, divisor, remainder, f);
      }
    }
  }

  /** The wait's test on the phase is the swap's test on the request: both compute the same frame. */
  lemma WaitAgreesWithSwap(current: nat, divisor: nat, remainder: nat)
    requires divisor > 0
    ensures WaitDivisorTarget(current, divisor, remainder) == SwapDivisorTarget(current, divisor, remainder)
  {
  }

  /** The wait's divisor target is strictly after `current` and matches `remainder`. */
  lemma WaitDivisorTargetIsNextMatch(current: nat, divisor: nat, remainder: nat)
    requires divisor > 0
    ensures WaitDivisorTarget(current, divisor, remainder) > current
    ensures WaitDivisorTarget(current, divisor, remainder) % divisor == remainder % divisor
  {
    WaitAgreesWithSwap(current, divisor, remainder);
    SwapDivisorTargetIsNextMatch(current, divisor, remainder);
  }

  // ---------------------------------------------------------------------
  // The vblank request of a swap and of a wait
  // ---------------------------------------------------------------------

  /** An absolute vblank request: the sequence asked for and whether the kernel may move it to the next vblank when missed. */
  datatype VblankRequest = VblankRequest(sequence: nat, nextOnMiss: bool)

  /** 1 for a page flip, 0 for a blit or exchange. */
  function FlipDelay(flip: bool): nat { if flip then 1 else 0 }

  /**
   * The request I830DRI2ScheduleSwap arms once it knows the current frame,
   * the caller's target, divisor and remainder, and whether a flip is
   * possible. A flip moves the target one frame early; without a divisor, or
   * with a target still ahead, the (clamped) target is asked for; otherwise
   * the divisor target, one frame early for a flip.
   */
  function SwapRequest(current: nat, target: nat, divisor: nat, remainder: nat, flip: bool): VblankRequest
  {
    var t := if flip then FlipTarget(target) else target;
    if divisor == 0 || current < t then VblankRequest(ClampToCurrent(current, t), !flip)
    else VblankRequest(SwapDivisorTarget(current, divisor, remainder) - FlipDelay(flip), !flip)
  }

  /**
   * What a swap request promises: it never asks for a frame before
   * `current`; a blit or exchange asks for NEXTONMISS and a flip does not;
   * on the divisor path the frame the swap becomes visible on
   * (the request plus the flip delay) lies after `current` and matches
   * `remainder`; otherwise it is the (flip-adjusted) target or `current`.
   */
  lemma SwapRequestSchedulesFutureFrame(current: nat, target: nat, divisor: nat, remainder: nat, flip: bool)
    ensures SwapRequest(current, target, divisor, remainder, flip).sequence >= current
    ensures SwapRequest(current, target, divisor, remainder, flip).nextOnMiss == !flip
    ensures divisor > 0 && current >= (if flip then FlipTarget(target) else target) ==>
      var shown := SwapRequest(current, target, divisor, remainder, flip).sequence + FlipDelay(flip);
      shown > current && shown % divisor == remainder % divisor
    ensures divisor == 0 || current < (if flip then FlipTarget(target) else target) ==>
      SwapRequest(current, target, divisor, remainder, flip).sequence ==
        if current > (if flip then FlipTarget(target) else target) then current
        else (if flip then FlipTarget(target) else target)
  {
    if divisor > 0 {
      SwapDivisorTargetIsNextMatch(current, divisor, remainder);
    }
  }

  /** The sequence I830DRI2ScheduleWaitMSC asks for. */
  function WaitRequest(current: nat, target: nat, divisor: nat, remainder: nat): nat
  {
    if divisor == 0 || current < target then ClampToCurrent(current, target)
    else WaitDivisorTarget(current, divisor, remainder)
  }

  /** A wait is never armed for a frame before `current`, and on the divisor path it is after `current` and matches `remainder`. */
  lemma WaitRequestSchedulesFutureFrame(current: nat, target: nat, divisor: nat, remainder: nat)
    ensures WaitRequest(current, target, divisor, remainder) >= current
    ensures divisor == 0 || current < target ==>
      WaitRequest(current, target, divisor, remainder) == if current >= target then current else target
    ensures divisor > 0 && current >= target ==>
      WaitRequest(current, target, divisor, remainder) > current &&
      WaitRequest(current, target, divisor, remainder) % divisor == remainder % divisor
  {
    if divisor > 0 {
      WaitDivisorTargetIsNextMatch(current, divisor, remainder);
    }
  }

  // ---------------------------------------------------------------------
  // Counter readings
  // ---------------------------------------------------------------------

  /** A frame-counter reading: the unadjusted system time in microseconds and the frame counter. */
  datatype Counter = Counter(ust: nat, msc: nat)

  /**
   * I830DRI2GetMSC: the pipe's reading when the drawable is shown on a pipe
   * and the reading succeeds; otherwise the monotonic clock `now` and frame 0.
   */
  function GetMsc(displayed: bool, reading: Option<Counter>, now: nat): (c: Counter)
    ensures c.msc == 0 || (displayed && reading.Some?)
    ensures !(displayed && reading.Some?) ==> c == Counter(now, 0)
    ensures displayed && reading.Some? ==> c == reading.value
  {
    if !displayed then Counter(now, 0)
    else match reading
      case None => Counter(now, 0)
      case Some(r) => r
  }

  // ---------------------------------------------------------------------
  // Flip completion timestamps
  // ---------------------------------------------------------------------

  /** A completion report: frame, seconds and microseconds. */
  datatype Stamp = Stamp(frame: nat, sec: nat, usec: nat)

  /** How far behind its target a flip completion may report before it is taken as a defective timestamp. */
  const ImpossibleMscWindow: nat := 5

  /**
   * I830DRI2FlipEventHandler's guard: a completion reporting a frame fewer
   * than five counts before the flip's target is replaced by the all-zero
   * report that signals a timestamping failure; any other report passes
   * unchanged. So a flip never reports a frame just short of its target.
   */
  function FlipCompletionStamp(reported: Stamp, target: nat): (s: Stamp)
    ensures s == reported || s == Stamp(0, 0, 0)
    ensures s == Stamp(0, 0, 0) || s.frame >= target || s.frame + ImpossibleMscWindow <= target
    ensures target - ImpossibleMscWindow < reported.frame < target ==> s == Stamp(0, 0, 0)
    ensures reported.frame >= target || reported.frame + ImpossibleMscWindow <= target ==> s == reported
  {
    if reported.frame < target && target - reported.frame < ImpossibleMscWindow then Stamp(0, 0, 0)
    else reported
  }
}
