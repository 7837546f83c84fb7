// Brightness clamping and the pulse animation's brightness ramp.

module Pulse {
  import opened Colors

  /** `set_brightness`: values above the ceiling become the ceiling; nothing is raised. */
  function Clamp(brightness: int): (applied: int)
    ensures applied <= LedBrightness
    ensures brightness <= LedBrightness ==> applied == brightness
    ensures brightness > LedBrightness ==> applied == LedBrightness
  {
    if brightness > LedBrightness then LedBrightness else brightness
  }

  /** Clamping twice is clamping once. */
  lemma ClampIdempotent(brightness: int)
    ensures Clamp(Clamp(brightness)) == Clamp(brightness)
  {
  }

  /** The locals of the pulse loop. */
  datatype PulseState = PulseState(brightness: int, goingUp: bool)

  const PulseStart := PulseState(0, true)

  /** Whether a pulse step in state `p` re-renders the strip (the `elif brightness <= 0` branch). */
  predicate Renders(p: PulseState)
  {
    !(p.brightness >= LedBrightness) && p.brightness <= 0
  }

  /**
   * One pass of the pulse loop body on its locals. A step keeps the
   * brightness on the ramp: a non-negative multiple of the step size, at most
   * one step short of passing the ceiling.
   */
  function PulseNext(p: PulseState, stepSize: int): (q: PulseState)
    ensures stepSize > 0 && OnRamp(p.brightness, stepSize) ==> OnRamp(q.brightness, stepSize)
  {
    var up :=
      if p.brightness >= LedBrightness then false
      else if p.brightness <= 0 then true
      else p.goingUp;
    RampMove(p.brightness, stepSize, up);
    PulseState(p.brightness + (if up then stepSize else -stepSize), up)
  }

  /** The locals after `k` steps of the pulse loop. */
  function PulseAfter(stepSize: int, k: nat): PulseState
  {
    if k == 0 then PulseStart else PulseNext(PulseAfter(stepSize, k - 1), stepSize)
  }

  /** The ramp stays on the grid of `stepSize` and within one step of the ceiling. */
  ghost predicate OnRamp(b: int, stepSize: int)
    requires stepSize > 0
  {
    b % stepSize == 0 && 0 <= b <= LedBrightness + stepSize - 1
  }

  /** A multiple of a positive `s` strictly between -s and s is 0. */
  lemma MulSmall(s: int, d: int)
    requires s > 0 && -s < s * d < s
    ensures d == 0
  {
  }

  /** Adding a multiple of `s` leaves the remainder modulo `s` alone. */
  lemma ModShift(x: int, s: int, m: int)
    requires s > 0
    ensures (x + m * s) % s == x % s
  {
    var q, r := x / s, x % s;
    var q', r' := (x + m * s) / s, (x + m * s) % s;
    assert x == s * q + r;
    assert x + m * s == s * q' + r';
    assert s * (q' - q - m) == r - r' by {
      assert s * (q' - q - m) == s * q' - s * q - s * m;
      assert m * s == s * m;
    }
    MulSmall(s, q' - q - m);
  }

  /**
   * Moving up from below the ceiling, or down from above 0, keeps a
   * brightness on the ramp.
   */
  lemma RampMove(b: int, stepSize: int, up: bool)
    ensures stepSize > 0 && OnRamp(b, stepSize) && (up ==> b < LedBrightness) && (!up ==> b > 0) ==>
      OnRamp(b + (if up then stepSize else -stepSize), stepSize)
  {
    if stepSize > 0 && OnRamp(b, stepSize) && (up ==> b < LedBrightness) && (!up ==> b > 0) {
      if up {
        ModShift(b, stepSize, 1);
      } else {
        assert b >= stepSize by {
          assert b == stepSize * (b / stepSize);
          if b < stepSize {
            MulSmall(stepSize, b / stepSize);
          }
        }
        ModShift(b, stepSize, -1);
      }
    }
  }

  /** Every brightness of the pulse loop is a non-negative multiple of `stepSize`, below ceiling + step. */
  lemma {:induction false} PulseAfterOnRamp(stepSize: int, k: nat)
    requires stepSize > 0
    ensures OnRamp(PulseAfter(stepSize, k).brightness, stepSize)
    ensures 0 <= Clamp(PulseAfter(stepSize, k).brightness) <= LedBrightness
  {
    if k > 0 {
      PulseAfterOnRamp(stepSize, k - 1);
    }
  }

  /** On the ramp, a step re-renders exactly when the brightness is 0. */
  lemma RendersIffDark(p: PulseState, stepSize: int)
    requires stepSize > 0 && OnRamp(p.brightness, stepSize)
    ensures Renders(p) <==> p.brightness == 0
  {
  }

  /** How many of the first `k` pulse steps re-render the strip. */
  function RenderCount(stepSize: int, k: nat): (n: nat)
    ensures n <= k
  {
    if k == 0 then 0
    else RenderCount(stepSize, k - 1) + (if Renders(PulseAfter(stepSize, k - 1)) then 1 else 0)
  }

  /** From the start the brightness climbs by `stepSize` per step until it reaches the ceiling. */
  lemma {:induction false} PulseRises(stepSize: int, k: nat)
    requires stepSize > 0 && (k - 1) * stepSize < LedBrightness
    ensures PulseAfter(stepSize, k) == PulseState(k * stepSize, true)
  {
    if k > 0 {
      assert (k - 2) * stepSize < (k - 1) * stepSize;
      PulseRises(stepSize, k - 1);
      assert (k - 1) * stepSize + stepSize == k * stepSize;
    }
  }
}
