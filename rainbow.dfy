// The rainbow colour wheel: the pure arithmetic behind RainbowColorStrategy.

module Rainbow {
  import opened Colors

  /**
   * Position on the 256-step wheel of `pixel` on pass `callCount`:
   * the pixel scaled to the rainbow length, shifted by the pass count,
   * reduced modulo 256 (`& 255` on a non-negative integer).
   */
  function Position(pixel: nat, callCount: nat, rainbowLength: int): (pos: int)
    requires rainbowLength > 0
    ensures 0 <= pos < 256
  {
    (pixel * 256 / rainbowLength + callCount) % 256
  }

  /**
   * The colour at wheel position `pos`: red rises while green falls,
   * then blue rises while red falls, then green rises while blue falls.
   */
  function Wheel(pos: int): (c: Color)
    requires 0 <= pos < 256
    ensures c.r + c.g + c.b == 255
    ensures c.r == 0 || c.g == 0 || c.b == 0
  {
    if pos < 85 then
      Color(pos * 3, 255 - pos * 3, 0)
    else if pos < 170 then
      var p := pos - 85;
      Color(255 - p * 3, 0, p * 3)
    else
      var p := pos - 170;
      Color(0, p * 3, 255 - p * 3)
  }

  /** `pick_color`: the wheel colour of `pixel` on pass `callCount`. */
  function PickColor(pixel: nat, callCount: nat, rainbowLength: int): (c: Color)
    requires rainbowLength > 0
    ensures c.r + c.g + c.b == 255
    ensures c.r == 0 || c.g == 0 || c.b == 0
  {
    Wheel(Position(pixel, callCount, rainbowLength))
  }

  /** Reads a wheel position back from a wheel colour. */
  function WheelPosition(c: Color): int
  {
    if c.b == 0 then c.r / 3
    else if c.g == 0 then 85 + c.b / 3
    else 170 + c.g / 3
  }

  /** Positions 0..254 are told apart by their colours: WheelPosition undoes Wheel. */
  lemma WheelRoundTrip(pos: int)
    requires 0 <= pos < 255
    ensures WheelPosition(Wheel(pos)) == pos
  {
    if pos < 85 {
      assert Wheel(pos).r == 3 * pos;
    } else if pos < 170 {
      assert Wheel(pos).b == 3 * (pos - 85);
    } else {
      assert Wheel(pos).g == 3 * (pos - 170);
    }
  }

  /** The wheel closes on itself: the last position repeats the colour of the first. */
  lemma WheelWrapsAt255()
    ensures Wheel(255) == Wheel(0) == Color(0, 255, 0)
  {
  }

  /** Adjacent positions differ by at most 3 in every channel (a continuous hue ramp). */
  lemma WheelContinuous(pos: int)
    requires 0 <= pos < 255
    ensures -3 <= Wheel(pos + 1).r - Wheel(pos).r <= 3
    ensures -3 <= Wheel(pos + 1).g - Wheel(pos).g <= 3
    ensures -3 <= Wheel(pos + 1).b - Wheel(pos).b <= 3
  {
  }

  /** One more pass moves every pixel one step further round the wheel. */
  lemma PositionShifts(pixel: nat, callCount: nat, rainbowLength: int)
    requires rainbowLength > 0
    ensures Position(pixel, callCount + 1, rainbowLength)
         == (Position(pixel, callCount, rainbowLength) + 1) % 256
  {
  }

  /** Worked values: a 60-pixel rainbow on pass 0. */
  lemma PickColorExamples()
    ensures PickColor(0, 0, 60) == Color(0, 255, 0)
    ensures PickColor(30, 0, 60) == Color(126, 0, 129)
  {
    assert Position(30, 0, 60) == 128;
  }

  /**
   * `call_count` after one `get_color(pixel)`: it advances when `pixel` is 0,
   * and a count that has reached 255 is reset to 0.
   */
  function NextCallCount(callCount: int, pixel: nat): (next: int)
    requires 0 <= callCount < 255
    ensures 0 <= next < 255
    ensures next == if pixel == 0 then (callCount + 1) % 255 else callCount
  {
    var advanced := if pixel == 0 then callCount + 1 else callCount;
    if advanced == 255 then 0 else advanced
  }

  /** `call_count` after `k` calls `get_color(0)`, starting from `callCount`. */
  function CallCountAfter(callCount: int, k: nat): (c: int)
    requires 0 <= callCount < 255
    ensures 0 <= c < 255
  {
    if k == 0 then callCount else NextCallCount(CallCountAfter(callCount, k - 1), 0)
  }

  /** The successor modulo 255. */
  lemma ModSucc(a: nat)
    ensures (a + 1) % 255 == if a % 255 == 254 then 0 else a % 255 + 1
  {
    var q, r := a / 255, a % 255;
    assert a == 255 * q + r;
    if r == 254 {
      assert a + 1 == 255 * (q + 1);
    } else {
      assert a + 1 == 255 * q + (r + 1);
    }
  }

  /** Advancing a reduced count is advancing the unreduced one. */
  lemma AdvanceReduced(a: nat)
    ensures (a % 255 + 1) % 255 == (a + 1) % 255
  {
    ModSucc(a);
    ModSucc(a % 255);
  }

  /** Pixel-0 calls count modulo 255. */
  lemma {:induction false} CallCountAfterIsModular(callCount: int, k: nat)
    requires 0 <= callCount < 255
    ensures CallCountAfter(callCount, k) == (callCount + k) % 255
  {
    if k > 0 {
      var x := CallCountAfter(callCount, k - 1);
      CallCountAfterIsModular(callCount, k - 1);
      assert CallCountAfter(callCount, k) == if x == 254 then 0 else x + 1;
      ModSucc(callCount + k - 1);
    }
  }

  /** The counter is back at its start after exactly 255 passes, and not before. */
  lemma CallCountPeriod(callCount: int, k: nat)
    requires 0 <= callCount < 255
    ensures CallCountAfter(callCount, 255) == callCount
    ensures 0 < k < 255 ==> CallCountAfter(callCount, k) != callCount
  {
    CallCountAfterIsModular(callCount, 255);
    CallCountAfterIsModular(callCount, k);
  }
}
