// The three colour strategies, their abstract state, and passes over pixel indices.

module Strategies {
  import opened Colors
  import opened Rainbow

  /** The abstract state of a colour strategy, as `get_color` sees and updates it. */
  datatype StrategyState =
    | FixedState(color: Color)
    | RandomState(cached: Option<Color>)
    | RainbowState(callCount: int, rainbowLength: int)
  {
    ghost predicate Valid() {
      RainbowState? ==> 0 <= callCount < 255 && rainbowLength > 0
    }

    predicate SameKind(other: StrategyState) {
      match this
      case FixedState(c) => other == this
      case RandomState(_) => other.RandomState?
      case RainbowState(_, len) => other.RainbowState? && other.rainbowLength == len
    }
  }

  /**
   * One call `get_color(pixel)`: the colour returned and the state after it.
   * `draw` is the colour the random source would produce if it is asked for one.
   */
  function Step(s: StrategyState, pixel: nat, draw: Color): (r: (Color, StrategyState))
    requires s.Valid()
    ensures r.1.Valid() && s.SameKind(r.1)
  {
    match s
    case FixedState(c) => (c, s)
    case RandomState(cached) =>
      if cached.Some? && pixel != 0 then (cached.value, s) else (draw, RandomState(Some(draw)))
    case RainbowState(count, len) =>
      (PickColor(pixel, count, len), RainbowState(NextCallCount(count, pixel), len))
  }

  /** `get_color` called on each of `pixels` in turn: the colours returned, and the final state. */
  function Run(s: StrategyState, draw: Color, pixels: seq<nat>): (r: (seq<Color>, StrategyState))
    requires s.Valid()
    ensures |r.0| == |pixels|
    ensures r.1.Valid() && s.SameKind(r.1)
    decreases |pixels|
  {
    if pixels == [] then ([], s)
    else
      var before := Run(s, draw, pixels[..|pixels| - 1]);
      var last := Step(before.1, pixels[|pixels| - 1], draw);
      (before.0 + [last.0], last.1)
  }

  /** The indices of one full pass: 0, 1, ..., n-1. */
  function Ascending(n: nat): (ps: seq<nat>)
    ensures |ps| == n && forall i :: 0 <= i < n ==> ps[i] == i
  {
    seq(n, i requires 0 <= i => i)
  }

  /** The base indices of one theater-chase phase: 0, 3, 6, ... below n. */
  function Bases(n: nat): (ps: seq<nat>)
    ensures |ps| == (n + 2) / 3 && forall j :: 0 <= j < |ps| ==> ps[j] == 3 * j
    ensures forall j :: 0 <= j < |ps| ==> ps[j] < n
  {
    seq((n + 2) / 3, j requires 0 <= j => 3 * j)
  }

  /** Running a prefix of the pixels gives a prefix of the colours. */
  lemma {:induction false} RunPrefix(s: StrategyState, draw: Color, pixels: seq<nat>, k: nat)
    requires s.Valid() && k <= |pixels|
    ensures Run(s, draw, pixels[..k]).0 == Run(s, draw, pixels).0[..k]
    decreases |pixels|
  {
    if k < |pixels| {
      var init := pixels[..|pixels| - 1];
      assert init[..k] == pixels[..k];
      RunPrefix(s, draw, init, k);
    } else {
      assert pixels[..k] == pixels;
    }
  }

  /** Element i of a run is one Step from the state the first i elements leave. */
  lemma RunExtends(s: StrategyState, draw: Color, pixels: seq<nat>, i: nat)
    requires s.Valid() && i < |pixels|
    ensures var prev := Run(s, draw, pixels[..i]).1;
      Run(s, draw, pixels[..i + 1]).1 == Step(prev, pixels[i], draw).1 &&
      Run(s, draw, pixels).0[i] == Step(prev, pixels[i], draw).0
  {
    assert pixels[..i + 1][..i] == pixels[..i];
    RunPrefix(s, draw, pixels, i + 1);
  }

  /** A fixed strategy gives its colour to every pixel and keeps its state. */
  lemma {:induction false} RunFixed(s: StrategyState, draw: Color, pixels: seq<nat>)
    requires s.FixedState?
    ensures Run(s, draw, pixels).1 == s
    ensures forall i :: 0 <= i < |pixels| ==> Run(s, draw, pixels).0[i] == s.color
  {
    if pixels != [] {
      RunFixed(s, draw, pixels[..|pixels| - 1]);
    }
  }

  /**
   * A random strategy queried first at pixel 0 and never again draws one
   * colour there and returns that same colour for every later pixel.
   */
  lemma {:induction false} RunRandomFromZero(s: StrategyState, draw: Color, pixels: seq<nat>)
    requires s.RandomState? && ZeroFirstOnly(pixels)
    ensures Run(s, draw, pixels).1 == RandomState(Some(draw))
    ensures forall i :: 0 <= i < |pixels| ==> Run(s, draw, pixels).0[i] == draw
  {
    if |pixels| > 1 {
      var init := pixels[..|pixels| - 1];
      assert ZeroFirstOnly(init) by {
        assert forall k :: 0 < k < |init| ==> init[k] == pixels[k];
      }
      RunRandomFromZero(s, draw, init);
    }
  }

  /** A random strategy with a cached colour, never asked about pixel 0, keeps returning it. */
  lemma {:induction false} RunRandomCached(s: StrategyState, draw: Color, pixels: seq<nat>)
    requires s.RandomState? && s.cached.Some? && 0 !in pixels
    ensures Run(s, draw, pixels).1 == s
    ensures forall i :: 0 <= i < |pixels| ==> Run(s, draw, pixels).0[i] == s.cached.value
  {
    if pixels != [] {
      var init := pixels[..|pixels| - 1];
      assert forall k :: 0 <= k < |init| ==> init[k] == pixels[k];
      RunRandomCached(s, draw, init);
    }
  }

  /** How many of `pixels` are 0, i.e. how many calls advance a rainbow. */
  function Zeros(pixels: seq<nat>): (n: nat)
    ensures n <= |pixels|
  {
    if pixels == [] then 0
    else Zeros(pixels[..|pixels| - 1]) + (if pixels[|pixels| - 1] == 0 then 1 else 0)
  }

  /** A rainbow ends with its call count advanced once for every 0 queried. */
  lemma {:induction false} RunRainbowCount(s: StrategyState, draw: Color, pixels: seq<nat>)
    requires s.RainbowState? && s.Valid()
    ensures Run(s, draw, pixels).1
         == RainbowState(CallCountAfter(s.callCount, Zeros(pixels)), s.rainbowLength)
  {
    if pixels != [] {
      var n := |pixels|;
      var init := pixels[..n - 1];
      var last := pixels[n - 1];
      RunRainbowCount(s, draw, init);
      var count := CallCountAfter(s.callCount, Zeros(init));
      assert Zeros(pixels) == Zeros(init) + (if last == 0 then 1 else 0);
      if last == 0 {
        assert CallCountAfter(s.callCount, Zeros(init) + 1) == NextCallCount(count, 0);
      } else {
        assert NextCallCount(count, last) == count;
      }
    }
  }

  /**
   * A rainbow colours pixel i with the call count advanced once for every
   * 0 queried before it.
   */
  lemma {:induction false} RunRainbow(s: StrategyState, draw: Color, pixels: seq<nat>, i: nat)
    requires s.RainbowState? && s.Valid() && i < |pixels|
    ensures Run(s, draw, pixels).0[i]
         == PickColor(pixels[i], CallCountAfter(s.callCount, Zeros(pixels[..i])), s.rainbowLength)
    decreases |pixels|
  {
    var n := |pixels|;
    var init := pixels[..n - 1];
    if i < n - 1 {
      RunRainbow(s, draw, init, i);
      assert pixels[..i] == init[..i];
    } else {
      RunRainbowCount(s, draw, init);
      assert pixels[..i] == init;
    }
  }

  /** `pixels` asks about pixel 0 first and never again (a pass, or a chase phase). */
  ghost predicate ZeroFirstOnly(pixels: seq<nat>)
  {
    pixels != [] && pixels[0] == 0 && forall k :: 0 < k < |pixels| ==> pixels[k] != 0
  }

  /** In such a sequence every non-empty prefix holds exactly one 0. */
  lemma {:induction false} ZeroFirstOnlyZeros(pixels: seq<nat>, i: nat)
    requires ZeroFirstOnly(pixels) && i <= |pixels|
    ensures Zeros(pixels[..i]) == if i == 0 then 0 else 1
  {
    if i > 0 {
      var p := pixels[..i];
      assert p[..i - 1] == pixels[..i - 1];
      ZeroFirstOnlyZeros(pixels, i - 1);
    }
  }

  /** A rainbow over indices that start at 0 and avoid it afterwards advances its count once. */
  lemma RainbowFromZeroState(s: StrategyState, draw: Color, pixels: seq<nat>)
    requires s.RainbowState? && s.Valid() && ZeroFirstOnly(pixels)
    ensures Run(s, draw, pixels).1 == RainbowState(NextCallCount(s.callCount, 0), s.rainbowLength)
  {
    RunRainbowCount(s, draw, pixels);
    assert pixels[..|pixels|] == pixels;
    ZeroFirstOnlyZeros(pixels, |pixels|);
    CallCountAfterIsModular(s.callCount, 1);
  }

  /**
   * A rainbow over indices that start at 0 and avoid it afterwards: the first
   * index gets the call count from before, every later one the count advanced
   * once, and the count ends advanced once.
   */
  lemma RainbowFromZero(s: StrategyState, draw: Color, pixels: seq<nat>)
    requires s.RainbowState? && s.Valid() && ZeroFirstOnly(pixels)
    ensures Run(s, draw, pixels).1 == RainbowState((s.callCount + 1) % 255, s.rainbowLength)
    ensures Run(s, draw, pixels).0[0] == PickColor(0, s.callCount, s.rainbowLength)
    ensures forall i :: 1 <= i < |pixels| ==>
      Run(s, draw, pixels).0[i] == PickColor(pixels[i], (s.callCount + 1) % 255, s.rainbowLength)
  {
    RainbowFromZeroState(s, draw, pixels);
    ZeroFirstOnlyZeros(pixels, 0);
    RunRainbow(s, draw, pixels, 0);
    CallCountAfterIsModular(s.callCount, 1);
    CallCountAfterIsModular(s.callCount, 0);
    forall i | 1 <= i < |pixels|
      ensures Run(s, draw, pixels).0[i] == PickColor(pixels[i], (s.callCount + 1) % 255, s.rainbowLength)
    {
      RunRainbow(s, draw, pixels, i);
      ZeroFirstOnlyZeros(pixels, i);
    }
  }

  /**
   * A rainbow pass: pixel 0 uses the call count from before the pass, every
   * later pixel the count advanced once, and the count ends advanced once.
   */
  lemma RainbowPass(s: StrategyState, draw: Color, n: nat)
    requires s.RainbowState? && s.Valid() && n > 0
    ensures Run(s, draw, Ascending(n)).1 == RainbowState((s.callCount + 1) % 255, s.rainbowLength)
    ensures Run(s, draw, Ascending(n)).0[0] == PickColor(0, s.callCount, s.rainbowLength)
    ensures forall i :: 1 <= i < n ==>
      Run(s, draw, Ascending(n)).0[i] == PickColor(i, (s.callCount + 1) % 255, s.rainbowLength)
  {
    RainbowFromZero(s, draw, Ascending(n));
  }

  /** A random pass: every pixel shows the one colour drawn at pixel 0, which stays cached. */
  lemma RandomPass(s: StrategyState, draw: Color, n: nat)
    requires s.RandomState? && n > 0
    ensures Run(s, draw, Ascending(n)).1 == RandomState(Some(draw))
    ensures forall i :: 0 <= i < n ==> Run(s, draw, Ascending(n)).0[i] == draw
  {
    RunRandomFromZero(s, draw, Ascending(n));
  }

  /** `FixedColorStrategy`: one stored colour for every pixel. */
  class FixedColorStrategy {
    const color: Color

    constructor (color: Color)
      ensures this.color == color
    {
      this.color := color;
    }

    /** Ignores the pixel and reads no mutable state. */
    function GetColor(pixel: nat): (c: Color)
      ensures c == color
    {
      color
    }
  }

  /** `RandomColorStrategy`: a cached colour, redrawn at pixel 0 or when nothing is cached. */
  class RandomColorStrategy {
    var color: Option<Color>

    constructor ()
      ensures color == None
    {
      color := None;
    }

    /** `draw` stands for the three `random.randrange(0, 256)` channel values. */
    method GetColor(pixel: nat, draw: Color) returns (c: Color)
      modifies this
      ensures old(color).Some? && pixel != 0 ==> c == old(color).value && color == old(color)
      ensures old(color).None? || pixel == 0 ==> c == draw && color == Some(draw)
    {
      if color.None? || pixel == 0 {
        color := Some(draw);
      }
      c := color.value;
    }
  }

  /** `RainbowColorStrategy`: a wheel that shifts by one position per pass. */
  class RainbowColorStrategy {
    var callCount: int
    const rainbowLength: int

    ghost predicate Valid()
      reads this
    {
      0 <= callCount < 255 && rainbowLength > 0
    }

    constructor (rainbowLength: int)
      requires rainbowLength > 0
      ensures Valid() && callCount == 0 && this.rainbowLength == rainbowLength
    {
      callCount := 0;
      this.rainbowLength := rainbowLength;
    }

    /** The colour of the count before the call; the count moves on (mod 255) only at pixel 0. */
    method GetColor(pixel: nat) returns (c: Color)
      requires Valid()
      modifies this`callCount
      ensures Valid()
      ensures c == PickColor(pixel, old(callCount), rainbowLength)
      ensures callCount == if pixel == 0 then (old(callCount) + 1) % 255 else old(callCount)
    {
      c := PickColor(pixel, callCount, rainbowLength);
      if pixel == 0 {
        callCount := callCount + 1;
      }
      if callCount == 255 {
        callCount := 0;
      }
    }
  }

  /** The strategy object installed on a strip; `get_color` dispatches on its class. */
  datatype Strategy =
    | Fixed(fixed: FixedColorStrategy)
    | Random(random: RandomColorStrategy)
    | Rainbow(rainbow: RainbowColorStrategy)
  {
    function Obj(): object
    {
      match this
      case Fixed(f) => f
      case Random(r) => r
      case Rainbow(w) => w
    }

    ghost predicate Valid()
      reads Obj()
    {
      State().Valid()
    }

    /** The abstract state of the installed object. */
    function State(): (s: StrategyState)
      reads Obj()
    {
      match this
      case Fixed(f) => FixedState(f.color)
      case Random(r) => RandomState(r.color)
      case Rainbow(w) => RainbowState(w.callCount, w.rainbowLength)
    }

    /** `self.color_strategy.get_color(pixel)`, proved against Step. */
    method GetColor(pixel: nat, draw: Color) returns (c: Color)
      requires Valid()
      modifies Obj()
      ensures Valid()
      ensures (c, State()) == Step(old(State()), pixel, draw)
    {
      match this
      case Fixed(f) =>
        c := f.GetColor(pixel);
      case Random(r) =>
        c := r.GetColor(pixel, draw);
      case Rainbow(w) =>
        c := w.GetColor(pixel);
    }
  }
}
