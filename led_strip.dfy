// The strip controller: rendering, theater chase, pulse, brightness and blackout,
// over an abstract pixel sink standing for the NeoPixel driver.

module Strip {
  import opened Colors
  import opened Rainbow
  import opened Strategies
  import opened Pulse

  /** What one `show()` puts on the strip: the buffer and the brightness at that moment. */
  datatype Frame = Frame(colors: seq<Color>, brightness: int)

  /**
   * The driver as the controller sees it: a buffer of pixel colours, a
   * brightness, and the log of frames pushed out by `show()`.
   */
  class PixelSink {
    const pixels: array<Color>
    var brightness: int
    var shown: seq<Frame>

    constructor (n: nat, brightness: int)
      ensures fresh(pixels) && pixels.Length == n
      ensures forall i :: 0 <= i < n ==> pixels[i] == Black
      ensures this.brightness == brightness && shown == []
    {
      pixels := new Color[n](_ => Black);
      this.brightness := brightness;
      shown := [];
    }

    function NumPixels(): nat
    {
      pixels.Length
    }

    method SetPixelColor(i: nat, c: Color)
      requires i < pixels.Length
      modifies pixels
      ensures pixels[i] == c
      ensures forall j :: 0 <= j < pixels.Length && j != i ==> pixels[j] == old(pixels[j])
    {
      pixels[i] := c;
    }

    method Show()
      modifies this`shown
      ensures shown == old(shown) + [Frame(pixels[..], brightness)]
    {
      shown := shown + [Frame(pixels[..], brightness)];
    }

    method SetBrightness(b: int)
      modifies this`brightness
      ensures brightness == b
    {
      brightness := b;
    }
  }

  /** The strategy state after the first `q` theater-chase phases, phase k drawing `draws[k]`. */
  function ChaseState(s: StrategyState, draws: seq<Color>, n: nat, q: nat): (t: StrategyState)
    requires s.Valid() && q <= |draws|
    ensures t.Valid()
  {
    if q == 0 then s
    else Run(ChaseState(s, draws, n, q - 1), draws[q - 1], Bases(n)).1
  }

  /** A chase keeps the kind of its strategy (and a rainbow's length). */
  lemma {:induction false} ChaseStateKind(s: StrategyState, draws: seq<Color>, n: nat, q: nat)
    requires s.Valid() && q <= |draws|
    ensures s.SameKind(ChaseState(s, draws, n, q))
  {
    if q > 0 {
      ChaseStateKind(s, draws, n, q - 1);
    }
  }

  /** The colours phase `q` obtains for its base indices 0, 3, 6, ... */
  function PhaseColors(s: StrategyState, draws: seq<Color>, n: nat, q: nat): (cs: seq<Color>)
    requires s.Valid() && q < |draws|
    ensures |cs| == (n + 2) / 3
  {
    Run(ChaseState(s, draws, n, q), draws[q], Bases(n)).0
  }

  /**
   * The buffer shown in phase `q` of a chase cycle that started from `before`:
   * slots of the earlier phases' residues are already cleared, slots of residue
   * `q` hold that phase's colours, the rest are as before.
   */
  function ChaseFrame(before: seq<Color>, q: nat, colors: seq<Color>): (frame: seq<Color>)
    requires |before| % 3 == 0 && |colors| == |before| / 3
    ensures |frame| == |before|
    ensures forall j :: 0 <= j < |frame| && j % 3 < q ==> frame[j] == Black
    ensures forall j :: 0 <= j < |frame| && j % 3 == q ==> frame[j] == colors[j / 3]
    ensures forall j :: 0 <= j < |frame| && j % 3 > q ==> frame[j] == before[j]
  {
    seq(|before|, j requires 0 <= j < |before| =>
      if j % 3 < q then Black else if j % 3 == q then colors[j / 3] else before[j])
  }

  /** The buffer after the first k slots of a pass have been written over `before`. */
  function Revealed(after: seq<Color>, before: seq<Color>, k: nat): (r: seq<Color>)
    requires k <= |after| == |before|
    ensures |r| == |after|
  {
    after[..k] + before[k..]
  }

  /** Writing slot k of the pass reveals one slot more. */
  lemma RevealedExtends(after: seq<Color>, before: seq<Color>, k: nat)
    requires k < |after| == |before|
    ensures Revealed(after, before, k)[k := after[k]] == Revealed(after, before, k + 1)
  {
  }

  /**
   * The show log after the first i slots of an animated pass, starting from
   * `log`: each write is followed by a frame of the buffer as it then stands.
   */
  function PassLog(log: seq<Frame>, after: seq<Color>, before: seq<Color>, i: nat, brightness: int): (fs: seq<Frame>)
    requires i <= |after| == |before|
    ensures |fs| == |log| + i
  {
    if i == 0 then log else PassLog(log, after, before, i - 1, brightness) + [Frame(Revealed(after, before, i), brightness)]
  }

  /**
   * An animated pass keeps the earlier log and adds one frame per slot, the
   * k-th showing the first k+1 slots written.
   */
  lemma {:induction false} PassLogAt(log: seq<Frame>, after: seq<Color>, before: seq<Color>, i: nat, brightness: int)
    requires i <= |after| == |before|
    ensures PassLog(log, after, before, i, brightness)[..|log|] == log
    ensures forall k :: |log| <= k < |log| + i ==>
      PassLog(log, after, before, i, brightness)[k] == Frame(Revealed(after, before, k - |log| + 1), brightness)
  {
    if i > 0 {
      PassLogAt(log, after, before, i - 1, brightness);
      var prev := PassLog(log, after, before, i - 1, brightness);
      assert PassLog(log, after, before, i, brightness) == prev + [Frame(Revealed(after, before, i), brightness)];
      assert (prev + [Frame(Revealed(after, before, i), brightness)])[..|log|] == prev[..|log|];
    }
  }

  /** `before` with slots 3t+q, t < m, set to colors[t]: a theater-chase phase lit part-way. */
  function Lit(before: seq<Color>, q: nat, colors: seq<Color>, m: nat): (r: seq<Color>)
    requires q < 3 && m <= |colors| && 3 * m <= |before|
    ensures |r| == |before|
  {
    if m == 0 then before else Lit(before, q, colors, m - 1)[3 * (m - 1) + q := colors[m - 1]]
  }

  /** Slot j of a part-lit phase: the phase colour if j has residue q and lies below 3m, else as before. */
  lemma {:induction false} LitAt(before: seq<Color>, q: nat, colors: seq<Color>, m: nat, j: nat)
    requires q < 3 && m <= |colors| && 3 * m <= |before| && j < |before|
    ensures Lit(before, q, colors, m)[j] == if j % 3 == q && j / 3 < m then colors[j / 3] else before[j]
  {
    if m > 0 {
      LitAt(before, q, colors, m - 1, j);
      if j == 3 * (m - 1) + q {
        assert j % 3 == q && j / 3 == m - 1;
      }
    }
  }

  /**
   * The frames the first q phases of a chase cycle show, in order, when the
   * cycle starts from the buffer `before` and its phase k is overall phase a + k.
   */
  function ChaseLog(before: seq<Color>, s: StrategyState, draws: seq<Color>, a: nat, q: nat, brightness: int)
    : (fs: seq<Frame>)
    requires |before| % 3 == 0 && s.Valid() && a + q <= |draws|
    ensures |fs| == q
  {
    seq(q, k requires 0 <= k < q => PhaseFrame(before, s, draws, a, k, brightness))
  }

  /** The frame phase q of such a cycle shows: residue q lit with the colours of overall phase a + q. */
  function PhaseFrame(before: seq<Color>, s: StrategyState, draws: seq<Color>, a: nat, q: nat, brightness: int): (f: Frame)
    requires |before| % 3 == 0 && s.Valid() && a + q < |draws|
    ensures |f.colors| == |before| && f.brightness == brightness
  {
    Frame(ChaseFrame(before, q, PhaseColors(s, draws, |before|, a + q)), brightness)
  }

  /** Phase q of a chase cycle adds its frame after those of the phases before it. */
  lemma ChaseLogNext(log: seq<Frame>, before: seq<Color>, s: StrategyState, draws: seq<Color>, a: nat, q: nat, brightness: int)
    requires |before| % 3 == 0 && s.Valid() && a + q < |draws|
    ensures log + ChaseLog(before, s, draws, a, q + 1, brightness)
         == (log + ChaseLog(before, s, draws, a, q, brightness)) + [PhaseFrame(before, s, draws, a, q, brightness)]
  {
    var prev := ChaseLog(before, s, draws, a, q, brightness);
    var next := ChaseLog(before, s, draws, a, q + 1, brightness);
    assert next == prev + [PhaseFrame(before, s, draws, a, q, brightness)];
    assert log + next == (log + prev) + [PhaseFrame(before, s, draws, a, q, brightness)];
  }

  /** Lighting residue q over a buffer whose lower residues are already black gives the phase's frame. */
  lemma LitChaseFrame(before: seq<Color>, cur: seq<Color>, q: nat, colors: seq<Color>)
    requires |before| % 3 == 0 && |cur| == |before| && |colors| == |before| / 3 && q < 3
    requires forall j :: 0 <= j < |cur| ==> cur[j] == if j % 3 < q then Black else before[j]
    ensures Lit(cur, q, colors, |before| / 3) == ChaseFrame(before, q, colors)
  {
    forall j | 0 <= j < |cur|
      ensures Lit(cur, q, colors, |before| / 3)[j] == ChaseFrame(before, q, colors)[j]
    {
      LitAt(cur, q, colors, |before| / 3, j);
    }
  }

  /** A buffer of n black slots. */
  function BlackStrip(n: nat): (r: seq<Color>)
    ensures |r| == n && forall j :: 0 <= j < n ==> r[j] == Black
  {
    seq(n, _ => Black)
  }

  /** A buffer whose every slot is black is the black buffer of its length. */
  lemma AllBlack(a: seq<Color>)
    requires forall j :: 0 <= j < |a| ==> a[j] == Black
    ensures a == BlackStrip(|a|)
  {
  }

  /** The buffer chase cycle k starts from: `before` for the first, all black after. */
  function CycleStart(before: seq<Color>, k: nat): (r: seq<Color>)
    ensures |r| == |before|
  {
    if k == 0 then before else BlackStrip(|before|)
  }

  /**
   * The frames chase cycle k shows: phases 3k..3k+2 with draws 3k..3k+2, over
   * `before` in the first cycle and over an all-black buffer after that.
   */
  ghost function CycleLog(before: seq<Color>, s: StrategyState, draws: seq<Color>, k: nat, brightness: int): (fs: seq<Frame>)
    requires |before| % 3 == 0 && s.Valid() && 3 * k + 3 <= |draws|
    ensures |fs| == 3
  {
    ChaseLog(CycleStart(before, k), s, draws, 3 * k, 3, brightness)
  }

  /** The frames the first c cycles of a theater chase started from `before` and `s` show, in order. */
  ghost function ChaseCycles(before: seq<Color>, s: StrategyState, draws: seq<Color>, c: nat, brightness: int): (fs: seq<Frame>)
    requires |before| % 3 == 0 && s.Valid() && 3 * c <= |draws|
    ensures |fs| == 3 * c
  {
    if c == 0 then [] else ChaseCycles(before, s, draws, c - 1, brightness) + CycleLog(before, s, draws, c - 1, brightness)
  }

  /** Cycle c + 1 of a chase shows its frames after those of the first c. */
  lemma ChaseCyclesNext(log: seq<Frame>, before: seq<Color>, s: StrategyState, draws: seq<Color>, c: nat, brightness: int)
    requires |before| % 3 == 0 && s.Valid() && 3 * c + 3 <= |draws|
    ensures log + ChaseCycles(before, s, draws, c + 1, brightness)
         == (log + ChaseCycles(before, s, draws, c, brightness)) + CycleLog(before, s, draws, c, brightness)
  {
    var prev := ChaseCycles(before, s, draws, c, brightness);
    var cycle := CycleLog(before, s, draws, c, brightness);
    assert ChaseCycles(before, s, draws, c + 1, brightness) == prev + cycle;
    assert log + (prev + cycle) == (log + prev) + cycle;
  }

  /**
   * The buffer and strategy state after the first k pulse steps from `pixels`
   * and `s`: a step re-renders a full pass, drawing `draws[j]`, exactly when it
   * renders, and otherwise leaves both alone.
   */
  ghost function PulseRender(s: StrategyState, pixels: seq<Color>, draws: seq<Color>, stepSize: int, k: nat)
    : (r: (seq<Color>, StrategyState))
    requires s.Valid() && k <= |draws|
    ensures r.1.Valid() && s.SameKind(r.1) && |r.0| == |pixels|
  {
    if k == 0 then (pixels, s) else
      var prev := PulseRender(s, pixels, draws, stepSize, k - 1);
      if Renders(PulseAfter(stepSize, k - 1)) then Run(prev.1, draws[k - 1], Ascending(|pixels|)) else prev
  }

  /** The brightness applied after the first k pulse steps, `start` before any. */
  function PulseBrightness(start: int, stepSize: int, k: nat): (b: int)
    ensures k > 0 ==> b <= LedBrightness
  {
    if k == 0 then start else Clamp(PulseAfter(stepSize, k - 1).brightness)
  }

  /**
   * The show log after the first k pulse steps: a re-rendering step shows the
   * new buffer at the brightness it found, and every step then shows the buffer
   * at its newly applied brightness.
   */
  ghost function PulseLog(log: seq<Frame>, s: StrategyState, pixels: seq<Color>, brightness: int, draws: seq<Color>, stepSize: int, k: nat)
    : (fs: seq<Frame>)
    requires s.Valid() && k <= |draws|
    ensures |fs| == |log| + k + RenderCount(stepSize, k)
  {
    if k == 0 then log else
      var buffer := PulseRender(s, pixels, draws, stepSize, k).0;
      PulseLog(log, s, pixels, brightness, draws, stepSize, k - 1)
        + (if Renders(PulseAfter(stepSize, k - 1)) then [Frame(buffer, PulseBrightness(brightness, stepSize, k - 1))] else [])
        + [Frame(buffer, PulseBrightness(brightness, stepSize, k))]
  }

  /** Later pulse steps only append: the log after k steps is a prefix of the log after c >= k. */
  lemma {:induction false} PulseLogPrefix(log: seq<Frame>, s: StrategyState, pixels: seq<Color>, brightness: int, draws: seq<Color>, stepSize: int, c: nat, k: nat)
    requires s.Valid() && c <= |draws| && k <= c
    ensures PulseLog(log, s, pixels, brightness, draws, stepSize, k) <= PulseLog(log, s, pixels, brightness, draws, stepSize, c)
  {
    if k < c {
      var prev := PulseLog(log, s, pixels, brightness, draws, stepSize, c - 1);
      PulseLogPrefix(log, s, pixels, brightness, draws, stepSize, c - 1, k);
      assert prev <= PulseLog(log, s, pixels, brightness, draws, stepSize, c);
    }
  }


  /** `LedStrip`: owns the sink and the installed colour strategy. */
  class LedStrip {
    const strip: PixelSink
    var colorStrategy: Strategy

    /** The strategy is in a valid state and is an object apart from the strip, its sink and its buffer. */
    ghost predicate Valid()
      reads this, colorStrategy.Obj()
    {
      colorStrategy.Valid() &&
      colorStrategy.Obj() != this && colorStrategy.Obj() != strip && colorStrategy.Obj() != strip.pixels
    }

    /** Binds a sink of LedCount pixels at full brightness and renders the strip black once. */
    constructor ()
      ensures Valid() && fresh(strip) && fresh(strip.pixels)
      ensures strip.pixels.Length == LedCount && strip.brightness == LedBrightness
      ensures colorStrategy.Fixed? && colorStrategy.fixed.color == Black
      ensures forall j :: 0 <= j < LedCount ==> strip.pixels[j] == Black
      ensures strip.shown == [Frame(strip.pixels[..], LedBrightness)]
    {
      strip := new PixelSink(LedCount, LedBrightness);
      var black := new FixedColorStrategy(Black);
      colorStrategy := Fixed(black);
      new;
      DisplayColor(0, Black);
      RunFixed(FixedState(Black), Black, Ascending(LedCount));
    }

    method SetColorStrategy(s: Strategy)
      requires s.Valid()
      modifies this`colorStrategy
      ensures Valid() && colorStrategy == s
    {
      colorStrategy := s;
    }

    /** `setPixelColor(slot, get_color(pixel))`: one colour from the strategy, written to one slot. */
    method Paint(slot: nat, pixel: nat, draw: Color)
      requires Valid() && slot < strip.pixels.Length
      modifies strip.pixels, colorStrategy.Obj()
      ensures Valid()
      ensures colorStrategy.State() == Step(old(colorStrategy.State()), pixel, draw).1
      ensures strip.pixels[..] == old(strip.pixels[..])[slot := Step(old(colorStrategy.State()), pixel, draw).0]
    {
      assert colorStrategy.Obj() != strip.pixels;
      var c := colorStrategy.GetColor(pixel, draw);
      strip.SetPixelColor(slot, c);
    }

    /** One slot of a pass: paint slot i with `get_color(i)`, then show it if animated. */
    method RevealStep(i: nat, animationMs: int, draw: Color)
      requires Valid() && i < strip.pixels.Length
      modifies strip.pixels, strip`shown, colorStrategy.Obj()
      ensures Valid()
      ensures colorStrategy.State() == Step(old(colorStrategy.State()), i, draw).1
      ensures strip.pixels[..] == old(strip.pixels[..])[i := Step(old(colorStrategy.State()), i, draw).0]
      ensures strip.shown == old(strip.shown) + if animationMs > 0 then [Frame(strip.pixels[..], strip.brightness)] else []
    {
      Paint(i, i, draw);
      if animationMs > 0 {
        ghost var st := colorStrategy.State();
        assert colorStrategy.Obj() != strip;
        strip.Show();
        assert colorStrategy.State() == st;
      }
    }

    /**
     * The loop of one pass: slot i gets `get_color(i)` for i = 0, 1, ... in
     * order; with a positive `animationMs` every write is shown at once.
     */
    method RevealPass(animationMs: int, draw: Color)
      requires Valid()
      modifies strip.pixels, strip`shown, colorStrategy.Obj()
      ensures Valid()
      ensures strip.pixels[..] == Run(old(colorStrategy.State()), draw, Ascending(strip.pixels.Length)).0
      ensures colorStrategy.State() == Run(old(colorStrategy.State()), draw, Ascending(strip.pixels.Length)).1
      ensures strip.shown == if animationMs > 0
        then PassLog(old(strip.shown), strip.pixels[..], old(strip.pixels[..]), strip.pixels.Length, strip.brightness)
        else old(strip.shown)
    {
      var n := strip.NumPixels();
      ghost var s0 := colorStrategy.State();
      ghost var before := strip.pixels[..];
      ghost var shown0 := strip.shown;
      ghost var full := Run(s0, draw, Ascending(n)).0;
      ghost var b := strip.brightness;
      var i := 0;
      while i < n
        invariant 0 <= i <= n
        invariant Valid() && colorStrategy.State() == Run(s0, draw, Ascending(n)[..i]).1
        invariant strip.pixels[..] == Revealed(full, before, i)
        invariant strip.brightness == b
        invariant strip.shown == if animationMs > 0 then PassLog(shown0, full, before, i, b) else shown0
      {
        RunExtends(s0, draw, Ascending(n), i);
        assert Ascending(n)[i] == i;
        RevealedExtends(full, before, i);
        RevealStep(i, animationMs, draw);
        i := i + 1;
      }
      assert Revealed(full, before, n) == full;
      assert Ascending(n)[..n] == Ascending(n);
    }

    /** `display_color`: one pass over the strip, then one final show. */
    method DisplayColor(animationMs: int, draw: Color)
      requires Valid()
      modifies strip.pixels, strip`shown, colorStrategy.Obj()
      ensures Valid()
      ensures strip.pixels[..] == Run(old(colorStrategy.State()), draw, Ascending(strip.pixels.Length)).0
      ensures colorStrategy.State() == Run(old(colorStrategy.State()), draw, Ascending(strip.pixels.Length)).1
      ensures strip.shown == (if animationMs > 0
        then PassLog(old(strip.shown), strip.pixels[..], old(strip.pixels[..]), strip.pixels.Length, strip.brightness)
        else old(strip.shown)) + [Frame(strip.pixels[..], strip.brightness)]
    {
      RevealPass(animationMs, draw);
      ghost var st := colorStrategy.State();
      strip.Show();
      assert colorStrategy.State() == st;
    }

    /** The lighting half of theater-chase phase `q`: slot i+q gets `get_color(i)`, i = 0, 3, 6, ... */
    method ChaseLight(q: nat, draw: Color)
      requires Valid() && q < 3 && strip.pixels.Length % 3 == 0
      modifies strip.pixels, colorStrategy.Obj()
      ensures Valid()
      ensures colorStrategy.State() == Run(old(colorStrategy.State()), draw, Bases(strip.pixels.Length)).1
      ensures strip.pixels[..]
        == Lit(old(strip.pixels[..]), q, Run(old(colorStrategy.State()), draw, Bases(strip.pixels.Length)).0, strip.pixels.Length / 3)
    {
      var n := strip.NumPixels();
      ghost var s0 := colorStrategy.State();
      ghost var before := strip.pixels[..];
      ghost var phase := Run(s0, draw, Bases(n)).0;
      ghost var k := n / 3;
      assert n == 3 * k && |phase| == k;
      ghost var m := 0;
      var i := 0;
      while i < n
        invariant 0 <= m <= k && i == 3 * m
        invariant Valid() && colorStrategy.State() == Run(s0, draw, Bases(n)[..m]).1
        invariant strip.pixels[..] == Lit(before, q, phase, m)
      {
        RunExtends(s0, draw, Bases(n), m);
        assert m < k && i + q < n;
        Paint(i + q, i, draw);
        i := i + 3;
        m := m + 1;
      }
      assert Bases(n)[..m] == Bases(n);
    }

    /** The clearing half of theater-chase phase `q`: slots i+q, i = 0, 3, 6, ..., become black. */
    method ChaseClear(q: nat)
      requires q < 3 && strip.pixels.Length % 3 == 0
      modifies strip.pixels
      ensures forall j :: 0 <= j < strip.pixels.Length ==>
        strip.pixels[j] == if j % 3 == q then Black else old(strip.pixels[j])
    {
      var n := strip.NumPixels();
      var i := 0;
      while i < n
        invariant 0 <= i <= n && i % 3 == 0
        invariant forall j :: 0 <= j < n ==>
          strip.pixels[j] == if j % 3 == q && j < i then Black else old(strip.pixels[j])
      {
        strip.SetPixelColor(i + q, Black);
        i := i + 3;
      }
    }

    /** Theater-chase phase q: light residue q, show, clear residue q. */
    method ChasePhase(q: nat, draw: Color)
      requires Valid() && q < 3 && strip.pixels.Length % 3 == 0
      modifies strip.pixels, strip`shown, colorStrategy.Obj()
      ensures Valid()
      ensures colorStrategy.State() == Run(old(colorStrategy.State()), draw, Bases(strip.pixels.Length)).1
      ensures strip.shown == old(strip.shown) + [Frame(Lit(old(strip.pixels[..]), q,
        Run(old(colorStrategy.State()), draw, Bases(strip.pixels.Length)).0, strip.pixels.Length / 3), strip.brightness)]
      ensures forall j :: 0 <= j < strip.pixels.Length ==>
        strip.pixels[j] == if j % 3 == q then Black else old(strip.pixels[j])
    {
      ghost var before := strip.pixels[..];
      ChaseLight(q, draw);
      forall j | 0 <= j < strip.pixels.Length && j % 3 != q
        ensures strip.pixels[j] == before[j]
      {
        LitAt(before, q, Run(old(colorStrategy.State()), draw, Bases(strip.pixels.Length)).0, strip.pixels.Length / 3, j);
      }
      ghost var st := colorStrategy.State();
      assert colorStrategy.Obj() != strip;
      strip.Show();
      assert colorStrategy.State() == st;
      ChaseClear(q);
    }

    /** Phase q of a chase cycle that continues a chase from `s0` after `a` phases and started from `before`. */
    method ChasePhaseAt(ghost s0: StrategyState, ghost before: seq<Color>, ghost shown0: seq<Frame>, draws: seq<Color>, a: nat, q: nat)
      requires Valid() && strip.pixels.Length % 3 == 0 && |before| == strip.pixels.Length
      requires s0.Valid() && q < 3 && a + q < |draws|
      requires colorStrategy.State() == ChaseState(s0, draws, strip.pixels.Length, a + q)
      requires forall j :: 0 <= j < strip.pixels.Length ==> strip.pixels[j] == if j % 3 < q then Black else before[j]
      requires strip.shown == shown0 + ChaseLog(before, s0, draws, a, q, strip.brightness)
      modifies strip.pixels, strip`shown, colorStrategy.Obj()
      ensures Valid()
      ensures colorStrategy.State() == ChaseState(s0, draws, strip.pixels.Length, a + (q + 1))
      ensures forall j :: 0 <= j < strip.pixels.Length ==> strip.pixels[j] == if j % 3 < q + 1 then Black else before[j]
      ensures strip.shown == shown0 + ChaseLog(before, s0, draws, a, q + 1, strip.brightness)
    {
      ghost var colors := PhaseColors(s0, draws, strip.pixels.Length, a + q);
      LitChaseFrame(before, strip.pixels[..], q, colors);
      ChaseLogNext(shown0, before, s0, draws, a, q, strip.brightness);
      ChasePhase(q, draws[a + q]);
    }

    /**
     * One cycle of the theater chase: for q = 0, 1, 2, light residue q, show,
     * clear residue q. The cycle continues a chase from `s0` after `a` phases,
     * so its phase q is overall phase a + q and draws `draws[a + q]`.
     */
    method TheaterChaseCycle(ghost s0: StrategyState, draws: seq<Color>, a: nat)
      requires Valid() && strip.pixels.Length % 3 == 0 && s0.Valid() && a + 3 <= |draws|
      requires colorStrategy.State() == ChaseState(s0, draws, strip.pixels.Length, a)
      modifies strip.pixels, strip`shown, colorStrategy.Obj()
      ensures Valid()
      ensures colorStrategy.State() == ChaseState(s0, draws, strip.pixels.Length, a + 3)
      ensures strip.pixels[..] == BlackStrip(strip.pixels.Length)
      ensures strip.shown == old(strip.shown) + ChaseLog(old(strip.pixels[..]), s0, draws, a, 3, strip.brightness)
    {
      var n := strip.NumPixels();
      ghost var before := strip.pixels[..];
      ghost var shown0 := strip.shown;
      ghost var b := strip.brightness;
      for q := 0 to 3
        invariant Valid() && colorStrategy.State() == ChaseState(s0, draws, n, a + q)
        invariant forall j :: 0 <= j < n ==> strip.pixels[j] == if j % 3 < q then Black else before[j]
        invariant strip.brightness == b
        invariant strip.shown == shown0 + ChaseLog(before, s0, draws, a, q, b)
      {
        ChasePhaseAt(s0, before, shown0, draws, a, q);
      }
      AllBlack(strip.pixels[..]);
    }

    /**
     * The theater-chase loop, observed for at most |stops| cycles: `stops[k]` is
     * the stop flag as read before cycle k, and cycle k draws `draws[3k..3k+3]`.
     */
    /** Cycle c of a theater chase from `s0` and `before`: takes the chase from c cycles done to c + 1. */
    method ChaseCycleAt(ghost s0: StrategyState, ghost before: seq<Color>, ghost shown0: seq<Frame>, draws: seq<Color>, c: nat)
      requires Valid() && strip.pixels.Length % 3 == 0 && |before| == strip.pixels.Length
      requires s0.Valid() && 3 * c + 3 <= |draws|
      requires colorStrategy.State() == ChaseState(s0, draws, strip.pixels.Length, 3 * c)
      requires strip.pixels[..] == CycleStart(before, c)
      requires strip.shown == shown0 + ChaseCycles(before, s0, draws, c, strip.brightness)
      modifies strip.pixels, strip`shown, colorStrategy.Obj()
      ensures Valid()
      ensures colorStrategy.State() == ChaseState(s0, draws, strip.pixels.Length, 3 * (c + 1))
      ensures strip.pixels[..] == CycleStart(before, c + 1)
      ensures strip.shown == shown0 + ChaseCycles(before, s0, draws, c + 1, strip.brightness)
    {
      ChaseCyclesNext(shown0, before, s0, draws, c, strip.brightness);
      TheaterChaseCycle(s0, draws, 3 * c);
      assert colorStrategy.State() == ChaseState(s0, draws, strip.pixels.Length, 3 * c + 3);
    }

    method TheaterChase(stops: seq<bool>, draws: seq<Color>) returns (cycles: nat)
      requires Valid() && strip.pixels.Length % 3 == 0 && |draws| == 3 * |stops|
      modifies strip.pixels, strip`shown, colorStrategy.Obj()
      ensures Valid()
      ensures cycles <= |stops| && (cycles < |stops| ==> stops[cycles])
      ensures forall k :: 0 <= k < cycles ==> !stops[k]
      ensures colorStrategy.State() == ChaseState(old(colorStrategy.State()), draws, strip.pixels.Length, 3 * cycles)
      ensures strip.shown == old(strip.shown) + ChaseCycles(old(strip.pixels[..]), old(colorStrategy.State()), draws, cycles, strip.brightness)
      ensures strip.pixels[..] == CycleStart(old(strip.pixels[..]), cycles)
    {
      var n := strip.NumPixels();
      ghost var s0 := colorStrategy.State();
      ghost var before := strip.pixels[..];
      ghost var shown0 := strip.shown;
      ghost var b := strip.brightness;
      cycles := 0;
      while cycles < |stops| && !stops[cycles]
        invariant cycles <= |stops|
        invariant forall k :: 0 <= k < cycles ==> !stops[k]
        invariant Valid() && strip.brightness == b
        invariant colorStrategy.State() == ChaseState(s0, draws, n, 3 * cycles)
        invariant strip.pixels[..] == CycleStart(before, cycles)
        invariant strip.shown == shown0 + ChaseCycles(before, s0, draws, cycles, b)
      {
        ChaseCycleAt(s0, before, shown0, draws, cycles);
        cycles := cycles + 1;
      }
    }

    /**
     * One step of the pulse loop on its locals `p`: at or above the ceiling turn
     * down; else at or below 0 re-render and turn up; apply the brightness; move it.
     */
    method PulseStep(p: PulseState, stepSize: int, draw: Color) returns (next: PulseState)
      requires Valid()
      modifies strip.pixels, strip`shown, strip`brightness, colorStrategy.Obj()
      ensures Valid()
      ensures next == PulseNext(p, stepSize)
      ensures strip.brightness == Clamp(p.brightness)
      ensures strip.shown == old(strip.shown)
        + (if Renders(p) then [Frame(strip.pixels[..], old(strip.brightness))] else [])
        + [Frame(strip.pixels[..], Clamp(p.brightness))]
      ensures Renders(p) ==>
        strip.pixels[..] == Run(old(colorStrategy.State()), draw, Ascending(strip.pixels.Length)).0 &&
        colorStrategy.State() == Run(old(colorStrategy.State()), draw, Ascending(strip.pixels.Length)).1
      ensures !Renders(p) ==>
        strip.pixels[..] == old(strip.pixels[..]) && colorStrategy.State() == old(colorStrategy.State())
    {
      var brightness, goingUp := p.brightness, p.goingUp;
      if brightness >= LedBrightness {
        goingUp := false;
      } else if brightness <= 0 {
        DisplayColor(0, draw);
        goingUp := true;
      }
      SetBrightness(brightness);
      brightness := brightness + (if goingUp then stepSize else -stepSize);
      next := PulseState(brightness, goingUp);
    }

    /**
     * The pulse loop, observed for at most |stops| steps: `stops[k]` is the stop
     * flag as read before step k, and step k draws `draws[k]` if it re-renders.
     */
    method Pulse(stops: seq<bool>, stepSize: int, draws: seq<Color>) returns (steps: nat)
      requires Valid() && |draws| == |stops|
      modifies strip.pixels, strip`shown, strip`brightness, colorStrategy.Obj()
      ensures Valid()
      ensures steps <= |stops| && (steps < |stops| ==> stops[steps])
      ensures forall k :: 0 <= k < steps ==> !stops[k]
      ensures strip.pixels[..] == PulseRender(old(colorStrategy.State()), old(strip.pixels[..]), draws, stepSize, steps).0
      ensures colorStrategy.State() == PulseRender(old(colorStrategy.State()), old(strip.pixels[..]), draws, stepSize, steps).1
      ensures strip.brightness == PulseBrightness(old(strip.brightness), stepSize, steps)
      ensures strip.shown == PulseLog(old(strip.shown), old(colorStrategy.State()), old(strip.pixels[..]),
        old(strip.brightness), draws, stepSize, steps)
      ensures strip.shown[..|old(strip.shown)|] == old(strip.shown)
      ensures |strip.shown| == |old(strip.shown)| + steps + RenderCount(stepSize, steps)
      ensures steps > 0 && stepSize > 0 ==> 0 <= strip.brightness <= LedBrightness
    {
      ghost var s0 := colorStrategy.State();
      ghost var px0 := strip.pixels[..];
      ghost var b0 := strip.brightness;
      ghost var shown0 := strip.shown;
      var p := PulseStart;
      steps := 0;
      while steps < |stops| && !stops[steps]
        invariant steps <= |stops|
        invariant forall k :: 0 <= k < steps ==> !stops[k]
        invariant Valid() && |px0| == strip.pixels.Length
        invariant p == PulseAfter(stepSize, steps)
        invariant strip.pixels[..] == PulseRender(s0, px0, draws, stepSize, steps).0
        invariant colorStrategy.State() == PulseRender(s0, px0, draws, stepSize, steps).1
        invariant strip.brightness == PulseBrightness(b0, stepSize, steps)
        invariant strip.shown == PulseLog(shown0, s0, px0, b0, draws, stepSize, steps)
      {
        p := PulseStep(p, stepSize, draws[steps]);
        steps := steps + 1;
      }
      PulseLogPrefix(shown0, s0, px0, b0, draws, stepSize, steps, 0);
      if steps > 0 && stepSize > 0 {
        PulseAfterOnRamp(stepSize, steps - 1);
      }
    }

    /** `set_brightness`: apply the clamped value and show. */
    method SetBrightness(brightness: int)
      modifies strip`brightness, strip`shown
      ensures strip.brightness == Clamp(brightness)
      ensures strip.shown == old(strip.shown) + [Frame(strip.pixels[..], Clamp(brightness))]
    {
      var applied := if brightness > LedBrightness then LedBrightness else brightness;
      strip.SetBrightness(applied);
      strip.Show();
    }

    /** `off`: install a black fixed strategy and render once. */
    method Off()
      requires Valid()
      modifies this`colorStrategy, strip.pixels, strip`shown
      ensures Valid() && colorStrategy.Fixed? && fresh(colorStrategy.fixed)
      ensures colorStrategy.fixed.color == Black
      ensures forall j :: 0 <= j < strip.pixels.Length ==> strip.pixels[j] == Black
      ensures strip.brightness == old(strip.brightness)
      ensures strip.shown == old(strip.shown) + [Frame(strip.pixels[..], strip.brightness)]
    {
      var black := new FixedColorStrategy(Black);
      SetColorStrategy(Fixed(black));
      DisplayColor(0, Black);
      RunFixed(FixedState(Black), Black, Ascending(strip.pixels.Length));
    }
  }

  /** The bases of a chase phase start at 0 and never return to it. */
  lemma BasesZeroFirstOnly(n: nat)
    requires n > 0
    ensures ZeroFirstOnly(Bases(n))
  {
  }

  /** A rainbow chase advances the call count once per phase, three times per cycle. */
  lemma {:induction false} RainbowChaseCount(s: StrategyState, draws: seq<Color>, n: nat, q: nat)
    requires s.RainbowState? && s.Valid() && n > 0 && q <= |draws|
    ensures ChaseState(s, draws, n, q) == RainbowState(CallCountAfter(s.callCount, q), s.rainbowLength)
  {
    if q > 0 {
      var t := ChaseState(s, draws, n, q - 1);
      RainbowChaseCount(s, draws, n, q - 1);
      BasesZeroFirstOnly(n);
      RainbowFromZeroState(t, draws[q - 1], Bases(n));
      assert ChaseState(s, draws, n, q) == Run(t, draws[q - 1], Bases(n)).1;
    }
  }

  /**
   * In rainbow chase phase q, base 0 is coloured with the count advanced q
   * times, every other base 3m with the count advanced q + 1 times.
   */
  lemma RainbowChasePhase(s: StrategyState, draws: seq<Color>, n: nat, q: nat)
    requires s.RainbowState? && s.Valid() && n > 0 && q < |draws|
    ensures PhaseColors(s, draws, n, q)[0] == PickColor(0, (s.callCount + q) % 255, s.rainbowLength)
    ensures forall m :: 1 <= m < (n + 2) / 3 ==>
      PhaseColors(s, draws, n, q)[m] == PickColor(3 * m, (s.callCount + q + 1) % 255, s.rainbowLength)
  {
    var t := ChaseState(s, draws, n, q);
    var count := (s.callCount + q) % 255;
    assert t == RainbowState(count, s.rainbowLength) by {
      RainbowChaseCount(s, draws, n, q);
      CallCountAfterIsModular(s.callCount, q);
    }
    assert (count + 1) % 255 == (s.callCount + q + 1) % 255 by {
      AdvanceReduced(s.callCount + q);
    }
    BasesZeroFirstOnly(n);
    RainbowFromZero(t, draws[q], Bases(n));
  }

  /** A random chase draws afresh at the start of every phase and uses that colour for the whole phase. */
  lemma RandomChasePhase(s: StrategyState, draws: seq<Color>, n: nat, q: nat)
    requires s.RandomState? && n > 0 && q < |draws|
    ensures forall m :: 0 <= m < (n + 2) / 3 ==> PhaseColors(s, draws, n, q)[m] == draws[q]
  {
    BasesZeroFirstOnly(n);
    ChaseStateKind(s, draws, n, q);
    RunRandomFromZero(ChaseState(s, draws, n, q), draws[q], Bases(n));
  }

  /** A fixed chase lights every lit slot with the stored colour and keeps the strategy. */
  lemma {:induction false} FixedChasePhase(s: StrategyState, draws: seq<Color>, n: nat, q: nat)
    requires s.FixedState? && q <= |draws|
    ensures ChaseState(s, draws, n, q) == s
    ensures q < |draws| ==> forall m :: 0 <= m < (n + 2) / 3 ==> PhaseColors(s, draws, n, q)[m] == s.color
  {
    if q > 0 {
      FixedChasePhase(s, draws, n, q - 1);
      RunFixed(s, draws[q - 1], Bases(n));
    }
    if q < |draws| {
      RunFixed(s, draws[q], Bases(n));
    }
  }
}
