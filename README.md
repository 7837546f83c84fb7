# LED strip colour and animation engine, in Dafny

This project models the core of `led_strip.py`, the controller of a 60-pixel
NeoPixel strip, and proves properties of the model. The core has two parts.
Colour strategies map a pixel index to a colour: fixed, random, and a
scrolling rainbow. `LedStrip` renders the active strategy into the strip's
buffer and runs three animations: a full pass (`display_color`), a theater
chase and a brightness pulse. It also handles brightness control and blackout.

The hardware driver is an abstract sink, the class `Strip.PixelSink`. It holds
a buffer `pixels: array<Color>` of length N, an integer `brightness`, and
`shown`, the log of frames pushed out by `show()`. A frame is the buffer plus
the brightness at that moment. The number of `show()` calls is `|shown|`.

Files:
- `colors.dfy`: the 8-bit channel type, `Color`, `Black`, and the constants
  `LedCount = 60` and `LedBrightness = 150`.
- `rainbow.dfy`: the rainbow wheel arithmetic and the `call_count` counter.
- `strategies.dfy`: the three strategy classes and `Strategy`, which
  dispatches `get_color` on the installed object. It also holds
  `StrategyState` and `Step`, the abstract state and one call of `get_color`
  that the classes are proved against. `Run` gives the colours of a sequence
  of calls.
- `pulse.dfy`: brightness clamping and the pulse loop's locals as a pure step
  function.
- `led_strip.dfy`: the sink and the `LedStrip` class.

A random colour is a caller-supplied `draw: Color`. A pass draws one colour,
and each chase phase draws one. Only a call at pixel 0, or a call with nothing
cached, consumes a draw, and every pass and every phase starts at pixel 0. So
one draw per pass is the same as one draw per `random.randrange` triple. The
stop flag is an input: `stops[k]` is the value read at the k-th check.

## Model

| member | source | states |
|---|---|---|
| `Rainbow.Position` | led_strip.py:69 | the wheel position is always in [0, 256) |
| `Rainbow.Wheel` | led_strip.py:70-77 | every wheel colour has channels summing to 255 and at least one channel 0 |
| `Rainbow.PickColor` | led_strip.py:65-77 | `pick_color` yields channels in [0,255] (by type), summing to 255, with a zero channel |
| `Rainbow.WheelRoundTrip` | led_strip.py:70-77 | positions 0..254 are recovered from their colour, so they give distinct colours |
| `Rainbow.WheelWrapsAt255` | led_strip.py:69-77 | position 255 repeats position 0's colour (0,255,0), so the wheel closes on itself |
| `Rainbow.WheelContinuous` | led_strip.py:70-77 | neighbouring positions differ by at most 3 per channel |
| `Rainbow.PositionShifts` | led_strip.py:69 | one more `call_count` moves a pixel one position round the wheel |
| `Rainbow.PickColorExamples` | led_strip.py:65-77 | with length 60 and count 0, pixel 0 is (0,255,0) and pixel 30 is (126,0,129) |
| `Rainbow.NextCallCount` | led_strip.py:58-62 | `call_count` stays in [0,254]; at pixel 0 it becomes (c+1) mod 255; otherwise it is unchanged |
| `Rainbow.CallCountAfter` | led_strip.py:58-62 | any number of pixel-0 calls keeps the count in [0,254] |
| `Rainbow.CallCountAfterIsModular` | led_strip.py:58-62 | k pixel-0 calls take the count from c to (c+k) mod 255 |
| `Rainbow.CallCountPeriod` | led_strip.py:58-62 | the count returns to its start after exactly 255 pixel-0 calls, not earlier |
| `Strategies.Step` | led_strip.py:25-63 | one `get_color` keeps the abstract state valid (a rainbow count in [0,254], a positive length) and of the same strategy kind |
| `Strategies.Run` | led_strip.py:96-97 | a sequence of `get_color` calls yields one colour per call and keeps the strategy valid and of its kind |
| `Strategies.Ascending` | led_strip.py:96 | a pass visits 0..N-1 in ascending order |
| `Strategies.Bases` | led_strip.py:113 | a chase phase visits 0, 3, 6, ... below N |
| `Strategies.RunPrefix` | led_strip.py:96-97 | the colours of a prefix of calls are the prefix of the colours |
| `Strategies.RunExtends` | led_strip.py:96-97 | call i of a sequence is one `Step` from the state the first i calls leave, and its colour is the i-th colour of the whole run |
| `Strategies.RunFixed` | led_strip.py:25-26 | a fixed strategy gives its colour to every call and never changes |
| `Strategies.RunRandomFromZero` | led_strip.py:37-40 | calls that start at pixel 0 and never return to it all return the colour drawn at pixel 0, which ends cached |
| `Strategies.RunRandomCached` | led_strip.py:37-40 | with a colour cached and no pixel 0, every call returns the cache, state unchanged |
| `Strategies.Zeros` | led_strip.py:58-59 | the number of pixel-0 calls is at most the number of calls |
| `Strategies.RunRainbowCount` | led_strip.py:56-63 | after a sequence of calls the rainbow count has advanced once per pixel-0 call in it |
| `Strategies.RunRainbow` | led_strip.py:56-63 | call i uses the count advanced once per earlier pixel-0 call |
| `Strategies.ZeroFirstOnlyZeros` | led_strip.py:96 | in a sequence that starts at 0 and never returns to it, every non-empty prefix holds exactly one 0 |
| `Strategies.RainbowFromZeroState` | led_strip.py:56-63 | over indices that start at 0 and never return to it, the count advances exactly once |
| `Strategies.RainbowFromZero` | led_strip.py:56-63 | over such indices the first call uses the old count and every later call uses (c+1) mod 255 |
| `Strategies.RainbowPass` | led_strip.py:56-63 | in a rainbow pass pixel 0 uses the old count and pixels 1..N-1 use (c+1) mod 255, which is the new count |
| `Strategies.RandomPass` | led_strip.py:37-40 | in a random pass every pixel gets the colour drawn at pixel 0 |
| `Strategies.FixedColorStrategy.constructor` | led_strip.py:22-23 | stores the given colour |
| `Strategies.FixedColorStrategy.GetColor` | led_strip.py:25-26 | returns the stored colour for every pixel and reads no mutable state |
| `Strategies.RandomColorStrategy.constructor` | led_strip.py:34-35 | nothing cached |
| `Strategies.RandomColorStrategy.GetColor` | led_strip.py:37-40 | with a colour cached and pixel not 0, returns it and keeps it; otherwise caches the new draw and returns it |
| `Strategies.RainbowColorStrategy.constructor` | led_strip.py:48-54 | count 0 and the given length |
| `Strategies.RainbowColorStrategy.GetColor` | led_strip.py:56-63 | returns `pick_color` at the count from before the call; the count advances mod 255 only at pixel 0 and stays in [0,254] |
| `Strategies.Strategy.GetColor` | led_strip.py:97 | the dispatched `get_color` agrees with `Step` on the object's abstract state |
| `Pulse.Clamp` | led_strip.py:145 | the applied brightness never exceeds 150; values at or below 150, negatives included, pass unchanged |
| `Pulse.ClampIdempotent` | led_strip.py:145 | clamping twice is clamping once |
| `Pulse.PulseNext` | led_strip.py:131-138 | with a positive step size, a step from a brightness on the ramp (a non-negative multiple of the step size, at most ceiling + step - 1) lands on the ramp again |
| `Pulse.RampMove` | led_strip.py:138 | moving up from below the ceiling, or down from above 0, keeps a brightness on the ramp |
| `Pulse.PulseAfterOnRamp` | led_strip.py:124-139 | every brightness of the loop from 0 is on that ramp, and its clamped value is in [0,150] |
| `Pulse.RendersIffDark` | led_strip.py:131-135 | on the ramp, a step re-renders exactly when the brightness is 0 |
| `Pulse.RenderCount` | led_strip.py:133-134 | at most one re-render per step |
| `Pulse.PulseRises` | led_strip.py:124-138 | from 0 the brightness climbs by the step size per step until it reaches the ceiling |
| `Strip.ChaseState` | led_strip.py:112-118 | the strategy stays valid across chase phases |
| `Strip.ChaseStateKind` | led_strip.py:112-118 | chase phases keep the strategy's kind and a rainbow's length |
| `Strip.PhaseColors` | led_strip.py:113-114 | a phase obtains one colour per base index |
| `Strip.LitAt` | led_strip.py:113-114 | after m writes of phase q, slot j holds the colour of base j/3 if j has residue q and j < 3m, and its old colour otherwise |
| `Strip.LitChaseFrame` | led_strip.py:112-114 | lighting residue q over a buffer whose lower residues were cleared gives the phase's frame: lower residues black, residue q lit, the rest as before |
| `Strip.ChaseLogNext` | led_strip.py:112-116 | phase q of a chase cycle appends its frame after those of the earlier phases |
| `Strip.ChaseCycles` | led_strip.py:108-118 | c chase cycles show 3c frames |
| `Strip.ChaseCyclesNext` | led_strip.py:108-118 | cycle c + 1 appends its three frames after those of the first c cycles |
| `Strip.PulseBrightness` | led_strip.py:137-145 | after at least one pulse step the applied brightness is at most 150 |
| `Strip.PulseRender` | led_strip.py:131-135 | re-rendering during a pulse keeps the buffer length and the strategy valid and of its kind |
| `Strip.PulseLog` | led_strip.py:127-139 | k pulse steps add one frame per step plus one per re-render |
| `Strip.PulseLogPrefix` | led_strip.py:127-139 | the frames of the first k pulse steps are a prefix of the frames of any longer run |
| `Strip.RevealedExtends` | led_strip.py:96-97 | writing slot k into a buffer whose first k slots are new makes the first k+1 new |
| `Strip.PassLogAt` | led_strip.py:96-100 | an animated pass keeps the earlier show log and appends one frame per slot, the k-th with slots 0..k new and the rest old |
| `Strip.BasesZeroFirstOnly` | led_strip.py:113 | a phase asks about pixel 0 first and never again |
| `Strip.RainbowChaseCount` | led_strip.py:112-114 | a rainbow chase advances the count once per phase, three times per cycle |
| `Strip.RainbowChasePhase` | led_strip.py:112-114 | in phase q, base 0 uses the count advanced q times and base 3m uses it advanced q+1 times |
| `Strip.RandomChasePhase` | led_strip.py:112-114 | a random chase draws once per phase and lights the whole phase in that colour |
| `Strip.FixedChasePhase` | led_strip.py:112-114 | a fixed chase lights every slot in the stored colour and leaves the strategy unchanged |
| `Strip.LedStrip.constructor` | led_strip.py:82-87 | 60 black pixels at brightness 150, a black fixed strategy, and one frame shown |
| `Strip.LedStrip.SetColorStrategy` | led_strip.py:89-90 | the given strategy is installed |
| `Strip.LedStrip.Paint` | led_strip.py:97 | `setPixelColor(slot, get_color(pixel))`: the slot gets the colour of one `Step`, the strategy advances by that `Step`, every other slot is unchanged |
| `Strip.LedStrip.RevealStep` | led_strip.py:96-100 | one iteration of the pass: slot i is painted, and shown at once exactly when the delay is positive |
| `Strip.LedStrip.RevealPass` | led_strip.py:96-100 | after the loop slot i holds `get_color(i)` of calls made in ascending order, the strategy is as after those calls, and the log gained one frame per slot (`PassLog`) when animated and nothing otherwise |
| `Strip.LedStrip.DisplayColor` | led_strip.py:92-102 | the loop's effect followed by one final frame of the finished buffer: `show` runs once if ms <= 0 and N+1 times otherwise |
| `Strip.LedStrip.ChaseLight` | led_strip.py:113-114 | the buffer becomes the phase lit over the old one (`Lit`, read through `LitAt`): slot 3m+q gets the colour of base 3m, other slots are untouched; the strategy is as after the phase's calls |
| `Strip.LedStrip.ChaseClear` | led_strip.py:117-118 | exactly the slots of residue q become black |
| `Strip.LedStrip.ChasePhase` | led_strip.py:113-118 | one phase lights residue q, shows that buffer once, then blacks out residue q and nothing else |
| `Strip.LedStrip.ChasePhaseAt` | led_strip.py:112-118 | phase q of a cycle continuing a chase after a phases: the strategy is as after a + q + 1 phases, residues up to q are black and the rest as before, and the frame of phase a + q is appended |
| `Strip.LedStrip.TheaterChaseCycle` | led_strip.py:112-118 | a cycle continuing a chase after a phases appends the 3 phase frames in order (`ChaseLog`; frame q has residues below q black, residue q lit with the colours of phase a + q, the rest as before); afterwards every slot is black and the strategy is as after a + 3 phases |
| `Strip.LedStrip.ChaseCycleAt` | led_strip.py:108-118 | cycle c takes the strategy, the buffer and the log from their state after c cycles to their state after c + 1 |
| `Strip.LedStrip.TheaterChase` | led_strip.py:104-118 | the loop stops at the first raised flag, read only before a full cycle; the old log is kept, and cycle k appends its 3 frames over the buffer it starts from (the old buffer for k = 0, all black after), with the strategy as after 3k phases and draws 3k..3k+2 (`ChaseCycles`); the strategy ends as after 3 phases per cycle; the buffer is unchanged after no cycle and black after any |
| `Strip.LedStrip.PulseStep` | led_strip.py:127-139 | a step follows `PulseNext`, applies the clamped brightness and appends a frame of the buffer at that brightness; exactly when it re-renders, a full pass comes first and appends a frame at the old brightness; otherwise buffer and strategy are unchanged |
| `Strip.LedStrip.Pulse` | led_strip.py:120-139 | the loop stops at the first raised flag; buffer and strategy are as after a full pass at each re-rendering step (`PulseRender`); the brightness is that of the last step, or unchanged after none (`PulseBrightness`); the old log is kept and each step appends its frames (`PulseLog`), so shows = steps + re-renders; with a positive step the applied brightness is in [0,150] |
| `Strip.LedStrip.SetBrightness` | led_strip.py:141-147 | applies `min(b, 150)` with no lower clamp and shows one frame, pixels untouched |
| `Strip.LedStrip.Off` | led_strip.py:149-151 | installs a fresh black fixed strategy; every slot is black; brightness unchanged; one frame shown |

## Left out

- The NeoPixel driver (`Adafruit_NeoPixel`, `begin()`, the packed integer `Color`). `PixelSink` stands in for it.
- `time.sleep` pacing. It has no logical effect.
- The distribution of `random.randrange`. A draw is any caller-supplied colour.
- Other threads setting `self.stop`. The flag is the input `stops`, so `LedStrip` has no `stop` field.
- Strip.LedStrip.TheaterChase, Strip.LedStrip.Pulse: the source loops run until stopped. The model observes at most `|stops|` cycles or steps, and `cycles == |stops|` means no stop was seen within that horizon.
- Strip.LedStrip.TheaterChase, Strip.LedStrip.ChaseCycleAt, Strip.LedStrip.TheaterChaseCycle, Strip.LedStrip.ChasePhaseAt, Strip.LedStrip.ChasePhase, Strip.LedStrip.ChaseLight, Strip.LedStrip.ChaseClear: these require N to be a multiple of 3 (true for 60). The code writes slot i+q without a bound check, and what the driver does with an out-of-range slot is not modelled.
- Strategies.RainbowColorStrategy.constructor: requires a positive length. Length 0 makes `pick_color` divide by zero. A negative length, where Python truncates toward zero, is not modelled.
- Rainbow.Position: uses integer floor division where led_strip.py:69 divides floats and truncates with `int`. For a positive length and a pixel below N, `pixel * 256` is far below 2^53, so the rounded float quotient never reaches the next integer and truncation gives the same floor.
- The default arguments of `RainbowColorStrategy(rainbow_length=LED_COUNT)` (led_strip.py:48), `display_color`, `theater_chase`, `pulse` and `set_brightness`. Callers pass every argument.
- Strategies.Run: takes one `draw` for a whole sequence of calls, so it matches the source only for sequences in which at most one call draws a colour (a call at pixel 0, or the first call with nothing cached). Every pass and every chase phase starts at pixel 0 and never returns to it, so each is such a sequence (`Strategies.RunRandomFromZero`, `Strip.BasesZeroFirstOnly`).
- The `__main__` demo loop.
- `server.py`. It is an HTTP layer outside the core, and its `set_colors` has no body.
- Concurrent animations on one strip. The source does not arbitrate them.

## Notes on the code

- `set_brightness` (led_strip.py:145) clamps only from above: a negative level reaches the sink unchanged.
- `display_color` with a positive delay (led_strip.py:96-102) shows N+1 frames: one per pixel and the final one.
- `get_color` of the rainbow strategy (led_strip.py:58-62) resets `call_count` when it reaches 255, so the count stays in [0, 254].
- In a rainbow pass (led_strip.py:56-63) pixel 0 is coloured before the count advances and pixels 1..N-1 after it (`Strategies.RainbowPass`).
- The chase loop (led_strip.py:113-114) writes slot i + q with no test against N. Every base index below N is used.
