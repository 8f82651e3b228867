# ASCII wave animator — verified model

The animator draws ASCII-art wave patterns in a terminal and cycles through
three effects: sine-wave interference, a ripple and a plasma field. This
project models its two discrete parts and proves properties about them.

- **Pattern generator** (`WavePattern`, `wave_pattern.dfy`). This is
  `generate_wave_pattern`. Nested loops build `height` rows of `width`
  glyphs. For each cell, three wave values are computed by the formula for
  the wave type. Their mean is scaled onto the ten-glyph palette
  `" .:-=+*#%@"`, truncated toward zero, clamped to [0, 9] and looked up.
  The method `GenerateWavePattern` keeps the source's loops and is proved
  equal to the specification function `Grid`. `Grid` states the shape of
  the grid and that every glyph comes from the palette.
- **Animation driver** (`Animator`, `animator.dfy`). This is the loop of
  `main`. Its state is `(t, pattern_idx, frame_count)`. Each tick draws the
  frame of the current pattern, adds 0.15 to `t` and counts the frame.
  Once the count reaches 50, it goes back to 0 and the pattern index
  advances modulo 3. The method `Animate` keeps the source's variables and
  loop. It is proved against `Run`, which repeats the pure transition
  `Step`. Lemmas prove the loop invariant, a closed form for every tick
  count, the 50-tick pattern switch and the exact 150-tick cycle.

Sine, cosine and square root are not modelled. They are the three fields
of a `MathFns` value passed to the generator. The assumption that sine
and cosine stay in [-1, 1] is the predicate `Bounded`, used only in the
properties that need it. Floats are modelled as Dafny's exact `real`
numbers. The source's `int(...)` is modelled as truncation toward zero,
and `RoundingIrrelevant` shows that after the clamp this gives the same
index as floor.

`width` and `height` are integers of any sign, as in the source:
`range(n)` of a negative `n` is empty, so negative sizes act like 0 (see
`RangeLength`). Some descriptions of the program ask for positive sizes
only; the model follows the code.

Any wave-type name other than `"sine"` or `"ripple"` is drawn as plasma
(`KindOf`). `"sine"` is the default, as in the source.

## Model

| member | source | states |
|---|---|---|
| `WavePattern.KindOf` | ancii_animator.py:18-30 | the name picks Sine exactly when it is "sine" and Ripple exactly when it is "ripple"; every other name is drawn as Plasma |
| `WavePattern.WaveValues` | ancii_animator.py:18-30 | the three kind-specific wave values of a cell (centre at width/2, height/2 by true division); each lies in [-1, 1] when sine and cosine do |
| `WavePattern.Combined` | ancii_animator.py:33 | the mean of three values in [-1, 1] is in [-1, 1] |
| `WavePattern.Trunc` | ancii_animator.py:36 | int() of a float: for r >= 0 the result i is a natural number with i <= r < i + 1; for r < 0 it is at most 0 with i - 1 < r <= i |
| `WavePattern.Clamp` | ancii_animator.py:37 | the result is always a palette position in [0, 9]; an index already in range is unchanged, and an index below or above the range goes to 0 or 9 |
| `WavePattern.CellIndex` | ancii_animator.py:36-37 | the palette position of a combined value is in [0, 9] for every real, so the lookup never goes out of range |
| `WavePattern.CellChar` | ancii_animator.py:11-38 | the glyph drawn for any combined value is one of the ten palette characters |
| `WavePattern.Grid` | ancii_animator.py:12-42 | a grid of exactly `height` rows (none when height <= 0), each of exactly `width` glyphs (empty strings when width <= 0), every glyph from the palette |
| `WavePattern.GenerateWavePattern` | ancii_animator.py:9-42 | the nested row/column loops, with the per-cell formula, truncation, clamp and lookup, build exactly `Grid` for the kind the name selects |
| `WavePattern.ClampInert` | ancii_animator.py:33-37 | when sine and cosine stay in [-1, 1], every cell's combined value is in [-1, 1], its truncated index is already in [0, 9], and the clamp changes nothing |
| `WavePattern.UnitIndex` | ancii_animator.py:36-37 | for a combined value in [-1, 1] the scaled value lies in [0, 9] and the index is its integer part, with no clamping |
| `WavePattern.IndexCharacterised` | ancii_animator.py:36-37 | for c in [-1, 1], k is the index of c exactly when k <= (c + 1) * 9 / 2 < k + 1 |
| `WavePattern.IndexEndpoints` | ancii_animator.py:11-37 | -1 maps to index 0 (' '), 1 to index 9 ('@') and 0 to the middle index 4 ('=') |
| `WavePattern.IndexMonotone` | ancii_animator.py:36-37 | a larger combined value never maps to a smaller palette index |
| `WavePattern.RoundingIrrelevant` | ancii_animator.py:36-37 | after the clamp, truncation toward zero and floor give the same index for every real |
| `Animator.Step` | ancii_animator.py:84-90 | one tick adds 0.15 to t and keeps 0 <= frame_count < 50 and 0 <= pattern_idx < 3; the pattern changes exactly on the ticks where the frame count wraps to 0, and otherwise the count grows by one |
| `Animator.RunValid` | ancii_animator.py:69-90 | the loop invariant (frame count below 50, pattern index below 3) holds after any number of ticks from a state that satisfies it, so `patterns[pattern_idx]` is always a valid lookup |
| `Animator.RunClosedForm` | ancii_animator.py:84-90 | n ticks from a valid state add 0.15 n to t, set the frame count to (frame_count + n) mod 50, and advance the pattern index by (frame_count + n) div 50, modulo 3 |
| `Animator.RunFromInitial` | ancii_animator.py:69-90 | from (0, 0, 0), after n ticks the state is t = 0.15 n, pattern_idx = (n div 50) mod 3, frame_count = n mod 50 |
| `Animator.PatternSwitch` | ancii_animator.py:69-90 | after k * 50 ticks from the start, pattern k mod 3 begins with frame count 0; for k = 1 that is the second pattern |
| `Animator.FirstPattern` | ancii_animator.py:69-90 | for the first 50 ticks the first pattern is shown and the frame count equals the number of ticks so far |
| `Animator.FullCycle` | ancii_animator.py:69-90 | after 150 ticks from the start the state is (22.5, 0, 0): back at the first pattern |
| `Animator.CycleLength` | ancii_animator.py:84-90 | from any valid state, the pattern index and the frame count come back after 150 ticks and after no smaller positive number of ticks |
| `Animator.FrameOf` | ancii_animator.py:75-76 | the frame drawn in a valid state carries the title of the current pattern and a 24-row grid of 80-glyph rows |
| `Animator.Frames` | ancii_animator.py:74-76 | the driver shows exactly one frame per tick |
| `Animator.FramesAt` | ancii_animator.py:74-90 | frame i of a run is the frame of the state reached after i ticks from the start |
| `Animator.Animate` | ancii_animator.py:68-90 | the driver loop, stopped after `ticks` iterations, ends in the state `Run` gives for that many ticks, which satisfies the invariant; frame i shows the pattern and the grid of the state after i ticks |

## Left out

- `clear_screen` (the `os.system` call), `print_pattern`, the banner, the
  status line and the farewell message are terminal output. They are not
  modelled. The driver's frames are values holding a title and a grid.
- The `time.sleep` calls only pace the frames and have no logic to model.
- `KeyboardInterrupt` ends the loop from outside. `Animate` instead runs
  the source's loop for a given number of ticks, which stands for an
  interrupt that arrives after that many frames.
- The values of `math.sin`, `math.cos` and `math.sqrt` are parameters, and
  floats are exact reals. The model does not capture IEEE rounding, for
  example the drift of adding 0.15 again and again, where the model's t is
  exactly 0.15 n.
- Two checks need real trigonometric values, so they have no counterpart
  here: a fixed golden output for a small grid, and the claim that the
  three kinds draw different grids.
- Determinism holds by construction: every operation is a function of its
  inputs, and `GenerateWavePattern` is proved equal to the function `Grid`.
