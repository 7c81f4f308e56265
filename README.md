# Top-down racing game: car physics, crash reset, lap gates and lap timer

This project models the game logic of a small pygame racing game (`main.py`).
One car drives over a fixed 700×700 track. Each tick runs the same steps.
A quit event clears the run flag. The crash test resets the car when it leaves
the play area at the right or bottom edge, or stands on an off-road pixel of the
collision mask. The car then reads its keys and steers, and leaves a skid mark
while braking. It integrates acceleration, braking and friction and moves along
its heading. The start gate arms the lap. Once armed, the finish gate freezes
the timer, which counts from the last reset or from the start of the game and
is shown as seconds and zero-padded milliseconds.

Modules:

- `CarPhysics` (car_physics.dfy): the constants, the car's state as a value, and
  `HandleInput` / `Update` of class `Racecar` as pure functions. `SpeedAfter`
  gives the per-tick speed in closed form.
- `Track` (track.dfy): pygame's `Rect.collidepoint` on the real position, which
  pygame truncates to whole pixels. Also the two gates and the crash condition.
  The collision mask is an abstract pixel predicate.
- `LapTimer` (lap_timer.dfy): Python's `str` on non-negative integers,
  `str.zfill`, and the seconds and milliseconds fields of the timer, with
  round-trip lemmas.
- `Session` (session.dfy): the whole game state as a value. It holds one pure
  function per step of `Game` (`Reset`, `Crash`, `UpdateCar`, `DisplayText`),
  the tick `Tick` in the source's step order, and the run loop `Play` over a
  finite sequence of frames. Each frame carries the quit event, the keys and the
  clock readings. `Evolves` states what no tick ever undoes.
- `Racing` (racing.dfy): the classes `Racecar` and `Game` with the fields the
  source updates in place. Each method is proved against its `CarPhysics` or
  `Session` function, through `Racecar.Model()` and `Game.State()`.

The model follows main.py as written:

- Steering acts only while `speed > 1` (main.py:42). It is not `speed > 0`.
- The crash test checks one point (main.py:128). It does not test the car's
  silhouette against the mask.
- The lap timer runs from the baseline whether or not the lap has started.
  `display_text` rewrites the fields whenever `pauseLaptime` is unset
  (main.py:133-136).
- Past the left or top edge, by a whole pixel or more, `Mask.get_at` raises
  `IndexError`. That tick stops and so does the program. The crash guard only
  covers the right and bottom edges (main.py:128). The model carries this as
  the `OutOfRange` probe and the `Raised` tick result.

Pygame behaviour the model takes as given:

- `Rect.collidepoint` and `Mask.get_at` cast float coordinates to C `int`, that
  is, truncation toward zero (`Track.Trunc`).
- `int((t % 60000) / 1000)` equals the integer quotient, because float division
  of an integer below 60000 by 1000 never rounds up to the next integer.
- Python's `%` with a positive divisor agrees with Dafny's `%`, so no sign
  condition on the elapsed time is needed.

## Model

| member | source | states |
|---|---|---|
| CarPhysics.SpeedAfter | main.py:50-62 | the new speed is never negative; for a non-negative prior speed it is max(0, s−0.01) with no pedal, s+0.02 (strictly larger) accelerating only, max(0, s−0.11) braking only, max(0, s−0.08) with both |
| CarPhysics.HandleInput | main.py:27-46 | accelerating = up, braking = down or space; above speed 1 the heading turns +2 with left, −2 with right and not left, otherwise it stays; position and speed unchanged |
| CarPhysics.Update | main.py:48-62 | the speed becomes SpeedAfter of the old speed and intents; a positive speed moves the car by speed·(cos, −sin) of its heading; a zero speed leaves x and y unchanged; heading and intents unchanged |
| CarPhysics.AcceleratingGainsPerTick | main.py:50-62 | holding only the accelerator for n ticks from speed s ≥ 0 gives speed s + 0.02·n, strictly larger than after n−1 ticks |
| Track.Trunc | main.py:128 | the pixel coordinate is the real coordinate truncated toward zero: within one pixel of it, on the same side of zero |
| Track.CollidePointExact | main.py:149-151 | for a rectangle right of and below the origin pixel, collidepoint on the truncated point is exactly the half-open real box test left ≤ x < left+w, top ≤ y < top+h |
| Track.InStartLine | main.py:93 | the start gate holds the points of [520, 535) × [605, 695) and no others |
| Track.InFinishLine | main.py:92 | the finish gate holds the points of [470, 485) × [605, 695) and no others |
| Track.CrashProbe | main.py:128 | x ≥ 700 or y ≥ 700 is off-road; otherwise x ≤ −1 or y ≤ −1 makes the mask lookup raise; otherwise the truncated pixel lies in the mask and decides |
| LapTimer.DecimalString | main.py:135-136 | str of a non-negative integer is a non-empty digit string with no leading zero unless the number is 0 |
| LapTimer.DecimalRoundTrip | main.py:135-136 | reading back the digits of str(n) gives n |
| LapTimer.DecimalStringLength | main.py:136 | a number below 10^k has at most k digits |
| LapTimer.ZFill | main.py:136 | zfill yields max(len, width) characters: zeros on the left, put after a leading sign, and the string unchanged when it is already long enough |
| LapTimer.ZFillDigits | main.py:136 | zfill on a digit string gives a digit string of the same value |
| LapTimer.Seconds | main.py:135 | the seconds value lies in 0..59 and is the whole number of seconds in t mod 60000 |
| LapTimer.SecondsText | main.py:135 | the seconds field has one or two digits, no leading zero unless it is "0", and reads back as Seconds(t) |
| LapTimer.MillisText | main.py:136 | the milliseconds field always has exactly three digits and reads back as t mod 1000 |
| LapTimer.TimerShowsElapsedModMinute | main.py:134-137 | seconds·1000 + milliseconds, as shown, equals the elapsed time mod 60000 |
| Session.Initial | main.py:95-105 | the session starts with the car at the start pose, an empty skid trail, running, baseline = now, neither paused nor in a lap, both timer fields "0" |
| Session.ShouldQuit | main.py:107-110 | a quit event clears the run flag; nothing else changes and nothing sets it |
| Session.Reset | main.py:112-122 | position (450, 650), speed 0, heading 0, baseline = now, lap1 cleared; intents, pause flag, skid trail, timer fields and run flag untouched |
| Session.ResetIdempotent | main.py:112-122 | resetting twice gives the same state as resetting once |
| Session.Crash | main.py:127-129 | a reset exactly when x ≥ 700, y ≥ 700 or the mask is set at the car's pixel; a raised lookup, with no change, a pixel or more past the left or top edge; otherwise no change |
| Session.UpdateCar | main.py:146-163 | lap1 becomes true in the start gate; the pause flag becomes true only in the finish gate with lap1 already set; exactly one skid mark, the pre-update position, when down or space is held, else the trail is unchanged; the car gets HandleInput then Update |
| Session.DisplayText | main.py:131-137 | while not paused, three-digit milliseconds and seconds below 60, written without a leading zero, that together show the elapsed time mod 60000; while paused nothing changes |
| Session.Tick | main.py:170-176 | should_quit, crash, update_car, display_text in that order; a completed tick leaves speed ≥ 0 and adds at most one skid mark; a raising tick changes only the run flag |
| Session.Play | main.py:181-184 | over any run the skid trail only grows, a set pause flag stays set with frozen timer fields, a cleared run flag stays cleared, and a non-negative speed stays non-negative |
| Session.PauseIsFinal | main.py:151-152 | once paused, no run ever clears the pause flag or changes the shown time, resets included |
| Session.SkidMarksOnlyGrow | main.py:155-156 | every existing skid mark survives any run unchanged at its index |
| Racing.Racecar.constructor | main.py:12-22 | a new car is at rest at (450, 650), heading 0, no pedal pressed |
| Racing.Racecar.HandleInput | main.py:27-46 | the fields become CarPhysics.HandleInput of the old ones |
| Racing.Racecar.Update | main.py:48-62 | the fields become CarPhysics.Update of the old ones: speed ≥ 0, heading unchanged, no move at speed 0 |
| Racing.Game.constructor | main.py:72-105 | the new game's state is Session.Initial(now), with a fresh car |
| Racing.Game.ShouldQuit | main.py:107-110 | the state becomes Session.ShouldQuit of the old one |
| Racing.Game.Reset | main.py:112-122 | the state becomes Session.Reset of the old one |
| Racing.Game.Crash | main.py:127-129 | the state and the raised flag are those of Session.Crash |
| Racing.Game.UpdateCar | main.py:146-167 | the state becomes Session.UpdateCar of the old one |
| Racing.Game.DisplayText | main.py:131-137 | the state becomes Session.DisplayText of the old one |
| Racing.Game.Update | main.py:170-179 | the state and the raised flag are those of Session.Tick |
| Racing.Game.Run | main.py:181-184 | the state and the raised flag are those of Session.Play over the given frames |

## Left out

- Window, display, image loading and scaling, blitting, fonts, the speed text
  (`speed*15:.2f`), the "LAPTIME: %s.%s" caption, `pg.display.update` and
  `clock.tick`: all are rendering and I/O through pygame.
- Drawing the skid rectangles, the debug box and the car sprite: rendering only.
- The sprite, rect and mask regenerated with `pg.transform.rotate` and
  `pg.mask.from_surface` in `handle_input` and `reset`. main.py never uses the
  car's own mask for collision.
- The collision mask's contents: a loaded image. The model takes it as an
  abstract pixel predicate.
- `pg.key.get_pressed`, the event queue and `pg.time.get_ticks`: external input.
  Each frame passes them in as the keys, a quit flag and two clock readings.
- `math.cos`, `math.sin` and the degree-to-radian conversion: foreign numeric
  functions. They stay uninterpreted functions of the whole-degree heading.
- IEEE floating point: speed and position are exact reals. The closed forms
  of `SpeedAfter` (for example s + 0.02) hold of the reals, not of rounded
  floats.
- Racing.Game.Run: the source loops until a quit event, possibly forever. The
  model runs over a finite sequence of frames and stops when they run out.
- The three ray-cast distance sensors and silhouette-overlap collision: they
  are not in main.py, and no other source file is part of this model.
