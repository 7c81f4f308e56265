/** One race session of the Game class in main.py, as pure functions on a
    value that holds the whole game state: the crash-and-reset step, the
    lap gates and the skid trail of update_car, the lap-timer fields of
    display_text, the step order of update and the loop of run. The class
    Racing.Game performs the same steps in place. */
module Session {
  import opened CarPhysics
  import opened Track
  import opened LapTimer

  /** Everything a tick reads or writes: the car, the skid trail (one
      position per braking tick), the run flag, the lap baseline in
      milliseconds, the pause flag (pauseLaptime), the lap-started flag
      (lap1) and the two timer fields as display_text last wrote them. */
  datatype GameState = GameState(
    car: Car,
    skidMarks: seq<(real, real)>,
    running: bool,
    laptime: int,
    paused: bool,
    lap1: bool,
    seconds: string,
    millis: string)

  /** The outside world at one tick: whether a quit event is pending, the
      keys, and the clock (pygame.time.get_ticks) as the crash reset and
      as display_text read it. */
  datatype Frame = Frame(quit: bool, keys: Keys, crashClock: int, displayClock: int)

  /** A step either completes or stops with the IndexError that the mask
      lookup raises; `state` is the state at that point. */
  datatype TickResult = Completed(state: GameState) | Raised(state: GameState)

  /** The state Game's constructor builds; the two timer fields hold the
      integer 0, which %s shows as "0". */
  function Initial(now: int): (g: GameState)
    ensures g.car == START_CAR && g.skidMarks == [] && g.running
    ensures g.laptime == now && !g.paused && !g.lap1
    ensures g.seconds == "0" && g.millis == "0"
  {
    GameState(START_CAR, [], true, now, false, false, "0", "0")
  }

  /** Game.should_quit: a quit event clears the run flag; nothing sets it. */
  function ShouldQuit(g: GameState, quit: bool): (r: GameState)
    ensures r.running <==> g.running && !quit
    ensures r.(running := g.running) == g
  {
    if quit then g.(running := false) else g
  }

  /** Game.reset: the car goes back to the start pose at rest, the lap
      baseline becomes `now` and the lap is no longer started. The pedal
      intents, the pause flag, the skid trail and the timer fields stay. */
  function Reset(g: GameState, now: int): (r: GameState)
    ensures r.car.x == START_X && r.car.y == START_Y && r.car.speed == 0.0 && r.car.angle == 0
    ensures r.car.accelerating == g.car.accelerating && r.car.braking == g.car.braking
    ensures r.laptime == now && !r.lap1
    ensures r.(car := g.car, laptime := g.laptime, lap1 := g.lap1) == g
  {
    g.(car := g.car.(x := START_X, y := START_Y, speed := 0.0, angle := 0),
       laptime := now, lap1 := false)
  }

  /** Resetting twice is resetting once, whatever the first clock read. */
  lemma ResetIdempotent(g: GameState, t1: int, t2: int)
    ensures Reset(Reset(g, t1), t2) == Reset(g, t2)
  {
  }

  /** Game.crash: a reset exactly when the car is past the right or
      bottom edge or on an off-road pixel; the IndexError of the lookup
      when it is a whole pixel or more beyond the left or top edge;
      otherwise no change at all. */
  function Crash(g: GameState, mask: Mask, now: int): (r: TickResult)
    ensures g.car.x >= 700.0 || g.car.y >= 700.0 ==> r == Completed(Reset(g, now))
    ensures g.car.x < 700.0 && g.car.y < 700.0 && (g.car.x <= -1.0 || g.car.y <= -1.0) ==>
              r == Raised(g)
    ensures -1.0 < g.car.x < 700.0 && -1.0 < g.car.y < 700.0 ==>
              r == if mask(Trunc(g.car.x), Trunc(g.car.y)) then Completed(Reset(g, now))
                   else Completed(g)
  {
    match CrashProbe(mask, g.car.x, g.car.y)
    case Clear => Completed(g)
    case Offroad => Completed(Reset(g, now))
    case OutOfRange => Raised(g)
  }

  /** The game logic of Game.update_car: the gate checks at the current
      position, then the car's input handling, then a skid mark at that
      position when the car brakes, then the car's physics. */
  function UpdateCar(g: GameState, keys: Keys, trig: Trig): (r: GameState)
    ensures r.lap1 <==> g.lap1 || (520.0 <= g.car.x < 535.0 && 605.0 <= g.car.y < 695.0)
    ensures r.paused <==> g.paused || (r.lap1 && 470.0 <= g.car.x < 485.0 && 605.0 <= g.car.y < 695.0)
    ensures r.paused && !g.paused ==> g.lap1
    ensures r.skidMarks == if keys.down || keys.space then g.skidMarks + [(g.car.x, g.car.y)]
                           else g.skidMarks
    ensures r.car == CarPhysics.Update(CarPhysics.HandleInput(g.car, keys), trig)
    ensures r.(car := g.car, lap1 := g.lap1, paused := g.paused, skidMarks := g.skidMarks) == g
  {
    InStartLine(g.car.x, g.car.y);
    InFinishLine(g.car.x, g.car.y);
    var lap1 := g.lap1 || CollidePoint(START_LINE, g.car.x, g.car.y);
    var paused := g.paused || (lap1 && CollidePoint(FINISH_LINE, g.car.x, g.car.y));
    var steered := CarPhysics.HandleInput(g.car, keys);
    var skidMarks := if steered.braking then g.skidMarks + [(steered.x, steered.y)] else g.skidMarks;
    g.(lap1 := lap1, paused := paused, skidMarks := skidMarks,
       car := CarPhysics.Update(steered, trig))
  }

  /** The timer part of Game.display_text: while not paused both fields
      are rewritten from the time elapsed since the lap baseline (three
      digits of milliseconds, the seconds within the current minute);
      while paused nothing changes. */
  function DisplayText(g: GameState, now: int): (r: GameState)
    ensures g.paused ==> r == g
    ensures !g.paused ==>
              |r.millis| == 3 && AllDigits(r.millis) && DecimalValue(r.millis) == (now - g.laptime) % 1000 &&
              AllDigits(r.seconds) && DecimalValue(r.seconds) < 60 &&
              1 <= |r.seconds| <= 2 && (r.seconds[0] == '0' ==> r.seconds == "0") &&
              DecimalValue(r.seconds) * 1000 + DecimalValue(r.millis) == (now - g.laptime) % 60000
    ensures r.(seconds := g.seconds, millis := g.millis) == g
  {
    if g.paused then g
    else
      TimerShowsElapsedModMinute(now - g.laptime);
      g.(seconds := SecondsText(now - g.laptime), millis := MillisText(now - g.laptime))
  }

  /** What a tick may do to the state and what it never undoes: skid marks
      are only ever appended, a set pause flag stays set and freezes the
      two timer fields, and a cleared run flag stays cleared. */
  ghost predicate Evolves(g: GameState, h: GameState)
  {
    && g.skidMarks <= h.skidMarks
    && (g.paused ==> h.paused && h.seconds == g.seconds && h.millis == g.millis)
    && (!g.running ==> !h.running)
  }

  lemma EvolvesTransitive(a: GameState, b: GameState, c: GameState)
    requires Evolves(a, b) && Evolves(b, c)
    ensures Evolves(a, c)
  {
  }

  /** Game.update without the drawing: should_quit, crash, update_car,
      display_text, in that order. A completed tick leaves a non-negative
      speed and adds at most one skid mark. */
  function Tick(g: GameState, f: Frame, mask: Mask, trig: Trig): (r: TickResult)
    ensures r.Raised? ==> r.state == ShouldQuit(g, f.quit)
    ensures r.Completed? ==> r.state.car.speed >= 0.0
    ensures |r.state.skidMarks| <= |g.skidMarks| + 1
    ensures Evolves(g, r.state)
  {
    var g1 := ShouldQuit(g, f.quit);
    match Crash(g1, mask, f.crashClock)
    case Raised(s) => Raised(s)
    case Completed(g2) => Completed(DisplayText(UpdateCar(g2, f.keys, trig), f.displayClock))
  }

  /** Game.run over a finite sequence of frames: ticks while the run flag
      holds and frames remain, and stops at the first tick that raises. */
  function Play(g: GameState, frames: seq<Frame>, mask: Mask, trig: Trig): (r: TickResult)
    ensures Evolves(g, r.state)
    ensures g.car.speed >= 0.0 ==> r.state.car.speed >= 0.0
    ensures |r.state.skidMarks| <= |g.skidMarks| + |frames|
    decreases |frames|
  {
    if !g.running || frames == [] then Completed(g)
    else
      match Tick(g, frames[0], mask, trig)
      case Raised(s) => Raised(s)
      case Completed(s) =>
        var r := Play(s, frames[1..], mask, trig);
        EvolvesTransitive(g, s, r.state);
        r
  }

  /** Once the lap time is paused it is never un-paused, and the shown
      time never changes again, over any run, crashes and resets
      included. */
  lemma PauseIsFinal(g: GameState, frames: seq<Frame>, mask: Mask, trig: Trig)
    requires g.paused
    ensures Play(g, frames, mask, trig).state.paused
    ensures Play(g, frames, mask, trig).state.seconds == g.seconds
    ensures Play(g, frames, mask, trig).state.millis == g.millis
  {
  }

  /** The skid trail of any run extends the trail it started with: no
      mark is ever removed or changed. */
  lemma SkidMarksOnlyGrow(g: GameState, frames: seq<Frame>, mask: Mask, trig: Trig, i: nat)
    requires i < |g.skidMarks|
    ensures i < |Play(g, frames, mask, trig).state.skidMarks|
    ensures Play(g, frames, mask, trig).state.skidMarks[i] == g.skidMarks[i]
  {
  }
}
