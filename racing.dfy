/** The two classes of main.py with the fields their methods update in
    place. Each method is proved against the pure function of CarPhysics
    or Session that specifies it, through the abstract values
    Racecar.Model() and Game.State(). */
module Racing {
  import CarPhysics
  import Track
  import LapTimer
  import Session

  class Racecar {
    var x: real
    var y: real
    var angle: int
    var speed: real
    var isAccelerating: bool
    var isBraking: bool

    /** The car's state as a value. */
    ghost function Model(): CarPhysics.Car
      reads this
    {
      CarPhysics.Car(x, y, angle, speed, isAccelerating, isBraking)
    }

    /** Racecar.__init__, without the sprite: at rest at the start pose,
      heading 0, no pedal pressed. */
    constructor ()
      ensures Model() == CarPhysics.START_CAR
    {
      x, y := CarPhysics.START_X, CarPhysics.START_Y;
      angle := 0;
      speed := 0.0;
      isAccelerating, isBraking := false, false;
    }

    /** Racecar.handle_input with the sampled keys as a parameter. */
    method HandleInput(keys: CarPhysics.Keys)
      modifies this
      ensures Model() == CarPhysics.HandleInput(old(Model()), keys)
      ensures isAccelerating == keys.up && isBraking == (keys.down || keys.space)
      ensures x == old(x) && y == old(y) && speed == old(speed)
    {
      isAccelerating := keys.up;
      isBraking := keys.down || keys.space;
      var rotation := 0;
      if keys.left {
        rotation := 1;
      } else if keys.right {
        rotation := -1;
      }
      if speed > CarPhysics.STEERING_THRESHOLD && rotation != 0 {
        angle := angle + CarPhysics.ROTATION_POWER * rotation;
      }
    }

    /** Racecar.update: acceleration, braking, friction, then either a move
      along the heading or the clamp of the speed to zero. */
    method Update(trig: CarPhysics.Trig)
      modifies this
      ensures Model() == CarPhysics.Update(old(Model()), trig)
      ensures speed >= 0.0 && angle == old(angle)
      ensures speed == 0.0 ==> x == old(x) && y == old(y)
    {
      if isAccelerating {
        speed := speed + CarPhysics.ACCELERATION;
      }
      if isBraking {
        speed := speed - CarPhysics.BRAKING_POWER;
      }
      if speed > 0.0 {
        speed := speed - CarPhysics.FRICTION_COEFFICIENT;
      }
      if speed > 0.0 {
        x := x + speed * trig.cosDeg(angle);
        y := y - speed * trig.sinDeg(angle);
      } else {
        speed := 0.0;
      }
    }
  }

  class Game {
    const car: Racecar
    /** The mask built once from the collision image. */
    const mask: Track.Mask
    /** math.cos and math.sin on a heading in degrees. */
    const trig: CarPhysics.Trig
    var skidMarks: seq<(real, real)>
    var running: bool
    var laptime: int
    var pauseLaptime: bool
    var lap1: bool
    var countingSeconds: string
    var countingMillisecond: string

    /** The game's state as a value. */
    ghost function State(): Session.GameState
      reads this, car
    {
      Session.GameState(car.Model(), skidMarks, running, laptime, pauseLaptime, lap1,
                        countingSeconds, countingMillisecond)
    }

    /** Game.__init__, without the window and the images: the collision
      mask and the clock reading are parameters. */
    constructor (mask: Track.Mask, trig: CarPhysics.Trig, now: int)
      ensures State() == Session.Initial(now)
      ensures this.mask == mask && this.trig == trig && fresh(car)
    {
      this.mask := mask;
      this.trig := trig;
      car := new Racecar();
      skidMarks := [];
      running := true;
      laptime := now;
      pauseLaptime := false;
      lap1 := false;
      countingSeconds, countingMillisecond := "0", "0";
    }

    method ShouldQuit(quit: bool)
      modifies this
      ensures State() == Session.ShouldQuit(old(State()), quit)
    {
      if quit {
        running := false;
      }
    }

    method Reset(now: int)
      modifies this, car
      ensures State() == Session.Reset(old(State()), now)
    {
      car.x, car.y := CarPhysics.START_X, CarPhysics.START_Y;
      car.speed := 0.0;
      car.angle := 0;
      laptime := now;
      lap1 := false;
    }

    /** Game.crash; `raised` reports the IndexError of the mask lookup, in
      which case nothing has changed. */
    method Crash(now: int) returns (raised: bool)
      modifies this, car
      ensures Session.Crash(old(State()), mask, now) ==
              if raised then Session.Raised(State()) else Session.Completed(State())
    {
      var probe := Track.CrashProbe(mask, car.x, car.y);
      raised := probe == Track.OutOfRange;
      if probe == Track.Offroad {
        Reset(now);
      }
    }

    /** The game logic of Game.update_car; the drawing is not modelled. */
    method UpdateCar(keys: CarPhysics.Keys)
      modifies this, car
      ensures State() == Session.UpdateCar(old(State()), keys, trig)
    {
      if Track.CollidePoint(Track.START_LINE, car.x, car.y) {
        lap1 := true;
      }
      if lap1 && Track.CollidePoint(Track.FINISH_LINE, car.x, car.y) {
        pauseLaptime := true;
      }
      car.HandleInput(keys);
      if car.isBraking {
        skidMarks := skidMarks + [(car.x, car.y)];
      }
      car.Update(trig);
    }

    /** The timer part of Game.display_text; the rendering is not modelled. */
    method DisplayText(now: int)
      modifies this
      ensures State() == Session.DisplayText(old(State()), now)
    {
      ghost var before := State();
      if !pauseLaptime {
        var countingTime := now - laptime;
        countingSeconds := LapTimer.SecondsText(countingTime);
        countingMillisecond := LapTimer.MillisText(countingTime);
        assert State() == before.(seconds := countingSeconds, millis := countingMillisecond);
      }
    }

    /** Game.update without the drawing; `raised` reports the IndexError
      that ends the tick and the program. */
    method Update(f: Session.Frame) returns (raised: bool)
      modifies this, car
      ensures Session.Tick(old(State()), f, mask, trig) ==
              if raised then Session.Raised(State()) else Session.Completed(State())
    {
      ShouldQuit(f.quit);
      raised := Crash(f.crashClock);
      if raised {
        return;
      }
      UpdateCar(f.keys);
      DisplayText(f.displayClock);
    }

    /** Game.run over a finite sequence of frames. */
    method Run(frames: seq<Session.Frame>) returns (raised: bool)
      modifies this, car
      ensures Session.Play(old(State()), frames, mask, trig) ==
              if raised then Session.Raised(State()) else Session.Completed(State())
    {
      var i := 0;
      raised := false;
      while running && i < |frames|
        invariant 0 <= i <= |frames|
        invariant Session.Play(old(State()), frames, mask, trig) ==
                  Session.Play(State(), frames[i..], mask, trig)
      {
        assert frames[i..][0] == frames[i] && frames[i..][1..] == frames[i + 1..];
        raised := Update(frames[i]);
        if raised {
          return;
        }
        i := i + 1;
      }
    }
  }
}
