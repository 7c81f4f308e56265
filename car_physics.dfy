/** Longitudinal physics and steering of the racecar (class Racecar in
    main.py), written as pure functions on a value that holds the car's
    state. The class Racing.Racecar performs the same steps in place. */
module CarPhysics {

  /** Speed gained per tick while the accelerator is held. */
  const ACCELERATION: real := 0.03
  /** Speed lost per tick while the brake is held. */
  const BRAKING_POWER: real := 0.1
  /** Speed lost per tick to friction while the car moves forward
      (defined on the Game class in the source, read by the car). */
  const FRICTION_COEFFICIENT: real := 0.01
  /** Degrees turned per tick while a steering key is held. */
  const ROTATION_POWER: int := 2
  /** Steering acts only while the speed is above this value. */
  const STEERING_THRESHOLD: real := 1.0
  /** Start pose: top-left corner of the car's sprite. */
  const START_X: real := 450.0
  const START_Y: real := 650.0

  /** The car: top-left corner of its sprite, heading in whole degrees
      (0 points along +x, counter-clockwise positive), speed in pixels per
      tick, and the two control intents set from the keyboard. */
  datatype Car = Car(x: real, y: real, angle: int, speed: real, accelerating: bool, braking: bool)

  /** The state of the five keys the car reads at one tick. */
  datatype Keys = Keys(up: bool, down: bool, left: bool, right: bool, space: bool)

  /** Cosine and sine of a heading given in whole degrees: they stand for
      math.cos and math.sin applied to angle * pi / 180 and are left
      uninterpreted. */
  datatype Trig = Trig(cosDeg: int -> real, sinDeg: int -> real)

  /** The car as Racecar's constructor builds it. */
  const START_CAR: Car := Car(START_X, START_Y, 0, 0.0, false, false)

  function Max0(v: real): real
  {
    if v > 0.0 then v else 0.0
  }

  /** The speed after acceleration, braking and friction, in that order,
      before the clamp at zero. Friction acts only on a positive speed. */
  function Integrated(s: real, accelerating: bool, braking: bool): real
  {
    var accelerated := if accelerating then s + ACCELERATION else s;
    var braked := if braking then accelerated - BRAKING_POWER else accelerated;
    if braked > 0.0 then braked - FRICTION_COEFFICIENT else braked
  }

  /** The speed one tick of `Update` leaves: never negative, and for a
      non-negative prior speed one of four closed forms, one per
      combination of the two pedals. */
  function SpeedAfter(s: real, accelerating: bool, braking: bool): (r: real)
    ensures r >= 0.0
    ensures s >= 0.0 && !accelerating && !braking ==> r == Max0(s - 0.01)
    ensures s >= 0.0 && accelerating && !braking ==> r == s + 0.02 && r > s
    ensures s >= 0.0 && !accelerating && braking ==> r == Max0(s - 0.11)
    ensures s >= 0.0 && accelerating && braking ==> r == Max0(s - 0.08)
  {
    Max0(Integrated(s, accelerating, braking))
  }

  /** Racecar.handle_input: the pedal intents come from the keys; left wins
      over right; the heading turns by ROTATION_POWER degrees only above
      the steering threshold. Position and speed are not touched. */
  function HandleInput(c: Car, keys: Keys): (r: Car)
    ensures r.accelerating == keys.up
    ensures r.braking == (keys.down || keys.space)
    ensures r.x == c.x && r.y == c.y && r.speed == c.speed
    ensures c.speed > 1.0 && keys.left ==> r.angle == c.angle + 2
    ensures c.speed > 1.0 && !keys.left && keys.right ==> r.angle == c.angle - 2
    ensures c.speed <= 1.0 || (!keys.left && !keys.right) ==> r.angle == c.angle
  {
    var rotation := if keys.left then 1 else if keys.right then -1 else 0;
    var angle := if c.speed > STEERING_THRESHOLD && rotation != 0
                 then c.angle + ROTATION_POWER * rotation else c.angle;
    c.(accelerating := keys.up, braking := keys.down || keys.space, angle := angle)
  }

  /** Racecar.update: the new speed is `SpeedAfter`; a positive speed moves
      the car that far along its heading (screen y grows downwards), a zero
      speed leaves it where it is. Heading and intents are not touched. */
  function Update(c: Car, trig: Trig): (r: Car)
    ensures r.speed == SpeedAfter(c.speed, c.accelerating, c.braking)
    ensures r.speed > 0.0 ==>
              r.x == c.x + r.speed * trig.cosDeg(c.angle) && r.y == c.y - r.speed * trig.sinDeg(c.angle)
    ensures r.speed == 0.0 ==> r.x == c.x && r.y == c.y
    ensures r.angle == c.angle && r.accelerating == c.accelerating && r.braking == c.braking
  {
    var s := Integrated(c.speed, c.accelerating, c.braking);
    if s > 0.0 then
      c.(speed := s, x := c.x + s * trig.cosDeg(c.angle), y := c.y - s * trig.sinDeg(c.angle))
    else
      c.(speed := 0.0)
  }

  /** Holding only the accelerator makes the speed grow by 0.02 per tick,
      from any non-negative speed and for any number of ticks: friction
      never catches up with acceleration, and the speed grows without
      bound. */
  lemma {:induction false} AcceleratingGainsPerTick(c: Car, trig: Trig, n: nat)
    requires c.speed >= 0.0 && c.accelerating && !c.braking
    ensures RepeatUpdate(c, trig, n).speed == c.speed + 0.02 * n as real
    ensures n > 0 ==> RepeatUpdate(c, trig, n).speed > RepeatUpdate(c, trig, n - 1).speed
  {
    if n > 0 {
      AcceleratingGainsPerTick(c, trig, n - 1);
    }
  }

  /** `n` ticks of `Update` with the intents left as they are. */
  function RepeatUpdate(c: Car, trig: Trig, n: nat): (r: Car)
    ensures r.accelerating == c.accelerating && r.braking == c.braking
    ensures r.angle == c.angle
  {
    if n == 0 then c else Update(RepeatUpdate(c, trig, n - 1), trig)
  }
}
