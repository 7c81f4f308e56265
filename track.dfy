/** The track's geometry: the play area, the off-road mask, the start and
    finish gates, and the crash test of Game.crash in main.py. */
module Track {

  /** Width and height of the play area and of the scaled collision image. */
  const PLAY_SIZE: int := 700

  /** The off-road mask: true at an off-road pixel. pygame's Mask only
      answers for 0 <= px < PLAY_SIZE and 0 <= py < PLAY_SIZE. */
  type Mask = (int, int) -> bool

  /** An axis-aligned pygame Rect with integer corner and size. */
  datatype Rect = Rect(left: int, top: int, width: int, height: int)

  /** The start gate and the finish gate. */
  const START_LINE: Rect := Rect(520, 605, 15, 90)
  const FINISH_LINE: Rect := Rect(470, 605, 15, 90)

  /** How pygame turns a real coordinate into a pixel coordinate: a C cast
      to int, which truncates toward zero. */
  function Trunc(v: real): (r: int)
    ensures v >= 0.0 ==> 0 <= r && r as real <= v < r as real + 1.0
    ensures v < 0.0 ==> r <= 0 && r as real - 1.0 < v <= r as real
  {
    if v >= 0.0 then v.Floor else -((-v).Floor)
  }

  /** Rect.collidepoint: the point, cast to pixels, lies in the half-open
      box left <= px < left + width, top <= py < top + height. */
  predicate CollidePoint(r: Rect, x: real, y: real)
  {
    var px, py := Trunc(x), Trunc(y);
    r.left <= px < r.left + r.width && r.top <= py < r.top + r.height
  }

  /** For a box that lies right of and below the origin pixel, testing the
      truncated point is the same as testing the real point against the
      half-open real box. */
  lemma CollidePointExact(r: Rect, x: real, y: real)
    requires r.left >= 1 && r.top >= 1
    ensures CollidePoint(r, x, y) <==>
              r.left as real <= x < (r.left + r.width) as real &&
              r.top as real <= y < (r.top + r.height) as real
  {
  }

  /** The start gate, in real coordinates: [520, 535) x [605, 695). */
  lemma InStartLine(x: real, y: real)
    ensures CollidePoint(START_LINE, x, y) <==> 520.0 <= x < 535.0 && 605.0 <= y < 695.0
  {
  }

  /** The finish gate, in real coordinates: [470, 485) x [605, 695). */
  lemma InFinishLine(x: real, y: real)
    ensures CollidePoint(FINISH_LINE, x, y) <==> 470.0 <= x < 485.0 && 605.0 <= y < 695.0
  {
  }

  /** What the crash condition of Game.crash finds at a position. */
  datatype Probe =
    | Clear       // on the track: nothing happens
    | Offroad     // past the right or bottom edge, or on an off-road pixel: reset
    | OutOfRange  // the mask lookup raises IndexError

  /** The crash condition, evaluated left to right as Python's `or` does:
      the two edge tests first, and only then the mask lookup, which fails
      for a pixel outside the mask. */
  function CrashProbe(mask: Mask, x: real, y: real): (r: Probe)
    ensures x >= 700.0 || y >= 700.0 ==> r == Offroad
    ensures x < 700.0 && y < 700.0 && (x <= -1.0 || y <= -1.0) ==> r == OutOfRange
    ensures -1.0 < x < 700.0 && -1.0 < y < 700.0 ==>
              0 <= Trunc(x) < PLAY_SIZE && 0 <= Trunc(y) < PLAY_SIZE &&
              r != OutOfRange && (r == Offroad <==> mask(Trunc(x), Trunc(y)))
  {
    if x >= PLAY_SIZE as real || y >= PLAY_SIZE as real then Offroad
    else
      var px, py := Trunc(x), Trunc(y);
      if 0 <= px < PLAY_SIZE && 0 <= py < PLAY_SIZE then
        (if mask(px, py) then Offroad else Clear)
      else
        OutOfRange
  }
}
