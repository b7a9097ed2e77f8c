/** Horizontal movement of the car: one guarded step of CAR_SPEED per tick. */
module Car {
  import opened Config
  import opened Input

  /** The car's x after one tick with intent `d`. The bound is tested before the
      step and the result is never clamped. */
  function StepCar(x: int, d: Direction, width: nat): (nx: int)
    ensures nx < x <==> d == Left && x > RoadLeft(width)
    ensures nx > x <==> d == Right && x < RoadRight(width)
    ensures nx == x || nx == x - CAR_SPEED || nx == x + CAR_SPEED
  {
    if d == Left && x > RoadLeft(width) then x - CAR_SPEED
    else if d == Right && x < RoadRight(width) then x + CAR_SPEED
    else x
  }

  /** The lane in the strict sense: the car's left edge between the road bounds. */
  predicate InLane(x: int, width: nat) {
    RoadLeft(width) <= x <= RoadRight(width)
  }

  /** What the movement rule keeps: the lane widened by less than one step on each side. */
  predicate InBand(x: int, width: nat) {
    RoadLeft(width) - CAR_SPEED < x < RoadRight(width) + CAR_SPEED
  }

  lemma StartInLane(width: nat, height: nat)
    requires ScreenOk(width, height)
    ensures InLane(StartX(width), width) && InBand(StartX(width), width)
  {
  }

  /** One step keeps the band, whatever the intent. */
  lemma StepKeepsBand(x: int, d: Direction, width: nat)
    requires InBand(x, width)
    ensures InBand(StepCar(x, d, width), width)
  {
  }

  /** The car's x after a run of ticks on which it did not crash, one intent per tick. */
  function Drive(x: int, dirs: seq<Direction>, width: nat): int
    decreases |dirs|
  {
    if dirs == [] then x else Drive(StepCar(x, dirs[0], width), dirs[1..], width)
  }

  /** Any run of steps keeps the band. */
  lemma {:induction false} DriveKeepsBand(x: int, dirs: seq<Direction>, width: nat)
    requires InBand(x, width)
    ensures InBand(Drive(x, dirs, width), width)
    decreases |dirs|
  {
    if dirs != [] {
      StepKeepsBand(x, dirs[0], width);
      DriveKeepsBand(StepCar(x, dirs[0], width), dirs[1..], width);
    }
  }

  function Repeat(d: Direction, n: nat): (r: seq<Direction>)
    ensures |r| == n && forall i :: 0 <= i < n ==> r[i] == d
  {
    if n == 0 then [] else [d] + Repeat(d, n - 1)
  }

  /** Holding LEFT for `n` ticks moves the car `n` full steps as long as every
      position before the last step is right of the lane's left edge. */
  lemma {:induction false} DriveLeftRun(x: int, n: nat, width: nat)
    requires n > 0 ==> x - CAR_SPEED * (n - 1) > RoadLeft(width)
    ensures Drive(x, Repeat(Left, n), width) == x - CAR_SPEED * n
  {
    if n > 0 {
      assert Repeat(Left, n)[1..] == Repeat(Left, n - 1);
      DriveLeftRun(x - CAR_SPEED, n - 1, width);
    }
  }

  /** Strict lane containment is not kept: on the 320-pixel screen, 13 ticks of LEFT
      from the start leave the car inside the lane, and the 14th puts its left edge
      four pixels beyond the lane's left edge. */
  lemma LaneContainmentNotKept()
    ensures InLane(Drive(StartX(320), Repeat(Left, 13), 320), 320)
    ensures Drive(StartX(320), Repeat(Left, 14), 320) == RoadLeft(320) - 4
    ensures !InLane(Drive(StartX(320), Repeat(Left, 14), 320), 320)
  {
    DriveLeftRun(160, 13, 320);
    DriveLeftRun(160, 14, 320);
  }
}
