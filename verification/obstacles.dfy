/** The obstacle field: obstacles fall down the screen at a shared speed, leave at
    the bottom and are spawned at the top with a chance that grows with the score. */
module Obstacles {
  import opened Config

  /** An obstacle's top-left corner. `y` is a real because the shared speed is
      `OBSTACLE_BASE_SPEED + score / 100.0`. */
  datatype Obstacle = Obstacle(x: int, y: real)

  /** The shared obstacle speed for a score. */
  function SpeedFor(score: nat): (v: real)
    ensures v >= OBSTACLE_BASE_SPEED as real
    ensures score == 0 ==> v == OBSTACLE_BASE_SPEED as real
    ensures score == 500 ==> v == OBSTACLE_BASE_SPEED as real + 5.0
  {
    OBSTACLE_BASE_SPEED as real + score as real / 100.0
  }

  lemma SpeedMonotone(s: nat, t: nat)
    requires s <= t
    ensures SpeedFor(s) <= SpeedFor(t)
  {
  }

  /** Chance of spawning on one tick: 0.02 plus the score over 10000, the added
      part capped at 0.06, so the cap is reached at score 600. */
  function SpawnChance(score: nat): (p: real)
    ensures 0.02 <= p <= 0.08
    ensures score == 0 ==> p == 0.02
    ensures score >= 600 ==> p == 0.08
  {
    var ramp := score as real / 10000.0;
    0.02 + (if ramp < 0.06 then ramp else 0.06)
  }

  lemma SpawnChanceMonotone(s: nat, t: nat)
    requires s <= t
    ensures SpawnChance(s) <= SpawnChance(t)
  {
  }

  /** A result of `random.random()`. */
  predicate IsDraw(r: real) { 0.0 <= r < 1.0 }

  /** A result of the `random.randint` call that places a new obstacle. */
  predicate InSpawnRange(x: int, width: nat) { RoadLeft(width) <= x <= SpawnMaxX(width) }

  function Moved(o: Obstacle, v: real): Obstacle {
    Obstacle(o.x, o.y + v)
  }

  /** Every obstacle moved down by `v`. */
  function Advance(os: seq<Obstacle>, v: real): seq<Obstacle> {
    seq(|os|, i requires 0 <= i < |os| => Moved(os[i], v))
  }

  /** The obstacles whose top is still above the bottom edge `height`, in their order. */
  function OnScreen(os: seq<Obstacle>, height: real): (r: seq<Obstacle>)
    ensures |r| <= |os|
  {
    if os == [] then []
    else (if os[0].y < height then [os[0]] else []) + OnScreen(os[1..], height)
  }

  /** The filter keeps exactly the obstacles above the bottom edge. */
  lemma {:induction false} OnScreenMembers(os: seq<Obstacle>, height: real)
    ensures forall o :: o in OnScreen(os, height) <==> o in os && o.y < height
    decreases |os|
  {
    if os != [] {
      OnScreenMembers(os[1..], height);
      assert os == [os[0]] + os[1..];
    }
  }

  /** The filter keeps relative order: it distributes over concatenation. */
  lemma {:induction false} OnScreenAppend(a: seq<Obstacle>, b: seq<Obstacle>, height: real)
    ensures OnScreen(a + b, height) == OnScreen(a, height) + OnScreen(b, height)
    decreases |a|
  {
    if a == [] {
      assert a + b == b;
    } else {
      assert (a + b)[0] == a[0] && (a + b)[1..] == a[1..] + b;
      OnScreenAppend(a[1..], b, height);
    }
  }

  /** The filter keeps each surviving obstacle as many times as it occurred. */
  lemma {:induction false} OnScreenCount(os: seq<Obstacle>, height: real, o: Obstacle)
    ensures multiset(OnScreen(os, height))[o] == if o.y < height then multiset(os)[o] else 0
    decreases |os|
  {
    if os != [] {
      assert os == [os[0]] + os[1..];
      OnScreenCount(os[1..], height, o);
    }
  }

  lemma AdvanceAppend(a: seq<Obstacle>, b: seq<Obstacle>, v: real)
    ensures Advance(a + b, v) == Advance(a, v) + Advance(b, v)
  {
    assert forall i :: 0 <= i < |a| ==> (a + b)[i] == a[i];
    assert forall i :: |a| <= i < |a| + |b| ==> (a + b)[i] == b[i - |a|];
  }

  lemma SurvivorsAreMovedOne(o: Obstacle, v: real, height: real)
    ensures OnScreen(Advance([o], v), height) == Advance(OnScreen([o], height - v), v)
  {
    assert Advance([o], v) == [Moved(o, v)];
    assert Advance([], v) == [];
  }

  /** Moving then filtering keeps exactly the old obstacles whose moved top is above
      the bottom edge, in their old order, each moved down by `v`. */
  lemma {:induction false} SurvivorsAreMovedOld(os: seq<Obstacle>, v: real, height: real)
    ensures OnScreen(Advance(os, v), height) == Advance(OnScreen(os, height - v), v)
    decreases |os|
  {
    if os != [] {
      var head, tail := [os[0]], os[1..];
      assert os == head + tail;
      calc {
        OnScreen(Advance(os, v), height);
      == { AdvanceAppend(head, tail, v); }
        OnScreen(Advance(head, v) + Advance(tail, v), height);
      == { OnScreenAppend(Advance(head, v), Advance(tail, v), height); }
        OnScreen(Advance(head, v), height) + OnScreen(Advance(tail, v), height);
      == { SurvivorsAreMovedOne(os[0], v, height); SurvivorsAreMovedOld(tail, v, height); }
        Advance(OnScreen(head, height - v), v) + Advance(OnScreen(tail, height - v), v);
      == { AdvanceAppend(OnScreen(head, height - v), OnScreen(tail, height - v), v); }
        Advance(OnScreen(head, height - v) + OnScreen(tail, height - v), v);
      == { OnScreenAppend(head, tail, height - v); }
        Advance(OnScreen(os, height - v), v);
      }
    }
  }

  /** The obstacles spawned on one tick. `twoDraw` is the draw that decides on a
      second obstacle (made only above TWO_OBSTACLE_SCORE), `spawnDraw` the draw
      compared with the spawn chance, `x1` and `x2` the x positions drawn. */
  function Spawned(score: nat, twoDraw: real, spawnDraw: real, x1: int, x2: int): (r: seq<Obstacle>)
    ensures r != [] <==> spawnDraw < SpawnChance(score)
    ensures |r| == 2 <==> r != [] && score > TWO_OBSTACLE_SCORE && twoDraw < 0.3
    ensures |r| <= 2
    ensures forall i :: 0 <= i < |r| ==> r[i].y == 0.0
    ensures |r| >= 1 ==> r[0].x == x1
    ensures |r| == 2 ==> r[1].x == x2
  {
    var count := if score > TWO_OBSTACLE_SCORE && twoDraw < 0.3 then 2 else 1;
    if spawnDraw < SpawnChance(score) then
      (if count == 2 then [Obstacle(x1, 0.0), Obstacle(x2, 0.0)] else [Obstacle(x1, 0.0)])
    else []
  }

  /** Every obstacle inside the lane's spawn range horizontally and on screen vertically. */
  predicate AllPlaced(os: seq<Obstacle>, width: nat, height: nat) {
    forall i :: 0 <= i < |os| ==> InSpawnRange(os[i].x, width) && 0.0 <= os[i].y < height as real
  }

  /** One obstacle update keeps every obstacle placed: falling obstacles stay at
      y >= 0 because the speed is not negative, the filter removes those at or
      below the bottom, and new ones are drawn inside the spawn range at y = 0. */
  lemma {:induction false} UpdateKeepsPlaced(os: seq<Obstacle>, v: real, width: nat, height: nat,
                                               score: nat, twoDraw: real, spawnDraw: real, x1: int, x2: int)
    requires AllPlaced(os, width, height) && v >= 0.0 && height > 0
    requires InSpawnRange(x1, width) && InSpawnRange(x2, width)
    ensures AllPlaced(OnScreen(Advance(os, v), height as real) + Spawned(score, twoDraw, spawnDraw, x1, x2),
                      width, height)
  {
    var moved := Advance(os, v);
    var kept := OnScreen(moved, height as real);
    var added := Spawned(score, twoDraw, spawnDraw, x1, x2);
    OnScreenMembers(moved, height as real);
    forall i | 0 <= i < |kept|
      ensures InSpawnRange(kept[i].x, width) && 0.0 <= kept[i].y < height as real
    {
      assert kept[i] in moved;
    }
  }
}
