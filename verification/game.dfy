/** The game state and the per-tick state machine. main.py keeps this state in
    module globals; here they are the fields of one GameState object. */
module Game {
  import opened Config
  import opened Input
  import opened Car
  import opened Collision
  import opened Obstacles
  import Ranking

  class GameState {
    /** Screen size, fixed for the process. */
    const width: nat
    const height: nat

    var carX: int
    var carY: int
    var obstacles: seq<Obstacle>
    var score: nat
    var rankings: seq<int>
    var dirInput: Direction
    var obstacleSpeed: real

    /** What every operation keeps: the car within less than one step of its lane
        and on its fixed row, every obstacle in the spawn range and on screen, the
        leaderboard sorted highest first and short, and obstacles moving down. */
    ghost predicate Valid()
      reads this
    {
      && ScreenOk(width, height)
      && InBand(carX, width)
      && carY == StartY(height)
      && AllPlaced(obstacles, width, height)
      && Ranking.Descending(rankings) && |rankings| <= RANKING_SIZE
      && obstacleSpeed >= OBSTACLE_BASE_SPEED as real
    }

    /** The state at power-on. */
    constructor (width: nat, height: nat)
      requires ScreenOk(width, height)
      ensures Valid()
      ensures this.width == width && this.height == height
      ensures carX == StartX(width) && carY == StartY(height)
      ensures obstacles == [] && score == 0 && rankings == []
      ensures dirInput == Neither && obstacleSpeed == OBSTACLE_BASE_SPEED as real
    {
      this.width := width;
      this.height := height;
      dirInput := Neither;
      obstacleSpeed := OBSTACLE_BASE_SPEED as real;
      carX := StartX(width);
      carY := StartY(height);
      obstacles := [];
      score := 0;
      rankings := [];
      new;
      StartInLane(width, height);
    }

    /** Samples the two buttons, given as pin levels (`false` is low, i.e. pressed). */
    method ReadButtons(leftHigh: bool, rightHigh: bool)
      requires Valid()
      modifies this`dirInput
      ensures Valid()
      ensures dirInput == DirectionOf(leftHigh, rightHigh)
    {
      dirInput := DirectionOf(leftHigh, rightHigh);
    }

    /** Puts the car back at its start and clears the obstacles and the score;
        the leaderboard, the intent and the obstacle speed are kept. */
    method ResetGame()
      requires Valid()
      modifies this`carX, this`carY, this`obstacles, this`score
      ensures Valid()
      ensures carX == StartX(width) && carY == StartY(height)
      ensures obstacles == [] && score == 0
    {
      carX := StartX(width);
      carY := StartY(height);
      obstacles := [];
      score := 0;
      StartInLane(width, height);
    }

    /** Records the score of a finished game on the leaderboard. */
    method AddToRankings(s: int)
      requires Valid()
      modifies this`rankings
      ensures Valid()
      ensures rankings == Ranking.AddToRankings(old(rankings), s)
      ensures multiset(rankings) <= multiset(old(rankings) + [s])
      ensures |old(rankings)| < RANKING_SIZE ==> multiset(rankings) == multiset(old(rankings) + [s])
    {
      Ranking.AddToRankingsCorrect(rankings, s);
      rankings := rankings + [s];
      rankings := Ranking.SortDesc(rankings);
      if |rankings| > RANKING_SIZE {
        rankings := rankings[..|rankings| - 1];
      }
    }

    /** Scans the obstacles for one whose rectangle overlaps the car's. */
    method CheckCollision() returns (hit: bool)
      ensures hit <==> Collides(carX, carY, obstacles)
    {
      var i := 0;
      while i < |obstacles|
        invariant 0 <= i <= |obstacles|
        invariant forall k :: 0 <= k < i ==> !Overlaps(CarRect(carX, carY), ObstacleRect(obstacles[k]))
      {
        var o := obstacles[i];
        if carX < o.x + OBSTACLE_WIDTH_PX && carX + CAR_WIDTH_PX > o.x {
          if (carY as real) < o.y + OBSTACLE_HEIGHT_PX as real && (carY + CAR_HEIGHT_PX) as real > o.y {
            return true;
          }
        }
        i := i + 1;
      }
      return false;
    }

    /** Moves every obstacle down by the current speed, drops those at or below the
        bottom edge and, if `spawnDraw` falls under the spawn chance, appends one or
        two new obstacles at the top. The draws of `random.random()` and
        `random.randint` are the parameters. */
    method UpdateObstacles(twoDraw: real, spawnDraw: real, x1: int, x2: int)
      requires Valid()
      requires IsDraw(twoDraw) && IsDraw(spawnDraw)
      requires InSpawnRange(x1, width) && InSpawnRange(x2, width)
      modifies this`obstacles
      ensures Valid()
      ensures obstacles == OnScreen(Advance(old(obstacles), obstacleSpeed), height as real)
                           + Spawned(score, twoDraw, spawnDraw, x1, x2)
    {
      UpdateKeepsPlaced(obstacles, obstacleSpeed, width, height, score, twoDraw, spawnDraw, x1, x2);
      var i := 0;
      while i < |obstacles|
        invariant 0 <= i <= |obstacles| == |old(obstacles)|
        invariant forall k :: 0 <= k < i ==> obstacles[k] == Moved(old(obstacles)[k], obstacleSpeed)
        invariant forall k :: i <= k < |obstacles| ==> obstacles[k] == old(obstacles)[k]
      {
        var o := obstacles[i];
        obstacles := obstacles[i := Obstacle(o.x, o.y + obstacleSpeed)];
        i := i + 1;
      }
      assert obstacles == Advance(old(obstacles), obstacleSpeed);
      obstacles := OnScreen(obstacles, height as real);
      ghost var kept := obstacles;

      var spawnChance := SpawnChance(score);
      var count := 1;
      if score > TWO_OBSTACLE_SCORE && twoDraw < 0.3 {
        count := 2;
      }
      if spawnDraw < spawnChance {
        var n := 0;
        while n < count
          invariant 0 <= n <= count
          invariant obstacles == kept + [Obstacle(x1, 0.0), Obstacle(x2, 0.0)][..n]
        {
          var ox := if n == 0 then x1 else x2;
          obstacles := obstacles + [Obstacle(ox, 0.0)];
          n := n + 1;
        }
      }
      assert obstacles == kept + Spawned(score, twoDraw, spawnDraw, x1, x2);
    }

    /** One game tick: step the car, then either end the game on a hit (record the
        score, reset) or set the speed from the score, update the obstacles and
        count the tick. */
    method GameTick(twoDraw: real, spawnDraw: real, x1: int, x2: int)
      requires Valid()
      requires IsDraw(twoDraw) && IsDraw(spawnDraw)
      requires InSpawnRange(x1, width) && InSpawnRange(x2, width)
      modifies this`carX, this`carY, this`obstacles, this`score, this`rankings, this`obstacleSpeed
      ensures Valid()
      ensures Collides(StepCar(old(carX), old(dirInput), width), old(carY), old(obstacles)) ==>
        && rankings == Ranking.AddToRankings(old(rankings), old(score))
        && carX == StartX(width) && carY == StartY(height)
        && obstacles == [] && score == 0
        && obstacleSpeed == old(obstacleSpeed)
      ensures !Collides(StepCar(old(carX), old(dirInput), width), old(carY), old(obstacles)) ==>
        && carX == StepCar(old(carX), old(dirInput), width) && carY == old(carY)
        && obstacleSpeed == SpeedFor(old(score))
        && obstacles == OnScreen(Advance(old(obstacles), SpeedFor(old(score))), height as real)
                        + Spawned(old(score), twoDraw, spawnDraw, x1, x2)
        && score == old(score) + 1
        && rankings == old(rankings)
    {
      StepKeepsBand(carX, dirInput, width);
      carX := StepCar(carX, dirInput, width);
      ghost var movedX := carX;

      var hit := CheckCollision();
      assert hit <==> Collides(movedX, old(carY), old(obstacles));
      if hit {
        AddToRankings(score);
        ResetGame();
        return;
      }

      obstacleSpeed := SpeedFor(score);
      UpdateObstacles(twoDraw, spawnDraw, x1, x2);
      score := score + 1;
    }
  }
}
