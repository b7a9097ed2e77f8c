/** Fixed sizes and speeds of the game, and the lane geometry derived from the screen size. */
module Config {
  const CAR_WIDTH_PX := 22
  const CAR_HEIGHT_PX := 14
  const CAR_SPEED := 6

  const OBSTACLE_WIDTH_PX := 33
  const OBSTACLE_HEIGHT_PX := 12
  const OBSTACLE_BASE_SPEED := 3

  /** Scores above this allow two obstacles to spawn on one tick. */
  const TWO_OBSTACLE_SCORE := 2000

  /** Number of entries the leaderboard keeps. */
  const RANKING_SIZE := 5

  /** Left edge of the lane the car drives in. */
  function RoadLeft(width: nat): int { width / 4 }

  /** Largest car x from which the car may still step right. */
  function RoadRight(width: nat): int { 3 * width / 4 - CAR_WIDTH_PX }

  /** Largest x at which an obstacle is spawned (the upper end of the random draw). */
  function SpawnMaxX(width: nat): int { 3 * width / 4 - OBSTACLE_WIDTH_PX }

  /** Where the car starts, and where it is put back after a crash. */
  function StartX(width: nat): int { width / 2 }
  function StartY(height: nat): int { height - CAR_HEIGHT_PX - 2 }

  /** Screen sizes the game works on: the screen has rows, the start position is
      not right of the lane, and the spawn range for obstacles is not empty. */
  predicate ScreenOk(width: nat, height: nat) {
    height > 0 && StartX(width) <= RoadRight(width) && RoadLeft(width) <= SpawnMaxX(width)
  }

  /** The 320 by 240 screen of the display the game is built for meets these conditions. */
  lemma PicoDisplayOk()
    ensures ScreenOk(320, 240)
    ensures RoadLeft(320) == 80 && RoadRight(320) == 218 && SpawnMaxX(320) == 207
  {
  }
}
