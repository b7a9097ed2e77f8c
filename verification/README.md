# Dodge-the-obstacles game: a verified model of the game logic

This project models the game logic of a small arcade game for a microcontroller
with a 320×240 display and two buttons. A car at the bottom of the screen moves
left or right inside a lane. Obstacles fall from the top at a speed that grows
with the score. A hit ends the game: its score goes onto an in-memory top-5
leaderboard, and the game starts over.

The source keeps its state in module globals: `car_x_px`, `car_y_px`,
`obstacles_px`, `score`, `rankings`, `dir_input` and `OBSTACLE_SPEED`. The model
makes them the fields of one object, `Game.GameState`. Its methods are the
operations that update those globals in place. Each method is proved against
pure functions, and the lemmas beside those functions state what the game
promises.

Modules, one per component of `main.py`:

- `Config` (config.dfy): the size, speed and score constants, and the lane
  geometry derived from the screen width (`ROAD_LEFT`, `ROAD_RIGHT`, the spawn range).
- `Input` (input.dfy): turns the two active-low pin levels into LEFT, RIGHT or no direction.
- `Car` (car.dfy): the guarded car step and the invariant it keeps.
- `Collision` (collision.dfy): the axis-aligned rectangle overlap test.
- `Obstacles` (obstacles.dfy): advancing, filtering and spawning obstacles, plus
  the score-driven speed and spawn chance.
- `Ranking` (ranking.dfy): the top-5 leaderboard, sorted highest first.
- `Game` (game.dfy): the `GameState` class with `ReadButtons`, `ResetGame`,
  `AddToRankings`, `CheckCollision`, `UpdateObstacles` and `GameTick`.

The screen size comes from the display driver at main.py:13. Here it is the
constructor's `width` and `height`. `Config.ScreenOk` states what the game needs
of them:

- the screen has at least one row;
- the start position `WIDTH // 2` is not right of `ROAD_RIGHT`;
- the spawn range `[ROAD_LEFT, 3*WIDTH//4 - OBSTACLE_WIDTH_PX]` is not empty.

The 320×240 display meets these conditions (`Config.PicoDisplayOk`). The random
draws are parameters of `UpdateObstacles` and `GameTick`:

- `twoDraw` and `spawnDraw` are the two `random.random()` results, in [0, 1);
- `x1` and `x2` are the `random.randint` results, each in the spawn range.

The score-driven spawn chance is `0.02 + min(score/10000, 0.06)`. The comment at
main.py:162 says the chance grows to 8% at most, and it reaches that cap at score 600.

Where the behaviour the game is meant to have differs from what the code does,
the model follows the code:

- **Lane.** The comment at main.py:74 calls `ROAD_LEFT`/`ROAD_RIGHT` the limits of
  where the car may drive, so the car is meant to stay inside
  `[ROAD_LEFT, ROAD_RIGHT]`. The code tests the bound before stepping and never
  clamps, so the car can end up to `CAR_SPEED - 1` pixels outside the lane. The
  invariant the code keeps is `ROAD_LEFT - CAR_SPEED < car_x < ROAD_RIGHT + CAR_SPEED`.
  `Car.LaneContainmentNotKept` shows the strict form failing on the 320-pixel
  screen: 14 ticks of LEFT from the start put the car at x = 76, left of
  `ROAD_LEFT` = 80.

## Model

| member | source | states |
|---|---|---|
| `Config.PicoDisplayOk` | main.py:13-76 | The 320×240 screen meets the size conditions: `ROAD_LEFT` = 80, `ROAD_RIGHT` = 218 and the largest spawn x = 207 |
| `Input.DirectionOf` | main.py:37-52 | A pin reading low means pressed. The result is LEFT exactly when left is pressed and right is not, RIGHT exactly when right is pressed and left is not, and none when both or neither are pressed |
| `Game.GameState.ReadButtons` | main.py:37-52 | Sets `dir_input` to the direction of the two pin levels and changes nothing else |
| `Car.StepCar` | main.py:192-195 | The car moves left exactly when the intent is LEFT and x > `ROAD_LEFT`, right exactly when it is RIGHT and x < `ROAD_RIGHT`; any move is exactly `CAR_SPEED` |
| `Car.StartInLane` | main.py:67-76 | Under the screen conditions the start x `WIDTH // 2` is inside the lane and inside the band |
| `Car.StepKeepsBand` | main.py:192-195 | One step, whatever the intent, keeps `ROAD_LEFT - CAR_SPEED < x < ROAD_RIGHT + CAR_SPEED` |
| `Car.DriveKeepsBand` | main.py:192-195 | Any run of steps keeps that band |
| `Car.DriveLeftRun` | main.py:192-193 | Holding LEFT for n ticks moves the car n full steps while every position before the last step is right of `ROAD_LEFT` |
| `Car.LaneContainmentNotKept` | main.py:192-195 | Strict lane containment is not kept: 13 LEFT ticks from the start on a 320-wide screen stay in the lane, and the 14th ends at `ROAD_LEFT - 4` |
| `Collision.Overlaps` | main.py:180-181 | Two rectangles overlap iff their open extents intersect on both axes; `TouchingDoNotOverlap` and `OverlapsSymmetric` state its properties |
| `Collision.Collides` | main.py:177-183 | The car hits the list iff some obstacle's rectangle overlaps the car's; `CheckCollision` is proved to compute it |
| `Collision.OverlapsSymmetric` | main.py:177-183 | The overlap test gives the same answer when the two rectangles swap roles |
| `Collision.TouchingDoNotOverlap` | main.py:180-181 | Rectangles that only share an edge, or lie apart on either axis, do not overlap |
| `Collision.SideBySideIsNoHit` | main.py:180 | An obstacle exactly beside the car, edge to edge, is not a hit |
| `Game.GameState.CheckCollision` | main.py:177-183 | Returns true iff some obstacle's rectangle overlaps the car's with strict inequalities on both axes. It has no modifies clause, so it changes no state |
| `Obstacles.SpeedFor` | main.py:204 | The shared speed is at least `OBSTACLE_BASE_SPEED` (3), equals 3 at score 0 and equals 8 at score 500 |
| `Obstacles.SpeedMonotone` | main.py:204 | The speed does not decrease as the score grows |
| `Obstacles.SpawnChance` | main.py:163 | The spawn chance lies in [0.02, 0.08], is 0.02 at score 0 and is 0.08 from score 600 on |
| `Obstacles.SpawnChanceMonotone` | main.py:163 | The spawn chance does not decrease as the score grows |
| `Obstacles.Advance` | main.py:156-158 | Every obstacle keeps its x and place in the list and moves down by the speed; `SurvivorsAreMovedOld` combines it with the filter |
| `Obstacles.OnScreen` | main.py:160 | The filter's result is no longer than its input |
| `Obstacles.OnScreenMembers` | main.py:160 | An obstacle is kept iff it was present and its y is below `HEIGHT`, so any obstacle with y ≥ `HEIGHT` is removed |
| `Obstacles.OnScreenAppend` | main.py:160 | The filter distributes over concatenation, so survivors keep their relative order |
| `Obstacles.OnScreenCount` | main.py:160 | Each surviving obstacle is kept as many times as it occurred, and no removed one is kept |
| `Obstacles.SurvivorsAreMovedOld` | main.py:156-160 | After the advance and the filter, the list is exactly the old obstacles with y + speed < `HEIGHT`, in their old order, each keeping its x with y increased by the speed |
| `Obstacles.Spawned` | main.py:163-174 | Something spawns iff the `spawnDraw` draw is below the spawn chance. At most two obstacles are added, two only when score > 2000 and the `twoDraw` draw is below 0.3. Each new one is at y = 0, the first at x1 and the second at x2 |
| `Obstacles.UpdateKeepsPlaced` | main.py:153-174 | An update keeps every obstacle in the spawn range horizontally and in [0, `HEIGHT`) vertically |
| `Game.GameState.UpdateObstacles` | main.py:153-174 | The new list is the old one advanced by `OBSTACLE_SPEED` and filtered to y < `HEIGHT`, with the spawned obstacles appended at the end. The object invariant is kept |
| `Ranking.SortDesc` | main.py:138 | The sort keeps the list's length; `SortDescCorrect` proves the result descending and a permutation |
| `Ranking.SortDescCorrect` | main.py:138 | The sort orders highest first and is a permutation of its input |
| `Ranking.DescendingUnique` | main.py:138 | Two descending lists with the same elements are equal, so any descending sort of the list gives the same result |
| `Ranking.SortDescIs` | main.py:138 | Sorting yields any given descending rearrangement of the input |
| `Ranking.AddToRankings` | main.py:135-140 | The board after a game: old entries and `s` sorted highest first, the last one dropped when there are more than 5; `AddToRankingsCorrect` states what that guarantees |
| `Ranking.AddToRankingsCorrect` | main.py:135-140 | From a board of at most 5 entries: the result is descending, holds min(old length + 1, 5) entries, and holds the old entries plus `s`. When the board was full, the one dropped entry is no larger than any kept one |
| `Ranking.AddWithoutDrop` | main.py:135-140 | Adding to a board of fewer than 5 entries gives the descending rearrangement of the old entries and `s` |
| `Ranking.AddWithDrop` | main.py:135-140 | Adding to a full board gives that rearrangement without its last, smallest, entry |
| `Ranking.TwoGamesExample` | main.py:135-140 | Inserting 10 and then 50 gives [50, 10] |
| `Ranking.ThreeGamesExample` | main.py:135-140 | Inserting 10, 50, 30 gives [50, 30, 10] |
| `Ranking.FourGamesExample` | main.py:135-140 | Inserting 10, 50, 30, 90 gives [90, 50, 30, 10] |
| `Ranking.FiveGamesExample` | main.py:135-140 | Inserting 10, 50, 30, 90, 20 gives [90, 50, 30, 20, 10] |
| `Ranking.SixGamesExample` | main.py:135-140 | Inserting 10, 50, 30, 90, 20, 5 one at a time gives [90, 50, 30, 20, 10] |
| `Game.GameState.AddToRankings` | main.py:135-140 | After append, sort and pop, `rankings` is `Ranking.AddToRankings` of the old board and `s`. The board stays descending with at most 5 entries and holds only old entries and `s`, all of them if it was not full |
| `Game.GameState.constructor` | main.py:35-72 | Start state: car at (`WIDTH//2`, `HEIGHT - CAR_HEIGHT_PX - 2`), no obstacles, score 0, empty board, no direction, speed 3; the object invariant holds |
| `Game.GameState.ResetGame` | main.py:126-131 | Car back at the start, no obstacles, score 0, everything else unchanged, invariant kept |
| `Game.GameState.GameTick` | main.py:188-207 | The car steps first. On a hit, the pre-tick score is added to the board, the car resets, obstacles empty, score 0, and nothing is advanced or counted. Otherwise the speed becomes 3 + score/100 from the pre-tick score, obstacles update with it, and score rises by exactly 1. `dir_input` is unchanged and the invariant (band, row, obstacle placement, sorted board of ≤ 5, speed ≥ 3) is kept |

## Left out

- Display, bus, backlight and pen setup (main.py:10-24) and all drawing (`draw_road`,
  `draw_car`, `draw_obstacles`, `draw_score`, `display.update`): calls into the
  graphics driver. `GameTick` ends where the source starts drawing.
- `display_rankings` (main.py:142-151): it renders the board and blocks for three
  seconds. The board's contents are modelled by `AddToRankings`.
- Pin setup (main.py:32-33): the pin levels are boolean parameters of `ReadButtons`.
- `random.random` and `random.randint`: the draws are parameters with range
  preconditions. The order in which the source draws them is not modelled.
- Float arithmetic: obstacle y, the speed and the spawn chance are exact reals.
  Nothing is claimed about rounding, nor about the `int()` truncation used only
  for drawing.
- The outer `while True` loop (main.py:220-228): frame timing with `ticks_ms`,
  skipped ticks and sleeps.
- The `OBSTACLE_SPEED += 1` at main.py:228: `GameTick` overwrites the speed
  before either read of it, and the hit path reads it not at all, so the increment
  cannot be observed.
- The three-second ranking screen between a hit and the restart is not modelled
  as a state of its own. `GameTick`'s hit branch goes straight from recording the
  score to the reset.
- Python's `list.sort` is not modelled step by step. `Ranking.SortDesc` is an
  insertion sort, and `Ranking.DescendingUnique` shows that every sort ordering
  the list highest first gives the same list.
