# Flappy Dragon, modelled in Dafny

A model of the game simulation in `src/main.rs` of Flappy Dragon, a terminal
side-scroller. A dragon falls under gravity and flaps upward on Space. It moves
one column per 75 ms physics step and must fly through the gap in one obstacle
at a time. Each obstacle passed scores a point, and the next gap is narrower.
Falling below the screen or hitting the wall ends the run. From the menu and
from the death screen, P starts a run and Q quits.

Modules, one per component of the source:

- `Numerics`: division truncated toward zero. Rust's `as i32` and its integer
  `/` both truncate this way, unlike Dafny's `/`.
- `PlayerPhysics`: the `Player` record as a class updated in place, with
  `Gravity`, `Motion` and `Flap`. Each method is proved against a function on
  the value `Kinematics`, and the velocity bound and column-by-column motion
  are proved over any sequence of these updates.
- `Obstacles`: `NewObstacle` (gap size from the score) and `Lethal` (the
  collision test), both pure.
- `Session`: the session `State` as a class with `Restart`, `MainMenu`,
  `Dead`, `Play` and `Tick`. Each method is proved against a function on the
  value `Game`. The invariant `Consistent` holds from creation through any
  sequence of ticks.

Representation choices:

- Velocities are integers in tenths of a cell per step. The horizontal
  velocity is 10, gravity adds 2 up to a cap of 20, and a flap subtracts 20.
- The frame-time accumulator and the elapsed time per tick are whole
  milliseconds.
- The random gap centre is an input `gapY` with `10 <= gapY < 40`. Every
  tick takes one draw, and only a tick that generates an obstacle (a restart
  or a pass-through) uses it.
- The key pressed is an `Option<Key>` and `Tick` returns the quit request as
  a boolean. `Key.Other` stands for every key the game ignores.

## Model

| member | source | states |
|---|---|---|
| `Numerics.TruncDiv` | src/main.rs:36-37 | the quotient is rounded toward zero: for a non-negative dividend it is the largest multiple not above it, for a negative one the smallest multiple not below it |
| `Numerics.TruncDivOdd` | src/main.rs:36-37 | truncation is symmetric in sign, so a negative velocity never moves one cell further than the positive one |
| `PlayerPhysics.DisplacementTruncates` | src/main.rs:36-37 | a velocity of -1.8 moves the player by -1 cell and 1.8 by +1; 2.0 moves by 2 and 0.9 by 0 |
| `PlayerPhysics.Player.constructor` | src/main.rs:18-25 | a new player is at (5, 25) with velocities 1.0 and 0.0 |
| `PlayerPhysics.Player.Gravity` | src/main.rs:29-33 | adds 0.2 to the vertical velocity only while it is below 2.0; nothing else changes |
| `PlayerPhysics.Player.Motion` | src/main.rs:35-44 | adds each velocity truncated toward zero to its coordinate, then clamps x and y at 0; velocities unchanged |
| `PlayerPhysics.Player.Flap` | src/main.rs:45-47 | subtracts exactly 2.0 from the vertical velocity with no lower bound; position and horizontal velocity unchanged |
| `PlayerPhysics.PerformKeepsWellFormed` | src/main.rs:29-47 | from a well-formed player, gravity, motion and flap each give a well-formed player (velocity a multiple of 0.2 and at most 2.0, x velocity 1.0, x at least 5, y at least 0); only motion moves x, by exactly one column |
| `PlayerPhysics.PerformAllKeepsWellFormed` | src/main.rs:29-47 | over any sequence of gravity, motion and flap the player stays well formed and x advances by exactly the number of motion steps |
| `PlayerPhysics.SpawnVelocityBound` | src/main.rs:18-47 | from a new player, any sequence of updates keeps the vertical velocity a multiple of 0.2 and at most 2.0, and x equals 5 plus the number of motion steps |
| `PlayerPhysics.GravitySaturates` | src/main.rs:29-33 | n gravity steps from any velocity that is a multiple of 0.2 and at most 2.0 (negative ones after a flap included) give the smaller of the start plus 0.2 n and 2.0, changing nothing else; from rest the cap is reached after ten steps |
| `Obstacles.NewObstacle` | src/main.rs:55-61 | keeps the given column and the drawn gap centre; the gap size is the larger of 2 and 20 minus the score |
| `Obstacles.GapNarrowsWithScore` | src/main.rs:60 | the gap size never increases with the score, and is 2 from score 18 on |
| `Obstacles.Lethal` | src/main.rs:76-84 | never lethal outside the obstacle's column; in it, lethal exactly when the player's distance from the gap centre exceeds half the gap size truncated |
| `Obstacles.SafeWindow` | src/main.rs:80-83 | at the obstacle's column a row is safe exactly when it lies within centre ± half the gap (truncated): both ends are safe and the next row beyond either end is lethal, so an odd gap leaves gap-size safe rows and an even one gap size + 1 |
| `Obstacles.SaferAtLowerScore` | src/main.rs:76-84 | a row that is safe against the obstacle for a higher score is safe against the one for a lower score at the same place |
| `Obstacles.CollisionExamples` | src/main.rs:76-84 | centre 20 and size 10: row 30 lethal, row 25 safe, another column safe; size 5 gives half 2, so rows 18 to 22 are safe and 17 and 23 lethal |
| `Session.InitialConsistent` | src/main.rs:94-102 | the new session (menu, score 0, player spawned, obstacle at column 80) satisfies the session invariant |
| `Session.RestartedConsistent` | src/main.rs:155-160 | a restart from any non-negative score gives a consistent session |
| `Session.PlayKeepsConsistent` | src/main.rs:131-154 | a Playing tick preserves the invariant: obstacle between the player's column and 80 ahead, accumulator at most 75, gap size matching the score, Playing only while alive, End only when dead |
| `Session.TickKeepsConsistent` | src/main.rs:163-169 | every tick in every mode preserves the session invariant |
| `Session.RunKeepsConsistent` | src/main.rs:163-169 | over any sequence of ticks, up to a quit, the invariant holds and the score never decreases and rises by at most one per tick |
| `Session.ReachableConsistent` | src/main.rs:94-169 | every session the program can reach from its start is consistent, with a score between 0 and the number of ticks |
| `Session.TickScores` | src/main.rs:145-148 | a tick scores exactly when it is a Playing tick whose physics step moves the player past the obstacle's column; it then scores exactly one and the new obstacle is 80 columns ahead with the gap for the raised score |
| `Session.PhysicsGating` | src/main.rs:133-142 | gravity then motion run only when accumulated time exceeds 75 ms, which resets the accumulator and moves the player one column; otherwise x, y and velocity are unchanged; a Space flap applies either way |
| `Session.ModeTransitions` | src/main.rs:103-168 | Playing never quits and becomes End exactly when the player, after its move and any new obstacle, is below row 50 or lethally placed; on menu and death screens P restarts, Q only asks to quit, any other key or none changes nothing; the menu is never re-entered |
| `Session.RestartResets` | src/main.rs:155-160 | restart gives player (5, 25, 1.0, 0.0), accumulator 0, obstacle at column 85 with the drawn centre, Playing mode and the score unchanged |
| `Session.RestartScenario` | src/main.rs:123-160 | P on the death screen with score 3 resumes play with score 3, a fresh player and an obstacle at column 85 with a 17-row gap |
| `Session.PassThroughScenario` | src/main.rs:145-148 | player at column 85 past an obstacle at 84 with score 3: score 4, new obstacle at 165 with a 16-row gap |
| `Session.FatalFallScenario` | src/main.rs:133-153 | a consistent Playing session on row 50 falling at 1.0 or more lands below row 50 on the next physics step and the run ends, whatever the obstacle |
| `Session.State.constructor` | src/main.rs:94-102 | the new session is on the menu with score 0, a new player, an obstacle at column 80 and an empty accumulator, and is consistent |
| `Session.State.Restart` | src/main.rs:155-160 | replaces the player with a new one, empties the accumulator, generates the obstacle 80 ahead of the new player for the current score and sets Playing; from a non-negative score the result satisfies the session invariant |
| `Session.State.MainMenu` | src/main.rs:103-116 | P restarts, Q returns the quit request, any other key or none changes nothing |
| `Session.State.Dead` | src/main.rs:117-130 | the same key handling on the death screen |
| `Session.State.Play` | src/main.rs:131-154 | updates the session exactly as accumulate-and-step, flap, pass-through, then end-of-run check, in that order |
| `Session.State.Tick` | src/main.rs:162-170 | dispatches on the mode and leaves the session as the one-tick function says; a consistent session stays consistent |

## Left out

- Drawing: `Player::render`, `Obstacle::render` and the screen clears and text output (src/main.rs:26-28, 63-75 and the `cls`, `print` and `print_centered` calls). They only write to the terminal. `Obstacle::render` draws row `gap_y + half` as wall, while `Lethal` treats that row as safe. This model follows the collision rule and does not model the drawing.
- `main`, `BTermBuilder` and `main_loop` (src/main.rs:172-177): window setup and the event loop. `Session.Run` stands in for the loop and stops at the first quit request.
- The random number generator (src/main.rs:56, 59) is an input `gapY` in `[10, 40)`. The half-open range follows the library's convention and is not visible in the source.
- `PlayerPhysics.Player.Motion`: the velocities are exact integer tenths, not 32-bit floats (src/main.rs:14-15, 31, 37, 46). The two can put the player on different rows. Take three physics steps from rest, then Space, then two more steps. In f32 the vertical velocity becomes 0.6000000238 − 2.0 + 0.2 + 0.2 = −0.99999994, which `as i32` truncates to 0, so the program leaves y where it is. The model holds −10 tenths, which moves the player up one row. From then on y, and with it `Lethal`, `Fatal` and the end of the run, can differ from the program.
- `PlayerPhysics.SpawnVelocityBound` and `PlayerPhysics.PerformAllKeepsWellFormed`: "at most 2.0" holds of the tenths model only. In f32 the tenth gravity step from rest gives 2.0000002, slightly above 2.0. Climbing from rest still moves the same rows, since that value truncates to 2.
- The frame-time accumulator is whole milliseconds rather than an f32 (src/main.rs:90, 133-134). Frame times below a millisecond and float rounding of the sum are not represented.
- 32-bit overflow of `score` and `x`, which would take about 2^31 physics steps. The model uses unbounded integers.
