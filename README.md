# Snowboard slope game — a Dafny model of the game core

The game is a browser side-scroller. A snowboarder stands at a fixed x on a sloped
line. Obstacles scroll towards the player from the right, and the player jumps over
them by clicking or tapping. Each hit costs one of three lives. Passing every obstacle
arms the reward screen. Losing the last life freezes one of three game-over messages
and shows a "click to restart" overlay.

This project models the game's core in `game.js`:

- the slope's ground line (`getGroundY`);
- course generation (`initObstacles`);
- the jump and the player physics (`jump`, `updatePlayer`);
- the per-frame obstacle sweep (`updateObstacles`): scrolling, the asymmetric
  collision test, lives, the game-over message, the pass counter, the reward and
  the finish line;
- the running gate of `gameLoop`;
- `restartGame` and its click/touch guard, and `startGame`;
- the decisions the draw functions make: the player sprite and the end of the hit
  animation, the grey hearts, the finish line's checker colours and visibility,
  and the game-over overlay.

Modules, one file each:

- `Slope` (slope.dfy): the ground line.
- `Entities` (entities.dfy): the constants, the obstacle, finish-line and
  game-state records, and the three game-over messages.
- `Collision` (collision.dfy): the overlap test.
- `Physics` (physics.dfy): one player update as a function, and the whole jump
  arc.
- `Sweep` (sweep.dfy): one `updateObstacles` as a fold over the obstacle array
  in array order. Each obstacle step sees the state the previous steps left.
- `Course` (course.dfy): the generated course, and `Consistent`, the invariant
  that every frame keeps.
- `Render` (render.dfy): the draw-time decisions.
- `Game` (game.dfy): the mutable parts.
  - `Player` is the player record.
  - `Session` holds the state record, the obstacle array, the finish line and the
    scroll accumulators. Its methods change those fields in place, and each
    method is proved against the functions above.

What the proofs show about the game as written:

- The finish line is placed at `1500 + 400·N` and is never scrolled, and the
  player never moves. So `finishLine.x < player.x` never holds, and the
  finish-line win cannot happen (`Course.FinishLineNeverReached`).
- The player (120 px) is wider than every obstacle (60 px). So the lenient
  approach-from-the-right branch can never register a hit
  (`Collision.NoHitFromTheRight`). Every hit comes through the 10 px / 20 px rule
  while the obstacle's x is in [100, 210].
- Obstacles are 400 px apart, and only one can be inside the strike zone at a
  time. So a frame costs at most one life, and health is never negative even
  though the code never clamps it (`Course.UpdateKeepsConsistent`).
- The shipped course has one obstacle, so at most one life can be lost. The game
  can then never be lost (`Course.ShippedCourseCannotBeLost`). The model keeps the
  obstacle count N as a parameter (N ≥ 1), so the game-over path can be reached
  with N ≥ 3.
- A jump started while the obstacle is between x = 264 and x = 343 clears it
  (`Physics.TimedJumpClears`); the window keeps at least 5.8 px of margin. In
  exact arithmetic the player stays airborne for 98 frames and lands exactly on
  the ground on the 99th (`Physics.JumpFlight`, `Physics.JumpLands`); with the
  browser's rounding the landing may come on frame 99 or 100.

Where the written description of the game and the code disagree, the model
follows the code:

- The game-over overlay and the restart guard test only
  `!running && !finishLineReached`. So after the reward is armed, the overlay and
  the "click to restart" hint are drawn too, and a tap restarts the game
  (`Game.GameOverOverlayWhen`).
- `restartGame` puts the player at ground offset 64, while `updatePlayer` uses 80.
  The first update after a restart moves the player 16 px down.
  `startGame` does not reset the player at all.
- The two collision branches end in identical hit blocks. The model computes the
  branch's verdict and writes the hit block once, which behaves the same.
- JavaScript compares a `null` finish-line x as 0. `Sweep.Crossed` models this.

## Model

| member | source | states |
|---|---|---|
| Slope.GroundDifference | game.js:179-181 | the ground drops by exactly 0.44 px per px of x |
| Slope.GroundStrictlyIncreasing | game.js:179-181 | the ground line y is strictly increasing in x (the slope falls to the right) |
| Collision.RequiredOverlapFromRight | game.js:358-369 | the overlap required from the right lies between a tenth of the narrower width and all of it |
| Collision.RequiredOverlapRelaxes | game.js:358-369 | the requirement never grows with the shift; it is the whole narrower width at shift 0 and exactly a tenth from a shift of both widths on |
| Collision.LeftApproach | game.js:397-406 | approaching from the left, a hit happens iff the horizontal overlap is ≥ 10, the vertical overlap is ≥ 20 and the obstacle has not hit yet |
| Collision.RightApproach | game.js:336-376 | approaching from the right, a hit happens iff the horizontal overlap reaches the shrinking requirement, the vertical overlap is ≥ 20 and the obstacle has not hit yet |
| Collision.RightRequirementUnreachable | game.js:356-376 | when the obstacle is no wider than the player, the overlap left after any positive shift is below the requirement |
| Collision.NoHitFromTheRight | game.js:356-376 | with a 120 px player and a 60 px obstacle, no hit is ever registered from the right |
| Collision.CollisionInStrikeZone | game.js:336-406 | every hit has the obstacle's x within [100, 210], inside the strike zone (40, 220) |
| Collision.LeftThresholdBoundary | game.js:397-403 | on the slope, 10 px across and 20 px down is a hit, and 9 px across with the same 20 px down is not |
| Physics.PlayerStep | game.js:297-319 | after an update the player is never below the standing height; a grounded player stands on it; a landing zeroes the velocity; airborne, velocity gains gravity and y gains the new velocity, and the player lands exactly when the new y reaches the standing height |
| Physics.RiseStep | game.js:303-305 | the height gained after t frames is the height after t-1 frames minus that frame's velocity |
| Physics.RisePositive | game.js:303-313 | the player is strictly above the ground on frames 1 to 98 of a jump |
| Physics.JumpFlight | game.js:278-313 | t < 99 frames after take-off the player is airborne, at the closed-form height, with velocity -10 + 0.2·t |
| Physics.JumpLands | game.js:307-312 | the 99th frame of a jump lands the player on the slope with zero velocity |
| Physics.RiseAbove | game.js:303-305 | on frames 18 to 81 of a jump the player is more than 140 px above standing height |
| Physics.TimedJumpClears | game.js:278-354 | a jump started while an on-slope obstacle is at x in [264, 343] never registers a hit on it during the flight |
| Sweep.Move | game.js:330-431 | one obstacle's step: scrolled by 3 and re-pinned to the slope; hit and passed never revert; it turns hit exactly when it strikes; passed exactly when it was passed or its trailing edge is behind the player |
| Sweep.Damage | game.js:377-395 | a hit costs one life; at ≤ 0 lives the run stops with a message, an already frozen message is kept, and nothing else changes |
| Sweep.CountPass | game.js:428-445 | passing adds one to the counter; reaching the obstacle count arms the reward once and stops the run; nothing else changes |
| Sweep.CheckFinish | game.js:449-457 | the finish line is marked passed, and the run stopped as reached, exactly when it is crossed for the first time; nothing else changes |
| Sweep.CountsBounded | game.js:322-458 | the hit and passed counts never exceed the number of obstacles |
| Sweep.SweepShape | game.js:330-447 | the sweep keeps the array length and moves each obstacle independently of the others and of the state |
| Sweep.SweepAccounting | game.js:330-447 | health drops by exactly the number of newly hit obstacles; the counter rises by exactly the number newly passed; the hit animation starts iff health dropped; the score and the finish flag are untouched |
| Sweep.SweepKeepsSound | game.js:372-446 | running iff lives remain and neither the reward nor the finish ended the run; a message iff no lives remain, and always one of the three |
| Sweep.SweepOneWay | game.js:386-444 | within a frame the run only stops, a frozen message is never replaced, and an armed reward stays armed |
| Sweep.SweepArmsReward | game.js:434-445 | the reward is armed exactly when the counter climbs from below the obstacle count to it |
| Sweep.HitsUnchanged | game.js:378-405 | arrays that agree on every hit flag have the same hit count |
| Sweep.HitGrowthAtMostOne | game.js:336-406 | on a course spaced 400 px apart one frame adds at most one hit |
| Course.FreshCourseIsConsistent | game.js:253-275 | a freshly generated course with the reset state satisfies the frame invariant |
| Course.NothingPassedOrHit | game.js:253-275 | a fresh course has no passed and no hit obstacles |
| Course.FinishLineNeverReached | game.js:449-457 | under the invariant the finish line is never crossed, so the finish-line win is unreachable |
| Course.SweptCourse | game.js:330-447 | after a sweep the obstacles stay on the slope and spaced, passed is still exact, and every new hit is in the strike zone |
| Course.UpdateKeepsConsistent | game.js:322-458 | one updateObstacles of a running game keeps the invariant (counter = passed obstacles, health = 3 − hits ≥ 0, reward iff all passed) and leaves the finish line in place |
| Course.RunOverExactly | game.js:386-445 | once started, the run is over iff the lives are gone or the reward is armed |
| Course.ShippedCourseCannotBeLost | game.js:194 | with the shipped single obstacle, health never drops below 2 and no game-over message is frozen |
| Render.SpriteFor | game.js:509-541 | the screaming sprite iff the hit animation is active; otherwise the jump sprite iff jumping, else the normal one |
| Render.GreyHeartsAreLostLives | game.js:640-656 | in every consistent state heart i is grey iff i is below the number of obstacles that have hit the player: the grey hearts are exactly the hits taken, from the left |
| Render.LosingALifeGreysOneHeart | game.js:649-656 | losing one life greys exactly one more heart |
| Render.CheckerAlternates | game.js:612-620 | neighbouring checks of the finish line have opposite colours, horizontally and vertically |
| Render.FinishLineFixedOnScreen | game.js:609-610 | once a run has started the finish line is drawn iff the canvas is wider than its fixed x minus 200, so it shows on every frame of the run or on none, and never on a canvas narrower than 1700 px |
| Game.RestartHintMatchesGuard | game.js:895-906 | the "click to restart" overlay is shown exactly when a tap restarts the game |
| Game.GameOverOverlayWhen | game.js:835-856 | once a run has started, the overlay is up iff the lives are gone or the reward is armed |
| Game.Player.constructor | game.js:95-113 | the player record starts at y 500, velocity 0, not jumping, groundY 300, no hit animation |
| Game.Session.constructor | game.js:72-80 | the globals start in the initial state, with no obstacles, a null finish line and zero scroll; the invariant holds |
| Game.Session.InitObstacles | game.js:253-275 | the array becomes exactly N obstacles at 1500 + 400·i on the slope with the chosen images, unpassed and unhit, and the finish line sits one spacing after the last, unpassed |
| Game.Session.Start | game.js:970-989 | starting generates a fresh course and the running initial state, establishing the invariant |
| Game.Session.Jump | game.js:278-283 | only a running, grounded player takes off, with velocity -10; otherwise nothing changes |
| Game.Session.UpdatePlayer | game.js:297-319 | the player's motion after the call is PlayerStep of its motion before, and groundY is the standing height |
| Game.Session.RegisterHit | game.js:377-395 | the state becomes Damage of the old state, and the hit animation starts at the given time |
| Game.Session.UpdateObstacle | game.js:330-447 | the forEach callback yields exactly the obstacle, state and hit flag of one ObstacleStep |
| Game.Session.UpdateObstacles | game.js:322-458 | the array, state and finish line become exactly UpdateOutcome of the old ones; the hit animation starts iff some obstacle struck; the scroll accumulators advance, the background ones only while running |
| Game.Session.Frame | game.js:806-817 | a frame keeps the invariant; a stopped game changes nothing; a running one applies PlayerStep and UpdateOutcome, starts the hit animation iff an obstacle struck, and advances all three scroll accumulators |
| Game.Session.Restart | game.js:866-892 | restart resets the state to a running start, puts the player at ground offset 64 with no velocity, jump or hit animation, zeroes the scroll, generates a fresh course and re-establishes the invariant |
| Game.Session.OnTap | game.js:895-906 | a tap first tries to jump; it restarts the game iff the game was stopped without reaching the finish, with the state, course, player and scroll reset as by restartGame; otherwise only the jump can change anything: state, course, finish line, scroll, player position and hit animation are unchanged |
| Game.Session.DrawPlayerSprite | game.js:509-541 | the sprite is chosen from the old hit flag and the jump flag; the hit animation ends once 500 ms have elapsed since it started |

## Left out

- Positions, velocities, gravity (0.2) and the slope (0.44) are exact reals; JavaScript's double rounding is not modelled. Results that rest on an exact tie (the landing on frame 99, the 10 px / 20 px boundary cases) hold in exact arithmetic only.
- Canvas drawing is left out: pixel positions, fonts, colours, the heart shape, the slope and background tiling, the parallax zoom, and the hit animation's shake and zoom. Only the decisions the draw functions make are modelled.
- The DOM is left out: element visibility, the obstacle counter's text, the menu and the start message (`showStartMessage`), and the delayed reveals of the reward and game-over panels (`setTimeout`).
- Snowflakes (`initSnowflakes`, `updateSnowflakes`) are decoration and do not affect the game.
- The reward video, its button and fullscreen handling, canvas resizing and the orientation check are browser I/O.
- `Math.random` becomes parameters: the image index of each obstacle (`images`, each < 6) and the index of the game-over message (`messageIndex` < 3).
- `Date.now` becomes the parameter `now`.
- `requestAnimationFrame` scheduling and the game-container visibility check are left out. `Game.Session.Frame` is one iteration of the loop's update phase.
- The `gameScroll` accumulator is modelled, but nothing in the core reads it.
- The finish line's y, width and height are drawing-only and are not modelled.
- Game.Session.Start: requires that no course has been generated yet. The menu's start button is reachable only before the first run.
- Game.Session.constructor: models `OBSTACLE_COUNT` as a parameter N ≥ 1 rather than the shipped constant 1. `Course.ShippedCourseCannotBeLost` covers N = 1.
