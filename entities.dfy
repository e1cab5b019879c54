/** The records the simulation works on and the constants of the game. */
module Entities {

  datatype Option<T> = None | Some(value: T)

  // The player never moves horizontally and never changes size: the world scrolls under it.
  const PlayerX: real := 100.0
  const PlayerWidth: real := 120.0
  const PlayerHeight: real := 150.0
  const JumpPower: real := -10.0
  const Gravity: real := 0.2
  /** Offset that lowers the sprite onto the snow in updatePlayer. */
  const GroundOffset: real := 80.0
  /** The offset restartGame uses instead (16 pixels higher than GroundOffset). */
  const RestartGroundOffset: real := 64.0
  /** Length of the hit animation, in milliseconds. */
  const HitAnimationDuration: int := 500

  const ObstacleCountShipped: nat := 1
  const CourseStartX: real := 1500.0
  const ObstacleSpacing: real := 400.0
  /** An obstacle's top edge sits this far above the ground at its x. */
  const ObstacleLift: real := 80.0
  const ObstacleImageCount: nat := 6
  const ScrollSpeed: real := 3.0
  const BackgroundScrollSpeed: real := 0.27
  const BackgroundScrollSpeedY: real := 0.135
  const MaxHealth: int := 3

  /** A static course hazard. `passed` and `hit` only ever flip from false to true. */
  datatype Obstacle = Obstacle(x: real, y: real, passed: bool, hit: bool, imageIndex: nat)
  {
    const width: real := 60.0
    const height: real := 120.0
  }

  /** The finish line; its x is null until the course is first generated. */
  datatype FinishLine = FinishLine(x: Option<real>, passed: bool)

  /** The process-wide game state (one per run, reset on restart). */
  datatype GameState = GameState(
    running: bool,
    score: int,
    obstaclesPassed: int,
    finishLineReached: bool,
    gameOverMessage: Option<string>,
    rewardScreenShown: bool,
    health: int)

  /** The state as the script loads: not running, three lives. */
  const InitialState: GameState :=
    GameState(false, 0, 0, false, None, false, MaxHealth)

  /** The one message frozen on a loss is chosen among these. */
  const GameOverMessages: seq<string> := [
    "Typický český turista v Tatrách \U{1F3D4}\U{FE0F}",
    "A to ma chceš učiť snowboardovať? \U{1F605}",
    "Nechceš radšej vyskúšať lyže? \U{26F7}\U{FE0F}"
  ]
}
