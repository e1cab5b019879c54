/** The game session: the mutable player record, the game state, the obstacle array,
    the finish line and the scroll accumulators, and the operations that change them. */
module Game {
  import opened Slope
  import opened Entities
  import opened Collision
  import opened Physics
  import opened Sweep
  import opened Course
  import opened Render

  /** The player record. Its x, width and height never change (PlayerX, PlayerWidth,
      PlayerHeight); these are the fields the game writes. */
  class Player {
    var y: real
    var velocityY: real
    var isJumping: bool
    var groundY: real
    var hitActive: bool
    var hitStartTime: int

    /** The player as the script loads. */
    constructor ()
      ensures y == 500.0 && velocityY == 0.0 && !isJumping && groundY == 300.0
      ensures !hitActive && hitStartTime == 0
    {
      y := 500.0;
      velocityY := 0.0;
      isJumping := false;
      groundY := 300.0;
      hitActive := false;
      hitStartTime := 0;
    }

    function Motion(): Kinematics
      reads this
    {
      Kinematics(y, velocityY, isJumping)
    }
  }

  /** A tap restarts the game only on a stopped game that did not reach the finish. */
  predicate RestartAllowed(s: GameState)
  {
    !s.running && !s.finishLineReached
  }

  /** The hint "click to restart" is on screen exactly when a tap restarts. */
  lemma RestartHintMatchesGuard(s: GameState)
    ensures ShowsGameOverOverlay(s) <==> RestartAllowed(s)
  {
  }

  /** Once a run has started, the game-over overlay is up exactly when the lives are
      gone or the reward has been armed: the overlay also covers the reward path. */
  lemma GameOverOverlayWhen(obs: seq<Obstacle>, s: GameState, fin: FinishLine, n: nat)
    requires Consistent(obs, s, fin, n) && fin.x.Some?
    ensures ShowsGameOverOverlay(s) <==> s.health == 0 || s.rewardScreenShown
  {
    RunOverExactly(obs, s, fin, n);
  }

  class Session {
    const obstacleCount: nat
    const player: Player
    var state: GameState
    var obstacles: seq<Obstacle>
    var finishLine: FinishLine
    var gameScroll: real
    var backgroundScroll: real
    var backgroundScrollY: real

    ghost predicate Valid()
      reads this
    {
      obstacleCount >= 1 && Consistent(obstacles, state, finishLine, obstacleCount)
    }

    /** The globals as the script loads, for a course of n obstacles. */
    constructor (n: nat)
      requires n >= 1
      ensures Valid() && fresh(player)
      ensures obstacleCount == n && state == InitialState
      ensures obstacles == [] && finishLine == FinishLine(None, false)
      ensures gameScroll == 0.0 && backgroundScroll == 0.0 && backgroundScrollY == 0.0
      ensures player.y == 500.0 && player.velocityY == 0.0 && !player.isJumping && !player.hitActive
    {
      obstacleCount := n;
      player := new Player();
      state := InitialState;
      obstacles := [];
      finishLine := FinishLine(None, false);
      gameScroll := 0.0;
      backgroundScroll := 0.0;
      backgroundScrollY := 0.0;
    }

    /** initObstacles: empty the array, push the obstacles at their fixed positions with
        the chosen images, and put the finish line one spacing after the last. */
    method InitObstacles(images: seq<nat>)
      requires obstacleCount >= 1 && |images| == obstacleCount
      modifies this`obstacles, this`finishLine
      ensures IsFreshCourse(obstacles, finishLine, images, obstacleCount)
    {
      obstacles := [];
      var i := 0;
      while i < obstacleCount
        invariant 0 <= i <= obstacleCount
        invariant |obstacles| == i
        invariant forall k :: 0 <= k < i ==>
          obstacles[k] == Obstacle(SlotX(k), Ground(SlotX(k)) - ObstacleLift, false, false, images[k])
      {
        var obstacleX := CourseStartX + i as real * ObstacleSpacing;
        obstacles := obstacles + [Obstacle(obstacleX, Ground(obstacleX) - ObstacleLift, false, false, images[i])];
        i := i + 1;
      }
      finishLine := FinishLine(Some(obstacles[obstacleCount - 1].x + ObstacleSpacing), false);
    }

    /** startGame, once the menu is dismissed: generate the course and start running. */
    method Start(images: seq<nat>)
      requires Valid() && finishLine.x.None?
      requires |images| == obstacleCount
      requires forall i :: 0 <= i < |images| ==> images[i] < ObstacleImageCount
      modifies this`obstacles, this`finishLine, this`state
      ensures Valid() && state == RunStartState
      ensures IsFreshCourse(obstacles, finishLine, images, obstacleCount)
    {
      InitObstacles(images);
      state := state.(running := true);
      FreshCourseIsConsistent(obstacles, finishLine, images, obstacleCount);
    }

    /** jump: only a running player standing on the slope takes off. */
    method Jump()
      modifies player`velocityY, player`isJumping
      ensures if old(!player.isJumping && state.running)
        then player.velocityY == JumpPower && player.isJumping
        else player.velocityY == old(player.velocityY) && player.isJumping == old(player.isJumping)
      ensures player.isJumping || !state.running
    {
      if !player.isJumping && state.running {
        player.velocityY := JumpPower;
        player.isJumping := true;
      }
    }

    /** updatePlayer: gravity while airborne, landing on the slope, otherwise pinned to it. */
    method UpdatePlayer()
      modifies player`y, player`velocityY, player`isJumping, player`groundY
      ensures player.Motion() == PlayerStep(old(player.Motion()))
      ensures player.groundY == StandingY()
    {
      var groundOffset := GroundOffset;
      player.groundY := Ground(PlayerX) - PlayerHeight + groundOffset;
      if player.isJumping {
        player.velocityY := player.velocityY + Gravity;
        player.y := player.y + player.velocityY;
        var groundYAtPlayer := Ground(PlayerX) - PlayerHeight + groundOffset;
        if player.y >= groundYAtPlayer {
          player.y := groundYAtPlayer;
          player.velocityY := 0.0;
          player.isJumping := false;
        }
      } else {
        var groundYAtPlayer := Ground(PlayerX) - PlayerHeight + groundOffset;
        player.y := groundYAtPlayer;
      }
    }

    /** The body shared by both collision branches: lose a life, start the hit
        animation, and on the last life stop and freeze a message. */
    method RegisterHit(message: string, now: int)
      modifies this`state, player`hitActive, player`hitStartTime
      ensures state == Damage(old(state), message)
      ensures player.hitActive && player.hitStartTime == now
    {
      state := state.(health := state.health - 1);
      player.hitActive := true;
      player.hitStartTime := now;
      if state.health <= 0 {
        state := state.(running := false);
        if state.gameOverMessage.None? {
          state := state.(gameOverMessage := Some(message));
        }
      }
    }

    /** The forEach callback of updateObstacles for one obstacle: scroll it, test it
        for a hit unless it is already passed, then test whether it has been passed. */
    method UpdateObstacle(obstacle: Obstacle, message: string, now: int) returns (updated: Obstacle, struck: bool)
      modifies this`state, player`hitActive, player`hitStartTime
      ensures Step(updated, state, struck) == ObstacleStep(player.y, old(state), obstacle, obstacleCount, message)
      ensures player.hitActive == (old(player.hitActive) || struck)
      ensures player.hitStartTime == if struck then now else old(player.hitStartTime)
    {
      updated := obstacle.(x := obstacle.x - ScrollSpeed);
      updated := updated.(y := Ground(updated.x) - ObstacleLift);
      struck := false;
      if !updated.passed {
        var horizontalOverlap := HorizontalOverlap(updated);
        var verticalOverlap := VerticalOverlap(player.y, updated);
        if horizontalOverlap > 0.0 && verticalOverlap > 0.0 {
          // Both branches of the source end in the same hit block; it is written once below.
          var significant: bool;
          if PlayerX > updated.x {
            var minRequiredOverlap := RequiredOverlapFromRight(PlayerWidth, updated.width, PlayerX - updated.x);
            significant := horizontalOverlap >= minRequiredOverlap && verticalOverlap >= VerticalThreshold && !updated.hit;
          } else {
            significant := horizontalOverlap >= LeftHorizontalThreshold && verticalOverlap >= VerticalThreshold && !updated.hit;
          }
          if significant {
            updated := updated.(hit := true);
            RegisterHit(message, now);
            struck := true;
          }
        }
      }
      if !updated.passed && updated.x + updated.width < PlayerX {
        updated := updated.(passed := true);
        state := state.(obstaclesPassed := state.obstaclesPassed + 1);
        if state.obstaclesPassed == obstacleCount && !state.rewardScreenShown {
          state := state.(rewardScreenShown := true, running := false);
        }
      }
    }

    /** updateObstacles: advance the scroll accumulators, then scroll, test and count
        every obstacle in array order, then check the finish line. */
    method UpdateObstacles(messageIndex: nat, now: int)
      requires messageIndex < |GameOverMessages|
      modifies this`obstacles, this`state, this`finishLine
      modifies this`gameScroll, this`backgroundScroll, this`backgroundScrollY
      modifies player`hitActive, player`hitStartTime
      ensures var r := UpdateOutcome(player.y, old(obstacles), old(state), old(finishLine), obstacleCount,
                                     GameOverMessages[messageIndex]);
        && obstacles == r.obstacles && state == r.state && finishLine == r.finishLine
        && player.hitActive == (old(player.hitActive) || r.struck)
        && player.hitStartTime == (if r.struck then now else old(player.hitStartTime))
      ensures gameScroll == old(gameScroll) + ScrollSpeed
      ensures backgroundScroll == old(backgroundScroll) + (if old(state.running) then BackgroundScrollSpeed else 0.0)
      ensures backgroundScrollY == old(backgroundScrollY) + (if old(state.running) then BackgroundScrollSpeedY else 0.0)
    {
      gameScroll := gameScroll + ScrollSpeed;
      if state.running {
        backgroundScroll := backgroundScroll + BackgroundScrollSpeed;
        backgroundScrollY := backgroundScrollY + BackgroundScrollSpeedY;
      }
      var message := GameOverMessages[messageIndex];
      ghost var before := obstacles;
      ghost var start := state;
      var struck := false;
      var i := 0;
      while i < |obstacles|
        invariant 0 <= i <= |obstacles| == |before|
        invariant obstacles[i..] == before[i..]
        invariant SweepObstacles(player.y, before[..i], start, obstacleCount, message)
                  == SweepResult(obstacles[..i], state, struck)
        invariant player.hitActive == (old(player.hitActive) || struck)
        invariant player.hitStartTime == if struck then now else old(player.hitStartTime)
        invariant finishLine == old(finishLine)
        invariant gameScroll == old(gameScroll) + ScrollSpeed
        invariant backgroundScroll == old(backgroundScroll) + (if old(state.running) then BackgroundScrollSpeed else 0.0)
        invariant backgroundScrollY == old(backgroundScrollY) + (if old(state.running) then BackgroundScrollSpeedY else 0.0)
      {
        assert obstacles[i] == before[i];
        var obstacle, hit := UpdateObstacle(obstacles[i], message, now);
        struck := struck || hit;
        assert before[..i + 1][..i] == before[..i];
        obstacles := obstacles[i := obstacle];
        assert obstacles[..i + 1] == obstacles[..i] + [obstacle];
        i := i + 1;
      }
      assert before[..|before|] == before;
      assert obstacles[..|obstacles|] == obstacles;
      if !finishLine.passed && Crossed(finishLine.x) {
        finishLine := finishLine.(passed := true);
        state := state.(finishLineReached := true, running := false);
      }
    }

    /** The update phase of gameLoop: player then obstacles, and only while running. */
    method Frame(messageIndex: nat, now: int)
      requires Valid() && messageIndex < |GameOverMessages|
      modifies this`obstacles, this`state, this`finishLine
      modifies this`gameScroll, this`backgroundScroll, this`backgroundScrollY
      modifies player`y, player`velocityY, player`isJumping, player`groundY, player`hitActive, player`hitStartTime
      ensures Valid()
      ensures !old(state.running) ==> unchanged(this) && unchanged(player)
      ensures old(state.running) ==>
        && player.Motion() == PlayerStep(old(player.Motion()))
        && player.groundY == StandingY()
        && gameScroll == old(gameScroll) + ScrollSpeed
        && backgroundScroll == old(backgroundScroll) + BackgroundScrollSpeed
        && backgroundScrollY == old(backgroundScrollY) + BackgroundScrollSpeedY
        && var r := UpdateOutcome(player.y, old(obstacles), old(state), old(finishLine), obstacleCount,
                                  GameOverMessages[messageIndex]);
           && obstacles == r.obstacles && state == r.state && finishLine == r.finishLine
           && player.hitActive == (old(player.hitActive) || r.struck)
           && player.hitStartTime == (if r.struck then now else old(player.hitStartTime))
    {
      if state.running {
        UpdatePlayer();
        UpdateObstacles(messageIndex, now);
        UpdateKeepsConsistent(player.y, old(obstacles), old(state), old(finishLine), obstacleCount,
                              GameOverMessages[messageIndex]);
      }
    }

    /** restartGame: reset the state, the player and the scroll, then regenerate the course. */
    method Restart(images: seq<nat>)
      requires obstacleCount >= 1 && |images| == obstacleCount
      requires forall i :: 0 <= i < |images| ==> images[i] < ObstacleImageCount
      modifies this`obstacles, this`state, this`finishLine
      modifies this`gameScroll, this`backgroundScroll, this`backgroundScrollY
      modifies player`y, player`velocityY, player`isJumping, player`groundY, player`hitActive
      ensures Valid() && state == RunStartState
      ensures IsFreshCourse(obstacles, finishLine, images, obstacleCount)
      ensures player.groundY == Ground(PlayerX) - PlayerHeight + RestartGroundOffset && player.y == player.groundY
      ensures player.velocityY == 0.0 && !player.isJumping && !player.hitActive
      ensures gameScroll == 0.0 && backgroundScroll == 0.0 && backgroundScrollY == 0.0
    {
      state := state.(running := true, score := 0, obstaclesPassed := 0, finishLineReached := false,
                      gameOverMessage := None, rewardScreenShown := false, health := MaxHealth);
      var groundOffset := RestartGroundOffset;
      player.groundY := Ground(PlayerX) - PlayerHeight + groundOffset;
      player.y := player.groundY;
      player.velocityY := 0.0;
      player.isJumping := false;
      player.hitActive := false;
      gameScroll := 0.0;
      backgroundScroll := 0.0;
      backgroundScrollY := 0.0;
      InitObstacles(images);
      FreshCourseIsConsistent(obstacles, finishLine, images, obstacleCount);
    }

    /** A click or touchstart on the canvas: the jump listener runs first, then the
        restart listener, which restarts only a stopped game that did not finish. */
    method OnTap(images: seq<nat>)
      requires Valid() && |images| == obstacleCount
      requires forall i :: 0 <= i < |images| ==> images[i] < ObstacleImageCount
      modifies this`obstacles, this`state, this`finishLine
      modifies this`gameScroll, this`backgroundScroll, this`backgroundScrollY
      modifies player`y, player`velocityY, player`isJumping, player`groundY, player`hitActive
      ensures Valid()
      ensures RestartAllowed(old(state)) ==>
        && state == RunStartState && IsFreshCourse(obstacles, finishLine, images, obstacleCount)
        && player.groundY == Ground(PlayerX) - PlayerHeight + RestartGroundOffset && player.y == player.groundY
        && player.velocityY == 0.0 && !player.isJumping && !player.hitActive
        && gameScroll == 0.0 && backgroundScroll == 0.0 && backgroundScrollY == 0.0
      ensures !RestartAllowed(old(state)) ==>
        && state == old(state) && obstacles == old(obstacles) && finishLine == old(finishLine)
        && gameScroll == old(gameScroll) && backgroundScroll == old(backgroundScroll)
        && backgroundScrollY == old(backgroundScrollY)
        && player.y == old(player.y) && player.groundY == old(player.groundY)
        && player.hitActive == old(player.hitActive)
        && (old(!player.isJumping) ==> player.isJumping && player.velocityY == JumpPower)
        && (old(player.isJumping) ==> player.velocityY == old(player.velocityY) && player.isJumping)
    {
      Jump();
      if !state.running && !state.finishLineReached {
        Restart(images);
      }
    }

    /** The state-changing part of drawPlayer: pick the sprite, and end the hit
        animation once its duration has elapsed. */
    method DrawPlayerSprite(now: int) returns (sprite: Sprite)
      modifies player`hitActive
      ensures sprite == SpriteFor(old(player.hitActive), player.isJumping)
      ensures player.hitActive <==> old(player.hitActive) && now - player.hitStartTime < HitAnimationDuration
    {
      if player.hitActive {
        sprite := Screaming;
        if now - player.hitStartTime >= HitAnimationDuration {
          player.hitActive := false;
        }
      } else {
        sprite := if player.isJumping then JumpSprite else Normal;
      }
    }
  }
}
