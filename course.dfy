/** The fixed course initObstacles lays out, and the invariant every reachable game
    state keeps between frames. */
module Course {
  import opened Slope
  import opened Entities
  import opened Collision
  import opened Sweep

  /** The x of the i-th obstacle when the course is generated. */
  function SlotX(i: nat): real
  {
    CourseStartX + ObstacleSpacing * i as real
  }

  /** Where the finish line goes: one spacing after the last of n obstacles. */
  function FinishX(n: nat): real
  {
    CourseStartX + ObstacleSpacing * n as real
  }

  /** A course exactly as initObstacles leaves it, with the given image choices. */
  predicate IsFreshCourse(obs: seq<Obstacle>, fin: FinishLine, images: seq<nat>, n: nat)
  {
    && n >= 1 && |obs| == n && |images| == n
    && (forall i :: 0 <= i < n ==> obs[i] == Obstacle(SlotX(i), Ground(SlotX(i)) - ObstacleLift, false, false, images[i]))
    && fin == FinishLine(Some(obs[n - 1].x + ObstacleSpacing), false)
  }

  /** The state a run starts in, whether by the start button or by restart. */
  const RunStartState: GameState := InitialState.(running := true)

  /** An obstacle on the slope, with a valid image, passed exactly when its
      trailing edge is behind the player. */
  predicate OnCourse(o: Obstacle)
  {
    && o.y == Ground(o.x) - ObstacleLift
    && o.imageIndex < ObstacleImageCount
    && (o.passed <==> o.x + o.width < PlayerX)
  }

  /** The invariant between frames. Before the first run nothing has been generated;
      afterwards the course has its n spaced obstacles, the finish line stays where it
      was put, the counter counts the passed obstacles, health is three minus the hit
      ones and never negative, and the reward is armed exactly when all are passed. */
  predicate Consistent(obs: seq<Obstacle>, s: GameState, fin: FinishLine, n: nat)
  {
    if fin.x.None? then
      obs == [] && !fin.passed && s == InitialState
    else
      && n >= 1 && |obs| == n
      && fin == FinishLine(Some(FinishX(n)), false)
      && (forall i :: 0 <= i < |obs| ==> OnCourse(obs[i]))
      && Spaced(obs)
      && s.obstaclesPassed == CountPassed(obs)
      && s.health == MaxHealth - CountHit(obs)
      && s.health >= 0
      && (s.rewardScreenShown <==> s.obstaclesPassed == n)
      && !s.finishLineReached
      && StateSound(s)
  }

  lemma {:induction false} NothingPassedOrHit(obs: seq<Obstacle>)
    requires forall i :: 0 <= i < |obs| ==> !obs[i].passed && !obs[i].hit
    ensures CountHit(obs) == 0 && CountPassed(obs) == 0
  {
    if obs != [] {
      NothingPassedOrHit(obs[..|obs| - 1]);
    }
  }

  /** Generating the course and starting a run establishes the invariant. */
  lemma FreshCourseIsConsistent(obs: seq<Obstacle>, fin: FinishLine, images: seq<nat>, n: nat)
    requires IsFreshCourse(obs, fin, images, n)
    requires forall i :: 0 <= i < |images| ==> images[i] < ObstacleImageCount
    ensures Consistent(obs, RunStartState, fin, n)
  {
    NothingPassedOrHit(obs);
    assert (n - 1) as real + 1.0 == n as real;
    forall i | 0 <= i < n
      ensures OnCourse(obs[i])
    {
      assert SlotX(i) >= CourseStartX;
    }
  }

  /** The finish line never moves while the player never moves, so it is never
      crossed: the finish-line win cannot happen. */
  lemma FinishLineNeverReached(obs: seq<Obstacle>, s: GameState, fin: FinishLine, n: nat)
    requires Consistent(obs, s, fin, n) && fin.x.Some?
    ensures !Crossed(fin.x) && !fin.passed && !s.finishLineReached
  {
  }

  /** The swept obstacles stay on the slope, spaced, and exact about `passed`; any
      obstacle that newly turned hit is in the strike zone. */
  lemma SweptCourse(playerY: real, obs: seq<Obstacle>, s: GameState, n: nat, message: string)
    requires forall i :: 0 <= i < |obs| ==> OnCourse(obs[i])
    requires Spaced(obs)
    ensures var b := SweepObstacles(playerY, obs, s, n, message).obstacles;
      && |b| == |obs| && Spaced(b)
      && (forall j :: 0 <= j < |b| ==> OnCourse(b[j]))
      && (forall j :: 0 <= j < |b| ==> (obs[j].hit ==> b[j].hit) && (b[j].hit && !obs[j].hit ==> InStrikeZone(b[j].x)))
  {
    var b := SweepObstacles(playerY, obs, s, n, message).obstacles;
    SweepShape(playerY, obs, s, n, message);
    forall j | 0 <= j < |b|
      ensures OnCourse(b[j])
      ensures b[j].hit && !obs[j].hit ==> InStrikeZone(b[j].x)
    {
      if b[j].hit && !obs[j].hit {
        CollisionInStrikeZone(playerY, Scrolled(obs[j]));
      }
    }
  }

  /** One updateObstacles of a running game keeps the invariant. */
  lemma UpdateKeepsConsistent(playerY: real, obs: seq<Obstacle>, s: GameState, fin: FinishLine, n: nat, message: string)
    requires Consistent(obs, s, fin, n) && s.running && message in GameOverMessages
    ensures var r := UpdateOutcome(playerY, obs, s, fin, n, message);
      Consistent(r.obstacles, r.state, r.finishLine, n) && r.finishLine == fin
  {
    var swept := SweepObstacles(playerY, obs, s, n, message);
    var b := swept.obstacles;
    var t := swept.state;
    SweptCourse(playerY, obs, s, n, message);
    SweepAccounting(playerY, obs, s, n, message);
    SweepKeepsSound(playerY, obs, s, n, message);
    SweepArmsReward(playerY, obs, s, n, message);
    CountsBounded(obs);
    CountsBounded(b);
    HitGrowthAtMostOne(obs, b);
    assert t.obstaclesPassed == CountPassed(b);
    assert t.health == MaxHealth - CountHit(b) >= 0;
    assert t.rewardScreenShown <==> t.obstaclesPassed == n;
    assert !Crossed(fin.x);
    assert CheckFinish(fin, t) == FinishResult(fin, t);
  }

  /** After the first run has started, the run is over exactly when the lives are
      gone or the reward is armed. */
  lemma RunOverExactly(obs: seq<Obstacle>, s: GameState, fin: FinishLine, n: nat)
    requires Consistent(obs, s, fin, n) && fin.x.Some?
    ensures !s.running <==> s.health == 0 || s.rewardScreenShown
  {
  }

  /** With the shipped course of a single obstacle at most one life can be lost, so
      the game can never be lost and no game-over message is ever frozen. */
  lemma ShippedCourseCannotBeLost(obs: seq<Obstacle>, s: GameState, fin: FinishLine)
    requires Consistent(obs, s, fin, ObstacleCountShipped)
    ensures s.health >= MaxHealth - 1 && s.gameOverMessage.None?
  {
    CountsBounded(obs);
  }
}
