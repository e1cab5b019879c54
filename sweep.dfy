/** What one updateObstacles does to the course and the game state: every obstacle
    scrolls, may strike the player once and may be passed once, in array order;
    then the finish line is checked. */
module Sweep {
  import opened Slope
  import opened Entities
  import opened Collision

  /** The obstacle after this tick's scroll, re-pinned to the slope. */
  function Scrolled(o: Obstacle): Obstacle
  {
    var x := o.x - ScrollSpeed;
    o.(x := x, y := Ground(x) - ObstacleLift)
  }

  /** The obstacle damages the player this tick. */
  predicate Strikes(playerY: real, o: Obstacle)
  {
    !Scrolled(o).passed && Collides(playerY, Scrolled(o))
  }

  /** The obstacle's trailing edge goes behind the player this tick. */
  predicate PassesNow(o: Obstacle)
  {
    var m := Scrolled(o);
    !m.passed && m.x + m.width < PlayerX
  }

  /** The obstacle at the end of its turn in the loop. */
  function Move(playerY: real, o: Obstacle): (r: Obstacle)
    ensures r.x == o.x - ScrollSpeed && r.y == Ground(r.x) - ObstacleLift
    ensures r.imageIndex == o.imageIndex
    ensures o.hit ==> r.hit
    ensures o.passed ==> r.passed
    ensures r.hit && !o.hit <==> Strikes(playerY, o)
    ensures r.passed <==> o.passed || r.x + r.width < PlayerX
    ensures Strikes(playerY, o) ==> !o.passed && Collides(playerY, Scrolled(o))
  {
    Scrolled(o).(hit := o.hit || Strikes(playerY, o), passed := o.passed || PassesNow(o))
  }

  /** A registered hit: one life less; at zero lives the run stops and, unless one is
      frozen already, the given game-over message is frozen. */
  function Damage(s: GameState, message: string): (r: GameState)
    ensures r.health == s.health - 1
    ensures r.health <= 0 ==> !r.running && r.gameOverMessage.Some?
    ensures r.health > 0 ==> r.running == s.running && r.gameOverMessage == s.gameOverMessage
    ensures s.gameOverMessage.Some? ==> r.gameOverMessage == s.gameOverMessage
    ensures r.gameOverMessage != s.gameOverMessage ==> r.gameOverMessage == Some(message)
    ensures r.running ==> s.running
    ensures r.(health := s.health, running := s.running, gameOverMessage := s.gameOverMessage) == s
  {
    var health := s.health - 1;
    if health <= 0 then
      s.(health := health, running := false,
         gameOverMessage := if s.gameOverMessage.None? then Some(message) else s.gameOverMessage)
    else
      s.(health := health)
  }

  /** An obstacle passed: the counter goes up by one, and reaching the course's
      obstacle count arms the reward (once) and stops the run. */
  function CountPass(s: GameState, obstacleCount: int): (r: GameState)
    ensures r.obstaclesPassed == s.obstaclesPassed + 1
    ensures r.rewardScreenShown <==> s.rewardScreenShown || r.obstaclesPassed == obstacleCount
    ensures r.running <==> s.running && (s.rewardScreenShown || r.obstaclesPassed != obstacleCount)
    ensures r.(obstaclesPassed := s.obstaclesPassed, rewardScreenShown := s.rewardScreenShown, running := s.running) == s
  {
    var passed := s.obstaclesPassed + 1;
    if passed == obstacleCount && !s.rewardScreenShown then
      s.(obstaclesPassed := passed, rewardScreenShown := true, running := false)
    else
      s.(obstaclesPassed := passed)
  }

  datatype Step = Step(obstacle: Obstacle, state: GameState, struck: bool)

  /** One iteration of the forEach in updateObstacles. */
  function ObstacleStep(playerY: real, s: GameState, o: Obstacle, obstacleCount: int, message: string): Step
  {
    var struck := Strikes(playerY, o);
    var afterHit := if struck then Damage(s, message) else s;
    var afterPass := if PassesNow(o) then CountPass(afterHit, obstacleCount) else afterHit;
    Step(Move(playerY, o), afterPass, struck)
  }

  datatype SweepResult = SweepResult(obstacles: seq<Obstacle>, state: GameState, struck: bool)

  /** The whole forEach: the obstacles in array order, each step seeing the state the
      previous ones left; `struck` records whether any hit started the hit animation. */
  function SweepObstacles(playerY: real, obs: seq<Obstacle>, s: GameState, obstacleCount: int, message: string): SweepResult
    decreases |obs|
  {
    if obs == [] then
      SweepResult([], s, false)
    else
      var done := SweepObstacles(playerY, obs[..|obs| - 1], s, obstacleCount, message);
      var step := ObstacleStep(playerY, done.state, obs[|obs| - 1], obstacleCount, message);
      SweepResult(done.obstacles + [step.obstacle], step.state, done.struck || step.struck)
  }

  /** `finishLine.x < player.x`, where JavaScript compares a null x as 0. */
  predicate Crossed(x: Option<real>)
  {
    match x
    case None => 0.0 < PlayerX
    case Some(v) => v < PlayerX
  }

  datatype FinishResult = FinishResult(finishLine: FinishLine, state: GameState)

  /** The one-shot finish-line check after the obstacles. */
  function CheckFinish(fin: FinishLine, s: GameState): (r: FinishResult)
    ensures r.finishLine.passed <==> fin.passed || Crossed(fin.x)
    ensures r.finishLine.x == fin.x
    ensures r.state.finishLineReached <==> s.finishLineReached || (!fin.passed && Crossed(fin.x))
    ensures r.state.running <==> s.running && (fin.passed || !Crossed(fin.x))
    ensures r.state.(finishLineReached := s.finishLineReached, running := s.running) == s
  {
    if !fin.passed && Crossed(fin.x) then
      FinishResult(fin.(passed := true), s.(finishLineReached := true, running := false))
    else
      FinishResult(fin, s)
  }

  datatype Outcome = Outcome(obstacles: seq<Obstacle>, state: GameState, finishLine: FinishLine, struck: bool)

  /** Everything updateObstacles does apart from the scroll accumulators. */
  function UpdateOutcome(playerY: real, obs: seq<Obstacle>, s: GameState, fin: FinishLine,
                         obstacleCount: int, message: string): Outcome
  {
    var swept := SweepObstacles(playerY, obs, s, obstacleCount, message);
    var finish := CheckFinish(fin, swept.state);
    Outcome(swept.obstacles, finish.state, finish.finishLine, swept.struck)
  }

  function CountHit(obs: seq<Obstacle>): nat
  {
    if obs == [] then 0 else CountHit(obs[..|obs| - 1]) + (if obs[|obs| - 1].hit then 1 else 0)
  }

  function CountPassed(obs: seq<Obstacle>): nat
  {
    if obs == [] then 0 else CountPassed(obs[..|obs| - 1]) + (if obs[|obs| - 1].passed then 1 else 0)
  }

  lemma {:induction false} CountsBounded(obs: seq<Obstacle>)
    ensures CountHit(obs) <= |obs| && CountPassed(obs) <= |obs|
  {
    if obs != [] {
      CountsBounded(obs[..|obs| - 1]);
    }
  }

  /** The sweep moves every obstacle independently of the others and of the state. */
  lemma {:induction false} SweepShape(playerY: real, obs: seq<Obstacle>, s: GameState, obstacleCount: int, message: string)
    ensures var r := SweepObstacles(playerY, obs, s, obstacleCount, message);
      |r.obstacles| == |obs| && forall j :: 0 <= j < |obs| ==> r.obstacles[j] == Move(playerY, obs[j])
    decreases |obs|
  {
    if obs != [] {
      SweepShape(playerY, obs[..|obs| - 1], s, obstacleCount, message);
    }
  }

  /** Health drops by exactly the number of obstacles that flipped to hit, the
      counter rises by exactly the number that flipped to passed, and the hit
      animation starts exactly when health dropped. */
  lemma {:induction false} SweepAccounting(playerY: real, obs: seq<Obstacle>, s: GameState, obstacleCount: int, message: string)
    ensures var r := SweepObstacles(playerY, obs, s, obstacleCount, message);
      && r.state.health == s.health - (CountHit(r.obstacles) - CountHit(obs))
      && r.state.obstaclesPassed == s.obstaclesPassed + (CountPassed(r.obstacles) - CountPassed(obs))
      && r.state.health <= s.health
      && r.state.obstaclesPassed >= s.obstaclesPassed
      && (r.struck <==> r.state.health < s.health)
      && r.state.score == s.score
      && r.state.finishLineReached == s.finishLineReached
    decreases |obs|
  {
    if obs != [] {
      var k := |obs| - 1;
      SweepAccounting(playerY, obs[..k], s, obstacleCount, message);
      var done := SweepObstacles(playerY, obs[..k], s, obstacleCount, message);
      var m := Move(playerY, obs[k]);
      assert (done.obstacles + [m])[..|done.obstacles|] == done.obstacles;
      SweepShape(playerY, obs[..k], s, obstacleCount, message);
    }
  }

  /** Every step keeps the state sound: running exactly while lives remain and
      neither the reward nor the finish has ended the run; a game-over message
      exactly when lives are gone, and always one of the three. */
  predicate StateSound(s: GameState)
  {
    && (s.running <==> s.health > 0 && !s.rewardScreenShown && !s.finishLineReached)
    && (s.gameOverMessage.Some? <==> s.health <= 0)
    && (s.gameOverMessage.Some? ==> s.gameOverMessage.value in GameOverMessages)
  }

  lemma {:induction false} SweepKeepsSound(playerY: real, obs: seq<Obstacle>, s: GameState, obstacleCount: int, message: string)
    requires StateSound(s) && message in GameOverMessages
    ensures StateSound(SweepObstacles(playerY, obs, s, obstacleCount, message).state)
    decreases |obs|
  {
    if obs != [] {
      SweepKeepsSound(playerY, obs[..|obs| - 1], s, obstacleCount, message);
    }
  }

  /** Within a tick the run can only stop, a frozen message is never replaced and an
      armed reward stays armed. */
  lemma {:induction false} SweepOneWay(playerY: real, obs: seq<Obstacle>, s: GameState, obstacleCount: int, message: string)
    ensures var r := SweepObstacles(playerY, obs, s, obstacleCount, message);
      && (r.state.running ==> s.running)
      && (s.gameOverMessage.Some? ==> r.state.gameOverMessage == s.gameOverMessage)
      && (r.state.gameOverMessage.Some? ==> r.state.gameOverMessage == s.gameOverMessage || r.state.gameOverMessage == Some(message))
      && (s.rewardScreenShown ==> r.state.rewardScreenShown)
    decreases |obs|
  {
    if obs != [] {
      SweepOneWay(playerY, obs[..|obs| - 1], s, obstacleCount, message);
    }
  }

  /** The reward is armed in a sweep exactly when the counter climbs from below the
      obstacle count to it. */
  lemma {:induction false} SweepArmsReward(playerY: real, obs: seq<Obstacle>, s: GameState, obstacleCount: int, message: string)
    ensures var r := SweepObstacles(playerY, obs, s, obstacleCount, message);
      r.state.rewardScreenShown == (s.rewardScreenShown || s.obstaclesPassed < obstacleCount <= r.state.obstaclesPassed)
    decreases |obs|
  {
    if obs != [] {
      SweepArmsReward(playerY, obs[..|obs| - 1], s, obstacleCount, message);
      SweepAccounting(playerY, obs[..|obs| - 1], s, obstacleCount, message);
    }
  }

  /** Consecutive obstacles are ObstacleSpacing apart. */
  predicate Spaced(obs: seq<Obstacle>)
  {
    forall i, j :: 0 <= i <= j < |obs| ==> obs[j].x == obs[i].x + ObstacleSpacing * (j - i) as real
  }

  lemma {:induction false} HitsUnchanged(a: seq<Obstacle>, b: seq<Obstacle>)
    requires |a| == |b|
    requires forall j :: 0 <= j < |b| ==> a[j].hit == b[j].hit
    ensures CountHit(a) == CountHit(b)
  {
    if b != [] {
      HitsUnchanged(a[..|a| - 1], b[..|b| - 1]);
    }
  }

  /** On a spaced course only one obstacle can be in the strike zone, so a sweep
      adds at most one hit. */
  lemma {:induction false} HitGrowthAtMostOne(a: seq<Obstacle>, b: seq<Obstacle>)
    requires |a| == |b| && Spaced(b)
    requires forall j :: 0 <= j < |b| ==> (a[j].hit ==> b[j].hit) && (b[j].hit && !a[j].hit ==> InStrikeZone(b[j].x))
    ensures CountHit(a) <= CountHit(b) <= CountHit(a) + 1
  {
    if b != [] {
      var k := |b| - 1;
      assert Spaced(b[..k]);
      HitGrowthAtMostOne(a[..k], b[..k]);
      if b[k].hit && !a[k].hit {
        forall j | 0 <= j < k
          ensures a[j].hit == b[j].hit
        {
          assert b[k].x == b[j].x + ObstacleSpacing * (k - j) as real;
          assert (k - j) as real >= 1.0;
        }
        HitsUnchanged(a[..k], b[..k]);
      }
    }
  }
}
