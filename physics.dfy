/** The player's vertical motion: gravity integration, landing and the slope constraint. */
module Physics {
  import opened Slope
  import opened Entities
  import opened Collision

  /** The part of the player record that updatePlayer changes. */
  datatype Kinematics = Kinematics(y: real, velocityY: real, isJumping: bool)

  /** Where the player's top edge is when standing on the slope (player.groundY). */
  function StandingY(): real
  {
    Ground(PlayerX) - PlayerHeight + GroundOffset
  }

  /** One updatePlayer: integrate while airborne and snap to the slope on landing;
      otherwise pin the player to the slope. */
  function PlayerStep(k: Kinematics): (r: Kinematics)
    ensures r.y <= StandingY()
    ensures !r.isJumping ==> r.y == StandingY()
    ensures !k.isJumping ==> r == k.(y := StandingY())
    ensures k.isJumping && !r.isJumping ==> r.velocityY == 0.0 && k.y + k.velocityY + Gravity >= StandingY()
    ensures k.isJumping ==> (!r.isJumping <==> k.y + k.velocityY + Gravity >= StandingY())
    ensures k.isJumping && r.isJumping ==> r.velocityY == k.velocityY + Gravity && r.y == k.y + r.velocityY
  {
    if k.isJumping then
      var velocityY := k.velocityY + Gravity;
      var y := k.y + velocityY;
      if y >= StandingY() then Kinematics(StandingY(), 0.0, false) else Kinematics(y, velocityY, true)
    else
      k.(y := StandingY())
  }

  /** t consecutive updatePlayer calls. */
  function Ticks(k: Kinematics, t: nat): Kinematics
  {
    if t == 0 then k else PlayerStep(Ticks(k, t - 1))
  }

  /** The state right after jump() on a standing player. */
  function Launch(): Kinematics
  {
    Kinematics(StandingY(), JumpPower, true)
  }

  /** How far above the standing line the player is t ticks into a jump. */
  function Rise(t: nat): real
  {
    var r := t as real;
    -JumpPower * r - Gravity * r * (r + 1.0) / 2.0
  }

  /** Each tick of the flight adds the current velocity (gravity applied first). */
  lemma RiseStep(t: nat)
    requires t > 0
    ensures Rise(t) == Rise(t - 1) - (JumpPower + Gravity * t as real)
  {
    var r := t as real;
    assert (t - 1) as real == r - 1.0;
    assert r * (r + 1.0) - (r - 1.0) * r == 2.0 * r;
  }

  /** The player is strictly above the standing line from tick 1 to tick 98. */
  lemma RisePositive(t: nat)
    requires 1 <= t <= 98
    ensures Rise(t) > 0.0
  {
    var r := t as real;
    assert 1.0 <= r <= 98.0;
    var b := 0.1 * (99.0 - r);
    ProductPositive(r, b);
    assert Rise(t) == r * b;
  }

  lemma ProductPositive(a: real, b: real)
    requires a > 0.0 && b > 0.0
    ensures a * b > 0.0
  {
  }

  /** A jump from the slope climbs and falls on the parabola Rise(t) and stays in
      the air for the first 98 ticks. */
  lemma {:induction false} JumpFlight(t: nat)
    requires t < 99
    ensures Ticks(Launch(), t) == Kinematics(StandingY() - Rise(t), JumpPower + Gravity * t as real, true)
  {
    if t > 0 {
      JumpFlight(t - 1);
      var prev := Ticks(Launch(), t - 1);
      assert (t - 1) as real == t as real - 1.0;
      var velocityY := prev.velocityY + Gravity;
      assert velocityY == JumpPower + Gravity * t as real;
      RiseStep(t);
      RisePositive(t);
      assert prev.y + velocityY == StandingY() - Rise(t) < StandingY();
    }
  }

  /** ... and lands, back on the slope with no vertical speed, on tick 99. */
  lemma JumpLands()
    ensures Ticks(Launch(), 99) == Kinematics(StandingY(), 0.0, false)
  {
    JumpFlight(98);
    assert Rise(98) == 9.8;
  }

  lemma {:induction false} RiseAbove(t: nat)
    requires 18 <= t <= 81
    ensures Rise(t) > 140.0
  {
    var r := t as real;
    assert 18.0 <= r <= 81.0;
    
    var a, b := r - 18.0, 81.0 - r;
    assert a * b >= 0.0 by {
      if a == 0.0 || b == 0.0 {
        assert a * b == 0.0;
      } else {
        ProductPositive(a, b);
      }
    }
    assert Rise(t) - 140.0 == 0.1 * (a * b) + 5.8;
  }

  /** A well-timed jump clears an obstacle: jump while the obstacle is between 264
      and 343 pixels along, and no tick of the flight registers a hit on it. */
  lemma {:induction false} TimedJumpClears(x0: real, t: nat)
    requires 264.0 <= x0 <= 343.0 && t >= 1
    ensures var x := x0 - ScrollSpeed * t as real;
      !Collides(Ticks(Launch(), t).y, Obstacle(x, Ground(x) - ObstacleLift, false, false, 0))
  {
    var x := x0 - ScrollSpeed * t as real;
    var o := Obstacle(x, Ground(x) - ObstacleLift, false, false, 0);
    var y := Ticks(Launch(), t).y;
    if Collides(y, o) {
      CollisionInStrikeZone(y, o);
      assert 18 <= t <= 81;
      JumpFlight(t);
      RiseAbove(t);
      GroundDifference(PlayerX, x);
    }
  }
}
