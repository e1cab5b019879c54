/** The asymmetric collision test between the player and one obstacle. */
module Collision {
  import opened Slope
  import opened Entities

  const LeftHorizontalThreshold: real := 10.0
  const VerticalThreshold: real := 20.0
  /** Largest share of the overlap requirement that the right-side leniency removes. */
  const RightLeniency: real := 0.9

  function Min(a: real, b: real): (m: real)
    ensures m <= a && m <= b && (m == a || m == b)
  {
    if a <= b then a else b
  }

  /** Horizontal overlap of the player and the obstacle (positive when they overlap). */
  function HorizontalOverlap(o: Obstacle): real
  {
    Min(PlayerX + PlayerWidth - o.x, o.x + o.width - PlayerX)
  }

  /** Vertical overlap of a player whose top edge is at playerY and the obstacle. */
  function VerticalOverlap(playerY: real, o: Obstacle): real
  {
    Min(playerY + PlayerHeight - o.y, o.y + o.height - playerY)
  }

  /** The horizontal overlap a hit from the right needs: it shrinks linearly from
      all of the narrower width to a tenth of it as the player's shift past the
      obstacle's left edge grows to the two widths together. */
  function RequiredOverlapFromRight(pw: real, ow: real, shift: real): (r: real)
    requires pw > 0.0 && ow > 0.0 && shift >= 0.0
    ensures 0.1 * Min(pw, ow) <= r <= Min(pw, ow)
  {
    var ratio := Min(shift / (ow + pw), 1.0);
    DivisionNonNegative(shift, ow + pw);
    var tolerance := 1.0 - ratio * RightLeniency;
    ToleranceBetween(ratio);
    ScaleBetween(Min(pw, ow), tolerance);
    Min(pw, ow) * tolerance
  }

  lemma ToleranceBetween(ratio: real)
    requires 0.0 <= ratio <= 1.0
    ensures 0.1 <= 1.0 - ratio * RightLeniency <= 1.0
  {
  }

  lemma DivisionNonNegative(a: real, b: real)
    requires a >= 0.0 && b > 0.0
    ensures a / b >= 0.0
  {
  }

  lemma ScaleBetween(m: real, t: real)
    requires m > 0.0 && 0.1 <= t <= 1.0
    ensures 0.1 * m <= m * t <= m
  {
  }

  /** Whether the player, with its top edge at playerY, registers a hit on o. */
  predicate Collides(playerY: real, o: Obstacle)
  {
    var h := HorizontalOverlap(o);
    var v := VerticalOverlap(playerY, o);
    h > 0.0 && v > 0.0 &&
    if PlayerX > o.x then
      h >= RequiredOverlapFromRight(PlayerWidth, o.width, PlayerX - o.x) && v >= VerticalThreshold && !o.hit
    else
      h >= LeftHorizontalThreshold && v >= VerticalThreshold && !o.hit
  }

  /** Approaching from the left, a hit needs 10px across, 20px down and an obstacle
      that has not hurt the player yet. */
  lemma LeftApproach(playerY: real, o: Obstacle)
    requires o.x >= PlayerX
    ensures Collides(playerY, o) <==>
      HorizontalOverlap(o) >= LeftHorizontalThreshold && VerticalOverlap(playerY, o) >= VerticalThreshold && !o.hit
  {
  }

  /** From the right the fixed 10px rule is replaced by the shrinking requirement. */
  lemma RightApproach(playerY: real, o: Obstacle)
    requires o.x < PlayerX
    ensures Collides(playerY, o) <==>
      HorizontalOverlap(o) >= RequiredOverlapFromRight(PlayerWidth, o.width, PlayerX - o.x)
      && VerticalOverlap(playerY, o) >= VerticalThreshold && !o.hit
  {
  }

  /** The further the player is past the obstacle, the less overlap a hit needs;
      at no shift all of the narrower width, from a shift of both widths on a tenth. */
  lemma {:induction false} RequiredOverlapRelaxes(pw: real, ow: real, s1: real, s2: real)
    requires pw > 0.0 && ow > 0.0 && 0.0 <= s1 <= s2
    ensures RequiredOverlapFromRight(pw, ow, s2) <= RequiredOverlapFromRight(pw, ow, s1)
    ensures RequiredOverlapFromRight(pw, ow, 0.0) == Min(pw, ow)
    ensures s2 >= pw + ow ==> RequiredOverlapFromRight(pw, ow, s2) == 0.1 * Min(pw, ow)
  {
    var d := ow + pw;
    var m := Min(pw, ow);
    DivisionMonotone(s1, s2, d);
    var r1 := Min(s1 / d, 1.0);
    var r2 := Min(s2 / d, 1.0);
    assert RequiredOverlapFromRight(pw, ow, s1) == m * (1.0 - r1 * RightLeniency);
    assert RequiredOverlapFromRight(pw, ow, s2) == m * (1.0 - r2 * RightLeniency);
    ToleranceDecreases(r1, r2);
    MultiplyMonotone(m, 1.0 - r2 * RightLeniency, 1.0 - r1 * RightLeniency);
    if s2 >= d {
      DivisionAtLeastOne(s2, d);
    }
  }

  lemma ToleranceDecreases(r1: real, r2: real)
    requires r1 <= r2
    ensures 1.0 - r2 * RightLeniency <= 1.0 - r1 * RightLeniency
  {
  }

  lemma DivisionMonotone(a: real, b: real, d: real)
    requires a <= b && d > 0.0
    ensures a / d <= b / d
  {
    assert b / d - a / d == (b - a) / d;
  }

  lemma DivisionAtLeastOne(a: real, d: real)
    requires d > 0.0 && a >= d
    ensures a / d >= 1.0
  {
    assert a / d * d == a;
  }

  lemma MultiplyMonotone(m: real, a: real, b: real)
    requires m >= 0.0 && a <= b
    ensures m * a <= m * b
  {
    assert m * b - m * a == m * (b - a);
  }

  /** When the player is at least as wide as the obstacle, the overlap left after
      shifting past its left edge is always below what the right-side rule needs. */
  lemma {:induction false} RightRequirementUnreachable(pw: real, ow: real, shift: real)
    requires 0.0 < ow <= pw && shift > 0.0
    ensures ow - shift < RequiredOverlapFromRight(pw, ow, shift)
  {
    var d := ow + pw;
    var q := shift / d;
    QuotientPositive(shift, d);
    var ratio := Min(q, 1.0);
    // The requirement is ow * (1 - ratio * 0.9), and ratio <= q.
    MultiplyMonotone(ow, 1.0 - q * RightLeniency, 1.0 - ratio * RightLeniency);
    Distribute(ow, q);
    // The shrinkage q * 0.9 * ow stays below q * d, which is the shift.
    MultiplyStrict(q, 0.9 * ow, d);
    assert Min(pw, ow) == ow;
  }

  lemma QuotientPositive(a: real, d: real)
    requires a > 0.0 && d > 0.0
    ensures a / d > 0.0 && a / d * d == a
  {
  }

  lemma Distribute(m: real, q: real)
    ensures m * (1.0 - q * RightLeniency) == m - q * (0.9 * m)
  {
  }

  lemma MultiplyStrict(q: real, a: real, b: real)
    requires q > 0.0 && a < b
    ensures q * a < q * b
  {
    assert q * b - q * a == q * (b - a);
  }

  /** In this game the player (120 wide) is wider than every obstacle (60 wide), so
      the approach-from-the-right branch never registers a hit. */
  lemma NoHitFromTheRight(playerY: real, o: Obstacle)
    requires o.x < PlayerX
    ensures !Collides(playerY, o)
  {
    RightRequirementUnreachable(PlayerWidth, o.width, PlayerX - o.x);
  }

  /** Every hit happens while the obstacle's x is strictly inside the strike zone. */
  predicate InStrikeZone(x: real)
  {
    PlayerX - 60.0 < x < PlayerX + PlayerWidth
  }

  lemma CollisionInStrikeZone(playerY: real, o: Obstacle)
    requires Collides(playerY, o)
    ensures InStrikeZone(o.x) && PlayerX <= o.x <= PlayerX + PlayerWidth - LeftHorizontalThreshold
  {
    if o.x < PlayerX {
      NoHitFromTheRight(playerY, o);
    }
  }

  /** The tolerance boundary from the left: 10px across and 20px down is a hit,
      9px across with the same 20px down is not. */
  lemma LeftThresholdBoundary()
    ensures var y := Ground(210.0) - ObstacleLift;
      Collides(y + VerticalThreshold - PlayerHeight, Obstacle(210.0, y, false, false, 0))
    ensures var y := Ground(211.0) - ObstacleLift;
      !Collides(y + VerticalThreshold - PlayerHeight, Obstacle(211.0, y, false, false, 0))
  {
  }
}
