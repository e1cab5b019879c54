/** The slope the player rides down: a straight line in canvas coordinates
    (y grows downwards, so a positive angle means the slope descends to the right). */
module Slope {

  const SlopeStartY: real := 400.0
  const SlopeAngle: real := 0.44

  /** getGroundY: the canvas y of the snow surface at horizontal position x. */
  function Ground(x: real): real
  {
    SlopeStartY + x * SlopeAngle
  }

  /** The ground drops by SlopeAngle for every pixel to the right. */
  lemma GroundDifference(a: real, b: real)
    ensures Ground(b) - Ground(a) == SlopeAngle * (b - a)
  {
  }

  /** The slope never flattens or inverts. */
  lemma GroundStrictlyIncreasing(a: real, b: real)
    requires a < b
    ensures Ground(a) < Ground(b)
  {
    GroundDifference(a, b);
  }
}
