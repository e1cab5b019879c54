/** The decisions the draw phase makes from the state; drawing itself is left out. */
module Render {
  import opened Entities
  import opened Sweep
  import opened Course

  datatype Sprite = Normal | JumpSprite | Screaming

  /** drawPlayer: the screaming sprite during the hit animation, otherwise the
      jumping or the normal one. */
  function SpriteFor(hitActive: bool, isJumping: bool): (s: Sprite)
    ensures s == Screaming <==> hitActive
    ensures s == JumpSprite <==> !hitActive && isJumping
    ensures s == Normal <==> !hitActive && !isJumping
  {
    if hitActive then Screaming else if isJumping then JumpSprite else Normal
  }

  /** drawHearts: heart i (0, 1, 2 from the left) is drawn grey. */
  predicate HeartIsGrey(health: int, i: int)
  {
    health <= 2 - i
  }

  /** The grey hearts are the leftmost ones, one per obstacle that has hit the
      player: before the first run and during every run after it. */
  lemma GreyHeartsAreLostLives(obs: seq<Obstacle>, s: GameState, fin: FinishLine, n: nat, i: int)
    requires Consistent(obs, s, fin, n) && 0 <= i < MaxHealth
    ensures HeartIsGrey(s.health, i) <==> i < CountHit(obs)
  {
  }

  /** Losing one life greys exactly one more heart. */
  lemma LosingALifeGreysOneHeart(health: int, i: int)
    requires 0 <= i < MaxHealth
    ensures HeartIsGrey(health - 1, i) <==> HeartIsGrey(health, i) || i == MaxHealth - health
  {
  }

  const CheckSize: nat := 15

  /** drawFinishLine: the colour of the check whose offset within the line is (x, y). */
  predicate CheckerIsBlack(x: nat, y: nat)
  {
    (x / CheckSize + y / CheckSize) % 2 == 0
  }

  /** Neighbouring checks always have opposite colours. */
  lemma CheckerAlternates(x: nat, y: nat)
    ensures CheckerIsBlack(x + CheckSize, y) <==> !CheckerIsBlack(x, y)
    ensures CheckerIsBlack(x, y + CheckSize) <==> !CheckerIsBlack(x, y)
  {
    assert (x + CheckSize) / CheckSize == x / CheckSize + 1;
    assert (y + CheckSize) / CheckSize == y / CheckSize + 1;
  }

  /** drawFinishLine draws only once the line exists and is within 200 pixels of
      the right edge of the canvas. */
  predicate FinishLineVisible(fin: FinishLine, canvasWidth: real)
  {
    fin.x.Some? && fin.x.value < canvasWidth + 200.0
  }

  /** The finish line never scrolls, so during a run it is drawn on every frame or
      on none, depending only on the canvas width; a canvas narrower than 1700
      pixels never shows it. */
  lemma FinishLineFixedOnScreen(obs: seq<Obstacle>, s: GameState, fin: FinishLine, n: nat, canvasWidth: real)
    requires Consistent(obs, s, fin, n) && fin.x.Some?
    ensures FinishLineVisible(fin, canvasWidth) <==> canvasWidth > FinishX(n) - 200.0
    ensures canvasWidth < 1700.0 ==> !FinishLineVisible(fin, canvasWidth)
  {
  }

  /** gameLoop: the darkened game-over overlay and its restart hint are drawn on a
      stopped game that did not reach the finish line. */
  predicate ShowsGameOverOverlay(s: GameState)
  {
    !s.running && !s.finishLineReached
  }
}
