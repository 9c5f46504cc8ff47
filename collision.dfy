/**
 * Collision response of the player against one static block: four
 * bounding-box checks, each of which snaps one coordinate of the player to
 * the block's edge. The alignment tests deliberately allow a full player
 * width (or height) of slack.
 */
module Collision {
  import opened Geometry
  import opened PlayerPhysics

  /** Horizontally aligned with the block, give or take one player width. */
  predicate AlignedHorizontally(s: PlayerState, b: Box) {
    Abs(s.x - b.x) < s.width || Abs((s.x + s.width) - (b.x + b.width)) < s.width
  }

  /** Vertically aligned with the block, give or take one player height. */
  predicate AlignedVertically(s: PlayerState, b: Box) {
    Abs(s.y - b.y) < s.height || Abs((s.y + s.height) - (b.y + b.height)) < s.height
  }

  /** Moving down (or not at all) with the bottom edge near the block's top. */
  predicate Lands(s: PlayerState, b: Box) {
    s.velocityY >= 0 && Abs((s.y + s.height) - b.y) <= MAX_Y_VELOCITY && AlignedHorizontally(s, b)
  }

  /** Moving up with the top edge near the block's bottom. */
  predicate BumpsHead(s: PlayerState, b: Box) {
    s.velocityY < 0 && Abs(s.y - (b.y + b.height)) <= MAX_Y_VELOCITY && AlignedHorizontally(s, b)
  }

  /** Moving right with the right edge near the block's left side. */
  predicate HitsLeftSide(s: PlayerState, b: Box) {
    s.velocityX > 0 && Abs((s.x + s.width) - b.x) <= MAX_X_VELOCITY && AlignedVertically(s, b)
  }

  /** Moving left with the left edge near the block's right side. */
  predicate HitsRightSide(s: PlayerState, b: Box) {
    s.velocityX < 0 && Abs(s.x - (b.x + b.width)) <= MAX_X_VELOCITY && AlignedVertically(s, b)
  }

  /**
   * `Player.checkForCollision`: every test reads the player as it was on
   * entry; the snaps are applied in the source's order.
   */
  function Collide(s: PlayerState, b: Box): (r: PlayerState)
    // landing: grounded, standing exactly on the block
    ensures Lands(s, b) ==> !r.falling && r.y + r.height == b.y
    // head bump: stopped, top edge exactly at the block's bottom
    ensures BumpsHead(s, b) ==> r.velocityY == 0 && r.y == b.y + b.height
    ensures !Lands(s, b) && !BumpsHead(s, b) ==> r.y == s.y
    // side snaps
    ensures HitsLeftSide(s, b) ==> r.x + r.width == b.x
    ensures HitsRightSide(s, b) ==> r.x == b.x + b.width
    ensures !HitsLeftSide(s, b) && !HitsRightSide(s, b) ==> r.x == s.x
    // at most one vertical and at most one horizontal snap
    ensures !(Lands(s, b) && BumpsHead(s, b)) && !(HitsLeftSide(s, b) && HitsRightSide(s, b))
    // a collision only ever grounds the player and only ever stops it vertically
    ensures r.falling <==> s.falling && !Lands(s, b)
    ensures r.velocityY == (if BumpsHead(s, b) then 0 else s.velocityY)
    ensures r.velocityX == s.velocityX && r.width == s.width && r.height == s.height
    ensures r.direction == s.direction && r.dead == s.dead && r.jumped == s.jumped
  {
    SnapRight(s, b, SnapLeft(s, b, SnapHead(s, b, SnapLanding(s, b))))
  }

  // The four checks of `Collide`; each tests the entry state `s` and updates `p`.

  function SnapLanding(s: PlayerState, b: Box): PlayerState {
    if Lands(s, b) then s.(falling := false, y := b.y - s.height) else s
  }

  function SnapHead(s: PlayerState, b: Box, p: PlayerState): PlayerState {
    if BumpsHead(s, b) then p.(velocityY := 0, y := b.y + b.height) else p
  }

  function SnapLeft(s: PlayerState, b: Box, p: PlayerState): PlayerState {
    if HitsLeftSide(s, b) then p.(x := b.x - s.width) else p
  }

  function SnapRight(s: PlayerState, b: Box, p: PlayerState): PlayerState {
    if HitsRightSide(s, b) then p.(x := b.x + b.width) else p
  }

  /** The player collided with every block of `boxes`, in list order. */
  function CollideAll(s: PlayerState, boxes: seq<Box>): (r: PlayerState)
    ensures r.falling ==> s.falling
    ensures r.velocityY == s.velocityY || r.velocityY == 0
    ensures r.velocityX == s.velocityX && r.width == s.width && r.height == s.height
    ensures r.direction == s.direction && r.dead == s.dead && r.jumped == s.jumped
    decreases |boxes|
  {
    if boxes == [] then s else Collide(CollideAll(s, boxes[..|boxes| - 1]), boxes[|boxes| - 1])
  }

  /**
   * Resolving a landing is idempotent: colliding again with the same block
   * leaves the player's height and grounded state where the landing put them.
   */
  lemma LandingIsStable(s: PlayerState, b: Box)
    requires Lands(s, b)
    ensures Collide(Collide(s, b), b).y == Collide(s, b).y
    ensures !Collide(Collide(s, b), b).falling
  {
  }

  /**
   * A player falling onto a block from just above it comes to rest on it,
   * wherever along the block it lands (within the one-width slack).
   */
  lemma LandsFromAbove(s: PlayerState, b: Box, gap: int)
    requires 0 <= gap <= MAX_Y_VELOCITY && s.velocityY >= 0
    requires s.y + s.height + gap == b.y
    requires AlignedHorizontally(s, b)
    ensures !Collide(s, b).falling && Collide(s, b).y == b.y - s.height
  {
  }
}
