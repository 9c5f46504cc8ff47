/** Bullets: their speed, their per-tick motion and where `shootBullet` spawns them. */
module BulletPhysics {
  import opened Input
  import opened Geometry
  import opened PlayerPhysics

  /** Everything `Bullet.update` reads or writes. */
  datatype BulletState = BulletState(
    x: int, y: int, width: int, height: int,
    velocityX: int, velocityY: int, dead: bool)

  /**
   * A bullet's horizontal speed: twice the player's top speed, so that the
   * player cannot catch up with it, towards LEFT or (for any other
   * direction) towards the right.
   */
  function BulletVelocityX(direction: Key): (v: int)
    ensures v < 0 <==> direction == Left
    ensures Abs(v) == 2 * MAX_X_VELOCITY
  {
    if direction == Left then -MAX_X_VELOCITY * 2 else MAX_X_VELOCITY * 2
  }

  /** Off the canvas horizontally. */
  predicate OffScreen(x: int, canvasWidth: int) {
    x < 0 || x > canvasWidth
  }

  /** One `Bullet.update`: move, then mark dead once off the canvas. */
  function BulletStep(b: BulletState, canvasWidth: int): (r: BulletState)
    ensures r.x == b.x + b.velocityX && r.y == b.y + b.velocityY
    ensures r.dead <==> b.dead || OffScreen(r.x, canvasWidth)
    ensures r.velocityX == b.velocityX && r.velocityY == b.velocityY
    ensures r.width == b.width && r.height == b.height
  {
    var x, y := b.x + b.velocityX, b.y + b.velocityY;
    b.(x := x, y := y, dead := b.dead || OffScreen(x, canvasWidth))
  }

  /** The bullet after `n` updates. */
  function BulletAfter(b: BulletState, canvasWidth: int, n: nat): BulletState {
    if n == 0 then b else BulletStep(BulletAfter(b, canvasWidth, n - 1), canvasWidth)
  }

  /** After `n` updates the bullet has moved `n` times its (constant) velocity. */
  lemma {:induction false} BulletAfterMoves(b: BulletState, canvasWidth: int, n: nat)
    ensures BulletAfter(b, canvasWidth, n).x == b.x + n * b.velocityX
    ensures BulletAfter(b, canvasWidth, n).y == b.y + n * b.velocityY
    ensures BulletAfter(b, canvasWidth, n).velocityX == b.velocityX
    ensures BulletAfter(b, canvasWidth, n).velocityY == b.velocityY
    ensures b.dead ==> BulletAfter(b, canvasWidth, n).dead
  {
    if n > 0 {
      BulletAfterMoves(b, canvasWidth, n - 1);
    }
  }

  /** Every moving bullet leaves the canvas and is marked dead. */
  lemma {:induction false} BulletEventuallyDies(b: BulletState, canvasWidth: int, n: nat)
    requires b.velocityX > 0 ==> n > canvasWidth - b.x
    requires b.velocityX < 0 ==> n > b.x
    requires b.velocityX != 0 && n > 0
    ensures BulletAfter(b, canvasWidth, n).dead
  {
    BulletAfterMoves(b, canvasWidth, n);
    if b.velocityX > 0 {
      assert n * b.velocityX >= n;
    } else {
      assert n * b.velocityX <= -(n as int);
    }
  }

  /**
   * `shootBullet`: a BULLET_SPRITE_WIDTH x BULLET_SPRITE_HEIGHT bullet a
   * third of the way down the player, at its left edge when facing LEFT and
   * at its right edge otherwise, flying the way the player faces.
   */
  function Spawn(p: PlayerState): (r: BulletState)
    requires p.height % 3 == 0
    ensures r.velocityX < 0 <==> p.direction == Left
    ensures r.velocityX > 0 <==> p.direction != Left
    ensures Abs(r.velocityX) == 2 * MAX_X_VELOCITY
    ensures p.direction == Left ==> r.x == p.x
    ensures p.direction != Left ==> r.x == p.x + p.width
    ensures 3 * (r.y - p.y) == p.height
    ensures r.width == BULLET_SPRITE_WIDTH && r.height == BULLET_SPRITE_HEIGHT
    ensures r.velocityY == 0 && !r.dead
  {
    var x := if p.direction == Left then p.x else p.x + p.width;
    BulletState(x, p.y + p.height / 3, BULLET_SPRITE_WIDTH, BULLET_SPRITE_HEIGHT,
                BulletVelocityX(p.direction), 0, false)
  }

  /**
   * The shooter cannot catch its bullet: if over `n` ticks the player moves
   * at most MAX_X_VELOCITY per tick towards the bullet, the gap between the
   * player's leading edge and the bullet grows by at least MAX_X_VELOCITY
   * per tick.
   */
  lemma BulletOutrunsShooter(p: PlayerState, canvasWidth: int, n: nat, shooterX: int)
    requires p.height % 3 == 0
    requires p.direction != Left ==> shooterX <= p.x + n * MAX_X_VELOCITY
    requires p.direction == Left ==> shooterX >= p.x - n * MAX_X_VELOCITY
    ensures p.direction != Left ==>
      BulletAfter(Spawn(p), canvasWidth, n).x >= shooterX + p.width + n * MAX_X_VELOCITY
    ensures p.direction == Left ==>
      BulletAfter(Spawn(p), canvasWidth, n).x <= shooterX - n * MAX_X_VELOCITY
  {
    BulletAfterMoves(Spawn(p), canvasWidth, n);
  }
}
