/**
 * The game objects. `Sprite` holds the state every object shares; `Player`
 * and `Bullet` each own the `Sprite` part they extend and add their own
 * flags. A block is a plain `Sprite`.
 */
module Sprites {
  import opened Input
  import opened Geometry
  import opened PlayerPhysics
  import opened Collision
  import opened BulletPhysics

  class Sprite {
    var x: int
    var y: int
    const width: int
    const height: int
    var velocityX: int
    var velocityY: int
    const color: string

    function Box(): Box
      reads this
    {
      Geometry.Box(x, y, width, height)
    }

    /** A sprite at rest at (x, y). */
    constructor (x: int, y: int, w: int, h: int, color: string)
      ensures this.x == x && this.y == y && width == w && height == h
      ensures velocityX == 0 && velocityY == 0 && this.color == color
    {
      this.x, this.y := x, y;
      width, height := w, h;
      velocityX, velocityY := 0, 0;
      this.color := color;
    }

    method UpdateVelocity(newVelocityX: int, newVelocityY: int)
      modifies this
      ensures velocityX == newVelocityX && velocityY == newVelocityY
      ensures x == old(x) && y == old(y)
    {
      velocityX := newVelocityX;
      velocityY := newVelocityY;
    }

    /** Move by the current velocity. */
    method UpdatePosition()
      modifies this
      ensures x == old(x) + velocityX && y == old(y) + velocityY
      ensures velocityX == old(velocityX) && velocityY == old(velocityY)
    {
      x := x + velocityX;
      y := y + velocityY;
    }
  }

  /** The sprites' boxes, in order. */
  function Boxes(sprites: seq<Sprite>): (r: seq<Box>)
    reads sprites
    ensures |r| == |sprites|
    decreases |sprites|
  {
    if sprites == [] then [] else Boxes(sprites[..|sprites| - 1]) + [sprites[|sprites| - 1].Box()]
  }

  lemma BoxesAppend(sprites: seq<Sprite>, s: Sprite)
    ensures Boxes(sprites + [s]) == Boxes(sprites) + [s.Box()]
  {
    assert (sprites + [s])[..|sprites|] == sprites;
  }

  /** Entry `k` of the boxes is the box of sprite `k`. */
  lemma {:induction false} BoxesAt(sprites: seq<Sprite>, k: int)
    requires 0 <= k < |sprites|
    ensures Boxes(sprites)[k] == sprites[k].Box()
    decreases |sprites|
  {
    var n := |sprites| - 1;
    if k < n {
      BoxesAt(sprites[..n], k);
    }
  }

  class Player {
    const sprite: Sprite
    var falling: bool
    var jumped: bool
    var direction: Key
    const shooting: bool
    var dead: bool

    function State(): PlayerState
      reads this, sprite
    {
      PlayerState(sprite.x, sprite.y, sprite.width, sprite.height,
                  sprite.velocityX, sprite.velocityY, falling, jumped, direction, dead)
    }

    /** A grounded-looking player facing RIGHT; `jumped` starts out false. */
    constructor (x: int, y: int, w: int, h: int, color: string)
      ensures fresh(sprite) && sprite.color == color && !shooting
      ensures State() == PlayerState(x, y, w, h, 0, 0, false, false, Right, false)
    {
      sprite := new Sprite(x, y, w, h, color);
      falling := false;
      jumped := false;
      direction := Right;
      shooting := false;
      dead := false;
    }

    /** The horizontal speed for the held keys; turns the player when it moves. */
    method CalculateNewVelocityX(keys: KeyMap) returns (newVelocityX: int)
      modifies this
      ensures newVelocityX == VelocityX(keys)
      ensures State() == old(State()).(direction := DirectionAfter(old(direction), newVelocityX))
    {
      newVelocityX := 0;
      if Held(keys, Left) {
        newVelocityX := newVelocityX - MAX_X_VELOCITY;
      }
      if Held(keys, Right) {
        newVelocityX := newVelocityX + MAX_X_VELOCITY;
      }
      if newVelocityX > 0 {
        direction := Right;
      } else if newVelocityX < 0 {
        direction := Left;
      }
    }

    /** The vertical speed for this tick; starts a jump or resets the jump guard. */
    method CalculateNewVelocityY(keys: KeyMap) returns (newVelocityY: int)
      modifies this
      ensures var v := VerticalStep(old(sprite.velocityY), old(falling), old(jumped), Held(keys, Space));
        newVelocityY == v.velocityY && State() == old(State()).(falling := v.falling, jumped := v.jumped)
    {
      newVelocityY := 0;
      if falling {
        newVelocityY := sprite.velocityY + GRAVITY_ACCELERATION;
      } else {
        if Held(keys, Space) {
          if !jumped {
            jumped := true;
            falling := true;
            newVelocityY := -MAX_Y_VELOCITY;
          }
        } else {
          jumped := false;
        }
      }
      if newVelocityY > MAX_Y_VELOCITY {
        newVelocityY := MAX_Y_VELOCITY;
      }
    }

    /** Snap the player against `block`; the block itself is left alone. */
    method CheckForCollision(block: Sprite)
      requires block != sprite
      modifies this, sprite
      ensures State() == Collide(old(State()), block.Box())
      ensures block.Box() == old(block.Box())
    {
      var playerLeft := sprite.x;
      var playerRight := sprite.x + sprite.width;
      var playerTop := sprite.y;
      var playerBottom := sprite.y + sprite.height;

      var blockLeft := block.x;
      var blockRight := block.x + block.width;
      var blockTop := block.y;
      var blockBottom := block.y + block.height;
      ghost var s, b := State(), block.Box();

      assert Lands(s, b) == (sprite.velocityY >= 0 && Abs(playerBottom - blockTop) <= MAX_Y_VELOCITY && (Abs(playerLeft - blockLeft) < sprite.width || Abs(playerRight - blockRight) < sprite.width));
      if sprite.velocityY >= 0 && Abs(playerBottom - blockTop) <= MAX_Y_VELOCITY {
        if Abs(playerLeft - blockLeft) < sprite.width || Abs(playerRight - blockRight) < sprite.width {
          falling := false;
          sprite.y := block.y - sprite.height;
        }
      }
      ghost var p1 := SnapLanding(s, b);
      assert State() == p1;
      assert sprite.velocityY == s.velocityY;

      assert BumpsHead(s, b) == (sprite.velocityY < 0 && Abs(playerTop - blockBottom) <= MAX_Y_VELOCITY && (Abs(playerLeft - blockLeft) < sprite.width || Abs(playerRight - blockRight) < sprite.width));
      if sprite.velocityY < 0 && Abs(playerTop - blockBottom) <= MAX_Y_VELOCITY {
        if Abs(playerLeft - blockLeft) < sprite.width || Abs(playerRight - blockRight) < sprite.width {
          sprite.velocityY := 0;
          sprite.y := blockBottom;
        }
      }
      ghost var p2 := SnapHead(s, b, p1);
      assert State() == p2;
      assert sprite.velocityX == s.velocityX && block.x == b.x;

      assert HitsLeftSide(s, b) == (sprite.velocityX > 0 && Abs(playerRight - blockLeft) <= MAX_X_VELOCITY && (Abs(playerTop - blockTop) < sprite.height || Abs(playerBottom - blockBottom) < sprite.height));
      if sprite.velocityX > 0 && Abs(playerRight - blockLeft) <= MAX_X_VELOCITY {
        if Abs(playerTop - blockTop) < sprite.height || Abs(playerBottom - blockBottom) < sprite.height {
          sprite.x := block.x - sprite.width;
        }
      }
      ghost var p3 := SnapLeft(s, b, p2);
      assert State() == p3;

      assert HitsRightSide(s, b) == (sprite.velocityX < 0 && Abs(playerLeft - blockRight) <= MAX_X_VELOCITY && (Abs(playerTop - blockTop) < sprite.height || Abs(playerBottom - blockBottom) < sprite.height));
      if sprite.velocityX < 0 && Abs(playerLeft - blockRight) <= MAX_X_VELOCITY {
        if Abs(playerTop - blockTop) < sprite.height || Abs(playerBottom - blockBottom) < sprite.height {
          sprite.x := blockRight;
        }
      }
      assert State() == SnapRight(s, b, p3);
      assert block.Box() == b;
    }

    /** One tick of running and jumping. */
    method Update(keys: KeyMap, canvasHeight: int)
      modifies this, sprite
      ensures State() == Step(old(State()), keys, canvasHeight)
    {
      var newVelocityX := CalculateNewVelocityX(keys);
      var newVelocityY := CalculateNewVelocityY(keys);
      sprite.UpdateVelocity(newVelocityX, newVelocityY);
      sprite.UpdatePosition();

      if !dead && sprite.y + sprite.height > canvasHeight {
        dead := true;
      }

      falling := true;
    }
  }

  class Bullet {
    const sprite: Sprite
    var dead: bool

    function State(): BulletState
      reads this, sprite
    {
      BulletState(sprite.x, sprite.y, sprite.width, sprite.height,
                  sprite.velocityX, sprite.velocityY, dead)
    }

    /** A live bullet flying the way `direction` points. */
    constructor (x: int, y: int, w: int, h: int, color: string, direction: Key)
      ensures fresh(sprite) && sprite.color == color
      ensures State() == BulletState(x, y, w, h, BulletVelocityX(direction), 0, false)
    {
      var s := new Sprite(x, y, w, h, color);
      if direction == Left {
        s.velocityX := -MAX_X_VELOCITY * 2;
      } else {
        s.velocityX := MAX_X_VELOCITY * 2;
      }
      sprite := s;
      dead := false;
    }

    method Update(canvasWidth: int)
      modifies this, sprite
      ensures State() == BulletStep(old(State()), canvasWidth)
    {
      sprite.UpdatePosition();
      if sprite.x < 0 || sprite.x > canvasWidth {
        dead := true;
      }
    }
  }

  /** A member of the live-sprite list. */
  datatype Entity = PlayerEntity(player: Player) | BlockEntity(block: Sprite) | BulletEntity(bullet: Bullet)
  {
    function Ref(): object {
      match this
      case PlayerEntity(p) => p
      case BlockEntity(b) => b
      case BulletEntity(b) => b
    }

    /** Blocks have no `dead` flag, which reads as false. */
    predicate Dead()
      reads Ref()
    {
      match this
      case PlayerEntity(p) => p.dead
      case BlockEntity(_) => false
      case BulletEntity(b) => b.dead
    }
  }
}
