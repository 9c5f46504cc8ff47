/**
 * The player's per-tick physics as functions on a snapshot of its state:
 * horizontal speed from the arrow keys, the grounded/airborne jump machine,
 * position integration and the death rule.
 */
module PlayerPhysics {
  import opened Input
  import opened Geometry

  /** Everything `Player.update` and `Player.checkForCollision` read or write. */
  datatype PlayerState = PlayerState(
    x: int, y: int, width: int, height: int,
    velocityX: int, velocityY: int,
    falling: bool, jumped: bool, direction: Key, dead: bool)

  /** The player always faces LEFT or RIGHT. */
  predicate Facing(s: PlayerState) {
    s.direction == Left || s.direction == Right
  }

  /** Horizontal speed for the held arrow keys: LEFT and RIGHT cancel out. */
  function VelocityX(keys: KeyMap): (v: int)
    ensures v == -MAX_X_VELOCITY <==> Held(keys, Left) && !Held(keys, Right)
    ensures v == MAX_X_VELOCITY <==> Held(keys, Right) && !Held(keys, Left)
    ensures v == 0 <==> Held(keys, Left) == Held(keys, Right)
  {
    (if Held(keys, Left) then -MAX_X_VELOCITY else 0) + (if Held(keys, Right) then MAX_X_VELOCITY else 0)
  }

  /** The facing after moving at `velocityX`: sticky when the player stands still. */
  function DirectionAfter(direction: Key, velocityX: int): Key {
    if velocityX > 0 then Right else if velocityX < 0 then Left else direction
  }

  /** What the vertical step decides: the new speed and the new jump flags. */
  datatype Vertical = Vertical(velocityY: int, falling: bool, jumped: bool)

  /**
   * The vertical step: gravity while airborne, one jump per press of SPACE
   * while grounded, and an upper cap of MAX_Y_VELOCITY on the result.
   */
  function VerticalStep(velocityY: int, falling: bool, jumped: bool, space: bool): (r: Vertical)
    ensures r.velocityY <= MAX_Y_VELOCITY
    ensures falling ==>
      r == Vertical(if velocityY + GRAVITY_ACCELERATION < MAX_Y_VELOCITY
                    then velocityY + GRAVITY_ACCELERATION else MAX_Y_VELOCITY, true, jumped)
    ensures !falling && space && !jumped ==> r == Vertical(-MAX_Y_VELOCITY, true, true)
    ensures !falling && space && jumped ==> r == Vertical(0, false, true)
    ensures !falling && !space ==> r == Vertical(0, false, false)
  {
    var v, f, j :=
      if falling then velocityY + GRAVITY_ACCELERATION else if space && !jumped then -MAX_Y_VELOCITY else 0,
      falling || (space && !jumped),
      if falling then jumped else space;
    Vertical(if v > MAX_Y_VELOCITY then MAX_Y_VELOCITY else v, f, j)
  }

  /** A grounded player starts a jump this tick. */
  predicate Launches(s: PlayerState, keys: KeyMap) {
    !s.falling && Held(keys, Space) && !s.jumped
  }

  /**
   * One `Player.update`: store the new velocities, move by them, latch `dead`
   * once the bottom edge passes the canvas height, and re-arm `falling`.
   */
  function Step(s: PlayerState, keys: KeyMap, canvasHeight: int): (r: PlayerState)
    ensures r.velocityX == VelocityX(keys)
    ensures r.velocityY <= MAX_Y_VELOCITY
    ensures !s.falling ==> (r.velocityY == 0 <==> !Launches(s, keys))
    ensures Launches(s, keys) ==> r.velocityY == -MAX_Y_VELOCITY && r.jumped
    ensures s.falling ==> r.velocityY == (if s.velocityY + GRAVITY_ACCELERATION < MAX_Y_VELOCITY
                                          then s.velocityY + GRAVITY_ACCELERATION else MAX_Y_VELOCITY)
    ensures s.falling ==> r.jumped == s.jumped
    ensures var v := VerticalStep(s.velocityY, s.falling, s.jumped, Held(keys, Space));
      r.velocityY == v.velocityY && r.jumped == v.jumped
    ensures r.x == s.x + r.velocityX && r.y == s.y + r.velocityY
    ensures r.width == s.width && r.height == s.height
    ensures r.falling
    ensures Held(keys, Space) && s.jumped ==> r.jumped
    ensures !Held(keys, Space) && !s.falling ==> !r.jumped
    ensures r.dead <==> s.dead || r.y + r.height > canvasHeight
    ensures r.velocityX > 0 ==> r.direction == Right
    ensures r.velocityX < 0 ==> r.direction == Left
    ensures r.velocityX == 0 ==> r.direction == s.direction
    ensures Facing(s) ==> Facing(r)
  {
    var vx := VelocityX(keys);
    var vertical := VerticalStep(s.velocityY, s.falling, s.jumped, Held(keys, Space));
    var moved := s.(velocityX := vx, velocityY := vertical.velocityY,
                    x := s.x + vx, y := s.y + vertical.velocityY,
                    jumped := vertical.jumped, direction := DirectionAfter(s.direction, vx));
    moved.(dead := moved.dead || moved.y + moved.height > canvasHeight, falling := true)
  }
}
