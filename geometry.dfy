/** Constants of the simulation and axis-aligned boxes. */
module Geometry {

  // Sprite sizes, in pixels
  const DEFAULT_BLOCK_WIDTH: int := 50
  const DEFAULT_BLOCK_HEIGHT: int := 50
  const PLAYER_SPRITE_WIDTH: int := 30
  const PLAYER_SPRITE_HEIGHT: int := 30
  const BULLET_SPRITE_WIDTH: int := 5
  const BULLET_SPRITE_HEIGHT: int := 5

  // Physics, in pixels per tick
  const MAX_X_VELOCITY: int := 5
  const MAX_Y_VELOCITY: int := 10
  const GRAVITY_ACCELERATION: int := 1

  function Abs(n: int): nat {
    if n < 0 then -n else n
  }

  /** An axis-aligned rectangle; (x, y) is its top-left corner and y grows downwards. */
  datatype Box = Box(x: int, y: int, width: int, height: int)
}
