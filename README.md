# cubes.js simulation core in Dafny

A model of the per-tick simulation of the cubes.js platformer. A blue
player cube runs left and right, jumps, lands on green 50x50 blocks laid
out from a grid, can fire bullets, and dies when it falls below the
canvas. Each tick, `updateSprites` updates the player, collides it with
every block in list order, and then removes dead sprites from the live
list with a splicing loop.

The model follows the program's own objects:

- `Sprites.Sprite` holds the shared sprite state (`x`, `y`, `width`,
  `height`, `velocityX`, `velocityY`, `color`).
- `Sprites.Player` and `Sprites.Bullet` each own the `Sprite` they extend
  and add their own flags. A block is a plain `Sprite`.
- The methods update these fields in place, in the same order as the
  source.
- Each method is proved against a pure function on a snapshot of the
  object's state: `PlayerPhysics.Step`, `Collision.Collide` and
  `BulletPhysics.BulletStep`. The properties the game relies on are proved
  as contracts and lemmas about those functions.
- `Game.World` holds the game variables `player`, `blocks`, `sprites` and
  `keysPressed`. It builds the level (`init`), handles key events,
  shoots, and runs one tick.
- The live list `sprites` is a sequence of `Sprites.Entity` values. Each
  one refers to a player, a block or a bullet. Blocks have no `dead` flag,
  and an absent flag reads as false.

Three facts of the code worth noting:

- The vertical speed cap `MAX_Y_VELOCITY` is 10.
- The player starts with `falling` false. `jumped` starts out false,
  because the source never initialises it and an undefined flag is falsy.
- The prune loop is kept exactly as written: `splice(i, 1)` inside a
  forward `for` loop. After a removal, the sprite that moves into slot `i`
  is not examined in that pass. `Prune.SkipPrune` is this behaviour. It
  agrees with a plain filter (`Prune.Survivors`) exactly when no two dead
  sprites are adjacent (`Prune.SkipPruneFiltersOnlyWithoutDeadPairs`).

Two other facts of the source are kept as written:

- The player is `sprites[0]`. Once dead it is spliced out of the live
  list, but every tick still updates it through the `player` variable.
- `Bullet.update` and `shootBullet` are never called by the tick (SHOOT is
  only recorded in `keysPressed`). They are modelled as standalone
  operations.

## Model

| member | source | states |
|---|---|---|
| Input.KeyOf | cubes.js:334-358 | a key code maps to the logical key bound to it (LEFT 37, RIGHT 39, DOWN 40, UP 38, SPACE 32, SHOOT 65); it maps to nothing exactly when no key is bound to that code |
| PlayerPhysics.VelocityX | cubes.js:136-144 | the horizontal speed is -5 exactly when only LEFT is held, +5 exactly when only RIGHT is held, and 0 exactly when both or neither are held |
| PlayerPhysics.VerticalStep | cubes.js:155-181 | the four cases of the vertical step: airborne gives min(velocityY + 1, 10) and keeps `jumped`; grounded with SPACE and not yet jumped gives -10 and sets `jumped` and `falling`; grounded with SPACE already jumped gives 0; grounded without SPACE gives 0 and clears `jumped`; the result is never above 10 |
| PlayerPhysics.Step | cubes.js:243-260 | one player update: the stored velocities are the ones VelocityX and VerticalStep compute and are added to x and y; an airborne player speeds up to min(velocityY + 1, 10) and keeps `jumped`; a grounded player gets a non-zero vertical speed exactly when it launches a jump; `falling` is true on exit; `dead` is set exactly when it was set or the bottom edge passes the canvas height, so it is never cleared; `jumped` stays set while SPACE stays held; width and height are unchanged; the facing turns only with non-zero horizontal speed and stays LEFT or RIGHT |
| Collision.Collide | cubes.js:186-239 | against one block: a landing grounds the player with its bottom on the block's top; a head bump stops it vertically with its top at the block's bottom; the side snaps put its right edge on the block's left side or its left edge on the block's right side; without a vertical (horizontal) snap y (x) is unchanged; at most one vertical and one horizontal snap fires; `falling` is only ever cleared; velocityX, width, height, direction, dead and jumped are unchanged |
| Collision.CollideAll | cubes.js:370-372 | colliding with every block in order never sets `falling`, only zeroes the vertical speed, and keeps velocityX, size, direction, dead and jumped |
| Collision.LandingIsStable | cubes.js:198-206 | after a landing, colliding again with the same block leaves y and the grounded state unchanged |
| Collision.LandsFromAbove | cubes.js:198-206 | a player moving down, up to 10 pixels above a block and horizontally aligned with it, comes to rest on it |
| BulletPhysics.BulletVelocityX | cubes.js:269-274 | a bullet's speed is negative exactly for LEFT and its magnitude is twice MAX_X_VELOCITY |
| BulletPhysics.BulletStep | cubes.js:282-287 | an update moves the bullet by its unchanged velocity and marks it dead exactly when it was dead or its new x is below 0 or beyond the canvas width; its size is unchanged |
| BulletPhysics.BulletAfterMoves | cubes.js:282-287 | after n updates a bullet has moved n times its unchanged velocity, and a dead bullet stays dead |
| BulletPhysics.BulletEventuallyDies | cubes.js:282-287 | every horizontally moving bullet is marked dead once enough updates have carried it off the canvas |
| BulletPhysics.Spawn | cubes.js:293-306 | a spawned bullet is 5x5, live, with no vertical speed and a horizontal speed of magnitude 10, a third of the way down the player; it starts at the player's left edge flying left exactly when the player faces LEFT, and at its right edge flying right otherwise |
| BulletPhysics.BulletOutrunsShooter | cubes.js:270-273 | a player moving at most MAX_X_VELOCITY per tick after its bullet falls behind by at least MAX_X_VELOCITY per tick |
| Level.RowBoxes | cubes.js:72-81 | every block of a row lies on that row's line and inside the row's width |
| Level.GridBoxes | cubes.js:71-82 | every block of a grid lies inside the grid's height |
| Level.RowBoxesExact | cubes.js:72-80 | a row yields a block exactly at (col * 50, row * 50), 50x50, for each of its BLOCK cells |
| Level.GridBoxesExact | cubes.js:71-82 | a grid yields a 50x50 block at (col * 50, row * 50) exactly for each BLOCK cell (row, col) |
| Level.RowBoxesRowMajor | cubes.js:72-81 | the blocks of a row come out strictly left to right |
| Level.GridBoxesRowMajor | cubes.js:71-82 | the blocks of the grid come out in strict row-major order, so each BLOCK cell yields exactly one block |
| Sprites.Sprite.constructor | cubes.js:87-100 | a new sprite has the given position, size and colour and is at rest |
| Sprites.Sprite.UpdateVelocity | cubes.js:109-112 | the velocities become the given ones and the position is unchanged |
| Sprites.Sprite.UpdatePosition | cubes.js:114-117 | the position advances by the velocity, which is unchanged |
| Sprites.Player.constructor | cubes.js:124-130 | a new player is at rest, not falling, not jumped, facing RIGHT, not shooting and alive |
| Sprites.Player.CalculateNewVelocityX | cubes.js:136-153 | returns VelocityX of the held keys and changes only the facing, as DirectionAfter says |
| Sprites.Player.CalculateNewVelocityY | cubes.js:155-181 | returns the speed VerticalStep gives and changes only `falling` and `jumped`, as VerticalStep says |
| Sprites.Player.CheckForCollision | cubes.js:186-239 | the four in-place snaps leave the player in the state Collide gives for the entry state and the block's box; the block is unchanged |
| Sprites.Player.Update | cubes.js:243-260 | the player ends in the state Step gives for its entry state, the held keys and the canvas height |
| Sprites.Bullet.constructor | cubes.js:267-276 | a new bullet is live, at the given position and size, with BulletVelocityX of its direction and no vertical speed |
| Sprites.Bullet.Update | cubes.js:282-287 | the bullet ends in the state BulletStep gives for its entry state and the canvas width |
| Prune.SkipPrune | cubes.js:374-379 | what one pass of the splicing loop leaves is no longer than the list and holds only entries of the list |
| Prune.SplicePrune | cubes.js:374-379 | the index loop that splices out each dead entry it examines returns exactly SkipPrune of the list |
| Prune.SkipPruneRemovesOnlyDead | cubes.js:374-379 | the pass deletes only dead entries and keeps the rest in their original order |
| Prune.SkipPruneFiltersWithoutDeadPairs | cubes.js:374-379 | when no two dead entries are adjacent, the pass removes every dead entry and equals the exact filter |
| Prune.SurvivorsAreLive | cubes.js:376-377 | the exact filter keeps no dead entry |
| Prune.DeadPairLeavesDead | cubes.js:374-379 | when two dead entries are adjacent, the pass leaves a dead entry in the list, because the second one moves into the examined slot and is never examined |
| Prune.SkipPruneFiltersOnlyWithoutDeadPairs | cubes.js:374-379 | the pass equals the exact filter if and only if no two dead entries are adjacent |
| Prune.SkipPruneSplitsAtLive | cubes.js:374-379 | a live entry splits the pass into two independent passes over what precedes and what follows it |
| Prune.SkipPruneAfterLive | cubes.js:374-379 | a dead entry that is first or follows a live one is removed, and the entry after it, dead or not, survives the pass |
| Prune.SkipPruneDropsLastDead | cubes.js:374-379 | a dead last entry that is first or follows a live one is removed |
| Game.OneJumpPerPress | cubes.js:161-174 | while SPACE stays held, the player launches at most one jump whatever it lands on, and none if that press was already used for a jump |
| Game.World.Init | cubes.js:49-83 | the world starts with a fresh player at (10, 270), at rest, facing RIGHT; its blocks are exactly the grid's blocks in row-major order; the live list is the player followed by those blocks; no key is held |
| Game.World.AddGrid | cubes.js:71-82 | the nested loops append the grid's blocks, row by row, to both the block list and the live list, keeping the earlier blocks as they were |
| Game.World.AddRow | cubes.js:72-81 | the inner loop appends the blocks of one row, left to right, to both lists, keeping the earlier blocks as they were |
| Game.World.PushBlock | cubes.js:75-79 | one new, freshly created 50x50 block at (x, y) is appended to both lists, after the earlier blocks |
| Game.World.OnKeyEvent | cubes.js:334-359 | a bound key code records the key as pressed or released and changes nothing else; any other code changes nothing |
| Game.World.ShootBullet | cubes.js:293-308 | exactly one new bullet, in the state Spawn gives for the shooter, is appended and the earlier live entries are unchanged |
| Game.World.UpdateSprites | cubes.js:367-380 | the player ends in the state of one update followed by a collision with every block in order; the live list becomes SkipPrune of the old list, read after the update, so a dead player is spliced out too |
| Game.World.PruneDead | cubes.js:374-379 | the live list becomes SkipPrune of itself |
| Game.World.CollideWithBlocks | cubes.js:370-372 | the player ends in the state CollideAll gives for the blocks' boxes, in list order |

## Left out

- Drawing: the `draw` methods, `drawSprites` and all canvas context calls. They have no simulation state. Colours are kept only as opaque strings.
- Browser plumbing: `document.getElementById`, sizing the canvas from the window, the key listeners and the `setInterval` game loop. The canvas width and height are parameters of `Game.World.Init`, `Sprites.Player.Update` and `Sprites.Bullet.Update`; `Game.World.UpdateSprites` reads the height the world was created with. One tick is one call to `Game.World.UpdateSprites`.
- `console.log` and `event.preventDefault`: host I/O with no effect on the state. A raw key event is reduced to its key code.
- Timing and interleaving of key events with ticks: the host runs them one at a time, and the model takes them one call at a time.
- `SPRITE_FLOOR`, which nothing reads; `DEFAULT_DRAW_DELAY`, which only the `setInterval` registration reads (browser plumbing, above); and the empty `Sprite.prototype.update`. DOWN and UP are recorded by `onKeyEvent` but read by nothing.
- Prototype inheritance: `Player` and `Bullet` own their `Sprite` part instead of inheriting from it. The fields and their updates are the same.
- Game.World.Init: takes the level grid as a parameter. The game always passes the hardcoded grid, which is `Level.LEVEL`. The properties are proved for every grid.
- Game.World.ShootBullet: requires the shooter's height to be a multiple of 3, because `player.height / 3` is a floating-point division in the source. The 30-pixel player meets this. The same requirement is on BulletPhysics.Spawn and BulletPhysics.BulletOutrunsShooter.
- Game.World.UpdateSprites: requires `Valid()`, which says the player's own sprite is not one of the blocks. `Game.World.Init` establishes this and no operation changes it. The source relies on it without stating it.
- Game.World.AddGrid: does not state that each block it appends is a freshly created object; only Game.World.PushBlock states freshness, for its one block. Blocks are never mutated after creation, so no proof depends on it. The same holds for Game.World.AddRow and Game.World.Init.
- Game.World.AddGrid: requires the live list to be the player followed by the blocks (`Listed()`), as `init` leaves it before its loops. The same requirement is on Game.World.AddRow and Game.World.PushBlock.
- JavaScript numbers are modelled as unbounded integers. Every value in this simulation is a small integer.
