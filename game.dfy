/**
 * The game session: the player, the blocks, the live-sprite list and the
 * held keys, with level construction, key events, shooting and the per-tick
 * update.
 */
module Game {
  import opened Input
  import opened Geometry
  import opened PlayerPhysics
  import opened Collision
  import opened BulletPhysics
  import opened Level
  import opened Sprites
  import opened Prune
  import opened Seqs

  /** The player's part of one tick: update, then collide with every block in order. */
  function Tick(s: PlayerState, keys: KeyMap, canvasHeight: int, blocks: seq<Box>): PlayerState {
    CollideAll(Step(s, keys, canvasHeight), blocks)
  }

  /** How many of the ticks driven by `inputs` start a jump. */
  function LaunchCount(s: PlayerState, inputs: seq<KeyMap>, canvasHeight: int, blocks: seq<Box>): nat
    decreases |inputs|
  {
    if inputs == [] then 0
    else
      (if Launches(s, inputs[0]) then 1 else 0)
      + LaunchCount(Tick(s, inputs[0], canvasHeight, blocks), inputs[1..], canvasHeight, blocks)
  }

  /**
   * Jumping is edge-triggered: however the player lands and takes off while
   * SPACE stays held, it jumps at most once, and not at all if SPACE was
   * already used for a jump before.
   */
  lemma {:induction false} OneJumpPerPress(s: PlayerState, inputs: seq<KeyMap>, canvasHeight: int, blocks: seq<Box>)
    requires forall k :: 0 <= k < |inputs| ==> Held(inputs[k], Space)
    ensures LaunchCount(s, inputs, canvasHeight, blocks) <= 1
    ensures s.jumped ==> LaunchCount(s, inputs, canvasHeight, blocks) == 0
    decreases |inputs|
  {
    if inputs != [] {
      var next := Tick(s, inputs[0], canvasHeight, blocks);
      assert Launches(s, inputs[0]) || s.jumped ==> next.jumped;
      OneJumpPerPress(next, inputs[1..], canvasHeight, blocks);
    }
  }

  /** The initial player: at (10, 270), at rest, facing RIGHT. */
  const START: PlayerState := PlayerState(10, 270, PLAYER_SPRITE_WIDTH, PLAYER_SPRITE_HEIGHT,
                                          0, 0, false, false, Right, false)

  class World {
    var player: Player
    var blocks: seq<Sprite>
    var sprites: seq<Entity>
    var keysPressed: KeyMap
    const canvasWidth: int
    const canvasHeight: int

    /** The player never collides with itself. */
    ghost predicate Valid()
      reads this
    {
      player.sprite !in blocks
    }

    /** Behind the first entry, the live list holds exactly the blocks, in order. */
    ghost predicate Listed()
      reads this
    {
      |sprites| == |blocks| + 1 && sprites[1..] == BlockEntities(blocks)
    }

    /**
     * `init`: the player first, then one block per BLOCK cell of `grid`
     * (the game passes LEVEL), in row-major order, appended to both
     * `blocks` and `sprites`.
     */
    constructor Init(canvasWidth: int, canvasHeight: int, grid: seq<seq<int>>)
      ensures Valid() && fresh(player) && fresh(player.sprite)
      ensures player.State() == START
      ensures Boxes(blocks) == GridBoxes(grid)
      ensures sprites == [PlayerEntity(player)] + BlockEntities(blocks)
      ensures keysPressed == map[]
      ensures this.canvasWidth == canvasWidth && this.canvasHeight == canvasHeight
    {
      this.canvasWidth, this.canvasHeight := canvasWidth, canvasHeight;
      var p := new Player(10, 270, PLAYER_SPRITE_WIDTH, PLAYER_SPRITE_HEIGHT, "blue");
      player := p;
      sprites := [PlayerEntity(p)];
      blocks := [];
      keysPressed := map[];
      new;
      AddGrid(grid);
    }

    /** The nested loops of `init`: push a block for each BLOCK cell of `grid`, row by row. */
    method AddGrid(grid: seq<seq<int>>)
      requires Valid()
      requires Listed()
      modifies this`blocks, this`sprites
      ensures Valid()
      ensures Boxes(blocks) == old(Boxes(blocks)) + GridBoxes(grid)
      ensures Listed()
      ensures sprites[0] == old(sprites[0])
      ensures |blocks| >= |old(blocks)| && blocks[..|old(blocks)|] == old(blocks)
    {
      ghost var start, placed := Boxes(blocks), blocks;
      var i := 0;
      while i < |grid|
        invariant 0 <= i <= |grid|
        invariant Valid()
        invariant Boxes(blocks) == start + GridBoxes(grid[..i])
        invariant Listed()
        invariant sprites[0] == old(sprites[0])
        invariant |blocks| >= |placed| && blocks[..|placed|] == placed
      {
        ghost var mid := blocks;
        AddRow(grid[i], i);
        assert blocks[..|placed|] == mid[..|placed|];
        GridBoxesStep(grid, i);
        AppendAssoc(start, GridBoxes(grid[..i]), RowBoxes(grid[i], i));
        i := i + 1;
      }
      assert grid[..i] == grid;
    }

    /** The inner loop of `init`: push a block for each BLOCK cell of row `row`. */
    method AddRow(cells: seq<int>, row: int)
      requires Valid()
      requires Listed()
      modifies this`blocks, this`sprites
      ensures Valid()
      ensures Boxes(blocks) == old(Boxes(blocks)) + RowBoxes(cells, row)
      ensures Listed()
      ensures sprites[0] == old(sprites[0])
      ensures |blocks| >= |old(blocks)| && blocks[..|old(blocks)|] == old(blocks)
    {
      ghost var start, placed := Boxes(blocks), blocks;
      var j := 0;
      while j < |cells|
        invariant 0 <= j <= |cells|
        invariant Valid()
        invariant Boxes(blocks) == start + RowBoxes(cells[..j], row)
        invariant Listed()
        invariant sprites[0] == old(sprites[0])
        invariant |blocks| >= |placed| && blocks[..|placed|] == placed
      {
        var item := cells[j];
        RowBoxesStep(cells, j, row);
        if item == BLOCK {
          var x := j * DEFAULT_BLOCK_WIDTH;
          var y := row * DEFAULT_BLOCK_HEIGHT;
          PushBlock(x, y);
          AppendAssoc(start, RowBoxes(cells[..j], row), [BlockAt(row, j)]);
        }
        j := j + 1;
      }
      assert cells[..j] == cells;
    }

    /** A new block at (`x`, `y`) is pushed on both the live list and the block list. */
    method PushBlock(x: int, y: int)
      requires Valid()
      requires Listed()
      modifies this`blocks, this`sprites
      ensures Valid()
      ensures Boxes(blocks) == old(Boxes(blocks)) + [Box(x, y, DEFAULT_BLOCK_WIDTH, DEFAULT_BLOCK_HEIGHT)]
      ensures Listed()
      ensures sprites[0] == old(sprites[0])
      ensures |blocks| == |old(blocks)| + 1 && blocks[..|old(blocks)|] == old(blocks)
      ensures fresh(blocks[|old(blocks)|])
    {
      ghost var placed := blocks;
      ghost var before := Boxes(blocks);
      var block := new Sprite(x, y, DEFAULT_BLOCK_WIDTH, DEFAULT_BLOCK_HEIGHT, "green");
      sprites := sprites + [BlockEntity(block)];
      blocks := blocks + [block];
      assert Boxes(placed) == before;
      BoxesAppend(placed, block);
      BlockEntitiesAppend(placed, block);
    }

    /** A key went down (`pressed`) or up; codes the game does not use change nothing. */
    method OnKeyEvent(keyCode: int, pressed: bool)
      modifies this`keysPressed
      ensures forall k :: KeyCode(k) == keyCode ==> keysPressed == old(keysPressed)[k := pressed]
      ensures (forall k :: KeyCode(k) != keyCode) ==> keysPressed == old(keysPressed)
    {
      match KeyOf(keyCode)
      case Some(k) => keysPressed := keysPressed[k := pressed];
      case None =>
    }

    /** `shootBullet`: append one bullet spawned at the shooter's leading edge. */
    method ShootBullet(shooter: Player)
      requires shooter.sprite.height % 3 == 0
      modifies this`sprites
      ensures |sprites| == |old(sprites)| + 1 && sprites[..|old(sprites)|] == old(sprites)
      ensures var e := sprites[|old(sprites)|];
        e.BulletEntity? && fresh(e.bullet) && fresh(e.bullet.sprite)
        && e.bullet.State() == Spawn(shooter.State())
    {
      var bullet;
      if shooter.direction == Left {
        bullet := new Bullet(shooter.sprite.x, shooter.sprite.y + shooter.sprite.height / 3,
                             BULLET_SPRITE_WIDTH, BULLET_SPRITE_HEIGHT, "green", shooter.direction);
      } else {
        bullet := new Bullet(shooter.sprite.x + shooter.sprite.width, shooter.sprite.y + shooter.sprite.height / 3,
                             BULLET_SPRITE_WIDTH, BULLET_SPRITE_HEIGHT, "green", shooter.direction);
      }
      sprites := sprites + [BulletEntity(bullet)];
    }

    /**
     * `updateSprites`: update the player, collide it with every block in
     * order, then run the splicing prune over the live list.
     */
    method UpdateSprites()
      requires Valid()
      modifies this`sprites, player, player.sprite
      ensures Valid()
      ensures player.State() == Tick(old(player.State()), keysPressed, canvasHeight, Boxes(blocks))
      ensures sprites == SkipPrune(old(sprites))
    {
      ghost var s0, boxes := player.State(), Boxes(blocks);
      player.Update(keysPressed, canvasHeight);
      assert Boxes(blocks) == boxes;
      CollideWithBlocks();
      assert player.State() == Tick(s0, keysPressed, canvasHeight, boxes);
      PruneDead();
    }

    /** The splicing loop of `updateSprites`, run on the live list. */
    method PruneDead()
      modifies this`sprites
      ensures sprites == SkipPrune(old(sprites))
    {
      // the dead flags the prune reads belong to sprites, players and bullets, never to the world
      assert this !in Refs(sprites);
      sprites := SplicePrune(sprites);
    }

    /** The `blocks.forEach` of `updateSprites`: collide the player with each block in turn. */
    method CollideWithBlocks()
      requires Valid()
      modifies player, player.sprite
      ensures player.State() == CollideAll(old(player.State()), Boxes(blocks))
    {
      ghost var boxes := Boxes(blocks);
      for k := 0 to |blocks|
        invariant player.State() == CollideAll(old(player.State()), boxes[..k])
      {
        BoxesAt(blocks, k);
        assert boxes[..k + 1][..k] == boxes[..k];
        player.CheckForCollision(blocks[k]);
      }
      assert boxes[..|blocks|] == boxes;
    }
  }

  /** The block entities of `blocks`, in order. */
  function BlockEntities(blocks: seq<Sprite>): (r: seq<Entity>)
    ensures |r| == |blocks|
  {
    seq(|blocks|, k requires 0 <= k < |blocks| => BlockEntity(blocks[k]))
  }

  lemma BlockEntitiesAppend(blocks: seq<Sprite>, block: Sprite)
    ensures BlockEntities(blocks + [block]) == BlockEntities(blocks) + [BlockEntity(block)]
  {
  }
}
