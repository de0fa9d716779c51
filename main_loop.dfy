/** main.py: the `Main` class, the earlier revision of the game loop. It has
    no start delay and no reset, and an enemy touching the player only
    clears `running`: the rest of the tick still plays out. Its combat and
    movement steps are those of `Combat.Arena` with this revision's
    constants. */
module MainScript {
  import opened Geometry
  import opened Navigation
  import opened Entities
  import opened Objects
  import opened Combat
  import opened CameraView

  /** The size of the window `set_mode` opens. */
  const ScreenWidth := 1280
  const ScreenHeight := 720
  /** How often `main_game` tries to spawn a pickup, in milliseconds. */
  const AmmoInterval := 6000
  /** The distance below which the enemy chases the player. */
  const ChaseDistance := 350.0
  /** The bounds of `random.randint` for the respawn delay. */
  const RespawnLow := 200
  const RespawnHigh := 4000
  /** The player's base speed, the enemy's handicap below it, and the
      default frame delay of `Entity`. */
  const PlayerSpeed := 6.0
  const EnemyHandicap := 1.3
  const FrameDelay := 0.2
  /** The size of the red square `spawn_ammo` draws for a pickup. */
  const AmmoSide := 60
  /** The frame time before the first `clock.tick()`. */
  const FirstFrame := 0.017

  /** The grid respawned enemies get: `__init__` stores `tile_x + 1` and
      `tile_y + 1` after building the player and the first enemy with the
      unshifted tile size. */
  function RespawnGrid(g: Grid): (r: Grid)
    ensures g.Valid() ==> r.Valid()
    ensures r.matrix == g.matrix && r.rows == g.rows && r.cols == g.cols
    ensures r.tileX == g.tileX + 1 && r.tileY == g.tileY + 1
  {
    Grid(g.matrix, g.rows, g.cols, g.tileX + 1, g.tileY + 1)
  }

  class Main {
    const arena: Arena
    const camera: Camera
    var dt: real
    var running: bool

    /** The arena is in its between-steps state, respawned enemies walk the
        shifted grid at the revision's speed, and the camera follows the
        player. */
    ghost predicate Valid()
      reads this, arena, arena.player, arena.player.entity, arena.rifle, arena.enemy,
            if arena.enemy != null then {arena.enemy.entity} else {}
    {
      arena.Valid() && arena.respawnGrid == RespawnGrid(arena.grid) &&
      arena.enemySpeed == PlayerSpeed - EnemyHandicap && camera.focus == arena.player.entity
    }

    /** `Main(matrix, tile_x, tile_y, rows, cols)`: a 1280 x 720 window whose
        background fills it, the player in its middle, the rifle at the
        centre of the player's rect, the first enemy at `enemyPos` on the
        player's grid and the camera on the player. `frames` counts the
        images of each animation; the other sizes are those of the loaded
        images. */
    constructor (grid: Grid, frames: map<string, nat>, playerWidth: nat, playerHeight: nat,
                 rifleWidth: nat, rifleHeight: nat, enemyPos: Vec, enemyWidth: nat, enemyHeight: nat,
                 bulletWidth: nat, bulletHeight: nat, now: int)
      requires grid.Valid() && "idle" in frames && forall s :: s in frames ==> frames[s] > 0
      ensures Valid() && fresh(arena) && running && dt == FirstFrame
      ensures arena.bgRect == Rect(0, 0, ScreenWidth, ScreenHeight) && arena.grid == grid
      ensures var p := arena.player;
        p.entity.position == Vec(640.0, 360.0) && p.entity.baseSpeed == PlayerSpeed &&
        p.entity.frameDelay == FrameDelay && p.ammo == 24 && p.killCount == 0
      ensures arena.enemy != null && arena.enemy.entity.position == enemyPos && arena.enemy.health == 4
      ensures arena.enemy.grid == grid && arena.enemy.entity.baseSpeed == PlayerSpeed - EnemyHandicap
      ensures arena.ammoWidth == AmmoSide && arena.ammoHeight == AmmoSide
      ensures arena.AllSprites() == {arena.player, arena.rifle, arena.enemy}
      ensures camera.backgroundPos == Zero
      ensures arena.bulletCooldown == now && arena.ammoDelay == now && arena.newEnemyDelay == now
    {
      var a := Assemble(grid, RespawnGrid(grid), Rect(0, 0, ScreenWidth, ScreenHeight),
                        Vec((ScreenWidth / 2) as real, (ScreenHeight / 2) as real), frames,
                        playerWidth, playerHeight, PlayerSpeed, FrameDelay, rifleWidth, rifleHeight,
                        enemyPos, PlayerSpeed - EnemyHandicap, enemyWidth, enemyHeight,
                        AmmoSide, AmmoSide, bulletWidth, bulletHeight, now);
      arena := a;
      camera := new Camera(a.player.entity, Zero);
      dt := FirstFrame;
      running := true;
    }

    /** `main_game()` at time `t.now`: an enemy touching the player clears
        `running`, and the tick plays out all the same: the pickups offered
        (the old ones, and a new one every 6000 milliseconds while fewer than
        four lie about) that the player stands on give 12 rounds each, a shot
        costs one round, every bullet flight handled before the enemy dies
        that ends on the enemy's rect costs it one health point, a kill is
        counted exactly when that leaves it none (otherwise the enemy stays
        in its slot), and a new enemy appears once the delay drawn from
        [200, 4000] has passed. The player's image is never flipped in this
        revision. */
    method MainGame(t: Tick, keys: Keys, playerUnit: Vec, aim: int, sizeOf: GunImage -> (nat, nat),
                    enemyUnit: Vec, roamDest: Vec, astar: (Cell, Cell) -> seq<Cell>)
      returns (ghost offered: seq<Pickup>, ghost fired: bool, ghost processed: nat, ghost flights: seq<Flight>)
      requires Valid() && RespawnLow <= t.respawnAfter <= RespawnHigh && -180 <= aim <= 180
      requires arena.player.entity.velocity.LengthSq() >= 1.0 ==>
               IsUnitAlong(playerUnit, arena.player.entity.velocity)
      requires arena.enemy != null && arena.enemy.entity.velocity.LengthSq() >= 1.0 ==>
               IsUnitAlong(enemyUnit, arena.enemy.entity.velocity)
      modifies this, arena, arena.player, arena.player.entity, arena.rifle, arena.enemy,
               if arena.enemy != null then {arena.enemy.entity} else {}, set b | b in arena.bullets
      ensures Valid() && dt == old(dt)
      ensures |flights| == |old(arena.bullets)| + (if fired then 1 else 0) && processed <= |flights|
      ensures forall j :: 0 <= j < |old(arena.bullets)| ==> flights[j] == old(FlightOf(arena.bullets[j], dt))
      ensures fired ==> flights[|old(arena.bullets)|] == arena.ShotFlight(old(arena.player.entity.position), t.direction, dt)
      ensures processed < |flights| ==> old(arena.enemy) == null || old(arena.enemy).health == 0
      ensures old(arena.enemy) != null ==>
        old(arena.enemy).health == old(arena.enemy.health) - Hits(flights, processed, old(arena.enemy.entity.rect)) &&
        arena.enemy == (if old(arena.enemy).health == 0 then null else old(arena.enemy))
      ensures running == (old(running) && !old(arena.enemy != null && arena.enemy.Collision(arena.player.entity.rect)))
      ensures offered == old(arena.ammos) ||
              (|offered| == |old(arena.ammos)| + 1 && offered[..|old(arena.ammos)|] == old(arena.ammos))
      ensures |offered| == |old(arena.ammos)| + 1 <==>
        t.now - old(arena.ammoDelay) >= AmmoInterval && |old(arena.ammos)| < MaxPickups
      ensures |offered| == |old(arena.ammos)| + 1 ==> offered[|old(arena.ammos)|].position == t.ammoPos
      ensures arena.ammos == Uncollected(offered, |offered|, old(arena.player.entity.rect))
      ensures arena.player.ammo == old(arena.player.ammo) - (if fired then 1 else 0) +
                                   PickupRounds * |Collected(offered, |offered|, old(arena.player.entity.rect))|
      ensures fired <==> (t.fire && t.now - old(arena.bulletCooldown) >= ShotCooldown &&
        old(arena.player.ammo) + PickupRounds * |Collected(offered, |offered|, old(arena.player.entity.rect))| >= 1)
      ensures arena.ammoDelay == (if t.now - old(arena.ammoDelay) >= AmmoInterval then t.now else old(arena.ammoDelay))
      ensures arena.bulletCooldown == (if fired then t.now else old(arena.bulletCooldown))
      ensures old(arena.enemy) != null ==>
        arena.player.killCount == old(arena.player.killCount) + (if old(arena.enemy).health == 0 then 1 else 0)
      ensures old(arena.enemy) == null ==> arena.player.killCount == old(arena.player.killCount)
      ensures arena.newEnemyDelay ==
        (if old(arena.enemy) != null && old(arena.enemy).health == 0 then t.now else old(arena.newEnemyDelay))
      ensures (arena.enemy != null && arena.enemy != old(arena.enemy)) <==>
        old(arena.enemy) == null && t.now - old(arena.newEnemyDelay) >= t.respawnAfter
      ensures var e := arena.enemy; e != null ==>
        var start := if old(arena.enemy) != null && e == old(arena.enemy) then old(arena.enemy.plan) else None;
        var p := Planned(e.grid, astar, start, e.entity.position, arena.player.entity.position, ChaseDistance, roamDest);
        e.plan == Some(Follow(e.grid, p, e.entity.rect))
      ensures arena.rifle.angle == NormalizeAngle(aim) && arena.player.flipped == old(arena.player.flipped)
    {
      // The touch is judged on the state before the tick's steps.
      var caught := arena.enemy != null && arena.enemy.Collision(arena.player.entity.rect);
      offered, fired, processed, flights := arena.Round(t, dt, AmmoInterval, keys, playerUnit, aim, sizeOf, ChaseDistance,
                                    enemyUnit, roamDest, astar);
      if caught {
        running := false;
      }
    }
  }
}
