/** scripts/game.py: the `Game` class, the revision of the game loop that a
    start delay guards and that ends a tick early when the enemy touches the
    player. Its combat and movement steps are those of `Combat.Arena`; this
    module adds the revision's constants, `reset` and the order of `update`. */
module GameScript {
  import opened Geometry
  import opened Navigation
  import opened Entities
  import opened Objects
  import opened Combat

  /** For how long after `game_start_delay` a tick does nothing, in
      milliseconds. */
  const StartDelay := 250
  /** How often `update` tries to spawn a pickup, in milliseconds. */
  const AmmoInterval := 6700
  /** The distance below which the enemy chases the player. */
  const ChaseDistance := 425.0
  /** The bounds of `random.randint` for the respawn delay. */
  const RespawnLow := 250
  const RespawnHigh := 5000
  /** The player's base speed, and the enemy's handicap below it. */
  const PlayerSpeed := 6.0
  const EnemyHandicap := 1.0
  /** The frame delay the game passes to `Player`. */
  const PlayerFrameDelay := 250.0
  /** The size `spawn_ammo` scales the pickup image to. */
  const AmmoWidth := 60
  const AmmoHeight := 54
  /** What `reset` refills the player's ammunition to. */
  const StartAmmo := 24

  /** The player faces left (its image is flipped) exactly when the rifle's
      angle lies between 90 and 270 degrees, that is when the aim computed
      from `atan2` points into the left half-plane. */
  lemma FacesLeft(aim: int)
    requires -180 <= aim <= 180
    ensures 90 <= NormalizeAngle(aim) <= 270 <==> aim <= -90 || 90 <= aim
  {
    if aim < 0 {
      assert NormalizeAngle(aim) == aim + 360;
    } else {
      assert NormalizeAngle(aim) == aim;
    }
  }

  /** `centre` is the middle of a `w` x `h` screen, as `[w // 2, h // 2]`. */
  function Centre(w: nat, h: nat): Vec {
    Vec((w / 2) as real, (h / 2) as real)
  }

  class Game {
    const arena: Arena
    const centre: Vec
    const gameStartDelay: int
    var dt: real

    /** The arena is in its between-steps state, and respawned enemies walk
        the player's grid at the revision's speed. */
    ghost predicate Valid()
      reads this, arena, arena.player, arena.player.entity, arena.rifle, arena.enemy,
            if arena.enemy != null then {arena.enemy.entity} else {}
    {
      arena.Valid() && arena.respawnGrid == arena.grid &&
      arena.enemySpeed == PlayerSpeed - EnemyHandicap
    }

    /** `Game(matrix, tile_x, tile_y, rows, cols, screen, game_start_delay,
        bg_rect)`: the player stands in the middle of the `w` x `h` screen
        with 24 rounds, the rifle at the centre of the player's rect and the
        first enemy at `enemyPos`. `frames` counts the images of each
        animation; the other sizes are those of the loaded images. */
    constructor (grid: Grid, w: nat, h: nat, gameStartDelay: int, bgRect: Rect,
                 frames: map<string, nat>, playerWidth: nat, playerHeight: nat,
                 rifleWidth: nat, rifleHeight: nat, enemyPos: Vec, enemyWidth: nat, enemyHeight: nat,
                 bulletWidth: nat, bulletHeight: nat, now: int)
      requires grid.Valid() && "idle" in frames && forall s :: s in frames ==> frames[s] > 0
      ensures Valid() && fresh(arena) && this.gameStartDelay == gameStartDelay && centre == Centre(w, h)
      ensures var p := arena.player;
        p.entity.position == centre && p.entity.baseSpeed == PlayerSpeed &&
        p.entity.frameDelay == PlayerFrameDelay && p.entity.anim.state == "idle" &&
        p.ammo == StartAmmo && p.killCount == 0 && !p.flipped
      ensures arena.rifle.position == Vec(arena.player.entity.rect.CenterX() as real,
                                          arena.player.entity.rect.CenterY() as real)
      ensures arena.enemy != null && arena.enemy.entity.position == enemyPos && arena.enemy.health == 4
      ensures arena.enemy.entity.baseSpeed == PlayerSpeed - EnemyHandicap
      ensures arena.ammoWidth == AmmoWidth && arena.ammoHeight == AmmoHeight && arena.bgRect == bgRect
      ensures arena.AllSprites() == {arena.player, arena.rifle, arena.enemy}
      ensures arena.bulletCooldown == now && arena.ammoDelay == now && arena.newEnemyDelay == now
    {
      var c := Centre(w, h);
      var a := Assemble(grid, grid, bgRect, c, frames, playerWidth, playerHeight, PlayerSpeed, PlayerFrameDelay,
                        rifleWidth, rifleHeight, enemyPos, PlayerSpeed - EnemyHandicap, enemyWidth, enemyHeight,
                        AmmoWidth, AmmoHeight, bulletWidth, bulletHeight, now);
      arena := a;
      centre := c;
      this.gameStartDelay := gameStartDelay;
      dt := 0.0;
    }

    /** `reset()`: both groups are emptied, the player is back in the middle
        with 24 rounds, no kills and facing right, and a fresh enemy at
        `enemyPos` is the only other sprite besides the player and the rifle.
        The timers keep running and the player's rect is not moved. */
    method Reset(enemyPos: Vec)
      requires Valid()
      modifies arena, arena.player, arena.player.entity
      ensures Valid()
      ensures arena.bullets == [] && arena.ammos == []
      ensures var p := arena.player;
        p.ammo == StartAmmo && p.killCount == 0 && !p.flipped && p.moved == old(p.moved) &&
        p.entity.position == centre && p.entity.rect == old(p.entity.rect) &&
        p.entity.velocity == old(p.entity.velocity) && p.entity.speed == old(p.entity.speed) &&
        p.entity.anim == old(p.entity.anim)
      ensures fresh(arena.enemy) && arena.enemy.health == 4 && arena.enemy.entity.position == enemyPos
      ensures arena.AllSprites() == {arena.player, arena.rifle, arena.enemy}
      ensures !arena.spawnNewEnemy && arena.bulletCooldown == old(arena.bulletCooldown)
      ensures arena.ammoDelay == old(arena.ammoDelay) && arena.newEnemyDelay == old(arena.newEnemyDelay)
    {
      arena.bullets, arena.ammos := [], [];
      var p := arena.player;
      p.killCount, p.ammo, p.flipped := 0, StartAmmo, false;
      p.entity.position := centre;
      arena.SpawnEnemy(enemyPos);
    }

    /** The steps of `update` after its two early returns: the combat step
        with a pickup every 6700 milliseconds and a respawn delay drawn
        from [250, 5000], the movement step with a chase distance of 425,
        and the player's image flipped exactly when the rifle points left. */
    method Play(t: Tick, dt: real, keys: Keys, playerUnit: Vec, aim: int, sizeOf: GunImage -> (nat, nat),
                enemyUnit: Vec, roamDest: Vec, astar: (Cell, Cell) -> seq<Cell>)
      returns (ghost offered: seq<Pickup>, ghost fired: bool, ghost processed: nat, ghost flights: seq<Flight>)
      requires Valid() && RespawnLow <= t.respawnAfter <= RespawnHigh && -180 <= aim <= 180
      requires arena.player.entity.velocity.LengthSq() >= 1.0 ==>
               IsUnitAlong(playerUnit, arena.player.entity.velocity)
      requires arena.enemy != null && arena.enemy.entity.velocity.LengthSq() >= 1.0 ==>
               IsUnitAlong(enemyUnit, arena.enemy.entity.velocity)
      modifies arena, arena.player, arena.player.entity, arena.rifle, arena.enemy,
               if arena.enemy != null then {arena.enemy.entity} else {}, set b | b in arena.bullets
      ensures Valid()
      ensures |flights| == |old(arena.bullets)| + (if fired then 1 else 0) && processed <= |flights|
      ensures forall j :: 0 <= j < |old(arena.bullets)| ==> flights[j] == old(FlightOf(arena.bullets[j], dt))
      ensures fired ==> flights[|old(arena.bullets)|] == arena.ShotFlight(old(arena.player.entity.position), t.direction, dt)
      ensures processed < |flights| ==> old(arena.enemy) == null || old(arena.enemy).health == 0
      ensures old(arena.enemy) != null ==>
        old(arena.enemy).health == old(arena.enemy.health) - Hits(flights, processed, old(arena.enemy.entity.rect)) &&
        arena.enemy == (if old(arena.enemy).health == 0 then null else old(arena.enemy))
      ensures offered == old(arena.ammos) ||
              (|offered| == |old(arena.ammos)| + 1 && offered[..|old(arena.ammos)|] == old(arena.ammos))
      ensures |offered| == |old(arena.ammos)| + 1 <==>
        t.now - old(arena.ammoDelay) >= AmmoInterval && |old(arena.ammos)| < MaxPickups
      ensures |offered| == |old(arena.ammos)| + 1 ==> offered[|old(arena.ammos)|].position == t.ammoPos
      ensures arena.ammos == Uncollected(offered, |offered|, old(arena.player.entity.rect))
      ensures arena.player.ammo == old(arena.player.ammo) - (if fired then 1 else 0) +
                                   PickupRounds * |Collected(offered, |offered|, old(arena.player.entity.rect))|
      ensures fired <==> (t.fire && t.now - old(arena.bulletCooldown) >= ShotCooldown &&
        old(arena.player.ammo) + PickupRounds * |Collected(offered, |offered|, old(arena.player.entity.rect))| >= 1)
      ensures arena.ammoDelay == (if t.now - old(arena.ammoDelay) >= AmmoInterval then t.now else old(arena.ammoDelay))
      ensures arena.bulletCooldown == (if fired then t.now else old(arena.bulletCooldown))
      ensures old(arena.enemy) != null ==>
        arena.player.killCount == old(arena.player.killCount) + (if old(arena.enemy).health == 0 then 1 else 0)
      ensures old(arena.enemy) == null ==> arena.player.killCount == old(arena.player.killCount)
      ensures arena.newEnemyDelay ==
        (if old(arena.enemy) != null && old(arena.enemy).health == 0 then t.now else old(arena.newEnemyDelay))
      ensures (arena.enemy != null && arena.enemy != old(arena.enemy)) <==>
        old(arena.enemy) == null && t.now - old(arena.newEnemyDelay) >= t.respawnAfter
      ensures var e := arena.enemy; e != null ==>
        var start := if old(arena.enemy) != null && e == old(arena.enemy) then old(arena.enemy.plan) else None;
        var p := Planned(e.grid, astar, start, e.entity.position, arena.player.entity.position, ChaseDistance, roamDest);
        e.plan == Some(Follow(e.grid, p, e.entity.rect))
      ensures arena.rifle.angle == NormalizeAngle(aim) && (arena.player.flipped <==> aim <= -90 || 90 <= aim)
    {
      hide Hits; hide Collected; hide Uncollected; hide Planned; hide Follow;
      offered, fired, processed, flights := arena.Round(t, dt, AmmoInterval, keys, playerUnit, aim, sizeOf, ChaseDistance,
                                    enemyUnit, roamDest, astar);
      FacesLeft(aim);
      arena.Face(90 <= arena.rifle.angle <= 270);
    }

    /** `update(dt)` at time `t.now`: within 250 milliseconds of the start
        delay the tick changes nothing but `dt` and the game goes on; an
        enemy touching the player ends the game before anything else
        happens; otherwise the tick plays out and the game goes on. */
    method Update(dt: real, t: Tick, keys: Keys, playerUnit: Vec, aim: int, sizeOf: GunImage -> (nat, nat),
                  enemyUnit: Vec, roamDest: Vec, astar: (Cell, Cell) -> seq<Cell>)
      returns (alive: bool, ghost offered: seq<Pickup>, ghost fired: bool, ghost processed: nat,
               ghost flights: seq<Flight>)
      requires Valid() && RespawnLow <= t.respawnAfter <= RespawnHigh && -180 <= aim <= 180
      requires arena.player.entity.velocity.LengthSq() >= 1.0 ==>
               IsUnitAlong(playerUnit, arena.player.entity.velocity)
      requires arena.enemy != null && arena.enemy.entity.velocity.LengthSq() >= 1.0 ==>
               IsUnitAlong(enemyUnit, arena.enemy.entity.velocity)
      modifies this, arena, arena.player, arena.player.entity, arena.rifle, arena.enemy,
               if arena.enemy != null then {arena.enemy.entity} else {}, set b | b in arena.bullets
      ensures Valid() && this.dt == dt
      ensures var waiting := t.now - gameStartDelay <= StartDelay;
        var caught := old(arena.enemy != null && arena.enemy.Collision(arena.player.entity.rect));
        (alive <==> waiting || !caught) &&
        (waiting || caught ==>
           unchanged(arena, arena.player, arena.player.entity, arena.rifle) &&
           (arena.enemy != null ==> unchanged(arena.enemy, arena.enemy.entity)) &&
           (forall b :: b in old(arena.bullets) ==> unchanged(b))) &&
        (!waiting && !caught ==>
           arena.rifle.angle == NormalizeAngle(aim) && (arena.player.flipped <==> aim <= -90 || 90 <= aim) &&
           (offered == old(arena.ammos) ||
            (|offered| == |old(arena.ammos)| + 1 && offered[..|old(arena.ammos)|] == old(arena.ammos))) &&
           |flights| == |old(arena.bullets)| + (if fired then 1 else 0) && processed <= |flights| &&
           (forall j :: 0 <= j < |old(arena.bullets)| ==> flights[j] == old(FlightOf(arena.bullets[j], dt))) &&
           (fired ==> flights[|old(arena.bullets)|] == arena.ShotFlight(old(arena.player.entity.position), t.direction, dt)) &&
           (processed < |flights| ==> old(arena.enemy) == null || old(arena.enemy).health == 0) &&
           (old(arena.enemy) != null ==>
              old(arena.enemy).health == old(arena.enemy.health) - Hits(flights, processed, old(arena.enemy.entity.rect)) &&
              arena.enemy == (if old(arena.enemy).health == 0 then null else old(arena.enemy))) &&
           (|offered| == |old(arena.ammos)| + 1 <==>
              t.now - old(arena.ammoDelay) >= AmmoInterval && |old(arena.ammos)| < MaxPickups) &&
           (|offered| == |old(arena.ammos)| + 1 ==> offered[|old(arena.ammos)|].position == t.ammoPos) &&
           arena.ammos == Uncollected(offered, |offered|, old(arena.player.entity.rect)) &&
           arena.player.ammo == old(arena.player.ammo) - (if fired then 1 else 0) +
                                PickupRounds * |Collected(offered, |offered|, old(arena.player.entity.rect))| &&
           (fired <==> (t.fire && t.now - old(arena.bulletCooldown) >= ShotCooldown &&
              old(arena.player.ammo) + PickupRounds * |Collected(offered, |offered|, old(arena.player.entity.rect))| >= 1)) &&
           arena.ammoDelay == (if t.now - old(arena.ammoDelay) >= AmmoInterval then t.now else old(arena.ammoDelay)) &&
           arena.bulletCooldown == (if fired then t.now else old(arena.bulletCooldown)) &&
           arena.player.killCount == old(arena.player.killCount) +
             (if old(arena.enemy) != null && old(arena.enemy).health == 0 then 1 else 0) &&
           arena.newEnemyDelay ==
             (if old(arena.enemy) != null && old(arena.enemy).health == 0 then t.now else old(arena.newEnemyDelay)) &&
           ((arena.enemy != null && arena.enemy != old(arena.enemy)) <==>
              old(arena.enemy) == null && t.now - old(arena.newEnemyDelay) >= t.respawnAfter) &&
           (var e := arena.enemy; e != null ==>
              var start := if old(arena.enemy) != null && e == old(arena.enemy) then old(arena.enemy.plan) else None;
              var p := Planned(e.grid, astar, start, e.entity.position, arena.player.entity.position,
                               ChaseDistance, roamDest);
              e.plan == Some(Follow(e.grid, p, e.entity.rect))))
    {
      this.dt := dt;
      offered, fired, processed, flights := arena.ammos, false, 0, [];
      if t.now - gameStartDelay <= StartDelay {
        alive := true;
        return;
      }
      if arena.enemy != null && arena.enemy.Collision(arena.player.entity.rect) {
        alive := false;
        return;
      }
      hide Hits; hide Collected; hide Uncollected; hide Planned; hide Follow;
      offered, fired, processed, flights := Play(t, dt, keys, playerUnit, aim, sizeOf, enemyUnit, roamDest, astar);
      alive := true;
    }
  }
}
