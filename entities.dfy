/** The moving bodies of the arena (scripts/entities.py): the shared `Entity`
    part (movement, clamping, animation), the player, and the enemy with its
    roam/chase path following and its health bar. `Player` and `Enemy` own
    their `Entity` part instead of inheriting it. */
module Entities {
  import opened Geometry
  import opened Navigation

  // ---------------------------------------------------------------------
  // Animation
  // ---------------------------------------------------------------------

  /** The animation part of an entity: the current animation's name, the
      position of every animation's `cycle` iterator, the index of the frame
      shown, and the frame timer. `frames` (not stored here) maps each
      animation name to its frame count; it is empty for a still image,
      whose `image_iter` is `None`. */
  datatype Animation = Animation(state: string, cursor: map<string, nat>, frame: nat, timer: real) {

    predicate Valid(frames: map<string, nat>, delay: real) {
      cursor.Keys == frames.Keys &&
      (forall s :: s in frames ==> 0 < frames[s] && cursor[s] < frames[s]) &&
      (frames != map[] ==> state in frames) &&
      (timer == 0.0 || timer < delay)
    }

    /** `next(self.animations[s])`: shows the frame that animation's cycle
        stands on and moves that cycle on by one, wrapping around. */
    function Next(frames: map<string, nat>, s: string): (a: Animation)
      requires s in cursor && s in frames && frames[s] > 0
      ensures a.frame == cursor[s] && a.state == state && a.timer == timer
      ensures a.cursor == cursor[s := (cursor[s] + 1) % frames[s]]
    {
      Animation(state, cursor[s := (cursor[s] + 1) % frames[s]], cursor[s], timer)
    }

    /** `set_state(s)`. */
    function Switched(frames: map<string, nat>, delay: real, s: string): (a: Animation)
      requires Valid(frames, delay)
      ensures a.Valid(frames, delay)
      ensures a != this <==> s in frames && s != state
      ensures a != this ==> a.state == s && a.timer == 0.0 && a.frame == cursor[s]
    {
      if s in frames && s != state then
        Animation(s, Next(frames, s).cursor, cursor[s], 0.0)
      else
        this
    }

    /** The frame part of `Entity.update(dt)`. */
    function Ticked(frames: map<string, nat>, delay: real, dt: real): (a: Animation)
      requires Valid(frames, delay)
      ensures a.Valid(frames, delay)
      ensures a.state == state
      ensures frames == map[] ==> a == this
      ensures frames != map[] ==>
        (timer + dt / 60.0 >= delay ==> a.timer == 0.0 && a.frame == cursor[state]) &&
        (timer + dt / 60.0 < delay ==> a.timer == timer + dt / 60.0 && a.frame == frame && a.cursor == cursor)
    {
      if frames == map[] then this
      else
        var t := timer + dt / 60.0;
        if t >= delay then Next(frames, state).(timer := 0.0)
        else this.(timer := t)
    }
  }

  /** The animation an entity starts with: a still image shows state
      "idle"; an animated one starts on animation `first`, whose cycle has
      already handed out frame 0. */
  function StartAnimation(frames: map<string, nat>, first: string, delay: real): (a: Animation)
    requires forall s :: s in frames ==> frames[s] > 0
    requires frames != map[] ==> first in frames
    ensures a.Valid(frames, delay) && a.timer == 0.0 && a.frame == 0
    ensures frames != map[] ==> a.state == first
  {
    var rest: map<string, nat> := map s | s in frames :: 0;
    if frames == map[] then Animation("idle", rest, 0, 0.0)
    else Animation(first, rest[first := 1 % frames[first]], 0, 0.0)
  }

  /** Calling `set_state` twice with the same name is the same as once. */
  lemma SwitchedIdempotent(a: Animation, frames: map<string, nat>, delay: real, s: string)
    requires a.Valid(frames, delay)
    ensures a.Switched(frames, delay, s).Switched(frames, delay, s) == a.Switched(frames, delay, s)
  {}

  // ---------------------------------------------------------------------
  // Movement
  // ---------------------------------------------------------------------

  /** `if velocity.length() >= 1: velocity = velocity.normalize()`, with the
      normalized vector supplied by the caller as `unit`. */
  function Limited(v: Vec, unit: Vec): (r: Vec)
    requires v.LengthSq() >= 1.0 ==> IsUnitAlong(unit, v)
    ensures r.LengthSq() <= 1.0 || r == v
    ensures v.LengthSq() < 1.0 ==> r == v
    ensures v.LengthSq() >= 1.0 ==> IsUnitAlong(r, v) && r.LengthSq() == 1.0
  {
    if v.LengthSq() >= 1.0 then unit else v
  }

  /** One step of `position += velocity * speed` with a limited velocity
      moves a body no farther than `speed`. */
  lemma LimitedStepIsShort(pos: Vec, v: Vec, unit: Vec, speed: real)
    requires v.LengthSq() >= 1.0 ==> IsUnitAlong(unit, v)
    ensures DistSq(pos.Plus(Limited(v, unit).Scaled(speed)), pos) <= speed * speed
  {
    var u := Limited(v, unit);
    var step := pos.Plus(u.Scaled(speed)).Minus(pos);
    assert step == u.Scaled(speed);
    var k2, l := speed * speed, u.LengthSq();
    assert step.LengthSq() == k2 * l by {
      assert step.x * step.x == (speed * u.x) * (speed * u.x) == k2 * (u.x * u.x);
      assert step.y * step.y == (speed * u.y) * (speed * u.y) == k2 * (u.y * u.y);
    }
    assert 0.0 <= l <= 1.0 && k2 >= 0.0;
    assert k2 * l <= k2 * 1.0;
  }

  /** One axis of `Entity.clamp`: keep `v` between `lo + size // 2` and
      `hi - size // 2`; the lower bound wins when the two cross. */
  function ClampAxis(v: real, lo: real, hi: real, size: nat): (r: real)
    ensures var low, high := lo + (size / 2) as real, hi - (size / 2) as real;
      (low <= v <= high ==> r == v) &&
      (v < low ==> r == low) &&
      (low <= high && v > high ==> r == high) &&
      (low > high ==> r == low)
  {
    MaxR(lo + (size / 2) as real, MinR(v, hi - (size / 2) as real))
  }

  /** `Entity.clamp(pos, min_pos, max_pos)` for an image of size `w` x `h`. */
  function ClampBox(pos: Vec, lo: Vec, hi: Vec, w: nat, h: nat): (r: Vec)
    ensures r.x == ClampAxis(pos.x, lo.x, hi.x, w) && r.y == ClampAxis(pos.y, lo.y, hi.y, h)
  {
    Vec(ClampAxis(pos.x, lo.x, hi.x, w), ClampAxis(pos.y, lo.y, hi.y, h))
  }

  /** Clamping a clamped position changes nothing. */
  lemma ClampBoxIdempotent(pos: Vec, lo: Vec, hi: Vec, w: nat, h: nat)
    ensures ClampBox(ClampBox(pos, lo, hi, w, h), lo, hi, w, h) == ClampBox(pos, lo, hi, w, h)
  {}

  // ---------------------------------------------------------------------
  // Entity
  // ---------------------------------------------------------------------

  /** The state `Entity` gives every sprite that moves. */
  class Entity {
    const frames: map<string, nat>
    const frameDelay: real
    /** The size of the image; every frame of every animation is taken to
        have it. */
    const width: nat
    const height: nat
    const baseSpeed: real
    var anim: Animation
    var position: Vec
    var velocity: Vec
    var speed: real
    var rect: Rect

    ghost predicate Valid()
      reads this
    {
      anim.Valid(frames, frameDelay) && rect.w == width && rect.h == height
    }

    constructor (pos: Vec, frames: map<string, nat>, first: string, width: nat, height: nat,
                 speed: real, frameDelay: real)
      requires forall s :: s in frames ==> frames[s] > 0
      requires frames != map[] ==> first in frames
      ensures Valid()
      ensures this.frames == frames && this.frameDelay == frameDelay
      ensures this.width == width && this.height == height
      ensures baseSpeed == speed && this.speed == speed
      ensures anim == StartAnimation(frames, first, frameDelay)
      ensures position == pos && velocity == Zero
      ensures rect == RectAround(width, height, pos)
    {
      this.frames := frames;
      this.frameDelay := frameDelay;
      this.width, this.height := width, height;
      baseSpeed, this.speed := speed, speed;
      anim := StartAnimation(frames, first, frameDelay);
      position, velocity := pos, Zero;
      rect := RectAround(width, height, pos);
    }

    /** `set_state(s)`. */
    method SetState(s: string)
      requires Valid()
      modifies this
      ensures Valid()
      ensures anim == old(anim).Switched(frames, frameDelay, s)
      ensures position == old(position) && velocity == old(velocity)
      ensures speed == old(speed) && rect == old(rect)
    {
      anim := anim.Switched(frames, frameDelay, s);
    }

    /** `update(dt)`: `unit` is what `velocity.normalize()` returns. */
    method Update(dt: real, unit: Vec)
      requires Valid()
      requires velocity.LengthSq() >= 1.0 ==> IsUnitAlong(unit, velocity)
      modifies this
      ensures Valid()
      ensures speed == baseSpeed * dt
      ensures velocity == Limited(old(velocity), unit)
      ensures position == old(position).Plus(velocity.Scaled(speed))
      ensures rect == old(rect).WithCenter(ToInt(position.x), ToInt(position.y))
      ensures anim == old(anim).Ticked(frames, frameDelay, dt)
    {
      speed := baseSpeed * dt;
      if velocity.LengthSq() >= 1.0 {
        velocity := unit;
      }
      position := position.Plus(velocity.Scaled(speed));
      rect := rect.WithCenter(ToInt(position.x), ToInt(position.y));
      anim := anim.Ticked(frames, frameDelay, dt);
    }

    /** `clamp(pos, min_pos, max_pos)`. */
    function Clamp(pos: Vec, lo: Vec, hi: Vec): Vec {
      ClampBox(pos, lo, hi, width, height)
    }
  }

  // ---------------------------------------------------------------------
  // Player
  // ---------------------------------------------------------------------

  /** The keys `pg.key.get_pressed()` reports: a, d, w, s. */
  datatype Keys = Keys(a: bool, d: bool, w: bool, s: bool) {
    predicate Any() { a || d || w || s }
  }

  /** The velocity the keys ask for: `d` overrides `a` and `s` overrides
      `w`, each component is -1, 0 or 1. */
  function KeyVelocity(k: Keys): (v: Vec)
    ensures (v.x == 1.0 <==> k.d) && (v.x == -1.0 <==> k.a && !k.d) && (v.x == 0.0 <==> !k.a && !k.d)
    ensures (v.y == 1.0 <==> k.s) && (v.y == -1.0 <==> k.w && !k.s) && (v.y == 0.0 <==> !k.w && !k.s)
  {
    Vec(if k.d then 1.0 else if k.a then -1.0 else 0.0,
        if k.s then 1.0 else if k.w then -1.0 else 0.0)
  }

  /** What `Player.update` keeps of the keys: the velocity and `moved`. */
  datatype Move = Move(velocity: Vec, moved: bool)

  /** The keys' velocity and `moved` flag, both cleared when the position one
      step ahead (`position + velocity * speed`) falls in a blocked cell. */
  function PlayerMove(g: Grid, k: Keys, pos: Vec, speed: real): (m: Move)
    requires g.Valid()
    ensures var ahead := pos.Plus(KeyVelocity(k).Scaled(speed));
      (g.Blocks(ahead) ==> m.velocity == Zero && !m.moved) &&
      (!g.Blocks(ahead) ==> m.velocity == KeyVelocity(k) && m.moved == k.Any())
  {
    var v := KeyVelocity(k);
    if g.Blocks(pos.Plus(v.Scaled(speed))) then Move(Zero, false) else Move(v, k.Any())
  }

  /** A move the player keeps never ends one step ahead in a blocked cell, and
      a candidate cell outside the grid never blocks the keys' velocity. */
  lemma PlayerMoveAvoidsBlockedCells(g: Grid, k: Keys, pos: Vec, speed: real)
    requires g.Valid()
    ensures var m := PlayerMove(g, k, pos, speed);
      m.velocity != Zero ==> !g.Blocks(pos.Plus(m.velocity.Scaled(speed)))
    ensures var ahead := pos.Plus(KeyVelocity(k).Scaled(speed));
      !g.InGrid(g.CellAt(ahead)) ==> PlayerMove(g, k, pos, speed) == Move(KeyVelocity(k), k.Any())
  {
    var m := PlayerMove(g, k, pos, speed);
    if m.velocity != Zero {
      assert m.velocity == KeyVelocity(k);
    }
  }

  class Player {
    const entity: Entity
    const grid: Grid
    var ammo: int
    var moved: bool
    var killCount: int
    /** What the game passes to `set_flipped` (not part of this model beyond
        the flag). */
    var flipped: bool

    ghost predicate Valid()
      reads this, entity
    {
      entity.Valid() && grid.Valid()
    }

    constructor (pos: Vec, frames: map<string, nat>, first: string, width: nat, height: nat,
                 baseSpeed: real, grid: Grid, frameDelay: real)
      requires forall s :: s in frames ==> frames[s] > 0
      requires frames != map[] ==> first in frames
      requires grid.Valid()
      ensures Valid() && fresh(entity)
      ensures entity.position == pos && entity.velocity == Zero && entity.baseSpeed == baseSpeed
      ensures entity.frames == frames && entity.width == width && entity.height == height
      ensures entity.frameDelay == frameDelay && entity.anim == StartAnimation(frames, first, frameDelay)
      ensures this.grid == grid
      ensures ammo == 24 && !moved && killCount == 0 && !flipped
    {
      entity := new Entity(pos, frames, first, width, height, baseSpeed, frameDelay);
      this.grid := grid;
      ammo, moved, killCount, flipped := 24, false, 0, false;
    }

    /** `Player.update(dt, bg_rect)` for the keys `keys`; `unit` is the
        normalized velocity `Entity.update` needs. */
    method Update(dt: real, bg: Rect, keys: Keys, unit: Vec)
      requires Valid()
      requires entity.velocity.LengthSq() >= 1.0 ==> IsUnitAlong(unit, entity.velocity)
      modifies this, entity
      ensures Valid()
      ensures entity.speed == entity.baseSpeed * dt
      ensures var stepped := old(entity.position).Plus(Limited(old(entity.velocity), unit).Scaled(entity.speed));
        var m := PlayerMove(grid, keys, stepped, entity.speed);
        entity.velocity == m.velocity && moved == m.moved &&
        entity.position == entity.Clamp(stepped, Vec(bg.x as real, bg.y as real),
                                        Vec(bg.Right() as real, bg.Bottom() as real)) &&
        entity.rect == old(entity.rect).WithCenter(ToInt(stepped.x), ToInt(stepped.y))
      ensures entity.anim == old(entity.anim).Ticked(entity.frames, entity.frameDelay, dt)
      ensures ammo == old(ammo) && killCount == old(killCount) && flipped == old(flipped)
    {
      // The postconditions follow from the calls' contracts alone.
      hide ToInt;
      hide FloorDiv;
      hide Grid.Blocks;
      hide ClampAxis;
      hide PlayerMove;
      entity.Update(dt, unit);
      var m := PlayerMove(grid, keys, entity.position, entity.speed);
      entity.velocity := m.velocity;
      entity.position := entity.Clamp(entity.position, Vec(bg.x as real, bg.y as real),
                                      Vec(bg.Right() as real, bg.Bottom() as real));
      moved := m.moved;
    }

    /** `set_state("running")` when the player moved this tick and
        `set_state("idle")` otherwise. */
    method Pose()
      requires Valid()
      modifies entity
      ensures Valid()
      ensures entity.anim == old(entity.anim).Switched(entity.frames, entity.frameDelay, if moved then "running" else "idle")
      ensures entity.position == old(entity.position) && entity.velocity == old(entity.velocity)
      ensures entity.rect == old(entity.rect)
    {
      entity.SetState(if moved then "running" else "idle");
    }
  }

  // ---------------------------------------------------------------------
  // Enemy: path following
  // ---------------------------------------------------------------------

  /** How far (120) the last waypoint of a chase path may drift from the
      target before the path is planned again. */
  const StaleDistance: real := 120.0

  /** The path's last waypoint lies within `StaleDistance` of `target`
      (`target_to_end_dist < 120`; an empty path is infinitely far). */
  predicate EndsNear(g: Grid, p: Plan, target: Vec) {
    |p.cells| > 0 && Closer(g.Waypoint(p.cells[|p.cells| - 1]), target, StaleDistance)
  }

  /** The mode block keeps the current path: a chase path while chasing, if
      it is non-empty and still ends near the target; a roam path while
      roaming, if it is non-empty. */
  predicate Keeps(p: Plan, chasing: bool, endNear: bool) {
    |p.cells| > 0 && (if chasing then p.tag == Chase && endNear else p.tag == Roam)
  }

  /** The one search the mode block issues, if any. */
  function Replan(p: Plan, chasing: bool, endNear: bool): (r: Option<Tag>)
    ensures r.None? <==> Keeps(p, chasing, endNear)
    ensures r.Some? ==> (r.value == Chase <==> chasing)
  {
    if chasing then
      (if p.tag != Chase || |p.cells| == 0 || !endNear then Some(Chase) else None)
    else
      (if p.tag != Roam || |p.cells| == 0 then Some(Roam) else None)
  }

  /** The first-path rule: an enemy without a path plans a roam path to
      `roamDest`. */
  function FirstPlan(g: Grid, astar: (Cell, Cell) -> seq<Cell>, current: Option<Plan>,
                     pos: Vec, roamDest: Vec): (p: Plan)
    requires g.Valid()
    ensures current.Some? ==> p == current.value
    ensures current.None? ==> p == g.FindPath(astar, pos, roamDest, Roam)
  {
    if current.None? then g.FindPath(astar, pos, roamDest, Roam) else current.value
  }

  /** The mode block of `Enemy.update` applied to path `p`, for an enemy at
      `pos` that is (`chasing`) or is not nearer than the chase distance. */
  function ModeBlock(g: Grid, astar: (Cell, Cell) -> seq<Cell>, p: Plan, chasing: bool,
                     pos: Vec, target: Vec, roamDest: Vec): Plan
    requires g.Valid()
  {
    match Replan(p, chasing, EndsNear(g, p, target))
    case None => p
    case Some(Chase) => g.FindPath(astar, pos, target, Chase)
    case Some(Roam) => g.FindPath(astar, pos, roamDest, Roam)
  }

  /** The path after the first-path rule and the mode block. */
  function Planned(g: Grid, astar: (Cell, Cell) -> seq<Cell>, current: Option<Plan>,
                   pos: Vec, target: Vec, chaseDistance: real, roamDest: Vec): Plan
    requires g.Valid()
  {
    ModeBlock(g, astar, FirstPlan(g, astar, current, pos, roamDest),
              Closer(pos, target, chaseDistance), pos, target, roamDest)
  }

  /** After the mode block the tag is "chase" exactly when the enemy is
      chasing; the path is kept exactly as `Keeps` says (a chase path while
      chasing if non-empty and ending near the target, a roam path while
      roaming if non-empty), and otherwise it is a fresh search aimed at the
      target when chasing and at the roam destination when roaming. */
  lemma ModeBlockFollowsMode(g: Grid, astar: (Cell, Cell) -> seq<Cell>, p: Plan, chasing: bool,
                             pos: Vec, target: Vec, roamDest: Vec)
    requires g.Valid()
    ensures var r := ModeBlock(g, astar, p, chasing, pos, target, roamDest);
      (r.tag == Chase <==> chasing) &&
      (Keeps(p, chasing, EndsNear(g, p, target)) ==> r == p) &&
      (!Keeps(p, chasing, EndsNear(g, p, target)) ==>
         r == g.FindPath(astar, pos, if chasing then target else roamDest, if chasing then Chase else Roam))
  {
    var decision := Replan(p, chasing, EndsNear(g, p, target));
    if decision.None? {
      assert Keeps(p, chasing, EndsNear(g, p, target));
    }
  }

  /** The same for the whole planning step of `Enemy.update`, with "chasing"
      meaning that the target is nearer than `chaseDistance`. */
  lemma PlannedFollowsDistance(g: Grid, astar: (Cell, Cell) -> seq<Cell>, current: Option<Plan>,
                               pos: Vec, target: Vec, chaseDistance: real, roamDest: Vec)
    requires g.Valid()
    ensures var r := Planned(g, astar, current, pos, target, chaseDistance, roamDest);
      var chasing := Closer(pos, target, chaseDistance);
      var p := FirstPlan(g, astar, current, pos, roamDest);
      (r.tag == Chase <==> chasing) &&
      (Keeps(p, chasing, EndsNear(g, p, target)) ==> r == p) &&
      (!Keeps(p, chasing, EndsNear(g, p, target)) ==>
         r == g.FindPath(astar, pos, if chasing then target else roamDest, if chasing then Chase else Roam))
  {
    var chasing := Closer(pos, target, chaseDistance);
    var p := FirstPlan(g, astar, current, pos, roamDest);
    ModeBlockFollowsMode(g, astar, p, chasing, pos, target, roamDest);
  }

  /** How much of the waypoint direction the velocity takes: half while
      roaming, all of it while chasing. */
  function SpeedFactor(t: Tag): real {
    if t == Roam then 0.5 else 1.0
  }

  /** A roaming enemy asks for a quarter of the squared speed a chasing one
      asks for towards the same waypoint. */
  lemma RoamAsksForQuarterSpeed(d: Vec)
    ensures d.Scaled(SpeedFactor(Roam)).LengthSq() == 0.25 * d.Scaled(SpeedFactor(Chase)).LengthSq()
  {
    var xx, yy := d.x * d.x, d.y * d.y;
    assert (0.5 * d.x) * (0.5 * d.x) == 0.25 * xx;
    assert (0.5 * d.y) * (0.5 * d.y) == 0.25 * yy;
    assert (1.0 * d.x) * (1.0 * d.x) == xx;
    assert (1.0 * d.y) * (1.0 * d.y) == yy;
  }

  /** The follow step: with a waypoint ahead, the velocity points at it
      (scaled by the mode's factor); otherwise the velocity is kept. */
  function PursuitVelocity(g: Grid, p: Plan, pos: Vec, current: Vec): (v: Vec)
    ensures |p.cells| == 0 ==> v == current
    ensures |p.cells| > 0 ==> v == g.Waypoint(p.cells[0]).Minus(pos).Scaled(SpeedFactor(p.tag))
  {
    if |p.cells| > 0 then g.Waypoint(p.cells[0]).Minus(pos).Scaled(SpeedFactor(p.tag)) else current
  }

  /** The first waypoint is consumed once it lies in the enemy's rect. */
  function Follow(g: Grid, p: Plan, rect: Rect): (r: Plan)
    ensures r.tag == p.tag
    ensures r != p <==> |p.cells| > 0 && rect.CollidePoint(g.WaypointX(p.cells[0]), g.WaypointY(p.cells[0]))
    ensures r != p ==> r.cells == p.cells[1..]
  {
    if |p.cells| > 0 && rect.CollidePoint(g.WaypointX(p.cells[0]), g.WaypointY(p.cells[0])) then
      p.Popped()
    else
      p
  }

  /** At most one waypoint is consumed per update, and never from an empty
      path. */
  lemma FollowPopsAtMostOne(g: Grid, p: Plan, rect: Rect)
    ensures |Follow(g, p, rect).cells| == |p.cells| || |Follow(g, p, rect).cells| == |p.cells| - 1
    ensures |p.cells| == 0 ==> Follow(g, p, rect) == p
  {}

  // ---------------------------------------------------------------------
  // Enemy: health bar
  // ---------------------------------------------------------------------

  datatype Colour = Green | Orange | Yellow | Red

  /** A fraction between 0 and 1 of a non-negative width lies between 0 and
      that width. */
  lemma ScaledWithin(w: real, k: real)
    requires 0.0 <= w && 0.0 <= k <= 1.0
    ensures 0.0 <= w * k <= w
  {
    var rest := w * (1.0 - k);
    assert rest >= 0.0;
    assert w * k == w - rest;
  }

  /** `h / m > k` is `h > k * m` for a positive `m`. */
  lemma RatioAbove(h: real, m: real, k: real)
    requires m > 0.0
    ensures h / m > k <==> h > k * m
  {
    var r := h / m;
    var rm, km := r * m, k * m;
    assert rm == h;
    if r > k {
      assert (r - k) * m > 0.0;
      assert rm - km > 0.0;
    } else {
      assert (k - r) * m >= 0.0;
      assert km - rm >= 0.0;
    }
  }

  /** The health-bar colour for `ratio = health / max_health`: green above
      0.75, orange above 0.5, yellow above 0.25, red otherwise. */
  function HealthTier(health: int, maxHealth: int): (c: Colour)
    requires maxHealth > 0
    ensures c == Green <==> 4 * health > 3 * maxHealth
    ensures c == Orange <==> 2 * health > maxHealth && 4 * health <= 3 * maxHealth
    ensures c == Yellow <==> 4 * health > maxHealth && 2 * health <= maxHealth
    ensures c == Red <==> 4 * health <= maxHealth
  {
    var ratio := health as real / maxHealth as real;
    RatioAbove(health as real, maxHealth as real, 0.75);
    RatioAbove(health as real, maxHealth as real, 0.5);
    RatioAbove(health as real, maxHealth as real, 0.25);
    if ratio > 0.75 then Green else if ratio > 0.5 then Orange else if ratio > 0.25 then Yellow else Red
  }

  /** With the default `max_health` of 4 every hit moves the bar one tier
      down: 4 green, 3 orange, 2 yellow, 1 red. */
  lemma DefaultHealthTiers()
    ensures HealthTier(4, 4) == Green && HealthTier(3, 4) == Orange
    ensures HealthTier(2, 4) == Yellow && HealthTier(1, 4) == Red
  {}

  /** The bar, its outline and its colour. */
  datatype HealthBar = HealthBar(bar: Rect, outline: Rect, colour: Colour)

  /** The bar's new width, `int(image_width * ratio)`: the image width
      scaled by the health ratio and truncated, so never wider than the
      image. */
  function BarWidth(imageWidth: nat, health: int, maxHealth: int): (n: nat)
    requires maxHealth > 0 && 0 <= health <= maxHealth
    ensures n <= imageWidth
    ensures n as real <= imageWidth as real * (health as real / maxHealth as real) < n as real + 1.0
  {
    hide ToInt;
    BarFraction(imageWidth, health, maxHealth);
    ToInt(imageWidth as real * (health as real / maxHealth as real))
  }

  /** The image width scaled by a health ratio lies between 0 and the image
      width, so its truncation does too and lies within one below it. */
  lemma BarFraction(imageWidth: nat, health: int, maxHealth: int)
    requires maxHealth > 0 && 0 <= health <= maxHealth
    ensures var width := imageWidth as real * (health as real / maxHealth as real);
      0 <= ToInt(width) <= imageWidth && ToInt(width) as real <= width < ToInt(width) as real + 1.0
  {
    var ratio := health as real / maxHealth as real;
    RatioAbove(health as real, maxHealth as real, 1.0);
    RatioAbove(health as real, maxHealth as real, 0.0);
    ScaledWithin(imageWidth as real, ratio);
    ToIntTruncates(imageWidth as real * ratio);
  }

  /** The health-bar part of `Enemy.update`: the bar is centred 12 above the
      enemy's rect, then its width becomes the image width times the health
      ratio (truncated); the outline is centred on the resized bar. */
  function BarAfter(hb: HealthBar, body: Rect, imageWidth: nat, health: int, maxHealth: int): (r: HealthBar)
    requires maxHealth > 0 && 0 <= health <= maxHealth
    ensures r.colour == HealthTier(health, maxHealth)
    ensures r.bar.h == hb.bar.h && r.outline.w == hb.outline.w && r.outline.h == hb.outline.h
    ensures r.bar.x == body.CenterX() - hb.bar.w / 2 && r.bar.CenterY() == body.y - 12
    ensures r.bar.w == BarWidth(imageWidth, health, maxHealth) && r.bar.w <= imageWidth
    ensures r.outline.CenterX() == r.bar.CenterX() && r.outline.CenterY() == r.bar.CenterY()
  {
    var centred := hb.bar.WithCenter(body.CenterX(), body.y - 12);
    var bar := centred.Resized(BarWidth(imageWidth, health, maxHealth), centred.h);
    HealthBar(bar, hb.outline.WithCenter(bar.CenterX(), bar.CenterY()), HealthTier(health, maxHealth))
  }

  // ---------------------------------------------------------------------
  // Enemy
  // ---------------------------------------------------------------------

  class Enemy {
    const entity: Entity
    const grid: Grid
    const maxHealth: int
    var health: int
    /** `self.path`: `None` until the first update plans one. */
    var plan: Option<Plan>
    var targetPos: Vec
    var healthBar: HealthBar

    ghost predicate Valid()
      reads this, entity
    {
      entity.Valid() && entity.frames == map[] && grid.Valid() &&
      0 < maxHealth && 0 <= health <= maxHealth
    }

    /** `Enemy(pos, image, base_speed, ...)` with the default `max_health`
        of 4 and frame delay of 0.2. */
    constructor (pos: Vec, width: nat, height: nat, baseSpeed: real, grid: Grid)
      requires grid.Valid()
      ensures Valid() && fresh(entity)
      ensures health == maxHealth == 4 && plan == None && targetPos == Zero
      ensures entity.position == pos && entity.velocity == Zero && entity.baseSpeed == baseSpeed
      ensures entity.width == width && entity.height == height
      ensures entity.rect == RectAround(width, height, pos)
      ensures this.grid == grid
      ensures healthBar.bar == Rect(entity.rect.x, entity.rect.y - 10, width, 10)
      ensures healthBar.outline == healthBar.bar.Inflated(3, 3) && healthBar.colour == Green
    {
      entity := new Entity(pos, map[], "idle", width, height, baseSpeed, 0.2);
      this.grid := grid;
      maxHealth, health := 4, 4;
      plan, targetPos := None, Zero;
      new;
      var bar := Rect(entity.rect.x, entity.rect.y - 10, width, 10);
      healthBar := HealthBar(bar, bar.Inflated(3, 3), Green);
    }

    /** `collision(collide_rect)`: the enemy's rect and `other` share a
        point, and the answer is the same whichever of the two asks. */
    predicate Collision(other: Rect): (r: bool)
      reads entity
      ensures r <==> exists px: int, py: int :: entity.rect.CollidePoint(px, py) && other.CollidePoint(px, py)
      ensures r == other.Colliding(entity.rect)
    {
      CollidingIffCommonPoint(entity.rect, other);
      CollidingSymmetric(entity.rect, other);
      entity.rect.Colliding(other)
    }

    /** The movement part of `Enemy.update`: `Entity.update`, then the
        position is clamped into `(0, 0)`..`max_rect.size`. */
    method Move(dt: real, maxRect: Rect, unit: Vec)
      requires Valid()
      requires entity.velocity.LengthSq() >= 1.0 ==> IsUnitAlong(unit, entity.velocity)
      modifies entity
      ensures Valid()
      ensures entity.speed == entity.baseSpeed * dt && entity.anim == old(entity.anim)
      ensures entity.velocity == Limited(old(entity.velocity), unit)
      ensures var stepped := old(entity.position).Plus(entity.velocity.Scaled(entity.speed));
        entity.rect == old(entity.rect).WithCenter(ToInt(stepped.x), ToInt(stepped.y)) &&
        entity.position == entity.Clamp(stepped, Zero, Vec(maxRect.w as real, maxRect.h as real))
    {
      // The postconditions follow from the calls' contracts alone.
      hide ToInt;
      hide ClampAxis;
      entity.Update(dt, unit);
      entity.position := entity.Clamp(entity.position, Zero, Vec(maxRect.w as real, maxRect.h as real));
    }

    /** The path part of `Enemy.update` for an enemy at `entity.position`:
        the first-path rule, then the mode block. */
    method PlanPath(target: Vec, chaseDistance: real, roamDest: Vec, astar: (Cell, Cell) -> seq<Cell>)
      requires Valid()
      modifies this
      ensures Valid()
      ensures plan == Some(Planned(grid, astar, old(plan), entity.position, target, chaseDistance, roamDest))
      ensures health == old(health) && targetPos == old(targetPos) && healthBar == old(healthBar)
    {
      var pos := entity.position;
      if plan.None? {
        plan := Some(grid.FindPath(astar, pos, roamDest, Roam));
      }
      var current := plan.value;
      ghost var first := current;
      var chasing := Closer(pos, target, chaseDistance);
      var endNear := EndsNear(grid, current, target);
      if chasing {
        if current.tag != Chase || |current.cells| == 0 || !endNear {
          current := grid.FindPath(astar, pos, target, Chase);
        }
      } else {
        if current.tag != Roam || |current.cells| == 0 {
          current := grid.FindPath(astar, pos, roamDest, Roam);
        }
      }
      assert current == ModeBlock(grid, astar, first, chasing, pos, target, roamDest);
      plan := Some(current);
    }

    /** The follow part of `Enemy.update`: head for the first waypoint and
        consume it once it lies in the enemy's rect. */
    method FollowPath()
      requires Valid() && plan.Some?
      modifies this, entity
      ensures Valid()
      ensures plan == Some(Follow(grid, old(plan).value, entity.rect))
      ensures entity.velocity == PursuitVelocity(grid, old(plan).value, entity.position, old(entity.velocity))
      ensures var p := old(plan).value;
        targetPos == (if |p.cells| > 0 then grid.Waypoint(p.cells[0]) else old(targetPos))
      ensures entity.position == old(entity.position) && entity.rect == old(entity.rect)
      ensures entity.speed == old(entity.speed) && entity.anim == old(entity.anim)
      ensures health == old(health) && healthBar == old(healthBar)
    {
      var current := plan.value;
      if |current.cells| > 0 {
        var point := current.cells[0];
        targetPos := grid.Waypoint(point);
        var direction := targetPos.Minus(entity.position);
        entity.velocity := direction.Scaled(SpeedFactor(current.tag));
        if entity.rect.CollidePoint(grid.WaypointX(point), grid.WaypointY(point)) {
          current := current.Popped();
        }
      }
      plan := Some(current);
    }

    /** `Enemy.update(dt, max_rect, target, chase_distance)` for a target at
        `target`. `unit` is the normalized velocity, `roamDest` what
        `get_random_position` returns this tick and `astar` the search. */
    method Update(dt: real, maxRect: Rect, target: Vec, chaseDistance: real, unit: Vec,
                  roamDest: Vec, astar: (Cell, Cell) -> seq<Cell>)
      requires Valid()
      requires entity.velocity.LengthSq() >= 1.0 ==> IsUnitAlong(unit, entity.velocity)
      modifies this, entity
      ensures Valid()
      ensures health == old(health) && entity.speed == entity.baseSpeed * dt
      ensures entity.anim == old(entity.anim)
      ensures var stepped := old(entity.position).Plus(Limited(old(entity.velocity), unit).Scaled(entity.speed));
        entity.rect == old(entity.rect).WithCenter(ToInt(stepped.x), ToInt(stepped.y)) &&
        entity.position == entity.Clamp(stepped, Zero, Vec(maxRect.w as real, maxRect.h as real))
      ensures var p := Planned(grid, astar, old(plan), entity.position, target, chaseDistance, roamDest);
        plan == Some(Follow(grid, p, entity.rect)) &&
        entity.velocity == PursuitVelocity(grid, p, entity.position, Limited(old(entity.velocity), unit)) &&
        targetPos == (if |p.cells| > 0 then grid.Waypoint(p.cells[0]) else old(targetPos))
      ensures healthBar == BarAfter(old(healthBar), entity.rect, entity.width, health, maxHealth)
    {
      Move(dt, maxRect, unit);
      PlanPath(target, chaseDistance, roamDest, astar);
      FollowPath();
      healthBar := BarAfter(healthBar, entity.rect, entity.width, health, maxHealth);
    }
  }
}
