/** The objects of the arena (scripts/objects.py): the gun that follows the
    mouse, with its cache of rotated images, the bullets it fires, and the
    ammunition pickups. */
module Objects {
  import opened Geometry

  // ---------------------------------------------------------------------
  // Gun angle
  // ---------------------------------------------------------------------

  /** `(angle + 360) % 360` with Python's `%`, whose result takes the sign of
      the (positive) divisor: the angle brought into `[0, 360)`. */
  function NormalizeAngle(angle: int): (r: int)
    ensures 0 <= r < 360
    ensures (r - angle) % 360 == 0
    ensures 0 <= angle < 360 ==> r == angle
    ensures -360 <= angle < 0 ==> r == angle + 360
  {
    (angle + 360) % 360
  }

  /** Python's `round(x)` on a float: the nearest integer, and the even one
      of two equally near. */
  function PyRound(x: real): (n: int)
    ensures n as real - 0.5 <= x <= n as real + 0.5
    ensures x - x.Floor as real == 0.5 ==> n % 2 == 0
  {
    var f := x.Floor;
    var frac := x - f as real;
    if frac < 0.5 then f
    else if frac > 0.5 then f + 1
    else if f % 2 == 0 then f else f + 1
  }

  /** `round(angle / 3) * 3`: the 3-degree bucket of an angle, always a
      multiple of 3 (`RoundedAngleIsNearestMultiple` shows it is the
      nearest one). */
  function RoundedAngle(angle: int): (r: int)
    ensures r % 3 == 0
  {
    var k := PyRound(angle as real / 3.0);
    TimesThree(k);
    k * 3
  }

  lemma TimesThree(k: int)
    ensures (k * 3) % 3 == 0
  {
  }

  /** For an integer angle the quotient by 3 is never halfway between two
      integers, so the bucket is the multiple of 3 nearest the angle: within
      1 degree of it, and equal to it for a multiple of 3. */
  lemma RoundedAngleIsNearestMultiple(angle: int)
    ensures var q := angle as real / 3.0; q - q.Floor as real != 0.5
    ensures var r := RoundedAngle(angle);
      r % 3 == 0 && angle - 1 <= r <= angle + 1 &&
      (angle % 3 == 0 <==> r == angle)
  {
    var q, m := angle / 3, angle % 3;
    assert angle == 3 * q + m && 0 <= m < 3;
    var x := angle as real / 3.0;
    assert x == q as real + m as real / 3.0;
    assert x.Floor == q;
    if m == 0 {
      assert RoundedAngle(angle) == 3 * q;
    } else if m == 1 {
      assert x - q as real == 1.0 / 3.0;
      assert RoundedAngle(angle) == 3 * q;
    } else {
      assert x - q as real == 2.0 / 3.0;
      assert RoundedAngle(angle) == 3 * (q + 1);
    }
  }

  /** For a normalized angle the bucket lies in `[0, 360]`. */
  lemma RoundedAngleInRange(angle: int)
    requires 0 <= angle < 360
    ensures 0 <= RoundedAngle(angle) <= 360
  {
    RoundedAngleIsNearestMultiple(angle);
  }

  // ---------------------------------------------------------------------
  // Rotated-image cache
  // ---------------------------------------------------------------------

  /** A gun image: the base image, flipped vertically or not, rotated by
      `rotation` degrees. */
  datatype GunImage = GunImage(flipped: bool, rotation: int)

  /** `base_image.copy()`. */
  const BaseImage := GunImage(false, 0)

  /** Every cache key is a bucket of a normalized angle and holds the image
      rotated by minus that bucket. */
  predicate CacheValid(cache: map<int, GunImage>) {
    forall k :: k in cache ==> 0 <= k <= 360 && k % 3 == 0 && cache[k].rotation == -k
  }

  /** The image and cache after the cache part of `Gun.update` for the
      normalized `angle`, AS WRITTEN: membership is asked of `angle` itself
      while the entry used and stored is that of its bucket. */
  datatype CacheResult = CacheResult(image: GunImage, cache: map<int, GunImage>)

  function CacheStep(cache: map<int, GunImage>, angle: int): (r: CacheResult)
    requires CacheValid(cache) && 0 <= angle < 360
    ensures CacheValid(r.cache)
    ensures RoundedAngle(angle) in r.cache && r.image == r.cache[RoundedAngle(angle)]
    ensures r.image.rotation == -RoundedAngle(angle)
    ensures angle in cache ==> r.cache == cache && r.image == cache[angle]
    ensures angle !in cache ==>
      r.cache == cache[RoundedAngle(angle) := r.image] &&
      (r.image.flipped <==> 90 <= angle <= 270)
  {
    var rounded := RoundedAngle(angle);
    RoundedAngleIsNearestMultiple(angle);
    RoundedAngleInRange(angle);
    if angle in cache then
      CacheResult(cache[rounded], cache)
    else
      var image := GunImage(90 <= angle <= 270, -rounded);
      CacheResult(image, cache[rounded := image])
  }

  /** The multiples of 3 in `[0, 3 * n)` are exactly `n` numbers. */
  lemma {:induction false} MultiplesOfThreeCount(n: nat)
    ensures |set k | 0 <= k < 3 * n && k % 3 == 0| == n
  {
    if n > 0 {
      MultiplesOfThreeCount(n - 1);
      var below := set k | 0 <= k < 3 * (n - 1) && k % 3 == 0;
      var all := set k | 0 <= k < 3 * n && k % 3 == 0;
      assert all == below + {3 * (n - 1)};
      assert 3 * (n - 1) !in below;
    }
  }

  /** A valid cache never holds more than 121 images, one per bucket from 0
      to 360. */
  lemma CacheBounded(cache: map<int, GunImage>)
    requires CacheValid(cache)
    ensures |cache| <= 121
  {
    var buckets := set k | 0 <= k < 3 * 121 && k % 3 == 0;
    MultiplesOfThreeCount(121);
    assert cache.Keys <= buckets;
    SubsetNoLarger(cache.Keys, buckets);
  }

  lemma SubsetNoLarger(a: set<int>, b: set<int>)
    requires a <= b
    ensures |a| <= |b|
  {
    assert b == a + (b - a);
    assert a * (b - a) == {};
  }

  /** What the gun shows at angle 90 depends on the history of the cache: a
      first visit to 90 draws the flipped image, but after the gun pointed
      at 89 (whose bucket is also 90) a later visit to 90 finds that unflipped
      entry and shows it. */
  lemma CachedFlipDependsOnHistory()
    ensures CacheStep(map[], 90).image.flipped
    ensures !CacheStep(CacheStep(map[], 89).cache, 90).image.flipped
  {
    RoundedAngleIsNearestMultiple(89);
    RoundedAngleIsNearestMultiple(90);
    assert RoundedAngle(89) == 90 && RoundedAngle(90) == 90;
  }

  class Gun {
    /** The base image's size. */
    const width: nat
    const height: nat
    /** The position given at construction; `update` never moves it, the
        camera's offset does. */
    var position: Vec
    var image: GunImage
    var rect: Rect
    var cache: map<int, GunImage>
    var angle: int

    ghost predicate Valid()
      reads this
    {
      CacheValid(cache) && 0 <= angle < 360
    }

    constructor (width: nat, height: nat, pos: Vec)
      ensures Valid()
      ensures this.width == width && this.height == height && position == pos
      ensures image == BaseImage && rect == RectAround(width, height, pos)
      ensures cache == map[] && angle == 0
    {
      this.width, this.height, position := width, height, pos;
      image, rect := BaseImage, RectAround(width, height, pos);
      cache, angle := map[], 0;
    }

    /** `Gun.update(pos)` with `aim = round(degrees(atan2(...)))`, which lies
        in `[-180, 180]`; `sizeOf` gives the size of a rotated image. */
    method Update(pos: Vec, aim: int, sizeOf: GunImage -> (nat, nat))
      requires Valid() && -180 <= aim <= 180
      modifies this
      ensures Valid()
      ensures angle == NormalizeAngle(aim)
      ensures var r := CacheStep(old(cache), angle); image == r.image && cache == r.cache
      ensures rect == old(rect).WithCenter(ToInt(pos.x), ToInt(pos.y)).Resized(sizeOf(image).0, sizeOf(image).1)
      ensures position == old(position)
    {
      angle := NormalizeAngle(aim);
      var rounded := RoundedAngle(angle);
      RoundedAngleIsNearestMultiple(angle);
      RoundedAngleInRange(angle);
      if angle in cache {
        image := cache[rounded];
      } else {
        var flipped := 90 <= angle <= 270;
        image := GunImage(flipped, -rounded);
        cache := cache[rounded := image];
      }
      rect := rect.WithCenter(ToInt(pos.x), ToInt(pos.y));
      rect := rect.Resized(sizeOf(image).0, sizeOf(image).1);
    }
  }

  /** Every cached image was drawn by a miss at some normalized angle of
      its bucket, and is flipped as that angle asked. */
  predicate CacheDrawn(cache: map<int, GunImage>) {
    forall k :: k in cache ==> DrawnFor(k, cache[k])
  }

  predicate DrawnFor(k: int, image: GunImage) {
    exists a :: 0 <= a < 360 && RoundedAngle(a) == k && (image.flipped <==> 90 <= a <= 270)
  }

  /** `Gun.update` keeps every cached image one that some angle of its bucket
      drew. */
  lemma CacheStepKeepsDrawn(cache: map<int, GunImage>, angle: int)
    requires CacheValid(cache) && CacheDrawn(cache) && 0 <= angle < 360
    ensures CacheDrawn(CacheStep(cache, angle).cache)
  {
    var r := CacheStep(cache, angle);
    if angle !in cache {
      assert DrawnFor(RoundedAngle(angle), r.image);
    }
  }

  /** Away from angles 90 and 270 the history does not matter: the image
      shown is flipped exactly when `90 <= angle <= 270`, as a fresh draw
      would be. */
  lemma CachedFlipAgreesAwayFromBoundaries(cache: map<int, GunImage>, angle: int)
    requires CacheValid(cache) && CacheDrawn(cache) && 0 <= angle < 360
    requires angle != 90 && angle != 270
    ensures CacheStep(cache, angle).image.flipped <==> 90 <= angle <= 270
  {
    if angle in cache {
      RoundedAngleIsNearestMultiple(angle);
      assert DrawnFor(angle, cache[angle]);
      var a :| 0 <= a < 360 && RoundedAngle(a) == angle && (cache[angle].flipped <==> 90 <= a <= 270);
      RoundedAngleIsNearestMultiple(a);
    }
  }

  // ---------------------------------------------------------------------
  // Bullet
  // ---------------------------------------------------------------------

  /** Where one `Bullet.update` puts a bullet: its position moved by the
      velocity for `dt` and its rect re-centred on the truncated position. */
  datatype Flight = Flight(position: Vec, rect: Rect)

  function FlightFrom(position: Vec, rect: Rect, direction: Vec, baseSpeed: real, dt: real): (f: Flight)
    ensures f.position == position.Plus(direction.Scaled(baseSpeed * dt))
    ensures f.rect == rect.WithCenter(ToInt(f.position.x), ToInt(f.position.y))
  {
    var p := position.Plus(direction.Scaled(baseSpeed * dt));
    Flight(p, rect.WithCenter(ToInt(p.x), ToInt(p.y)))
  }

  class Bullet {
    /** The firing angle, the unit vector `Vector2(1, 0).rotate(angle)` it
        points along (the rotation itself is computed outside the model) and
        the speed per frame at 60 frames per second. */
    const angle: int
    const direction: Vec
    const baseSpeed: real
    var position: Vec
    var velocity: Vec
    var speed: real
    var rect: Rect

    /** `Bullet(image, pos, angle, base_speed)` for an image of size `w` x
        `h`: the rect is centred on `pos` before the image is rotated. */
    constructor (pos: Vec, angle: int, direction: Vec, baseSpeed: real, w: nat, h: nat)
      ensures this.angle == angle && this.direction == direction && this.baseSpeed == baseSpeed
      ensures position == pos && velocity == Zero && speed == 0.0
      ensures rect == RectAround(w, h, pos)
    {
      this.angle, this.direction, this.baseSpeed := angle, direction, baseSpeed;
      position, velocity, speed := pos, Zero, 0.0;
      rect := RectAround(w, h, pos);
    }

    /** `Bullet.update(screen_rect, dt)`; `offScreen` is whether the bullet
        killed itself because its rect left `screen`. */
    method Update(screen: Rect, dt: real) returns (offScreen: bool)
      modifies this
      ensures speed == baseSpeed * dt && velocity == direction.Scaled(speed)
      ensures position == old(position).Plus(velocity)
      ensures rect == old(rect).WithCenter(ToInt(position.x), ToInt(position.y))
      ensures offScreen <==> !screen.Contains(rect)
      ensures Flight(position, rect) == FlightFrom(old(position), old(rect), direction, baseSpeed, dt)
    {
      speed := baseSpeed * dt;
      velocity := direction.Scaled(speed);
      position := position.Plus(velocity);
      rect := rect.WithCenter(ToInt(position.x), ToInt(position.y));
      offScreen := !screen.Contains(rect);
    }

    /** `hit(collide_rect)`: the bullet's rect and `other` share a point,
        and the answer is the same whichever of the two asks. */
    predicate Hit(other: Rect): (r: bool)
      reads this
      ensures r <==> exists px: int, py: int :: rect.CollidePoint(px, py) && other.CollidePoint(px, py)
      ensures r == other.Colliding(rect)
    {
      CollidingIffCommonPoint(rect, other);
      CollidingSymmetric(rect, other);
      rect.Colliding(other)
    }
  }

  /** Along a unit vector a bullet travels exactly its speed per update:
      `Vector2(speed, 0).rotate(angle)` is `speed` times the rotated unit
      vector, and a rotation keeps lengths. */
  lemma BulletTravelsItsSpeed(pos: Vec, direction: Vec, speed: real)
    requires direction.LengthSq() == 1.0
    ensures DistSq(pos.Plus(direction.Scaled(speed)), pos) == speed * speed
  {
    var v := direction.Scaled(speed);
    assert pos.Plus(v).Minus(pos) == v;
    var x, y := direction.x, direction.y;
    calc {
      v.LengthSq();
      (speed * x) * (speed * x) + (speed * y) * (speed * y);
      (speed * speed) * (x * x + y * y);
      speed * speed;
    }
  }

  // ---------------------------------------------------------------------
  // Pickup
  // ---------------------------------------------------------------------

  /** An `Obtainable_Item`: a still image placed with its top-left corner on
      `pos`. Only the camera's offset moves its position; its rect stays. */
  class Pickup {
    var position: Vec
    const rect: Rect

    constructor (pos: Vec, w: nat, h: nat)
      ensures position == pos && rect == Rect(ToInt(pos.x), ToInt(pos.y), w, h)
    {
      position, rect := pos, Rect(ToInt(pos.x), ToInt(pos.y), w, h);
    }

    /** `collision(collide_object)`: the pickup's rect and `other` share a
        point, and the answer is the same whichever of the two asks. */
    predicate Collision(other: Rect): (r: bool)
      ensures r <==> exists px: int, py: int :: rect.CollidePoint(px, py) && other.CollidePoint(px, py)
      ensures r == other.Colliding(rect)
    {
      CollidingIffCommonPoint(rect, other);
      CollidingSymmetric(rect, other);
      rect.Colliding(other)
    }
  }
}
