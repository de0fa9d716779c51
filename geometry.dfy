/** Plane geometry shared by every module: pygame's `Vector2` as a pair of
    reals and pygame's integer `Rect`, with the library's collision rules. */
module Geometry {

  /** A `pygame.Vector2`. */
  datatype Vec = Vec(x: real, y: real) {
    function Plus(o: Vec): Vec { Vec(x + o.x, y + o.y) }
    function Minus(o: Vec): Vec { Vec(x - o.x, y - o.y) }
    function Scaled(k: real): Vec { Vec(k * x, k * y) }
    function LengthSq(): real { x * x + y * y }
  }

  const Zero := Vec(0.0, 0.0)

  function DistSq(a: Vec, b: Vec): real { a.Minus(b).LengthSq() }

  /** `a.distance_to(b) < limit`, compared on squares: a distance is never
      negative, so it is below `limit` exactly when `limit` is positive and
      the squared distance is below `limit * limit`. */
  predicate Closer(a: Vec, b: Vec, limit: real) {
    limit > 0.0 && DistSq(a, b) < limit * limit
  }

  /** For any `d` that is the distance between `a` and `b` (the root of the
      squared distance), `Closer` agrees with the comparison `d < limit`. */
  lemma CloserIsDistanceBelow(a: Vec, b: Vec, d: real, limit: real)
    requires d >= 0.0 && d * d == DistSq(a, b)
    ensures Closer(a, b, limit) <==> d < limit
  {
    var dd, dl, ll := d * d, d * limit, limit * limit;
    if d < limit {
      assert dd <= dl && dl < ll;
    } else if limit > 0.0 {
      assert dd >= dl && dl >= ll;
    }
  }

  /** `u` is what `v.normalize()` returns: unit length, parallel to `v`,
      pointing the same way. */
  predicate IsUnitAlong(u: Vec, v: Vec) {
    u.LengthSq() == 1.0 && u.x * v.y == u.y * v.x && u.x * v.x + u.y * v.y > 0.0
  }

  function Min(a: int, b: int): int { if a <= b then a else b }
  function Max(a: int, b: int): int { if a >= b then a else b }
  function MinR(a: real, b: real): real { if a <= b then a else b }
  function MaxR(a: real, b: real): real { if a >= b then a else b }

  /** Python's `int(r)` and pygame's conversion of a float coordinate to an
      integer one: truncation toward zero. */
  function ToInt(r: real): int {
    if r >= 0.0 then r.Floor else -((-r).Floor)
  }

  /** `ToInt` truncates toward zero: the result lies within one below a
      non-negative value and within one above a negative one, and negating
      the value negates the result. */
  lemma ToIntTruncates(r: real)
    ensures r >= 0.0 ==> ToInt(r) as real <= r < ToInt(r) as real + 1.0
    ensures r < 0.0 ==> ToInt(r) as real - 1.0 < r <= ToInt(r) as real
    ensures ToInt(-r) == -ToInt(r)
  {
  }

  /** Python's `a // b` for a float `a` and a positive integer `b`, made an
      integer with `int(...)`: the floor of the quotient. */
  function FloorDiv(a: real, b: int): (q: int)
    requires b > 0
    ensures q as real <= a / b as real < q as real + 1.0
  {
    (a / b as real).Floor
  }

  /** A `pygame.Rect`: integer top-left corner and a size that is never
      negative. */
  datatype Rect = Rect(x: int, y: int, w: nat, h: nat) {
    function Right(): int { x + w }
    function Bottom(): int { y + h }
    function CenterX(): int { x + w / 2 }
    function CenterY(): int { y + h / 2 }

    /** Assigning `rect.center`: the size is kept and the corner moves. */
    function WithCenter(cx: int, cy: int): (r: Rect)
      ensures r.CenterX() == cx && r.CenterY() == cy && r.w == w && r.h == h
    {
      Rect(cx - w / 2, cy - h / 2, w, h)
    }

    /** Assigning `rect.size` (or `rect.width`): the corner is kept. */
    function Resized(nw: nat, nh: nat): (r: Rect)
      ensures r.x == x && r.y == y && r.w == nw && r.h == nh
    {
      Rect(x, y, nw, nh)
    }

    /** `rect.inflate(dx, dy)`: the width and height grow by `dx` and `dy`
        in total, and the corner moves back by half of each, rounded down
        (for an odd width and amount the centre moves by one). */
    function Inflated(dx: nat, dy: nat): (r: Rect)
      ensures r.w == w + dx && r.h == h + dy
      ensures r.x == x - dx / 2 && r.y == y - dy / 2
    {
      Rect(x - dx / 2, y - dy / 2, w + dx, h + dy)
    }

    /** `rect.collidepoint(px, py)`: half-open on the right and bottom edges. */
    predicate CollidePoint(px: int, py: int) {
      x <= px < x + w && y <= py < y + h
    }

    /** `rect.colliderect(o)`: an empty rect collides with nothing, and two
        rects collide when their overlap has positive area. */
    predicate Colliding(o: Rect) {
      w > 0 && h > 0 && o.w > 0 && o.h > 0 &&
      x < o.x + o.w && o.x < x + w && y < o.y + o.h && o.y < y + h
    }

    /** `rect.contains(o)`: `o` lies inside, edges included. */
    predicate Contains(o: Rect) {
      x <= o.x && y <= o.y && o.x + o.w <= x + w && o.y + o.h <= y + h &&
      o.x < x + w && o.y < y + h
    }
  }

  /** A rect built by `image.get_rect(center=pos)` for a float position. */
  function RectAround(w: nat, h: nat, pos: Vec): (r: Rect)
    ensures r.w == w && r.h == h
    ensures r.CenterX() == ToInt(pos.x) && r.CenterY() == ToInt(pos.y)
  {
    Rect(0, 0, w, h).WithCenter(ToInt(pos.x), ToInt(pos.y))
  }

  /** Two rects collide exactly when some integer point lies in both. */
  lemma CollidingIffCommonPoint(a: Rect, b: Rect)
    ensures a.Colliding(b) <==>
      exists px: int, py: int :: a.CollidePoint(px, py) && b.CollidePoint(px, py)
  {
    if a.Colliding(b) {
      var px, py := Max(a.x, b.x), Max(a.y, b.y);
      assert a.CollidePoint(px, py) && b.CollidePoint(px, py);
    }
  }

  /** Collision does not depend on which rect asks. */
  lemma CollidingSymmetric(a: Rect, b: Rect)
    ensures a.Colliding(b) == b.Colliding(a)
  {}

  /** A non-empty rect inside `outer` collides with it. */
  lemma ContainedCollides(outer: Rect, inner: Rect)
    requires outer.Contains(inner) && inner.w > 0 && inner.h > 0
    ensures outer.Colliding(inner)
  {}
}
