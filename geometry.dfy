/** Plane geometry shared by the chain solver and the collision tests.
    Real numbers stand for the browser's double-precision floats, and the
    square root and trigonometry of the game are replaced by exact
    statements about squared distances and unit vectors. */
module Geometry {

  /** A position on the canvas, in pixels. */
  datatype Point = Point(x: real, y: real)

  /** Distance each trailing link keeps to its predecessor (script.js:11). */
  const SEGMENT_LENGTH: real := 20.0

  /** Width of the head; half of it pads every collision radius (script.js:12). */
  const SEGMENT_WIDTH: real := 15.0

  function Sq(v: real): real {
    v * v
  }

  function DistSq(a: Point, b: Point): real {
    Sq(a.x - b.x) + Sq(a.y - b.y)
  }

  /** The collision test of script.js:139-143 and 203-208: the head touches
      a disc of radius `reach` centred at `c` when its Euclidean distance to
      `c` is below `reach` plus half the head's width. A square root is never
      negative, so `sqrt(d) < bound` holds exactly when the bound is positive
      and `d` is below the bound's square. */
  predicate Touches(head: Point, c: Point, reach: real) {
    var bound := reach + SEGMENT_WIDTH / 2.0;
    bound > 0.0 && DistSq(head, c) < Sq(bound)
  }

  /** Touches agrees with the source's `distance < reach + segmentWidth / 2`
      for whatever non-negative `dist` squares to the squared distance. */
  lemma TouchesIffDistanceBelow(head: Point, c: Point, reach: real, dist: real)
    requires dist >= 0.0 && Sq(dist) == DistSq(head, c)
    ensures Touches(head, c, reach) <==> dist < reach + SEGMENT_WIDTH / 2.0
  {
    var bound := reach + SEGMENT_WIDTH / 2.0;
    if dist < bound {
      SquareBelow(dist, bound);
    } else if bound > 0.0 {
      SquareBelow(bound, dist);
    }
  }

  lemma SquareBelow(a: real, b: real)
    requires 0.0 <= a <= b
    ensures Sq(a) <= Sq(b)
    ensures a < b ==> Sq(a) < Sq(b)
  {
    calc { Sq(a); == a * a; <= a * b; <= b * b; == Sq(b); }
    if a < b {
      calc { Sq(a); == a * a; <= a * b; < b * b; == Sq(b); }
    }
  }

  /** The head's pursuit of the pointer (script.js:81-82): it moves the
      fraction `speed` of the remaining way. Whatever the speed, its squared
      distance to the target is scaled by (1 - speed)^2. */
  function Pursue(head: Point, target: Point, speed: real): (p: Point)
    ensures DistSq(p, target) == Sq(1.0 - speed) * DistSq(head, target)
  {
    Point(head.x + (target.x - head.x) * speed, head.y + (target.y - head.y) * speed)
  }

  /** For 0 < speed < 1 the head gets strictly closer to a pointer it has
      not reached, and never lands on it. In a game the speed is
      0.1 + 0.005 * score, so this holds only below score 180: at 180 the
      head lands on the pointer, and past 380 the speed exceeds 2 and the
      head moves away from it (Pursue's ensures covers every speed). */
  lemma PursuitApproaches(head: Point, target: Point, speed: real)
    requires 0.0 < speed < 1.0 && head != target
    ensures 0.0 < DistSq(Pursue(head, target, speed), target) < DistSq(head, target)
  {
    DistinctPointsApart(head, target);
    SquareBelow(1.0 - speed, 1.0);
    SquarePositive(1.0 - speed);
    ShrinkPositive(Sq(1.0 - speed), DistSq(head, target), DistSq(Pursue(head, target, speed), target));
  }

  lemma DistinctPointsApart(a: Point, b: Point)
    requires a != b
    ensures DistSq(a, b) > 0.0
  {
    var dx, dy := a.x - b.x, a.y - b.y;
    SquareNonNegative(dx);
    SquareNonNegative(dy);
    if dx != 0.0 {
      SquarePositive(dx);
    } else {
      SquarePositive(dy);
    }
  }

  lemma SquareNonNegative(x: real)
    ensures Sq(x) >= 0.0
  {
    if x != 0.0 {
      SquarePositive(x);
    }
  }

  lemma SquarePositive(x: real)
    requires x != 0.0
    ensures Sq(x) > 0.0
  {
    if x > 0.0 {
      calc { Sq(x); == x * x; > 0.0; }
    } else {
      calc { Sq(x); == (-x) * (-x); > 0.0; }
    }
  }

  lemma ShrinkPositive(f: real, d: real, p: real)
    requires 0.0 < f < 1.0 && d > 0.0 && p == f * d
    ensures 0.0 < p < d
  {
    calc { p; == f * d; < 1.0 * d; == d; }
    calc { 0.0; == 0.0 * d; < f * d; == p; }
  }

  /** A direction, given by its cosine and sine. */
  datatype Heading = Heading(cos: real, sin: real)

  /** The value of `(Math.cos(a), Math.sin(a))` for an angle `a`. */
  type UnitHeading = h: Heading | h.cos * h.cos + h.sin * h.sin == 1.0 witness Heading(1.0, 0.0)

  /** What `Math.atan2(dy, dx)` followed by cos and sin yields: the unit
      vector pointing along (dx, dy), and angle 0 for the zero vector. */
  predicate Atan2Heading(dx: real, dy: real, h: Heading) {
    && h.cos * dy == h.sin * dx
    && h.cos * dx + h.sin * dy >= 0.0
    && (dx == 0.0 && dy == 0.0 ==> h == Heading(1.0, 0.0))
  }

  /** `dir` behaves as atan2 followed by cos and sin on every input. */
  ghost predicate IsAtan2(dir: (real, real) -> UnitHeading) {
    forall dx: real, dy: real :: Atan2Heading(dx, dy, dir(dx, dy))
  }

  /** One link of the chain (script.js:85-91): `cur` is re-placed exactly
      SEGMENT_LENGTH behind `prev`, along the heading from `cur` towards
      `prev`; `dir` stands for atan2, cos and sin. */
  function Follow(prev: Point, cur: Point, dir: (real, real) -> UnitHeading): (p: Point)
    ensures DistSq(prev, p) == Sq(SEGMENT_LENGTH)
  {
    var h := dir(prev.x - cur.x, prev.y - cur.y);
    Point(prev.x - h.cos * SEGMENT_LENGTH, prev.y - h.sin * SEGMENT_LENGTH)
  }

  /** `p` lies on the ray from `origin` through `toward`: the offsets of
      the two from `origin` are parallel and do not point apart. */
  predicate OnRay(origin: Point, p: Point, toward: Point) {
    && (p.x - origin.x) * (toward.y - origin.y) == (p.y - origin.y) * (toward.x - origin.x)
    && (p.x - origin.x) * (toward.x - origin.x) + (p.y - origin.y) * (toward.y - origin.y) >= 0.0
  }

  /** With a true atan2, the re-placed link stays on the ray from its
      predecessor through its old position. */
  lemma FollowStaysOnRay(prev: Point, cur: Point, dir: (real, real) -> UnitHeading)
    requires IsAtan2(dir)
    ensures OnRay(prev, Follow(prev, cur, dir), cur)
  {
    var dx, dy := prev.x - cur.x, prev.y - cur.y;
    var h := dir(dx, dy);
    assert Atan2Heading(dx, dy, h);
    var p := Follow(prev, cur, dir);
    assert p.x - prev.x == -h.cos * SEGMENT_LENGTH && cur.y - prev.y == -dy;
    assert p.y - prev.y == -h.sin * SEGMENT_LENGTH && cur.x - prev.x == -dx;
    assert (p.x - prev.x) * (cur.y - prev.y) == SEGMENT_LENGTH * (h.cos * dy);
    assert (p.y - prev.y) * (cur.x - prev.x) == SEGMENT_LENGTH * (h.sin * dx);
    assert (p.x - prev.x) * (cur.x - prev.x) + (p.y - prev.y) * (cur.y - prev.y)
        == SEGMENT_LENGTH * (h.cos * dx + h.sin * dy);
  }

  /** A link lying on its predecessor is put SEGMENT_LENGTH to the left of
      it, since atan2(0, 0) is 0. */
  lemma FollowCoincident(p: Point, dir: (real, real) -> UnitHeading)
    requires IsAtan2(dir)
    ensures Follow(p, p, dir) == Point(p.x - SEGMENT_LENGTH, p.y)
  {
    assert Atan2Heading(0.0, 0.0, dir(0.0, 0.0));
  }

  /** Two links at (0, 0) and (30, 0): the second is pulled to (20, 0), the
      point SEGMENT_LENGTH from the first along the line towards it. */
  lemma FollowScenario(dir: (real, real) -> UnitHeading)
    requires IsAtan2(dir)
    ensures Follow(Point(0.0, 0.0), Point(30.0, 0.0), dir) == Point(20.0, 0.0)
  {
    WestHeading(dir(0.0 - 30.0, 0.0 - 0.0));
  }

  /** The heading atan2 gives for an offset pointing straight left. */
  lemma WestHeading(h: UnitHeading)
    requires Atan2Heading(-30.0, 0.0, h)
    ensures h == Heading(-1.0, 0.0)
  {
    assert h.sin == 0.0;
    NegativeUnit(h.cos);
  }

  lemma NegativeUnit(c: real)
    requires c * c == 1.0 && c <= 0.0
    ensures c == -1.0
  {
    if c > -1.0 {
      SquareBelow(-c, 1.0);
      assert false;
    } else if c < -1.0 {
      SquareBelow(1.0, -c);
      assert false;
    }
  }

  /** The thresholds the game uses: 17.5 for a food of radius 10 and 37.5
      for an obstacle of size 30, e.g. a head at (100, 100) touches a food
      at (105, 100) and a head at (200, 200) an obstacle at (210, 205). */
  lemma CollisionScenarios()
    ensures Touches(Point(100.0, 100.0), Point(105.0, 100.0), 10.0)
    ensures Touches(Point(200.0, 200.0), Point(210.0, 205.0), 30.0)
    ensures !Touches(Point(100.0, 100.0), Point(117.5, 100.0), 10.0)
    ensures !Touches(Point(200.0, 200.0), Point(237.5, 200.0), 30.0)
  {
  }
}
