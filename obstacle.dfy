/**
 * The polygonal obstacle (modules/obstacle.py): generation of its size,
 * centre and vertices, the edge-by-edge collision test against the ball's
 * circle, and the collision response. pygame's `Vector2` and Python floats
 * are modelled as exact reals; the random draws, the two square roots the
 * vertex formulas use, the Euclidean distance and the cosine and sine of the
 * random deflection angle are parameters.
 */
module Obstacles {
  import opened Geometry

  datatype Shape = Hexagon | Triangle | Square

  /** A point, or a vector, of the plane. */
  datatype Vec = Vec(x: real, y: real)

  function Add(a: Vec, b: Vec): Vec { Vec(a.x + b.x, a.y + b.y) }
  function Sub(a: Vec, b: Vec): Vec { Vec(a.x - b.x, a.y - b.y) }
  function Scale(k: real, v: Vec): Vec { Vec(k * v.x, k * v.y) }
  function Dot(a: Vec, b: Vec): real { a.x * b.x + a.y * b.y }

  function Sq(a: real): real { a * a }

  /** `length_squared()`. */
  function Len2(v: Vec): (l: real)
    ensures 0.0 <= l
  {
    SqNonNegative(v.x);
    SqNonNegative(v.y);
    Sq(v.x) + Sq(v.y)
  }

  lemma SqNonNegative(a: real)
    ensures 0.0 <= Sq(a)
  {
    if a < 0.0 {
      calc { Sq(a); == (-a) * (-a); >= 0.0; }
    } else {
      calc { Sq(a); == a * a; >= 0.0; }
    }
  }

  lemma SqPositive(a: real)
    requires a != 0.0
    ensures 0.0 < Sq(a)
  {
    if a < 0.0 {
      calc { Sq(a); == (-a) * (-a); > 0.0; }
    } else {
      calc { Sq(a); == a * a; > 0.0; }
    }
  }

  /** Only the zero vector has length zero. */
  lemma Len2Positive(v: Vec)
    requires v.x != 0.0 || v.y != 0.0
    ensures 0.0 < Len2(v)
  {
    SqNonNegative(v.x);
    SqNonNegative(v.y);
    if v.x != 0.0 {
      SqPositive(v.x);
    } else {
      SqPositive(v.y);
    }
  }

  /** The values of `math.sqrt(2)` and `math.sqrt(3)` the vertex formulas use. */
  datatype Roots = Roots(sqrt2: real, sqrt3: real)

  predicate Positive(roots: Roots)
  {
    0.0 < roots.sqrt2 && 0.0 < roots.sqrt3
  }

  /** The roots are the true square roots of 2 and 3. */
  predicate Exact(roots: Roots)
  {
    Positive(roots) && Sq(roots.sqrt2) == 2.0 && Sq(roots.sqrt3) == 3.0
  }

  /** The state `__init__` and `generate` leave in an obstacle. It is never
      changed afterwards. */
  datatype Obstacle = Obstacle(
    screenWidth: int, screenHeight: int, ballRadius: int,
    shape: Shape, size: real, cx: int, cy: int, points: seq<Vec>)

  function VertexCount(shape: Shape): nat
  {
    match shape
    case Hexagon => 6
    case Triangle => 3
    case Square => 4
  }

  /** `random.randint(lo, hi)` for a uniform draw `u` in [0, 1). */
  function RandInt(lo: int, hi: int, u: real): (n: int)
    requires lo <= hi && 0.0 <= u < 1.0
    ensures lo <= n <= hi
  {
    var span := (hi - lo + 1) as real;
    assert 0.0 <= u * span < span by {
      assert (1.0 - u) * span > 0.0 by { PositiveProduct(1.0 - u, span); }
    }
    lo + (u * span).Floor
  }

  /** The vertices `generate` derives from the shape, the centre and the size,
      in the order it lists them: the hexagon's at angles 0, 60, ..., 300
      degrees at distance `size`, the triangle's with one corner straight up,
      the square's corners diagonally away at `size / sqrt(2)` on each axis. */
  function Vertices(shape: Shape, cx: int, cy: int, size: real, roots: Roots): (ps: seq<Vec>)
    requires Positive(roots)
    ensures |ps| == VertexCount(shape)
  {
    var x, y := cx as real, cy as real;
    match shape
    case Hexagon =>
      var h := size * roots.sqrt3 / 2.0;
      [Vec(x + size, y), Vec(x + size / 2.0, y + h), Vec(x - size / 2.0, y + h),
       Vec(x - size, y), Vec(x - size / 2.0, y - h), Vec(x + size / 2.0, y - h)]
    case Triangle =>
      var h := size * roots.sqrt3 / 2.0;
      [Vec(x, y - size), Vec(x - h, y + size / 2.0), Vec(x + h, y + size / 2.0)]
    case Square =>
      var half := size / roots.sqrt2;
      [Vec(x - half, y - half), Vec(x + half, y - half),
       Vec(x + half, y + half), Vec(x - half, y + half)]
  }

  /** `Obstacle(screen_width, screen_height, ball_radius)`: `shape` is the
      `random.choice`, `sizeFactor` the `random.uniform(0, 1)` draw and `ux`,
      `uy` the draws behind the two `random.randint` calls. */
  function Generate(screenWidth: int, screenHeight: int, ballRadius: int, shape: Shape,
                    sizeFactor: real, ux: real, uy: real, roots: Roots): (o: Obstacle)
    requires 0 <= screenWidth && 0 <= screenHeight
    requires 0.0 <= sizeFactor <= 1.0 && 0.0 <= ux < 1.0 && 0.0 <= uy < 1.0
    requires Positive(roots)
    ensures o.screenWidth == screenWidth && o.screenHeight == screenHeight
    ensures o.ballRadius == ballRadius && o.shape == shape
    ensures 0 <= ballRadius ==> 2.0 * ballRadius as real <= o.size <= 10.0 * ballRadius as real
    ensures screenWidth / 3 <= o.cx <= 2 * screenWidth / 3
    ensures screenHeight / 3 <= o.cy <= 2 * screenHeight / 3
    ensures o.points == Vertices(shape, o.cx, o.cy, o.size, roots)
    ensures |o.points| == VertexCount(shape)
    ensures 0 < ballRadius ==> NonDegenerate(o.points)
  {
    var minSize := ballRadius * 2;
    var maxSize := ballRadius * 10;
    var size := minSize as real + (maxSize - minSize) as real * sizeFactor;
    var cx := RandInt(screenWidth / 3, 2 * screenWidth / 3, ux);
    var cy := RandInt(screenHeight / 3, 2 * screenHeight / 3, uy);
    SizeBetweenBounds(ballRadius, sizeFactor);
    GeneratedVerticesNonDegenerate(shape, cx, cy, size, ballRadius, roots);
    Obstacle(screenWidth, screenHeight, ballRadius, shape, size, cx, cy,
             Vertices(shape, cx, cy, size, roots))
  }

  /** `min_size + (max_size - min_size) * size_factor` lies between the two
      sizes, and is positive for a positive radius. */
  lemma SizeBetweenBounds(ballRadius: int, sizeFactor: real)
    requires 0.0 <= sizeFactor <= 1.0
    ensures var size := (ballRadius * 2) as real + (ballRadius * 10 - ballRadius * 2) as real * sizeFactor;
      (0 <= ballRadius ==> 2.0 * ballRadius as real <= size <= 10.0 * ballRadius as real) &&
      (0 < ballRadius ==> 0.0 < size)
  {
    if 0 <= ballRadius {
      var span := (ballRadius * 10 - ballRadius * 2) as real;
      assert span * sizeFactor + span * (1.0 - sizeFactor) == span;
      NonNegativeProduct(span, sizeFactor);
      NonNegativeProduct(span, 1.0 - sizeFactor);
    }
  }

  lemma GeneratedVerticesNonDegenerate(shape: Shape, cx: int, cy: int, size: real, ballRadius: int, roots: Roots)
    requires Positive(roots) && (0 < ballRadius ==> 0.0 < size)
    ensures 0 < ballRadius ==> NonDegenerate(Vertices(shape, cx, cy, size, roots))
  {
    if 0 < ballRadius {
      VerticesNonDegenerate(shape, cx, cy, size, roots);
    }
  }

  /** What `generate` guarantees about an obstacle for a court of the given
      size and a ball of the given radius. */
  predicate WellFormed(o: Obstacle, screenWidth: int, screenHeight: int, ballRadius: int)
  {
    o.screenWidth == screenWidth && o.screenHeight == screenHeight && o.ballRadius == ballRadius &&
    2.0 * ballRadius as real <= o.size <= 10.0 * ballRadius as real &&
    screenWidth / 3 <= o.cx <= 2 * screenWidth / 3 &&
    screenHeight / 3 <= o.cy <= 2 * screenHeight / 3 &&
    |o.points| == VertexCount(o.shape) && NonDegenerate(o.points)
  }

  lemma GenerateWellFormed(screenWidth: int, screenHeight: int, ballRadius: int, shape: Shape,
                           sizeFactor: real, ux: real, uy: real, roots: Roots)
    requires 0 <= screenWidth && 0 <= screenHeight && 0 < ballRadius && Positive(roots)
    requires 0.0 <= sizeFactor <= 1.0 && 0.0 <= ux < 1.0 && 0.0 <= uy < 1.0
    ensures WellFormed(Generate(screenWidth, screenHeight, ballRadius, shape, sizeFactor, ux, uy, roots),
                       screenWidth, screenHeight, ballRadius)
  {
  }

  /** With exact roots every vertex lies at distance `size` from the centre,
      so no vertex reaches beyond the size the obstacle was drawn with. */
  lemma VerticesOnCircle(shape: Shape, cx: int, cy: int, size: real, roots: Roots, i: int)
    requires Exact(roots) && 0 <= i < VertexCount(shape)
    ensures Len2(Sub(Vertices(shape, cx, cy, size, roots)[i], Vec(cx as real, cy as real))) == Sq(size)
  {
    match shape
    case Hexagon => HexagonOnCircle(cx, cy, size, roots, i);
    case Triangle => TriangleOnCircle(cx, cy, size, roots, i);
    case Square => SquareOnCircle(cx, cy, size, roots, i);
  }

  lemma HexagonOnCircle(cx: int, cy: int, size: real, roots: Roots, i: int)
    requires Exact(roots) && 0 <= i < 6
    ensures Len2(Sub(Vertices(Hexagon, cx, cy, size, roots)[i], Vec(cx as real, cy as real))) == Sq(size)
  {
    var d := Sub(Vertices(Hexagon, cx, cy, size, roots)[i], Vec(cx as real, cy as real));
    SqHalf(size);
    SqOfHeight(size, roots.sqrt3);
    if i == 0 || i == 3 {
      OnCircle(d, size, 0.0, size);
    } else {
      OnCircle(d, size / 2.0, size * roots.sqrt3 / 2.0, size);
    }
  }

  lemma TriangleOnCircle(cx: int, cy: int, size: real, roots: Roots, i: int)
    requires Exact(roots) && 0 <= i < 3
    ensures Len2(Sub(Vertices(Triangle, cx, cy, size, roots)[i], Vec(cx as real, cy as real))) == Sq(size)
  {
    var d := Sub(Vertices(Triangle, cx, cy, size, roots)[i], Vec(cx as real, cy as real));
    SqHalf(size);
    SqOfHeight(size, roots.sqrt3);
    if i == 0 {
      OnCircle(d, 0.0, size, size);
    } else {
      OnCircle(d, size * roots.sqrt3 / 2.0, size / 2.0, size);
    }
  }

  lemma SquareOnCircle(cx: int, cy: int, size: real, roots: Roots, i: int)
    requires Exact(roots) && 0 <= i < 4
    ensures Len2(Sub(Vertices(Square, cx, cy, size, roots)[i], Vec(cx as real, cy as real))) == Sq(size)
  {
    var d := Sub(Vertices(Square, cx, cy, size, roots)[i], Vec(cx as real, cy as real));
    SqOfDiagonal(size, roots.sqrt2);
    OnCircle(d, size / roots.sqrt2, size / roots.sqrt2, size);
  }

  /** A vector whose coordinates are, up to sign, the legs of a right
      triangle with hypotenuse `r` has length `r`. */
  lemma OnCircle(d: Vec, a: real, b: real, r: real)
    requires d.x == a || d.x == -a
    requires d.y == b || d.y == -b
    requires Sq(a) + Sq(b) == Sq(r)
    ensures Len2(d) == Sq(r)
  {
    SqNegate(a);
    SqNegate(b);
  }

  lemma SqNegate(a: real)
    ensures Sq(-a) == Sq(a)
  {
  }

  lemma SqHalf(a: real)
    ensures Sq(a / 2.0) == Sq(a) / 4.0
  {
  }

  /** The height `size * sqrt(3) / 2` of the hexagon's and triangle's vertices. */
  lemma SqOfHeight(size: real, sqrt3: real)
    requires Sq(sqrt3) == 3.0
    ensures Sq(size * sqrt3 / 2.0) == 3.0 * Sq(size) / 4.0
  {
    calc {
      Sq(size * sqrt3 / 2.0);
      == (size * sqrt3) * (size * sqrt3) / 4.0;
      == (size * size) * (sqrt3 * sqrt3) / 4.0;
      == Sq(size) * Sq(sqrt3) / 4.0;
    }
  }

  /** The offset `size / sqrt(2)` of the square's corners. */
  lemma SqOfDiagonal(size: real, sqrt2: real)
    requires 0.0 < sqrt2 && Sq(sqrt2) == 2.0
    ensures 2.0 * Sq(size / sqrt2) == Sq(size)
  {
    var half := size / sqrt2;
    assert half * sqrt2 == size;
    calc {
      Sq(size);
      == (half * sqrt2) * (half * sqrt2);
      == (half * half) * (sqrt2 * sqrt2);
      == Sq(half) * Sq(sqrt2);
    }
  }

  /** With a positive size no two consecutive vertices coincide. */
  lemma VerticesNonDegenerate(shape: Shape, cx: int, cy: int, size: real, roots: Roots)
    requires 0.0 < size && Positive(roots)
    ensures NonDegenerate(Vertices(shape, cx, cy, size, roots))
  {
    var ps := Vertices(shape, cx, cy, size, roots);
    var h := size * roots.sqrt3 / 2.0;
    var half := size / roots.sqrt2;
    assert 0.0 < h by { PositiveProduct(size, roots.sqrt3); }
    assert 0.0 < half;
    forall i | 0 <= i < |ps|
      ensures ps[i] != EdgeEnd(ps, i)
    {
      match shape
      case Hexagon =>
        assert ps[i].x != EdgeEnd(ps, i).x;
      case Triangle =>
        assert ps[i].x != EdgeEnd(ps, i).x || ps[i].y != EdgeEnd(ps, i).y;
      case Square =>
        assert ps[i].x != EdgeEnd(ps, i).x || ps[i].y != EdgeEnd(ps, i).y;
    }
  }

  /** Edge `i` runs from `points[i]` to `points[(i + 1) % n]`: the last edge
      closes the polygon. */
  function EdgeEnd(ps: seq<Vec>, i: int): (e: Vec)
    requires 0 <= i < |ps|
    ensures i + 1 < |ps| ==> e == ps[i + 1]
    ensures i + 1 == |ps| ==> e == ps[0]
  {
    ps[(i + 1) % |ps|]
  }

  /** No edge has length zero (the projection divides by its squared length). */
  predicate NonDegenerate(ps: seq<Vec>)
  {
    forall i {:trigger EdgeEnd(ps, i)} | 0 <= i < |ps| :: ps[i] != EdgeEnd(ps, i)
  }

  /** The projection parameter of `c` on the segment from `p1` to `p2`,
      clamped to [0, 1]. */
  function Projection(p1: Vec, p2: Vec, c: Vec): (t: real)
    requires p1 != p2
    ensures 0.0 <= t <= 1.0
  {
    Len2Positive(Sub(p2, p1));
    var raw := Dot(Sub(c, p1), Sub(p2, p1)) / Len2(Sub(p2, p1));
    if raw < 0.0 then 0.0 else if 1.0 < raw then 1.0 else raw
  }

  /** The point of the segment at parameter `t`. */
  function PointAt(p1: Vec, p2: Vec, t: real): Vec
  {
    Add(p1, Scale(t, Sub(p2, p1)))
  }

  /** The closest point of the segment to `c`. */
  function Closest(p1: Vec, p2: Vec, c: Vec): Vec
    requires p1 != p2
  {
    PointAt(p1, p2, Projection(p1, p2, c))
  }

  /** Squared distance from `c` to the segment. */
  function SegmentDist2(p1: Vec, p2: Vec, c: Vec): real
    requires p1 != p2
  {
    Len2(Sub(c, Closest(p1, p2, c)))
  }

  /** `distance <= ball_radius` for `distance` the square root of `dist2`. */
  predicate WithinRadius(dist2: real, radius: int)
  {
    0 <= radius && dist2 <= Sq(radius as real)
  }

  /** The ball's centre as `ball.centerx`, `ball.centery` give it. */
  function BallCenter(ball: Rect): Vec
  {
    Vec(ball.CenterX() as real, ball.CenterY() as real)
  }

  predicate Touches(ps: seq<Vec>, i: int, c: Vec, radius: int)
    requires NonDegenerate(ps) && 0 <= i < |ps|
  {
    WithinRadius(SegmentDist2(ps[i], EdgeEnd(ps, i), c), radius)
  }

  /** The outcome of `check_collision`: the edge hit, with the closest point
      of that edge and the squared distance to it, or none (`(None, 0)`). */
  datatype Contact = NoContact | Contact(edge: nat, closest: Vec, dist2: real)

  /** The first edge, from `from` on in vertex order, within the radius. */
  function FirstContact(ps: seq<Vec>, c: Vec, radius: int, from: nat): Contact
    requires NonDegenerate(ps)
    decreases |ps| - from
  {
    if from >= |ps| then NoContact
    else if Touches(ps, from, c, radius) then
      Contact(from, Closest(ps[from], EdgeEnd(ps, from), c), SegmentDist2(ps[from], EdgeEnd(ps, from), c))
    else FirstContact(ps, c, radius, from + 1)
  }

  /** The contact found is an edge within the radius, reported with its
      closest point and squared distance. */
  lemma {:induction false} FirstContactTouches(ps: seq<Vec>, c: Vec, radius: int, from: nat)
    requires NonDegenerate(ps)
    ensures var k := FirstContact(ps, c, radius, from);
      k.Contact? ==>
        from <= k.edge < |ps| && Touches(ps, k.edge, c, radius) &&
        k.closest == Closest(ps[k.edge], EdgeEnd(ps, k.edge), c) &&
        k.dist2 == SegmentDist2(ps[k.edge], EdgeEnd(ps, k.edge), c)
    decreases |ps| - from
  {
    if from < |ps| && !Touches(ps, from, c, radius) {
      FirstContactTouches(ps, c, radius, from + 1);
    }
  }

  /** An edge before the contact found, or any edge when there is none, is
      out of reach. */
  lemma {:induction false} BeforeContactClear(ps: seq<Vec>, c: Vec, radius: int, from: nat, j: nat)
    requires NonDegenerate(ps) && from <= j < |ps|
    requires var k := FirstContact(ps, c, radius, from); k.NoContact? || j < k.edge
    ensures !Touches(ps, j, c, radius)
    decreases j - from
  {
    if j > from && !Touches(ps, from, c, radius) {
      BeforeContactClear(ps, c, radius, from + 1, j);
    }
  }

  /** The contact found is the first edge in vertex order within the radius:
      the edges before it are all out of reach and later edges are not
      looked at; there is no contact exactly when no edge is within reach. */
  lemma FirstContactIsFirst(ps: seq<Vec>, c: Vec, radius: int)
    requires NonDegenerate(ps)
    ensures var k := FirstContact(ps, c, radius, 0);
      (k.NoContact? <==> forall j | 0 <= j < |ps| :: !Touches(ps, j, c, radius)) &&
      (k.Contact? ==>
        k.edge < |ps| && Touches(ps, k.edge, c, radius) &&
        k.closest == Closest(ps[k.edge], EdgeEnd(ps, k.edge), c) &&
        k.dist2 == SegmentDist2(ps[k.edge], EdgeEnd(ps, k.edge), c) &&
        forall j | 0 <= j < k.edge :: !Touches(ps, j, c, radius))
  {
    var k := FirstContact(ps, c, radius, 0);
    FirstContactTouches(ps, c, radius, 0);
    forall j | 0 <= j < |ps| && (k.NoContact? || j < k.edge)
      ensures !Touches(ps, j, c, radius)
    {
      BeforeContactClear(ps, c, radius, 0, j);
    }
  }

  /** `check_collision(ball)`: tries the edges in order and stops at the
      first one the ball's circle reaches. */
  method CheckCollision(o: Obstacle, ball: Rect) returns (k: Contact)
    requires NonDegenerate(o.points)
    ensures k == FirstContact(o.points, BallCenter(ball), o.ballRadius, 0)
  {
    var ps, c := o.points, BallCenter(ball);
    var i := 0;
    while i < |ps|
      invariant 0 <= i <= |ps|
      invariant FirstContact(ps, c, o.ballRadius, i) == FirstContact(ps, c, o.ballRadius, 0)
    {
      var closest, dist2 := ProbeEdge(ps[i], EdgeEnd(ps, i), c);
      if WithinRadius(dist2, o.ballRadius) {
        return Contact(i, closest, dist2);
      }
      i := i + 1;
    }
    return NoContact;
  }

  /** One step of `check_collision`'s loop: the projection of the centre on
      the edge, clamped to the segment, the closest point and the squared
      distance to it. */
  method ProbeEdge(p1: Vec, p2: Vec, c: Vec) returns (closest: Vec, dist2: real)
    requires p1 != p2
    ensures closest == Closest(p1, p2, c) && dist2 == SegmentDist2(p1, p2, c)
  {
    var lineVec := Sub(p2, p1);
    Len2Positive(lineVec);
    var ballToP1 := Sub(c, p1);
    var projection := Dot(ballToP1, lineVec) / Len2(lineVec);
    projection := if projection < 0.0 then 0.0 else if 1.0 < projection then 1.0 else projection;
    closest := Add(p1, Scale(projection, lineVec));
    dist2 := Len2(Sub(c, closest));
  }

  /** The squared distance from the ball's centre to the edge found is at
      most the squared radius, so the overlap `ball_radius - distance` the
      source returns lies in [0, ball_radius]. */
  lemma OverlapWithinRadius(ps: seq<Vec>, c: Vec, radius: int, dist: real)
    requires NonDegenerate(ps)
    requires FirstContact(ps, c, radius, 0).Contact?
    requires 0.0 <= dist && Sq(dist) == FirstContact(ps, c, radius, 0).dist2
    ensures 0.0 <= radius as real - dist <= radius as real
  {
    FirstContactTouches(ps, c, radius, 0);
    SqMonotone(dist, radius as real);
  }

  /** Squares of non-negative numbers are ordered as the numbers are. */
  lemma SqMonotone(a: real, b: real)
    requires 0.0 <= a && 0.0 <= b && Sq(a) <= Sq(b)
    ensures a <= b
  {
    if 0.0 < a + b {
      assert (b - a) * (a + b) == Sq(b) - Sq(a);
      NonNegativeFactor(b - a, a + b);
    }
  }

  lemma NonNegativeFactor(x: real, y: real)
    requires 0.0 < y && 0.0 <= x * y
    ensures 0.0 <= x
  {
  }

  /** The squared distance from `w` to the point `s` of the way along `l`. */
  lemma DistanceAlong(w: Vec, l: Vec, s: real)
    ensures Len2(Sub(w, Scale(s, l))) == Len2(w) - 2.0 * s * Dot(w, l) + s * s * Len2(l)
  {
  }

  /** The squared distance along the segment, as a function of the parameter,
      is the parabola `w2 - 2 s a + s^2 q`. */
  function Parabola(w2: real, a: real, q: real, s: real): real
  {
    w2 - 2.0 * s * a + s * s * q
  }

  lemma ParabolaDifference(w2: real, a: real, q: real, s: real, t: real)
    ensures Parabola(w2, a, q, s) - Parabola(w2, a, q, t) == (s - t) * ((s + t) * q - 2.0 * a)
  {
  }

  /** The parabola over [0, 1] is smallest at the clamped vertex `a / q`. */
  lemma ParabolaMinimum(w2: real, a: real, q: real, s: real)
    requires 0.0 < q && 0.0 <= s <= 1.0
    ensures var raw := a / q;
      var t := if raw < 0.0 then 0.0 else if 1.0 < raw then 1.0 else raw;
      Parabola(w2, a, q, t) <= Parabola(w2, a, q, s)
  {
    var raw := a / q;
    assert a == raw * q;
    if raw < 0.0 {
      NegativeQuotient(a, q);
      ParabolaDifference(w2, a, q, s, 0.0);
      NonNegativeProduct(s, s * q);
      assert s * (s * q - 2.0 * a) >= 0.0 by { NonNegativeProduct(s, s * q - 2.0 * a); }
    } else if 1.0 < raw {
      LargeQuotient(a, q);
      ParabolaDifference(w2, a, q, s, 1.0);
      NonNegativeProduct(1.0 - s, 2.0 * a - (1.0 + s) * q);
      assert (s - 1.0) * ((s + 1.0) * q - 2.0 * a) == (1.0 - s) * (2.0 * a - (1.0 + s) * q);
    } else {
      ParabolaDifference(w2, a, q, s, raw);
      assert (s - raw) * ((s + raw) * q - 2.0 * a) == Sq(s - raw) * q;
      SqNonNegative(s - raw);
      NonNegativeProduct(Sq(s - raw), q);
    }
  }

  /** The clamped projection gives the point of the segment nearest to `c`:
      no other point of the segment is closer. */
  lemma ClosestIsNearest(p1: Vec, p2: Vec, c: Vec, s: real)
    requires p1 != p2 && 0.0 <= s <= 1.0
    ensures SegmentDist2(p1, p2, c) <= Len2(Sub(c, PointAt(p1, p2, s)))
  {
    var l, w := Sub(p2, p1), Sub(c, p1);
    var q, a := Len2(l), Dot(w, l);
    var t := Projection(p1, p2, c);
    Len2Positive(l);
    assert Sub(c, PointAt(p1, p2, s)) == Sub(w, Scale(s, l));
    assert Sub(c, PointAt(p1, p2, t)) == Sub(w, Scale(t, l));
    DistanceAlong(w, l, s);
    DistanceAlong(w, l, t);
    assert t == (if a / q < 0.0 then 0.0 else if 1.0 < a / q then 1.0 else a / q);
    ParabolaMinimum(Len2(w), a, q, s);
    assert SegmentDist2(p1, p2, c) == Parabola(Len2(w), a, q, t);
    assert Len2(Sub(c, PointAt(p1, p2, s))) == Parabola(Len2(w), a, q, s);
  }

  lemma NegativeQuotient(a: real, q: real)
    requires 0.0 < q && a / q < 0.0
    ensures a < 0.0
  {
    assert a == (a / q) * q;
  }

  lemma LargeQuotient(a: real, q: real)
    requires 0.0 < q && 1.0 < a / q
    ensures q < a
  {
    assert a == (a / q) * q;
    PositiveProduct(a / q - 1.0, q);
  }

  /** The unit normal of the contact, from the closest point toward the
      ball's centre (`normalize()`), for `dist` its Euclidean length. */
  function Normal(k: Contact, c: Vec, dist: real): Vec
    requires k.Contact? && dist != 0.0
  {
    Scale(1.0 / dist, Sub(c, k.closest))
  }

  lemma NormalIsUnit(k: Contact, c: Vec, dist: real)
    requires k.Contact? && 0.0 < dist
    requires k.dist2 == Len2(Sub(c, k.closest)) && Sq(dist) == k.dist2
    ensures Len2(Normal(k, c, dist)) == 1.0
  {
    var v := Sub(c, k.closest);
    var inv := 1.0 / dist;
    assert inv * dist == 1.0;
    assert Len2(Normal(k, c, dist)) == inv * inv * Len2(v);
    assert inv * inv * (dist * dist) == (inv * dist) * (inv * dist);
  }

  /** `velocity.reflect(normal)`: `v - 2 (v . n) n`. */
  function Reflect(v: Vec, n: Vec): Vec
  {
    Sub(v, Scale(2.0 * Dot(v, n), n))
  }

  /** Reflection about a unit normal keeps the speed. */
  lemma ReflectKeepsLength(v: Vec, n: Vec)
    requires Len2(n) == 1.0
    ensures Len2(Reflect(v, n)) == Len2(v)
  {
    var d := Dot(v, n);
    DistanceAlong(v, n, 2.0 * d);
    assert Len2(Reflect(v, n)) == Len2(v) - 4.0 * d * d + 4.0 * d * d * Len2(n);
  }

  /** The cosine and sine of the random deflection angle. */
  datatype Rotation = Rotation(cos: real, sin: real)

  predicate IsRotation(rot: Rotation)
  {
    rot.cos * rot.cos + rot.sin * rot.sin == 1.0
  }

  /** `speed * cos(angle + j), speed * sin(angle + j)` for `angle` the
      direction and `speed` the length of `v`, by the angle-sum formulas. */
  function Rotate(v: Vec, rot: Rotation): Vec
  {
    Vec(rot.cos * v.x - rot.sin * v.y, rot.sin * v.x + rot.cos * v.y)
  }

  lemma RotateKeepsLength(v: Vec, rot: Rotation)
    requires IsRotation(rot)
    ensures Len2(Rotate(v, rot)) == Len2(v)
  {
    var c, s := rot.cos, rot.sin;
    assert Len2(Rotate(v, rot)) == (c * c + s * s) * (v.x * v.x) + (c * c + s * s) * (v.y * v.y);
  }

  /** `normal * overlap * buffer`, the move that pushes the ball out of the
      obstacle 1% past exact contact. */
  function Displacement(n: Vec, overlap: real): Vec
  {
    Vec(n.x * overlap * 1.01, n.y * overlap * 1.01)
  }

  /** For a unit normal and a non-negative overlap the ball moves along the
      normal, away from the edge, by 1.01 times the overlap. */
  lemma DisplacementAlongNormal(n: Vec, overlap: real)
    requires Len2(n) == 1.0 && 0.0 <= overlap
    ensures Dot(Displacement(n, overlap), n) == 1.01 * overlap
    ensures Len2(Displacement(n, overlap)) == Sq(1.01 * overlap)
  {
    var k := 1.01 * overlap;
    assert Displacement(n, overlap) == Scale(k, n);
    assert Dot(Scale(k, n), n) == k * Len2(n);
    assert Len2(Scale(k, n)) == k * k * Len2(n);
  }

  /** `ball.x += ...; ball.y += ...` with the Rect's truncating conversion. */
  function Displaced(ball: Rect, d: Vec): (r: Rect)
    ensures r.w == ball.w && r.h == ball.h
  {
    Rect(Trunc(ball.x as real + d.x), Trunc(ball.y as real + d.y), ball.w, ball.h)
  }

  /** `resolve_collision(ball, ball_dx, ball_dy)`: with no contact the ball
      and the velocity are returned untouched; with one the ball is pushed out
      along the normal and the velocity is reflected and turned by the random
      angle, keeping its length. `dist` is the Euclidean distance of the
      contact; a contact at distance zero makes the source's `normalize()`
      raise, so the caller must not pass one. */
  method ResolveCollision(o: Obstacle, ball: Rect, v: Vec, dist: real, jitter: Rotation)
    returns (ball': Rect, v': Vec)
    requires NonDegenerate(o.points)
    requires var k := FirstContact(o.points, BallCenter(ball), o.ballRadius, 0);
      k.Contact? ==> 0.0 < dist && Sq(dist) == k.dist2
    ensures var k := FirstContact(o.points, BallCenter(ball), o.ballRadius, 0);
      k.NoContact? ==> ball' == ball && v' == v
    ensures var k := FirstContact(o.points, BallCenter(ball), o.ballRadius, 0);
      k.Contact? ==>
        var n := Normal(k, BallCenter(ball), dist);
        ball' == Displaced(ball, Displacement(n, o.ballRadius as real - dist)) &&
        v' == Rotate(Reflect(v, n), jitter)
    ensures FirstContact(o.points, BallCenter(ball), o.ballRadius, 0).Contact? && IsRotation(jitter) ==>
      Len2(v') == Len2(v)
  {
    var k := CheckCollision(o, ball);
    if k.Contact? {
      var n := Normal(k, BallCenter(ball), dist);
      var overlap := o.ballRadius as real - dist;
      var reflection := Reflect(v, n);
      ball' := Displaced(ball, Displacement(n, overlap));
      v' := Rotate(reflection, jitter);
      FirstContactTouches(o.points, BallCenter(ball), o.ballRadius, 0);
      NormalIsUnit(k, BallCenter(ball), dist);
      ReflectKeepsLength(v, n);
      if IsRotation(jitter) {
        RotateKeepsLength(reflection, jitter);
      }
    } else {
      ball', v' := ball, v;
    }
  }
}
