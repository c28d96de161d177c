/**
 * Integer rectangles as pygame's `Rect` keeps them, with the two library
 * operations the game relies on (`colliderect`, `clamp_ip`) written out, and
 * the conversion a `Rect` applies when a float is assigned to one of its
 * integer coordinates.
 */
module Geometry {

  /** pygame's `Rect` stores positions and sizes as C integers and divides
      them with C division, which truncates toward zero. */
  function HalfOf(n: int): (h: int)
    ensures n >= 0 ==> 0 <= h && 2 * h <= n < 2 * h + 2
    ensures n < 0 ==> h <= 0 && 2 * h - 2 < n <= 2 * h
  {
    if n >= 0 then n / 2 else -((-n) / 2)
  }

  /** Conversion of a float to the C `int` stored in a `Rect` coordinate:
      truncation toward zero. */
  function Trunc(v: real): (n: int)
    ensures 0.0 <= v ==> 0 <= n && n as real <= v < n as real + 1.0
    ensures v < 0.0 ==> n <= 0 && n as real - 1.0 < v <= n as real
  {
    if v >= 0.0 then v.Floor else -((-v).Floor)
  }

  lemma TruncOfInt(k: int)
    ensures Trunc(k as real) == k
  {
  }

  datatype Rect = Rect(x: int, y: int, w: int, h: int) {

    function Left(): int { x }
    function Right(): int { x + w }
    function Top(): int { y }
    function Bottom(): int { y + h }
    function CenterX(): int { x + HalfOf(w) }
    function CenterY(): int { y + HalfOf(h) }

    /** Assignment to `rect.center`: the size is kept and the rectangle
        moved so that its centre is the given point. */
    function WithCenter(cx: int, cy: int): (r: Rect)
      ensures r.w == w && r.h == h
      ensures r.CenterX() == cx && r.CenterY() == cy
    {
      Rect(cx - HalfOf(w), cy - HalfOf(h), w, h)
    }

    /** Assignment to `rect.centery`. */
    function WithCenterY(cy: int): (r: Rect)
      ensures r.x == x && r.w == w && r.h == h
      ensures r.CenterY() == cy
    {
      Rect(x, cy - HalfOf(h), w, h)
    }

    /** Assignment to `rect.left`. */
    function WithLeft(left: int): (r: Rect)
      ensures r.y == y && r.w == w && r.h == h && r.Left() == left
    {
      Rect(left, y, w, h)
    }

    /** Assignment to `rect.right`. */
    function WithRight(right: int): (r: Rect)
      ensures r.y == y && r.w == w && r.h == h && r.Right() == right
    {
      Rect(right - w, y, w, h)
    }
  }

  /** `a` lies entirely inside `area`. */
  predicate Inside(a: Rect, area: Rect)
  {
    area.x <= a.x && a.x + a.w <= area.x + area.w &&
    area.y <= a.y && a.y + a.h <= area.y + area.h
  }

  /** `colliderect`: two rectangles with positive sizes collide when their
      interiors overlap; a rectangle with no area collides with nothing. */
  predicate Collide(a: Rect, b: Rect)
  {
    a.w > 0 && a.h > 0 && b.w > 0 && b.h > 0 &&
    a.x < b.x + b.w && a.y < b.y + b.h &&
    a.x + a.w > b.x && a.y + a.h > b.y
  }

  /** One axis of `clamp_ip`: a piece that is at least as large as the
      range is centred on it, otherwise it is moved the least distance that
      brings it inside. */
  function ClampAxis(pos: int, size: int, lo: int, extent: int): (p: int)
    ensures size <= extent ==> lo <= p && p + size <= lo + extent
    ensures lo <= pos && pos + size <= lo + extent ==> p == pos
    ensures size < extent && pos < lo ==> p == lo
    ensures size < extent && pos + size > lo + extent ==> p == lo + extent - size
  {
    if size >= extent then lo + HalfOf(extent) - HalfOf(size)
    else if pos < lo then lo
    else if pos + size > lo + extent then lo + extent - size
    else pos
  }

  /** `r.clamp_ip(area)`: moves `r`, without resizing it, into `area`. */
  function Clamp(r: Rect, area: Rect): (c: Rect)
    ensures c.w == r.w && c.h == r.h
    ensures r.w <= area.w && r.h <= area.h ==> Inside(c, area)
    ensures Inside(r, area) ==> c == r
  {
    Rect(ClampAxis(r.x, r.w, area.x, area.w), ClampAxis(r.y, r.h, area.y, area.h), r.w, r.h)
  }

  /** Clamping twice is clamping once. */
  lemma ClampIdempotent(r: Rect, area: Rect)
    requires r.w <= area.w && r.h <= area.h
    ensures Clamp(Clamp(r, area), area) == Clamp(r, area)
  {
  }

  /** Two facts about products of reals that the solver does not find on
      its own. */
  lemma NonNegativeProduct(a: real, b: real)
    requires 0.0 <= a && 0.0 <= b
    ensures 0.0 <= a * b
  {
  }

  lemma PositiveProduct(a: real, b: real)
    requires 0.0 < a && 0.0 < b
    ensures 0.0 < a * b
  {
  }
}
