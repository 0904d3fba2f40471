// Points of the plane and squared distances.
module Geometry {
  type EntityId = int

  datatype Point = Point(x: real, y: real)

  function Square(r: real): real { r * r }

  // Squares stand for `hypot`; a negative reach reaches nothing.
  predicate Within(p: Point, q: Point, reach: real) {
    reach >= 0.0 && Square(p.x - q.x) + Square(p.y - q.y) <= Square(reach)
  }

  // Within a disc around the centre.
  predicate Inside(p: Point, radius: real) {
    Square(p.x) + Square(p.y) <= Square(radius)
  }

  // What the platform's cosine and sine do, rounding aside.
  ghost predicate OnCircle(cos: real -> real, sin: real -> real) {
    forall t :: Square(cos(t)) + Square(sin(t)) == 1.0
  }

  lemma SquareNotNegative(r: real)
    ensures Square(r) >= 0.0
  {
  }

  lemma SquareOfProduct(a: real, b: real)
    ensures Square(a * b) == Square(a) * Square(b)
  {
    var c := a * b;
    assert c * c == a * (b * c);
    assert b * c == a * (b * b);
  }

  lemma SquaresGrow(a: real, b: real)
    requires 0.0 <= a < b
    ensures a * a < b * b
  {
    assert (b - a) * b > 0.0 && (b - a) * a >= 0.0;
  }

  lemma SquareBound(d: real, r: real)
    requires d * d <= r * r && r >= 0.0
    ensures -r <= d <= r
  {
    if d > r { SquaresGrow(r, d); }
    if d < -r { SquaresGrow(r, -d); }
  }

  // A disc lies in its bounding box.
  lemma InBox(p: Point, q: Point, reach: real)
    requires Within(p, q, reach)
    ensures q.x - reach <= p.x <= q.x + reach && q.y - reach <= p.y <= q.y + reach
  {
    var dx, dy := p.x - q.x, p.y - q.y;
    assert dx * dx >= 0.0 && dy * dy >= 0.0;
    SquareBound(dx, reach);
    SquareBound(dy, reach);
  }
}
