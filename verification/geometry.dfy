/** Plane vectors for the player's position, facing direction and camera plane.
    Floats are modelled as exact reals. */
module Geometry {

  datatype Vec = Vec(x: real, y: real)

  function Add(a: Vec, b: Vec): Vec
  {
    Vec(a.x + b.x, a.y + b.y)
  }

  function Sub(a: Vec, b: Vec): Vec
  {
    Vec(a.x - b.x, a.y - b.y)
  }

  function Scale(v: Vec, k: real): Vec
  {
    Vec(v.x * k, v.y * k)
  }

  function Dot(a: Vec, b: Vec): real
  {
    a.x * b.x + a.y * b.y
  }

  /** `v` turned by a quarter, `(v.y, -v.x)`: the strafe direction of
      `move_and_rotate` for a view direction `v`. */
  function RightOf(v: Vec): (r: Vec)
    ensures Dot(r, v) == 0.0 && Dot(r, r) == Dot(v, v)
  {
    Vec(v.y, -v.x)
  }

  /** Scaling one side of a dot product scales the product. */
  lemma DotScale(a: Vec, b: Vec, k: real)
    ensures Dot(Scale(a, k), b) == k * Dot(a, b)
  {
  }

  /** The quarter turn is linear, and a vector's quarter turn is
      perpendicular to every multiple of it. */
  lemma RightOfLinear(a: Vec, b: Vec, c: Vec, k: real)
    ensures Dot(RightOf(Add(a, Scale(b, k))), c) == Dot(RightOf(a), c) + k * Dot(RightOf(b), c)
    ensures Dot(RightOf(b), b) == 0.0
  {
  }

  /** The rotation `move_and_rotate` applies to both `dir` and `plane`, given the
      cosine `c` and sine `s` of the turn angle. */
  function Rotate(v: Vec, c: real, s: real): Vec
  {
    Vec(v.x * c - v.y * s, v.x * s + v.y * c)
  }

  /** Rotating two vectors by the same (c, s) scales their dot product by
      c^2 + s^2; in particular perpendicular vectors stay perpendicular,
      whatever values the cosine and sine take. */
  lemma RotateScalesDot(a: Vec, b: Vec, c: real, s: real)
    ensures Dot(Rotate(a, c, s), Rotate(b, c, s)) == (c * c + s * s) * Dot(a, b)
  {
    var ra := Rotate(a, c, s);
    var rb := Rotate(b, c, s);
    calc {
      Dot(ra, rb);
      (a.x * c - a.y * s) * (b.x * c - b.y * s) + (a.x * s + a.y * c) * (b.x * s + b.y * c);
      a.x * b.x * (c * c) - a.x * b.y * (c * s) - a.y * b.x * (s * c) + a.y * b.y * (s * s)
        + a.x * b.x * (s * s) + a.x * b.y * (s * c) + a.y * b.x * (c * s) + a.y * b.y * (c * c);
      (c * c + s * s) * (a.x * b.x + a.y * b.y);
    }
  }
}
