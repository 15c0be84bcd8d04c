/** Two-dimensional vectors over exact reals, standing in for `f32` `Vec2`. */
module Geometry {

  datatype Vec2 = Vec2(x: real, y: real)
  {
    /** Component-wise maximum, as `Vec2::max`. */
    function Max(o: Vec2): Vec2 {
      Vec2(MaxR(x, o.x), MaxR(y, o.y))
    }

    /** Component-wise minimum, as `Vec2::min`. */
    function Min(o: Vec2): Vec2 {
      Vec2(MinR(x, o.x), MinR(y, o.y))
    }
  }

  function MaxR(a: real, b: real): real {
    if a >= b then a else b
  }

  function MinR(a: real, b: real): real {
    if a <= b then a else b
  }

  function Abs(a: real): real {
    if a < 0.0 then -a else a
  }

  /** `f32::clamp` for an ordered pair of bounds. */
  function Clamp(a: real, lo: real, hi: real): (r: real)
    requires lo <= hi
    ensures lo <= r <= hi
    ensures lo <= a <= hi ==> r == a
    ensures a < lo ==> r == lo
    ensures hi < a ==> r == hi
  {
    if a < lo then lo else if a > hi then hi else a
  }
}
