/** The Python numeric built-ins the engine relies on, over exact reals:
    math.floor, math.ceil, int() on a float (truncation toward zero) and
    round() (nearest integer, ties to even). */
module PyNum {

  /** math.floor */
  function Floor(x: real): (r: int)
    ensures r as real <= x < r as real + 1.0
  {
    x.Floor
  }

  /** math.ceil */
  function Ceil(x: real): (r: int)
    ensures x <= r as real < x + 1.0
  {
    -((-x).Floor)
  }

  /** int(x) for a float x: drops the fractional part, rounding toward zero. */
  function Trunc(x: real): (r: int)
    ensures 0.0 <= x ==> 0 <= r && r as real <= x < r as real + 1.0
    ensures x < 0.0 ==> r <= 0 && r as real - 1.0 < x <= r as real
  {
    if x >= 0.0 then x.Floor else -((-x).Floor)
  }

  lemma TruncMonotone(x: real, y: real)
    requires x <= y
    ensures Trunc(x) <= Trunc(y)
  {
  }

  /** round(x): the nearest integer; a tie goes to the even neighbour. */
  function RoundHalfEven(x: real): (r: int)
    ensures r as real - 0.5 <= x <= r as real + 0.5
    ensures (x == r as real - 0.5 || x == r as real + 0.5) ==> r % 2 == 0
  {
    var f := x.Floor;
    var d := x - f as real;
    if d < 0.5 then f
    else if d > 0.5 then f + 1
    else if f % 2 == 0 then f
    else f + 1
  }

  /** Multiplying both sides by a positive factor keeps the order. */
  lemma MulLeRight(a: real, b: real, c: real)
    requires a <= b && c > 0.0
    ensures a * c <= b * c
  {
    assert (b - a) * c >= 0.0;
  }

  lemma MulLtRight(a: real, b: real, c: real)
    requires a < b && c > 0.0
    ensures a * c < b * c
  {
    assert (b - a) * c > 0.0;
  }

  /** A unit draw scaled by a positive c lies in [0, c). */
  lemma UnitScaled(u: real, c: real)
    requires 0.0 <= u < 1.0 && c > 0.0
    ensures 0.0 <= u * c < c
  {
    MulLeRight(0.0, u, c);
    MulLtRight(u, 1.0, c);
  }

  /** The floor of a unit draw scaled by n is an index below n. */
  lemma FloorUnitScaled(u: real, n: nat)
    requires 0.0 <= u < 1.0 && n > 0
    ensures 0 <= Floor(u * n as real) < n
  {
    var x := u * n as real;
    UnitScaled(u, n as real);
    var f := Floor(x);
    assert f as real <= x < f as real + 1.0;
    assert f as real < n as real;
  }

  /** x / c * c == x */
  lemma DivMulCancel(x: real, c: real)
    requires c != 0.0
    ensures x / c * c == x
  {
  }

  function Min(a: int, b: int): int { if a <= b then a else b }

  function Max(a: int, b: int): int { if a >= b then a else b }
}
