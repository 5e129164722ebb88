/**
 The two pieces of Python arithmetic the calculator relies on, written out
 because Dafny's own operators differ from them:
 - `int(x)` on a float truncates toward zero, whereas `real.Floor` rounds down;
 - `a % b` on ints is floor-modulo (the remainder takes the divisor's sign),
   whereas Dafny's `%` is Euclidean (the remainder is never negative).
 */
module PyArith {

  function Abs(x: int): nat {
    if x < 0 then -x else x
  }

  function AbsReal(x: real): real {
    if x < 0.0 then -x else x
  }

  /** Python's `int(x)` for a finite float x: truncation toward zero. */
  function Trunc(x: real): (t: int)
    ensures t == 0 || (t > 0 <==> x > 0.0)
    ensures AbsReal(t as real) <= AbsReal(x)
    ensures AbsReal(x - t as real) < 1.0
  {
    if x >= 0.0 then x.Floor else -((-x).Floor)
  }

  /** Python's `a // b` on ints: the quotient rounded toward negative infinity. */
  function FloorDiv(a: int, b: int): int
    requires b != 0
  {
    if b > 0 || a % b == 0 then a / b else a / b - 1
  }

  /** Python's `a % b` on ints, with the divisor's sign. */
  function PyMod(a: int, b: int): (r: int)
    requires b != 0
    ensures a == b * FloorDiv(a, b) + r
    ensures Abs(r) < Abs(b)
    ensures r == 0 || (r > 0 <==> b > 0)
  {
    if b > 0 || a % b == 0 then a % b else a % b + b
  }

  /** A non-zero multiple of b is at least as large as b in absolute value. */
  lemma MultipleAtLeast(b: int, d: int)
    requires d != 0
    ensures Abs(b * d) >= Abs(b)
  {
  }

  /** The three properties above pin the remainder down: `PyMod` is the only one. */
  lemma {:induction false} PyModUnique(a: int, b: int, q: int, r: int)
    requires b != 0
    requires a == b * q + r
    requires Abs(r) < Abs(b)
    requires r == 0 || (r > 0 <==> b > 0)
    ensures r == PyMod(a, b)
    ensures q == FloorDiv(a, b)
  {
    var q', r' := FloorDiv(a, b), PyMod(a, b);
    var d := q - q';
    assert b * d == r' - r by {
      assert b * q + r == b * q' + r';
      assert b * d == b * q - b * q';
    }
    // Two remainders of the divisor's sign differ by less than |b|.
    assert Abs(r' - r) < Abs(b);
    if d != 0 {
      MultipleAtLeast(b, d);
      assert false;
    }
    assert b * q == b * q';
  }

  /**
   Python's and Dafny's remainders agree for every positive divisor and for
   every exact division; for a negative divisor that does not divide a, the
   Python remainder is the Euclidean one shifted by b (7 % -2 is -1, not 1).
   */
  lemma PyModVersusEuclidean()
    ensures forall a: int, b: int | b > 0 :: PyMod(a, b) == a % b
    ensures forall a: int, b: int | b < 0 && a % b == 0 :: PyMod(a, b) == a % b
    ensures forall a: int, b: int | b < 0 && a % b != 0 :: PyMod(a, b) == a % b + b != a % b
    ensures PyMod(7, -2) == -1 && 7 % -2 == 1
  {
  }
}
