/**
 * Python's integer conversions and floor division, written out for Dafny's
 * unbounded `int` and exact `real` (floating-point rounding is not modelled).
 */
module Numeric {

  function Abs(r: real): real { if r < 0.0 then -r else r }

  function MaxR(a: real, b: real): real { if a >= b then a else b }

  function MinR(a: real, b: real): real { if a <= b then a else b }

  function Max(a: int, b: int): int { if a >= b then a else b }

  function Min(a: int, b: int): int { if a <= b then a else b }

  /** Python's `int(r)` on a float: truncation toward zero. */
  function Trunc(r: real): (i: int)
    ensures r >= 0.0 ==> i as real <= r < i as real + 1.0
    ensures r < 0.0 ==> i as real - 1.0 < r <= i as real
  {
    if r >= 0.0 then r.Floor else -((-r).Floor)
  }

  /** `v // size` on a float, then `int(...)`: the index of the size-wide band holding v. */
  function TileOf(v: real, size: int): (t: int)
    requires size > 0
    ensures t as real * size as real <= v < (t + 1) as real * size as real
  {
    var c := size as real;
    var q := v / c;
    BelowTimes(q.Floor as real, v, c);
    AboveTimes(v, c, (q.Floor + 1) as real);
    q.Floor
  }

  /** Dividing by a nonzero number and multiplying back gives the number itself. */
  lemma DivMul(v: real, c: real)
    requires c != 0.0
    ensures (v / c) * c == v
  {
  }

  /** A lower bound on `v / c` scales back to a lower bound on `v`. */
  lemma BelowTimes(f: real, v: real, c: real)
    requires c > 0.0 && f <= v / c
    ensures f * c <= v
  {
    var q := v / c;
    assert q * c == v;
    assert (q - f) * c >= 0.0;
  }

  /** A strict upper bound on `v / c` scales back to a strict upper bound on `v`. */
  lemma AboveTimes(v: real, c: real, g: real)
    requires c > 0.0 && v / c < g
    ensures v < g * c
  {
    var q := v / c;
    assert q * c == v;
    assert (g - q) * c > 0.0;
  }

  /** Python's `a // b` on integers (rounds toward negative infinity). */
  function FloorDiv(a: int, b: int): int
    requires b != 0
  {
    if b > 0 || a % b == 0 then a / b else a / b - 1
  }

  /** Python's `a % b` on integers (takes the sign of b). */
  function PyMod(a: int, b: int): (r: int)
    requires b != 0
    ensures a == b * FloorDiv(a, b) + r
    ensures b > 0 ==> 0 <= r < b
    ensures b < 0 ==> b < r <= 0
  {
    if b > 0 || a % b == 0 then a % b else a % b + b
  }

  /** For a positive divisor, `a // b` is the q with `q * b <= a < (q + 1) * b`. */
  lemma FloorDivUnique(a: int, b: int, q: int)
    requires b > 0 && q * b <= a < (q + 1) * b
    ensures FloorDiv(a, b) == q
  {
    var f := FloorDiv(a, b);
    var r := PyMod(a, b);
    assert (f - q) * b == f * b - q * b;
    assert (q + 1) * b == q * b + b;
    MulBounds(f - q, b);
  }

  /** A whole multiple of a positive k is at least k, or at most -k, unless it is zero. */
  lemma MulBounds(m: int, k: int)
    requires k > 0
    ensures m >= 1 ==> m * k >= k
    ensures m <= -1 ==> m * k <= -k
  {
  }

  /** On a whole-number coordinate, the band `TileOf` finds is Python's `v // size`. */
  lemma TileOfWhole(v: int, size: int)
    requires size > 0
    ensures TileOf(v as real, size) == FloorDiv(v, size)
  {
    var t := TileOf(v as real, size);
    assert t * size <= v < (t + 1) * size by {
      assert (t * size) as real == t as real * size as real;
      assert ((t + 1) * size) as real == (t + 1) as real * size as real;
    }
    FloorDivUnique(v, size, t);
  }

  /** Some member of a non-empty set; which one is left open. */
  method PickKey(keys: set<int>) returns (k: int)
    requires keys != {}
    ensures k in keys
  {
    if forall x :: x !in keys {
      assert false;
    }
    k :| k in keys;
  }
}
