/** Rounding to multiples of a power of two, as the heap's `align_up`, `align_up_size`
    and `align_down_size` do. */
module Alignment {

  predicate IsPow2(n: int)
    decreases n
  {
    n == 1 || (n > 1 && n % 2 == 0 && IsPow2(n / 2))
  }

  predicate Aligned(x: int, a: int)
    requires a > 0
  {
    x % a == 0
  }

  lemma MultipleIsAligned(k: int, a: int)
    requires a > 0
    ensures Aligned(k * a, a)
  {
    var x := k * a;
    var q, r := x / a, x % a;
    assert r == (k - q) * a;
    assert k - q >= 1 ==> (k - q) * a >= a;
    assert k - q <= -1 ==> (k - q) * a <= -a;
  }

  lemma AlignedSum(x: int, y: int, a: int)
    requires a > 0 && Aligned(x, a) && Aligned(y, a)
    ensures Aligned(x + y, a) && Aligned(x - y, a)
  {
    var p, q := x / a, y / a;
    assert x == p * a && y == q * a;
    assert x + y == (p + q) * a && x - y == (p - q) * a;
    MultipleIsAligned(p + q, a);
    MultipleIsAligned(p - q, a);
  }

  /** A positive multiple of `a` is at least `a`. */
  lemma AlignedGap(d: int, a: int)
    requires a > 0 && Aligned(d, a) && d > 0
    ensures d >= a
  {
  }

  lemma AlignedTransitive(x: int, b: int, a: int)
    requires a > 0 && b > 0 && Aligned(x, b) && Aligned(b, a)
    ensures Aligned(x, a)
  {
    var q, k := x / b, b / a;
    assert x == q * b && b == k * a;
    assert x == (q * k) * a by {
      assert q * (k * a) == (q * k) * a;
    }
    MultipleIsAligned(q * k, a);
  }

  /** Of two powers of two the larger is a multiple of the smaller. */
  lemma Pow2Divides(a: int, b: int)
    requires IsPow2(a) && IsPow2(b) && a <= b
    ensures Aligned(b, a)
    decreases a
  {
    if a > 1 {
      Pow2Divides(a / 2, b / 2);
      var k := (b / 2) / (a / 2);
      assert b / 2 == k * (a / 2);
      assert b == k * a;
      MultipleIsAligned(k, a);
    }
  }

  function AlignUp(x: int, a: int): (r: int)
    requires a > 0
    ensures Aligned(r, a) && x <= r < x + a
  {
    var r := if x % a == 0 then x else x + (a - x % a);
    assert Aligned(r, a) by {
      assert x == (x / a) * a + x % a;
      if x % a != 0 {
        assert r == (x / a + 1) * a;
        MultipleIsAligned(x / a + 1, a);
      }
    }
    r
  }

  function AlignDown(x: int, a: int): (r: int)
    requires a > 0
    ensures Aligned(r, a) && r <= x < r + a
  {
    assert x == (x / a) * a + x % a;
    assert Aligned(x - x % a, a) by { MultipleIsAligned(x / a, a); }
    x - x % a
  }

  /** `AlignUp` gives the least multiple that is large enough. */
  lemma AlignUpLeast(x: int, a: int, y: int)
    requires a > 0 && Aligned(y, a) && x <= y
    ensures AlignUp(x, a) <= y
  {
    var r := AlignUp(x, a);
    if y < r {
      AlignedSum(r, y, a);
      AlignedGap(r - y, a);
    }
  }
}
