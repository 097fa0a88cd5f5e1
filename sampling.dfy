/**
  Sampling every `d`-th frame by the test `i % d == 0`, which the key-frame
  selector and the frame-file extractor share: how many indices below `n`
  pass the test, and the division facts behind it.
 */
module Sampling {

  /** The number of indices `i < n` with `i % d == 0`. */
  function CountMultiples(n: nat, d: nat): nat
    requires d > 0
  {
    if n == 0 then 0 else CountMultiples(n - 1, d) + (if (n - 1) % d == 0 then 1 else 0)
  }

  lemma {:induction false} MulAtLeast(d: nat, k: int)
    requires d > 0 && k >= 1
    ensures d * k >= d
  {
    if k > 1 {
      MulAtLeast(d, k - 1);
      assert d * k == d * (k - 1) + d;
    }
  }

  /** Euclidean division is determined by quotient and remainder. */
  lemma DivModUnique(x: int, d: nat, a: int, b: int)
    requires d > 0 && 0 <= b < d && x == d * a + b
    ensures x / d == a && x % d == b
  {
    var k := x / d - a;
    assert d * k == b - x % d by {
      assert x == d * (x / d) + x % d;
      assert d * (x / d) - d * a == d * k;
    }
    if k >= 1 {
      MulAtLeast(d, k);
    } else if k <= -1 {
      MulAtLeast(d, -k);
    }
  }

  /** `ceil(n / d)` indices below `n` are multiples of `d`. */
  lemma {:induction false} CountMultiplesValue(n: nat, d: nat)
    requires d > 0
    ensures CountMultiples(n, d) == (n + d - 1) / d
  {
    if n == 0 {
      DivModUnique(d - 1, d, 0, d - 1);
    } else {
      CountMultiplesValue(n - 1, d);
      var m := n - 1;
      var q, r := m / d, m % d;
      assert m == d * q + r;
      if r == 0 {
        DivModUnique(m + d - 1, d, q, d - 1);
        DivModUnique(n + d - 1, d, q + 1, 0);
      } else {
        DivModUnique(m + d - 1, d, q + 1, r - 1);
        DivModUnique(n + d - 1, d, q + 1, r);
      }
    }
  }

  /** Below a multiple `i` of `d` there are exactly `i / d` multiples: the sampled index is consecutive. */
  lemma MultiplesBelowMultiple(i: nat, d: nat)
    requires d > 0 && i % d == 0
    ensures CountMultiples(i, d) == i / d
  {
    CountMultiplesValue(i, d);
    var q := i / d;
    assert i == d * q;
    if q > 0 {
      DivModUnique(i + d - 1, d, q, d - 1);
    } else {
      DivModUnique(i + d - 1, d, 0, d - 1);
    }
  }

  /** Two multiples of `d` that are less than `d` apart coincide; the next one after `y` is `y + d`. */
  lemma NextMultiple(d: nat, y: nat, x: nat)
    requires d > 0 && y % d == 0 && x % d == 0 && y < x <= y + d
    ensures x == y + d
  {
    var a, b := y / d, x / d;
    assert y == d * a && x == d * b;
    assert d * (b - a) == x - y;
    if b - a >= 2 {
      MulAtLeast(d, b - a - 1);
    } else if b - a < 0 {
      MulAtLeast(d, a - b);
    }
  }

  /** A multiple of `d` is reached at `y + d` from the multiple `y`. */
  lemma MultiplePlus(d: nat, y: nat)
    requires d > 0 && y % d == 0
    ensures (y + d) % d == 0
  {
    DivModUnique(y + d, d, y / d + 1, 0);
  }
}
