/** Bit masks on unbounded naturals, as the ring uses them to turn a position into a slot. */
module Bits {

  /** Bitwise conjunction, one binary digit at a time. */
  function And(a: nat, b: nat): nat
  {
    if a == 0 || b == 0 then 0
    else (a % 2) * (b % 2) + 2 * And(a / 2, b / 2)
  }

  /** True when exactly one bit of `n` is set. */
  predicate HasSingleBit(n: nat)
  {
    n == 1 || (n > 1 && n % 2 == 0 && HasSingleBit(n / 2))
  }

  /** A non-zero multiple of `n` is at least `n` away from zero. */
  lemma MultipleGap(n: int, d: int)
    requires n > 0
    ensures d >= 1 ==> n * d >= n
    ensures d <= -1 ==> n * d <= -n
  {
  }

  /** A quotient and remainder in range are the Euclidean ones. */
  lemma DivModUnique(a: int, n: int, q: int, r: int)
    requires n > 0 && 0 <= r < n && a == n * q + r
    ensures a / n == q && a % n == r
  {
    var d := a / n - q;
    assert a == n * (a / n) + a % n;
    assert n * d == r - a % n;
    MultipleGap(n, d);
  }

  /** The remainder modulo `2 * m`, from the lowest digit and the remainder of the rest. */
  lemma ModDouble(a: nat, m: nat)
    requires m > 0
    ensures a % (2 * m) == a % 2 + 2 * ((a / 2) % m)
  {
    var h := a / 2;
    var q, t := h / m, h % m;
    assert h == m * q + t;
    calc {
      a;
      2 * h + a % 2;
      2 * (m * q) + (2 * t + a % 2);
      (2 * m) * q + (2 * t + a % 2);
    }
    DivModUnique(a, 2 * m, q, 2 * t + a % 2);
  }

  /** Masking with a power of two less one is the remainder. */
  lemma {:induction false} MaskIsRemainder(a: nat, n: nat)
    requires HasSingleBit(n)
    ensures And(a, n - 1) == a % n
  {
    if n > 1 {
      var m := n / 2;
      MaskIsRemainder(a / 2, m);
      assert (n - 1) % 2 == 1 && (n - 1) / 2 == m - 1;
      ModDouble(a, m);
    }
  }

  /** Positions one lap apart share a remainder. */
  lemma ModLap(a: int, n: int)
    requires n > 0
    ensures (a + n) % n == a % n
  {
    assert a == n * (a / n) + a % n;
    DivModUnique(a + n, n, a / n + 1, a % n);
  }

  /** Two positions less than one lap apart with one remainder are the same position. */
  lemma ModInjective(a: int, b: int, n: int)
    requires n > 0 && a % n == b % n && a <= b < a + n
    ensures a == b
  {
    var d := b / n - a / n;
    assert b - a == n * d;
    MultipleGap(n, d);
  }
}
