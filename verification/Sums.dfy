/** Finite sums of reals and the laws the kernels rely on. */
module Sums {

  function Sum(n: nat, f: int -> real): real
  {
    if n == 0 then 0.0 else Sum(n - 1, f) + f(n - 1)
  }

  lemma {:induction false} SumEqual(n: nat, f: int -> real, g: int -> real)
    requires forall i :: 0 <= i < n ==> f(i) == g(i)
    ensures Sum(n, f) == Sum(n, g)
  {
    if n > 0 { SumEqual(n - 1, f, g); }
  }

  lemma {:induction false} SumZero(n: nat, f: int -> real)
    requires forall i :: 0 <= i < n ==> f(i) == 0.0
    ensures Sum(n, f) == 0.0
  {
    if n > 0 { SumZero(n - 1, f); }
  }

  lemma {:induction false} SumAdd(n: nat, f: int -> real, g: int -> real, h: int -> real)
    requires forall i :: 0 <= i < n ==> h(i) == f(i) + g(i)
    ensures Sum(n, h) == Sum(n, f) + Sum(n, g)
  {
    if n > 0 { SumAdd(n - 1, f, g, h); }
  }

  lemma {:induction false} SumScale(n: nat, c: real, f: int -> real, h: int -> real)
    requires forall i :: 0 <= i < n ==> h(i) == c * f(i)
    ensures Sum(n, h) == c * Sum(n, f)
  {
    if n > 0 { SumScale(n - 1, c, f, h); }
  }

  function Scaled(c: real, f: int -> real): int -> real
  {
    i => c * f(i)
  }

  lemma SumScaled(n: nat, c: real, f: int -> real)
    ensures Sum(n, Scaled(c, f)) == c * Sum(n, f)
  {
    SumScale(n, c, f, Scaled(c, f));
  }

  /** The inner sums of a double sum, as a function of the outer index. */
  function Inner(m: nat, f: (int, int) -> real): int -> real
  {
    i => Sum(m, j => f(i, j))
  }

  function Flip(f: (int, int) -> real): (int, int) -> real
  {
    (j, i) => f(i, j)
  }

  /** Exchange of the order of summation. */
  lemma {:induction false} SumSwap(n: nat, m: nat, f: (int, int) -> real)
    ensures Sum(n, Inner(m, f)) == Sum(m, Inner(n, Flip(f)))
  {
    if n == 0 {
      SumZero(m, Inner(n, Flip(f)));
    } else {
      SumSwap(n - 1, m, f);
      var last := j => f(n - 1, j);
      forall j | 0 <= j < m ensures Inner(n, Flip(f))(j) == Inner(n - 1, Flip(f))(j) + last(j) {
        var col := i => Flip(f)(j, i);
        assert Sum(n, col) == Sum(n - 1, col) + col(n - 1);
      }
      SumAdd(m, Inner(n - 1, Flip(f)), last, Inner(n, Flip(f)));
      assert Inner(m, f)(n - 1) == Sum(m, last);
    }
  }

  /** Summing over an index that only one value satisfies. */
  lemma {:induction false} SumPick(n: nat, k: int, f: int -> real)
    requires forall i :: 0 <= i < n && i != k ==> f(i) == 0.0
    ensures Sum(n, f) == if 0 <= k < n then f(k) else 0.0
  {
    if n > 0 {
      if k == n - 1 { SumZero(n - 1, f); } else { SumPick(n - 1, k, f); }
    }
  }

  lemma {:induction false} SumSplit(n: nat, m: nat, f: int -> real, g: int -> real)
    requires forall j :: 0 <= j < m ==> g(j) == f(n + j)
    ensures Sum(n + m, f) == Sum(n, f) + Sum(m, g)
  {
    if m > 0 { SumSplit(n, m - 1, f, g); }
  }

  /** A sum over `n * m` flat indices is a double sum. */
  lemma {:induction false} SumFlatten(n: nat, m: nat, f: int -> real, g: (int, int) -> real)
    requires forall i, j :: 0 <= i < n && 0 <= j < m ==> g(i, j) == f(i * m + j)
    ensures Sum(n * m, f) == Sum(n, Inner(m, g))
  {
    if n > 0 {
      SumFlatten(n - 1, m, f, g);
      var last := j => g(n - 1, j);
      assert n * m == (n - 1) * m + m;
      SumSplit((n - 1) * m, m, f, last);
      assert Inner(m, g)(n - 1) == Sum(m, last);
    }
  }

  /** Exchange of the order of summation, for row sums and column sums given by their meaning. */
  lemma SumExchange(n: nat, m: nat, rows: int -> real, cols: int -> real,
                    row: int -> (int -> real), col: int -> (int -> real))
    requires forall i :: 0 <= i < n ==> rows(i) == Sum(m, row(i))
    requires forall j :: 0 <= j < m ==> cols(j) == Sum(n, col(j))
    requires forall i, j :: 0 <= i < n && 0 <= j < m ==> row(i)(j) == col(j)(i)
    ensures Sum(n, rows) == Sum(m, cols)
  {
    var f := (i: int, j: int) => row(i)(j);
    SumSwap(n, m, f);
    forall i | 0 <= i < n ensures rows(i) == Inner(m, f)(i) {
      SumEqual(m, row(i), j => f(i, j));
    }
    SumEqual(n, rows, Inner(m, f));
    forall j | 0 <= j < m ensures cols(j) == Inner(n, Flip(f))(j) {
      SumEqual(n, col(j), i => Flip(f)(j, i));
    }
    SumEqual(m, cols, Inner(n, Flip(f)));
  }
}
