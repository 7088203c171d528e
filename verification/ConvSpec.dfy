/**
What the one-dimensional convolution kernels compute, over the reals. Buffers are flat, row after row:
`x[ic][t]`, `y[oc][t]`, and weights `w[oc][ic][k]` (convolution), `w[ic][oc][k]` (transposed) or
`w[k][oc][ic]` (transposed, kernel-major).
 */
module ConvSpec {
  import opened Bits
  import opened Sums

  datatype Shape = Shape(ic: nat, oc: nat, len: nat, olen: nat, kernel: nat, stride: nat, padding: nat)

  /** Buffer access that reads zero outside the buffer. */
  function At(s: seq<real>, i: int): real
  {
    if 0 <= i < |s| then s[i] else 0.0
  }

  /** Element `t` of the row that starts at `o`. */
  function Cell(s: seq<real>, o: int, t: int): real
  {
    At(s, o + t)
  }

  /** The two buffers agree outside the `n` elements from `o` on. */
  predicate SameOutside(a: seq<real>, b: seq<real>, o: int, n: int)
  {
    |a| == |b| && forall j :: 0 <= j < |a| && !(o <= j < o + n) ==> a[j] == b[j]
  }

  // ---- convolution ------------------------------------------------------------------------

  /** The input index that tap `k` of output `ot` reads; it may lie in the padding. */
  function Source(sh: Shape, ot: int, k: int): int
  {
    ot * sh.stride + k - sh.padding
  }

  function Tap(sh: Shape, x: seq<real>, w: seq<real>, oc: int, ot: int, ic: int, k: int): real
  {
    if 0 <= Source(sh, ot, k) < sh.len then
      At(x, ic * sh.len + Source(sh, ot, k)) * At(w, (oc * sh.ic + ic) * sh.kernel + k)
    else 0.0
  }

  function Taps(sh: Shape, x: seq<real>, w: seq<real>, oc: int, ot: int, ic: int): int -> real
  {
    k => Tap(sh, x, w, oc, ot, ic, k)
  }

  function Channels(sh: Shape, x: seq<real>, w: seq<real>, oc: int, ot: int): int -> real
  {
    ic => Sum(sh.kernel, Taps(sh, x, w, oc, ot, ic))
  }

  /** y[oc][ot] = b[oc] + the sum over channels and taps that fall inside the input. */
  function Conv(sh: Shape, x: seq<real>, w: seq<real>, b: seq<real>, oc: int, ot: int): real
  {
    At(b, oc) + Sum(sh.ic, Channels(sh, x, w, oc, ot))
  }

  // ---- transposed convolution -------------------------------------------------------------

  /** The weight that joins input channel `ic` to output channel `oc` at tap `k`. */
  function WeightAt(sh: Shape, w: seq<real>, kMajor: bool, ic: int, oc: int, k: int): real
  {
    if kMajor then At(w, (k * sh.oc + oc) * sh.ic + ic) else At(w, (ic * sh.oc + oc) * sh.kernel + k)
  }

  /** What input sample `it` of channel `ic` adds to output `t` through tap `k`. */
  function Spread(sh: Shape, x: seq<real>, w: seq<real>, kMajor: bool, oc: int, t: int, ic: int, it: int, k: int): real
  {
    if it * sh.stride + k == t + sh.padding then
      At(x, ic * sh.len + it) * WeightAt(sh, w, kMajor, ic, oc, k)
    else 0.0
  }

  function SpreadTaps(sh: Shape, x: seq<real>, w: seq<real>, kMajor: bool, oc: int, t: int, ic: int, it: int): int -> real
  {
    k => Spread(sh, x, w, kMajor, oc, t, ic, it, k)
  }

  function SpreadSamples(sh: Shape, x: seq<real>, w: seq<real>, kMajor: bool, oc: int, t: int, ic: int): int -> real
  {
    it => Sum(sh.kernel, SpreadTaps(sh, x, w, kMajor, oc, t, ic, it))
  }

  function SpreadChannels(sh: Shape, x: seq<real>, w: seq<real>, kMajor: bool, oc: int, t: int): int -> real
  {
    ic => Sum(sh.len, SpreadSamples(sh, x, w, kMajor, oc, t, ic))
  }

  /** y[oc][t] = b[oc] + the sum of x[ic][it] * w over all it * stride + k = t + padding. */
  function ConvT(sh: Shape, x: seq<real>, w: seq<real>, b: seq<real>, kMajor: bool, oc: int, t: int): real
  {
    At(b, oc) + Sum(sh.ic, SpreadChannels(sh, x, w, kMajor, oc, t))
  }

  // ---- shapes and flat indices ------------------------------------------------------------

  /** The argument check both kernels begin with. */
  predicate Usable(sh: Shape, x: seq<real>, w: seq<real>, b: seq<real>, ylen: nat)
  {
    && sh.ic > 0 && sh.oc > 0 && sh.len > 0 && sh.olen > 0 && sh.kernel > 0 && sh.stride > 0
    && |x| >= sh.ic * sh.len && |w| >= sh.oc * sh.ic * sh.kernel && |b| >= sh.oc
    && ylen >= sh.oc * sh.olen
  }

  /** Row `i` of `n` rows of width `m` lies inside the buffer. */
  lemma RowIn(i: nat, n: nat, m: nat)
    requires i < n
    ensures 0 <= i * m && i * m + m <= n * m
  {
    assert i * m + m == (i + 1) * m;
    assert (i + 1) * m <= n * m;
  }

  /** Different rows do not meet. */
  lemma RowsApart(i: nat, j: nat, m: nat)
    requires i < j
    ensures i * m + m <= j * m
  {
    assert i * m + m == (i + 1) * m;
  }

  lemma WeightIn(sh: Shape, oc: nat, ic: nat, k: nat)
    requires oc < sh.oc && ic < sh.ic && k < sh.kernel
    ensures 0 <= (oc * sh.ic + ic) * sh.kernel + k < sh.oc * sh.ic * sh.kernel
  {
    RowIn(oc, sh.oc, sh.ic);
    RowIn(oc * sh.ic + ic, sh.oc * sh.ic, sh.kernel);
  }

  /** Writing one element of a row leaves the other elements of the row alone. */
  lemma OneCell(a: seq<real>, b: seq<real>, o: nat, t: nat, v: real)
    requires o + t < |a| && b == a[o + t := v]
    ensures Cell(b, o, t) == v && forall s :: s != t ==> Cell(b, o, s) == Cell(a, o, s)
  {
  }

  /** Element `(i, j)` of a matrix of width `m` that starts at `off`. */
  function Entry(s: seq<real>, off: int, m: int, i: int, j: int): real
  {
    At(s, off + (i * m + j))
  }

  lemma EntryIn(i: nat, n: nat, j: nat, m: nat)
    requires i < n && j < m
    ensures 0 <= i * m + j < n * m
  {
    RowIn(i, n, m);
  }

  /** Writing one element of a matrix leaves the others alone. */
  lemma OneEntry(a: seq<real>, b: seq<real>, off: nat, m: nat, i: nat, j: nat, v: real)
    requires j < m && 0 <= i * m + j && off + (i * m + j) < |a| && b == a[off + (i * m + j) := v]
    ensures Entry(b, off, m, i, j) == v
    ensures forall p, q :: 0 <= p && 0 <= q < m && (p != i || q != j) ==> Entry(b, off, m, p, q) == Entry(a, off, m, p, q)
  {
    forall p, q | 0 <= p && 0 <= q < m && (p != i || q != j)
      ensures Entry(b, off, m, p, q) == Entry(a, off, m, p, q)
    {
      SameEntry(i, j, p, q, m);
    }
  }

  lemma SameEntry(i: nat, j: nat, p: nat, q: nat, m: nat)
    requires j < m && q < m
    ensures i * m + j == p * m + q ==> i == p && j == q
  {
    DivModUnique(i * m + j, m, i, j);
    DivModUnique(p * m + q, m, p, q);
  }
}
