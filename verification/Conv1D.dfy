/** The three implementations of `conv1d`, loop by loop, each proved to compute `Conv`. */
module Conv1D {
  import opened Sums
  import opened ConvSpec
  import opened Gemm
  import PF = ParallelFor

  /** Fill one row. */
  method FillRow(y: array<real>, o: nat, n: nat, v: real)
    requires o + n <= y.Length
    modifies y
    ensures forall t :: 0 <= t < n ==> Cell(y[..], o, t) == v
    ensures SameOutside(y[..], old(y[..]), o, n)
  {
    var t := 0;
    while t < n
      invariant 0 <= t <= n
      invariant forall s :: 0 <= s < t ==> Cell(y[..], o, s) == v
      invariant SameOutside(y[..], old(y[..]), o, n)
    {
      ghost var before := y[..];
      y[o + t] := v;
      OneCell(before, y[..], o, t, v);
      t := t + 1;
    }
  }

  // ---- fixed kernel and stride: computed output ranges ------------------------------------

  /** First output whose tap `k` leaves the left padding. */
  function RangeBegin(sh: Shape, k: nat): nat
    requires sh.stride > 0
  {
    if k < sh.padding then (sh.padding - k + sh.stride - 1) / sh.stride else 0
  }

  /** One past the last output whose tap `k` stays left of the right edge. */
  function RangeEnd(sh: Shape, k: nat): nat
    requires sh.stride > 0
  {
    var lastInput := (sh.len as int) - 1 - (k - sh.padding);
    if lastInput < 0 then 0
    else if lastInput / sh.stride + 1 < sh.olen then lastInput / sh.stride + 1 else sh.olen
  }

  /** `a / s` rounded up is the least `q` with `q * s >= a`. */
  lemma CeilDiv(a: nat, s: nat, q: nat)
    requires s > 0
    ensures q >= (a + s - 1) / s <==> q * s >= a
  {
    var c := (a + s - 1) / s;
    assert a + s - 1 == s * c + (a + s - 1) % s;
    if q >= c { assert q * s >= c * s; } else { assert q * s <= (c - 1) * s; assert (c - 1) * s == c * s - s; }
  }

  /** `a / s` rounded down is the greatest `q` with `q * s <= a`. */
  lemma FloorDiv(a: nat, s: nat, q: nat)
    requires s > 0
    ensures q <= a / s <==> q * s <= a
  {
    var c := a / s;
    assert a == s * c + a % s;
    if q <= c { assert q * s <= c * s; } else { assert q * s >= (c + 1) * s; assert (c + 1) * s == c * s + s; }
  }

  /** The range arithmetic visits exactly the outputs whose tap lies inside the input. */
  lemma RangeExact(sh: Shape, k: nat, ot: nat)
    requires sh.stride > 0 && sh.len > 0 && ot < sh.olen
    ensures RangeBegin(sh, k) <= ot < RangeEnd(sh, k) <==> 0 <= Source(sh, ot, k) < sh.len
  {
    if k < sh.padding { CeilDiv(sh.padding - k, sh.stride, ot); }
    var lastInput := (sh.len as int) - 1 - (k - sh.padding);
    if lastInput >= 0 { FloorDiv(lastInput, sh.stride, ot); }
  }

  /** One tap of one channel pair, added to the output row at `o`. */
  method AddTap(sh: Shape, x: seq<real>, w: seq<real>, y: array<real>, o: nat, oc: nat, ic: nat, k: nat)
    requires sh.stride > 0 && sh.len > 0 && oc < sh.oc && ic < sh.ic && k < sh.kernel
    requires |x| >= sh.ic * sh.len && |w| >= sh.oc * sh.ic * sh.kernel && o + sh.olen <= y.Length
    modifies y
    ensures forall t :: 0 <= t < sh.olen ==>
              Cell(y[..], o, t) == Cell(old(y[..]), o, t) + Tap(sh, x, w, oc, t, ic, k)
    ensures SameOutside(y[..], old(y[..]), o, sh.olen)
  {
    var begin, end := RangeBegin(sh, k), RangeEnd(sh, k);
    WeightIn(sh, oc, ic, k);
    RowIn(ic, sh.ic, sh.len);
    var value := w[(oc * sh.ic + ic) * sh.kernel + k];
    var base := ic * sh.len;
    var ot := begin;
    while ot < end
      invariant begin <= ot
      invariant forall t :: 0 <= t < sh.olen ==>
                  Cell(y[..], o, t) ==
                    Cell(old(y[..]), o, t) + if begin <= t < ot && t < end then Tap(sh, x, w, oc, t, ic, k) else 0.0
      invariant SameOutside(y[..], old(y[..]), o, sh.olen)
    {
      RangeExact(sh, k, ot);
      var product := x[base + Source(sh, ot, k)] * value;
      assert product == Tap(sh, x, w, oc, ot, ic, k);
      ghost var before := y[..];
      y[o + ot] := y[o + ot] + product;
      OneCell(before, y[..], o, ot, y[o + ot]);
      ot := ot + 1;
    }
    forall t | 0 <= t < sh.olen
      ensures !(begin <= t < end) ==> Tap(sh, x, w, oc, t, ic, k) == 0.0
    {
      RangeExact(sh, k, t);
    }
  }

  /** All taps of one channel pair. */
  method AddChannel(sh: Shape, x: seq<real>, w: seq<real>, y: array<real>, o: nat, oc: nat, ic: nat)
    requires sh.stride > 0 && sh.len > 0 && oc < sh.oc && ic < sh.ic
    requires |x| >= sh.ic * sh.len && |w| >= sh.oc * sh.ic * sh.kernel && o + sh.olen <= y.Length
    modifies y
    ensures forall t :: 0 <= t < sh.olen ==>
              Cell(y[..], o, t) == Cell(old(y[..]), o, t) + Channels(sh, x, w, oc, t)(ic)
    ensures SameOutside(y[..], old(y[..]), o, sh.olen)
  {
    var k := 0;
    while k < sh.kernel
      invariant 0 <= k <= sh.kernel
      invariant forall t :: 0 <= t < sh.olen ==>
                  Cell(y[..], o, t) == Cell(old(y[..]), o, t) + Sum(k, Taps(sh, x, w, oc, t, ic))
      invariant SameOutside(y[..], old(y[..]), o, sh.olen)
    {
      AddTap(sh, x, w, y, o, oc, ic, k);
      k := k + 1;
    }
  }

  /** One output channel of the fixed kernel. */
  method RangedRow(sh: Shape, x: seq<real>, w: seq<real>, b: seq<real>, y: array<real>, o: nat, oc: nat)
    requires Usable(sh, x, w, b, y.Length) && oc < sh.oc && o + sh.olen <= y.Length
    modifies y
    ensures forall t :: 0 <= t < sh.olen ==> Cell(y[..], o, t) == Conv(sh, x, w, b, oc, t)
    ensures SameOutside(y[..], old(y[..]), o, sh.olen)
  {
    FillRow(y, o, sh.olen, b[oc]);
    var ic := 0;
    while ic < sh.ic
      invariant 0 <= ic <= sh.ic
      invariant forall t :: 0 <= t < sh.olen ==> Cell(y[..], o, t) == b[oc] + Sum(ic, Channels(sh, x, w, oc, t))
      invariant SameOutside(y[..], old(y[..]), o, sh.olen)
    {
      AddChannel(sh, x, w, y, o, oc, ic);
      ic := ic + 1;
    }
  }

  // ---- generic bounds-checked loop --------------------------------------------------------

  /** One channel of one output: every tap is checked against the input's ends. */
  method GenericChannel(sh: Shape, x: seq<real>, w: seq<real>, oc: nat, ot: nat, ic: nat, start: real) returns (sum: real)
    requires |x| >= sh.ic * sh.len && |w| >= sh.oc * sh.ic * sh.kernel && oc < sh.oc && ic < sh.ic
    ensures sum == start + Sum(sh.kernel, Taps(sh, x, w, oc, ot, ic))
  {
    RowIn(ic, sh.ic, sh.len);
    sum := start;
    var k := 0;
    while k < sh.kernel
      invariant 0 <= k <= sh.kernel
      invariant sum == start + Sum(k, Taps(sh, x, w, oc, ot, ic))
    {
      var padded := ot * sh.stride + k;
      if padded >= sh.padding {
        var index := padded - sh.padding;
        if index < sh.len {
          WeightIn(sh, oc, ic, k);
          sum := sum + x[ic * sh.len + index] * w[(oc * sh.ic + ic) * sh.kernel + k];
        }
      }
      k := k + 1;
    }
  }

  /** One output of the generic loop. */
  method GenericPoint(sh: Shape, x: seq<real>, w: seq<real>, b: seq<real>, oc: nat, ot: nat) returns (sum: real)
    requires Usable(sh, x, w, b, sh.oc * sh.olen) && oc < sh.oc
    ensures sum == Conv(sh, x, w, b, oc, ot)
  {
    sum := b[oc];
    var ic := 0;
    while ic < sh.ic
      invariant 0 <= ic <= sh.ic
      invariant sum == b[oc] + Sum(ic, Channels(sh, x, w, oc, ot))
    {
      sum := GenericChannel(sh, x, w, oc, ot, ic, sum);
      ic := ic + 1;
    }
  }

  method GenericRow(sh: Shape, x: seq<real>, w: seq<real>, b: seq<real>, y: array<real>, o: nat, oc: nat)
    requires Usable(sh, x, w, b, y.Length) && oc < sh.oc && o + sh.olen <= y.Length
    modifies y
    ensures forall t :: 0 <= t < sh.olen ==> Cell(y[..], o, t) == Conv(sh, x, w, b, oc, t)
    ensures SameOutside(y[..], old(y[..]), o, sh.olen)
  {
    var ot := 0;
    while ot < sh.olen
      invariant 0 <= ot <= sh.olen
      invariant forall t :: 0 <= t < ot ==> Cell(y[..], o, t) == Conv(sh, x, w, b, oc, t)
      invariant SameOutside(y[..], old(y[..]), o, sh.olen)
    {
      var sum := GenericPoint(sh, x, w, b, oc, ot);
      ghost var before := y[..];
      y[o + ot] := sum;
      OneCell(before, y[..], o, ot, y[o + ot]);
      ot := ot + 1;
    }
  }

  // ---- im2col and matrix product ----------------------------------------------------------

  /** The padded input sample behind tap `k` of channel `ic` at output `ot`. */
  function Padded(sh: Shape, x: seq<real>, ot: int, ic: int, k: int): real
  {
    if 0 <= Source(sh, ot, k) < sh.len then At(x, ic * sh.len + Source(sh, ot, k)) else 0.0
  }

  method PackChannel(sh: Shape, x: seq<real>, ws: array<real>, o: nat, ot: nat, ic: nat)
    requires o + sh.kernel <= ws.Length && ic < sh.ic && |x| >= sh.ic * sh.len
    modifies ws
    ensures forall k :: 0 <= k < sh.kernel ==> Cell(ws[..], o, k) == Padded(sh, x, ot, ic, k)
    ensures SameOutside(ws[..], old(ws[..]), o, sh.kernel)
  {
    RowIn(ic, sh.ic, sh.len);
    var origin := ot * sh.stride - sh.padding;
    var base := ic * sh.len;
    var k := 0;
    while k < sh.kernel
      invariant 0 <= k <= sh.kernel
      invariant forall j :: 0 <= j < k ==> Cell(ws[..], o, j) == Padded(sh, x, ot, ic, j)
      invariant SameOutside(ws[..], old(ws[..]), o, sh.kernel)
    {
      var index := origin + k;
      var v := if 0 <= index < sh.len then x[base + index] else 0.0;
      ghost var before := ws[..];
      ws[o + k] := v;
      OneCell(before, ws[..], o, k, v);
      k := k + 1;
    }
  }

  /** One packed row: all taps of all channels of one output, from `o` on. */
  method PackRow(sh: Shape, x: seq<real>, ws: array<real>, o: nat, ot: nat)
    requires o + sh.ic * sh.kernel <= ws.Length && |x| >= sh.ic * sh.len
    modifies ws
    ensures forall ic, k :: 0 <= ic < sh.ic && 0 <= k < sh.kernel ==>
              Entry(ws[..], o, sh.kernel, ic, k) == Padded(sh, x, ot, ic, k)
    ensures SameOutside(ws[..], old(ws[..]), o, sh.ic * sh.kernel)
  {
    var ic := 0;
    while ic < sh.ic
      invariant 0 <= ic <= sh.ic
      invariant forall i, k :: 0 <= i < ic && 0 <= k < sh.kernel ==>
                  Entry(ws[..], o, sh.kernel, i, k) == Padded(sh, x, ot, i, k)
      invariant SameOutside(ws[..], old(ws[..]), o, sh.ic * sh.kernel)
    {
      RowIn(ic, sh.ic, sh.kernel);
      ghost var before := ws[..];
      var p := o + ic * sh.kernel;
      PackChannel(sh, x, ws, p, ot, ic);
      forall i, k | 0 <= i <= ic && 0 <= k < sh.kernel
        ensures Entry(ws[..], o, sh.kernel, i, k) == Padded(sh, x, ot, i, k)
      {
        if i < ic {
          RowsApart(i, ic, sh.kernel);
          EntryIn(i, sh.ic, k, sh.kernel);
          assert Entry(before, o, sh.kernel, i, k) == Padded(sh, x, ot, i, k);
        } else {
          assert Entry(ws[..], o, sh.kernel, i, k) == Cell(ws[..], p, k);
        }
      }
      ic := ic + 1;
    }
  }

  /** The packed matrix holds the padded input of every tap. */
  ghost predicate PackedRows(s: seq<real>, sh: Shape, x: seq<real>, rows: nat)
  {
    forall ot, ic, k :: 0 <= ot < rows && 0 <= ic < sh.ic && 0 <= k < sh.kernel ==>
      Entry(s, ot * (sh.ic * sh.kernel), sh.kernel, ic, k) == Padded(sh, x, ot, ic, k)
  }

  lemma PackedRowKept(a: seq<real>, b: seq<real>, sh: Shape, x: seq<real>, rows: nat)
    requires PackedRows(a, sh, x, rows) && 0 <= rows * (sh.ic * sh.kernel)
    requires SameOutside(a, b, rows * (sh.ic * sh.kernel), sh.ic * sh.kernel)
    requires rows * (sh.ic * sh.kernel) <= |a|
    requires forall ic, k :: 0 <= ic < sh.ic && 0 <= k < sh.kernel ==>
               Entry(b, rows * (sh.ic * sh.kernel), sh.kernel, ic, k) == Padded(sh, x, rows, ic, k)
    ensures PackedRows(b, sh, x, rows + 1)
  {
    var pc := sh.ic * sh.kernel;
    forall ot, ic, k | 0 <= ot < rows + 1 && 0 <= ic < sh.ic && 0 <= k < sh.kernel
      ensures Entry(b, ot * pc, sh.kernel, ic, k) == Padded(sh, x, ot, ic, k)
    {
      if ot < rows {
        RowsApart(ot, rows, pc);
        EntryIn(ic, sh.ic, k, sh.kernel);
        assert Entry(a, ot * pc, sh.kernel, ic, k) == Padded(sh, x, ot, ic, k);
      }
    }
  }

  method Pack(sh: Shape, x: seq<real>, ws: array<real>)
    requires sh.olen * (sh.ic * sh.kernel) <= ws.Length && |x| >= sh.ic * sh.len
    modifies ws
    ensures PackedRows(ws[..], sh, x, sh.olen)
  {
    var pc := sh.ic * sh.kernel;
    var ot := 0;
    while ot < sh.olen
      invariant 0 <= ot <= sh.olen
      invariant PackedRows(ws[..], sh, x, ot)
    {
      RowIn(ot, sh.olen, pc);
      ghost var before := ws[..];
      PackRow(sh, x, ws, ot * pc, ot);
      PackedRowKept(before, ws[..], sh, x, ot);
      ot := ot + 1;
    }
  }

  function TapGrid(sh: Shape, x: seq<real>, w: seq<real>, oc: nat, ot: nat): (int, int) -> real
  {
    (ic, k) => Tap(sh, x, w, oc, ot, ic, k)
  }

  lemma PackedProduct(sh: Shape, x: seq<real>, w: seq<real>, packed: seq<real>, oc: nat, ot: nat, ic: nat, k: nat)
    requires PackedRows(packed, sh, x, sh.olen) && ot < sh.olen && ic < sh.ic && k < sh.kernel
    ensures Tap(sh, x, w, oc, ot, ic, k) == Products(packed, w, sh.ic * sh.kernel, ot, oc)(ic * sh.kernel + k)
  {
    assert Entry(packed, ot * (sh.ic * sh.kernel), sh.kernel, ic, k) == Padded(sh, x, ot, ic, k);
    WeightRow(sh, oc, ic, k);
  }

  lemma GridRow(sh: Shape, x: seq<real>, w: seq<real>, oc: nat, ot: nat, ic: nat)
    ensures Inner(sh.kernel, TapGrid(sh, x, w, oc, ot))(ic) == Channels(sh, x, w, oc, ot)(ic)
  {
    var grid, taps := TapGrid(sh, x, w, oc, ot), Taps(sh, x, w, oc, ot, ic);
    assert forall k :: grid(ic, k) == taps(k);
    SumEqual(sh.kernel, k => grid(ic, k), taps);
  }

  /** A row of the packed product is the sum over channels and taps. */
  lemma PackedDot(sh: Shape, x: seq<real>, w: seq<real>, packed: seq<real>, oc: nat, ot: nat)
    requires PackedRows(packed, sh, x, sh.olen) && ot < sh.olen
    ensures Dot(packed, w, sh.ic * sh.kernel, ot, oc) == Sum(sh.ic, Channels(sh, x, w, oc, ot))
  {
    var f, g := Products(packed, w, sh.ic * sh.kernel, ot, oc), TapGrid(sh, x, w, oc, ot);
    forall ic, k | 0 <= ic < sh.ic && 0 <= k < sh.kernel ensures g(ic, k) == f(ic * sh.kernel + k) {
      PackedProduct(sh, x, w, packed, oc, ot, ic, k);
    }
    SumFlatten(sh.ic, sh.kernel, f, g);
    forall ic | 0 <= ic < sh.ic ensures Inner(sh.kernel, g)(ic) == Channels(sh, x, w, oc, ot)(ic) {
      GridRow(sh, x, w, oc, ot, ic);
    }
    SumEqual(sh.ic, Inner(sh.kernel, g), Channels(sh, x, w, oc, ot));
  }

  lemma WeightRow(sh: Shape, oc: int, ic: int, k: int)
    ensures oc * (sh.ic * sh.kernel) + (ic * sh.kernel + k) == (oc * sh.ic + ic) * sh.kernel + k
  {
  }

  /** One output row from the product, with the bias. */
  method UnpackRow(sh: Shape, gemm: seq<real>, shift: real, y: array<real>, o: nat, oc: nat)
    requires o + sh.olen <= y.Length && oc < sh.oc && |gemm| >= sh.olen * sh.oc
    modifies y
    ensures forall t :: 0 <= t < sh.olen ==> Cell(y[..], o, t) == Entry(gemm, 0, sh.oc, t, oc) + shift
    ensures SameOutside(y[..], old(y[..]), o, sh.olen)
  {
    var ot := 0;
    while ot < sh.olen
      invariant 0 <= ot <= sh.olen
      invariant forall t :: 0 <= t < ot ==> Cell(y[..], o, t) == Entry(gemm, 0, sh.oc, t, oc) + shift
      invariant SameOutside(y[..], old(y[..]), o, sh.olen)
    {
      EntryIn(ot, sh.olen, oc, sh.oc);
      var v := gemm[ot * sh.oc + oc] + shift;
      ghost var before := y[..];
      y[o + ot] := v;
      OneCell(before, y[..], o, ot, v);
      ot := ot + 1;
    }
  }

  // ---- the kernel -------------------------------------------------------------------------

  /** Output channel `oc` is finished. */
  ghost predicate RowDone(s: seq<real>, sh: Shape, x: seq<real>, w: seq<real>, b: seq<real>, oc: int)
  {
    forall t :: 0 <= t < sh.olen ==> Entry(s, 0, sh.olen, oc, t) == Conv(sh, x, w, b, oc, t)
  }

  /** Writing other rows keeps a finished row. */
  lemma RowKept(a: seq<real>, c: seq<real>, sh: Shape, x: seq<real>, w: seq<real>, b: seq<real>,
                oc: nat, lo: nat, hi: nat)
    requires RowDone(a, sh, x, w, b, oc) && lo <= hi && !(lo <= oc < hi)
    requires SameOutside(a, c, lo * sh.olen, (hi - lo) * sh.olen) && oc * sh.olen + sh.olen <= |a|
    ensures RowDone(c, sh, x, w, b, oc)
  {
    RowSpan(lo, hi, sh.olen);
    if oc < lo { RowsApart(oc, lo, sh.olen); } else if hi < oc { RowsApart(hi, oc, sh.olen); }
    forall t | 0 <= t < sh.olen ensures Entry(c, 0, sh.olen, oc, t) == Conv(sh, x, w, b, oc, t) {
      assert Entry(a, 0, sh.olen, oc, t) == Conv(sh, x, w, b, oc, t);
    }
  }

  lemma RowSpan(lo: nat, hi: nat, m: nat)
    requires lo <= hi
    ensures lo * m + (hi - lo) * m == hi * m
  {
  }

  /** The shapes with a compile-time kernel and stride. */
  predicate FixedKernel(sh: Shape)
  {
    (sh.kernel == 5 && sh.stride == 1) || (sh.kernel == 3 && sh.stride == 2) || (sh.kernel == 1 && sh.stride == 1)
  }

  /** The slice of work `parallel_for` hands out: output channels `first` up to `last`. */
  method Operation(sh: Shape, x: seq<real>, w: seq<real>, b: seq<real>, y: array<real>, first: nat, last: nat)
    requires Usable(sh, x, w, b, y.Length) && first <= last <= sh.oc
    modifies y
    ensures forall oc :: first <= oc < last ==> RowDone(y[..], sh, x, w, b, oc)
    ensures SameOutside(y[..], old(y[..]), first * sh.olen, (last - first) * sh.olen)
  {
    var oc := first;
    while oc < last
      invariant first <= oc <= last
      invariant forall c :: first <= c < oc ==> RowDone(y[..], sh, x, w, b, c)
      invariant SameOutside(y[..], old(y[..]), first * sh.olen, (last - first) * sh.olen)
    {
      RowIn(oc, sh.oc, sh.olen);
      ghost var before := y[..];
      if FixedKernel(sh) {
        RangedRow(sh, x, w, b, y, oc * sh.olen, oc);
      } else {
        GenericRow(sh, x, w, b, y, oc * sh.olen, oc);
      }
      RowFinished(y[..], sh, x, w, b, oc);
      OneRowWritten(before, y[..], sh, oc);
      forall c | first <= c < oc ensures RowDone(y[..], sh, x, w, b, c) {
        RowIn(c, sh.oc, sh.olen);
        RowKept(before, y[..], sh, x, w, b, c, oc, oc + 1);
      }
      RowInSpan(first, oc, last, sh.olen);
      oc := oc + 1;
    }
  }

  lemma RowFinished(s: seq<real>, sh: Shape, x: seq<real>, w: seq<real>, b: seq<real>, oc: nat)
    requires forall t :: 0 <= t < sh.olen ==> Cell(s, oc * sh.olen, t) == Conv(sh, x, w, b, oc, t)
    ensures RowDone(s, sh, x, w, b, oc)
  {
    forall t | 0 <= t < sh.olen ensures Entry(s, 0, sh.olen, oc, t) == Conv(sh, x, w, b, oc, t) {
      assert Cell(s, oc * sh.olen, t) == Conv(sh, x, w, b, oc, t);
    }
  }

  lemma OneRowWritten(a: seq<real>, c: seq<real>, sh: Shape, oc: nat)
    requires SameOutside(c, a, oc * sh.olen, sh.olen)
    ensures SameOutside(a, c, oc * sh.olen, (oc + 1 - oc) * sh.olen)
  {
  }

  lemma RowInSpan(first: nat, oc: nat, last: nat, m: nat)
    requires first <= oc < last
    ensures first * m <= oc * m && oc * m + m <= first * m + (last - first) * m
  {
    RowSpan(first, last, m);
    RowIn(oc, last, m);
    RowSpan(first, oc, m);
  }

  /** Slice calls in any order, once each index is covered, finish every channel. */
  method RunSlices(sh: Shape, x: seq<real>, w: seq<real>, b: seq<real>, y: array<real>,
                   calls: seq<(nat, PF.Slice)>)
    requires Usable(sh, x, w, b, y.Length) && PF.ExactCover(calls, sh.oc)
    modifies y
    ensures forall oc :: 0 <= oc < sh.oc ==> RowDone(y[..], sh, x, w, b, oc)
    ensures SameOutside(y[..], old(y[..]), 0, sh.oc * sh.olen)
  {
    var i := 0;
    while i < |calls|
      invariant 0 <= i <= |calls|
      invariant forall k, oc :: 0 <= k < i && 0 <= oc < sh.oc && PF.Covers(calls[k].1, oc) ==> RowDone(y[..], sh, x, w, b, oc)
      invariant SameOutside(y[..], old(y[..]), 0, sh.oc * sh.olen)
    {
      var lo, hi := calls[i].1.0, calls[i].1.1;
      if lo <= hi {
        ghost var before := y[..];
        Operation(sh, x, w, b, y, lo, hi);
        forall k, oc | 0 <= k <= i && 0 <= oc < sh.oc && PF.Covers(calls[k].1, oc)
          ensures RowDone(y[..], sh, x, w, b, oc)
        {
          if !(lo <= oc < hi) {
            RowIn(oc, sh.oc, sh.olen);
            assert RowDone(before, sh, x, w, b, oc);
            RowKept(before, y[..], sh, x, w, b, oc, lo, hi);
          }
        }
        RowSpan(lo, hi, sh.olen);
        PF.MulMonotone(hi, sh.oc, sh.olen);
      }
      i := i + 1;
    }
    forall oc | 0 <= oc < sh.oc ensures RowDone(y[..], sh, x, w, b, oc) {
      assert PF.Handled(calls, oc);
      var k :| 0 <= k < |calls| && PF.Covers(calls[k].1, oc);
    }
  }

  /** The packed path. */
  method Im2col(sh: Shape, x: seq<real>, w: seq<real>, b: seq<real>, y: array<real>, ws: array<real>)
    requires Usable(sh, x, w, b, y.Length) && y != ws
    requires ws.Length >= sh.olen * (sh.ic * sh.kernel) + sh.olen * sh.oc
    modifies y, ws
    ensures forall oc :: 0 <= oc < sh.oc ==> RowDone(y[..], sh, x, w, b, oc)
    ensures SameOutside(y[..], old(y[..]), 0, sh.oc * sh.olen)
  {
    var pc := sh.ic * sh.kernel;
    var pf := sh.olen * pc;
    Pack(sh, x, ws);
    var packed := ws[..pf];
    PackedPrefix(ws[..], sh, x, pf);
    WeightRow(sh, sh.oc, 0, 0);
    Matmul(packed, w, ws, pf, sh.olen, pc, sh.oc);
    var gemm := ws[pf..pf + sh.olen * sh.oc];
    ProductIsConv(sh, x, w, packed, ws[..], gemm, pf);
    var oc := 0;
    while oc < sh.oc
      invariant 0 <= oc <= sh.oc
      invariant forall c :: 0 <= c < oc ==> RowDone(y[..], sh, x, w, b, c)
      invariant SameOutside(y[..], old(y[..]), 0, sh.oc * sh.olen)
    {
      RowIn(oc, sh.oc, sh.olen);
      ghost var before := y[..];
      UnpackRow(sh, gemm, b[oc], y, oc * sh.olen, oc);
      RowFinished(y[..], sh, x, w, b, oc);
      OneRowWritten(before, y[..], sh, oc);
      forall c | 0 <= c < oc ensures RowDone(y[..], sh, x, w, b, c) {
        RowIn(c, sh.oc, sh.olen);
        RowKept(before, y[..], sh, x, w, b, c, oc, oc + 1);
      }
      oc := oc + 1;
    }
  }

  lemma ProductIsConv(sh: Shape, x: seq<real>, w: seq<real>, packed: seq<real>, ws: seq<real>, gemm: seq<real>, pf: nat)
    requires PackedRows(packed, sh, x, sh.olen) && pf + sh.olen * sh.oc <= |ws|
    requires gemm == ws[pf..pf + sh.olen * sh.oc]
    requires forall r, o :: 0 <= r < sh.olen && 0 <= o < sh.oc ==>
               Entry(ws, pf, sh.oc, r, o) == Dot(packed, w, sh.ic * sh.kernel, r, o)
    ensures forall ot, oc :: 0 <= ot < sh.olen && 0 <= oc < sh.oc ==>
              Entry(gemm, 0, sh.oc, ot, oc) == Sum(sh.ic, Channels(sh, x, w, oc, ot))
  {
    forall ot, oc | 0 <= ot < sh.olen && 0 <= oc < sh.oc
      ensures Entry(gemm, 0, sh.oc, ot, oc) == Sum(sh.ic, Channels(sh, x, w, oc, ot))
    {
      EntryIn(ot, sh.olen, oc, sh.oc);
      assert Entry(gemm, 0, sh.oc, ot, oc) == Entry(ws, pf, sh.oc, ot, oc);
      PackedDot(sh, x, w, packed, oc, ot);
    }
  }

  /** The packed rows lie in the first part of the workspace. */
  lemma PackedPrefix(s: seq<real>, sh: Shape, x: seq<real>, pf: nat)
    requires PackedRows(s, sh, x, sh.olen) && pf == sh.olen * (sh.ic * sh.kernel) <= |s|
    ensures PackedRows(s[..pf], sh, x, sh.olen)
  {
    var pc := sh.ic * sh.kernel;
    forall ot, ic, k | 0 <= ot < sh.olen && 0 <= ic < sh.ic && 0 <= k < sh.kernel
      ensures Entry(s[..pf], ot * pc, sh.kernel, ic, k) == Padded(sh, x, ot, ic, k)
    {
      RowIn(ot, sh.olen, pc);
      EntryIn(ic, sh.ic, k, sh.kernel);
      assert Entry(s, ot * pc, sh.kernel, ic, k) == Padded(sh, x, ot, ic, k);
    }
  }

  /**
  `conv1d`: unusable arguments leave the output alone; otherwise every path computes `Conv` for every
  channel and output and writes nothing else. `calls` are the slice calls made on the pool, in the
  order they finish, or one call on the whole range.
   */
  method Convolve(sh: Shape, x: seq<real>, w: seq<real>, b: seq<real>, y: array<real>, ws: array<real>,
                  calls: seq<(nat, PF.Slice)>)
    requires y != ws && PF.ExactCover(calls, sh.oc)
    modifies y, ws
    ensures if && 0 < sh.ic && 0 < sh.oc && 0 < sh.len && 0 < sh.olen && 0 < sh.kernel && 0 < sh.stride
               && sh.ic * sh.len <= |x| && sh.oc * sh.ic * sh.kernel <= |w| && sh.oc <= |b| && sh.oc * sh.olen <= y.Length
            then && (forall oc :: 0 <= oc < sh.oc ==> RowDone(y[..], sh, x, w, b, oc))
                 && SameOutside(y[..], old(y[..]), 0, sh.oc * sh.olen)
            else y[..] == old(y[..])
  {
    if !Usable(sh, x, w, b, y.Length) { return; }
    var columns := sh.ic * sh.kernel;
    if ws.Length >= sh.olen * columns + sh.olen * sh.oc && columns >= 32 {
      Im2col(sh, x, w, b, y, ws);
    } else {
      RunSlices(sh, x, w, b, y, calls);
    }
  }
}
