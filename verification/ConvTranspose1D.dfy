/** The implementations of `conv_transpose1d`, loop by loop, each proved to compute `ConvT`. */
module ConvTranspose1D {
  import opened Machine
  import opened Sums
  import opened ConvSpec
  import opened Gemm
  import opened Conv1D
  import PF = ParallelFor

  // ---- scatter ----------------------------------------------------------------------------

  lemma Permute(a: int, b: int, c: int)
    ensures (a * b) * c == (c * b) * a
  {
    assert (a * b) * c == c * (a * b);
    assert c * (a * b) == (c * a) * b;
    assert (c * a) * b == (c * b) * a;
  }

  lemma KernelMajorIn(sh: Shape, ic: nat, oc: nat, k: nat)
    requires ic < sh.ic && oc < sh.oc && k < sh.kernel
    ensures 0 <= (k * sh.oc + oc) * sh.ic + ic < (sh.ic * sh.oc) * sh.kernel
  {
    EntryIn(k, sh.kernel, oc, sh.oc);
    EntryIn(k * sh.oc + oc, sh.kernel * sh.oc, ic, sh.ic);
    Permute(sh.kernel, sh.oc, sh.ic);
  }

  lemma NativeIn(sh: Shape, ic: nat, oc: nat, k: nat)
    requires ic < sh.ic && oc < sh.oc && k < sh.kernel
    ensures 0 <= (ic * sh.oc + oc) * sh.kernel + k < (sh.ic * sh.oc) * sh.kernel
  {
    EntryIn(ic, sh.ic, oc, sh.oc);
    EntryIn(ic * sh.oc + oc, sh.ic * sh.oc, k, sh.kernel);
  }

  /** The weight of one tap, from either layout. */
  method FetchWeight(sh: Shape, w: seq<real>, kMajor: bool, ic: nat, oc: nat, k: nat) returns (wv: real)
    requires |w| >= (sh.ic * sh.oc) * sh.kernel && ic < sh.ic && oc < sh.oc && k < sh.kernel
    ensures wv == WeightAt(sh, w, kMajor, ic, oc, k)
  {
    if kMajor {
      KernelMajorIn(sh, ic, oc, k);
      wv := w[(k * sh.oc + oc) * sh.ic + ic];
    } else {
      NativeIn(sh, ic, oc, k);
      wv := w[(ic * sh.oc + oc) * sh.kernel + k];
    }
  }

  /** One tap of one input sample. */
  method SpreadTap(sh: Shape, x: seq<real>, w: seq<real>, kMajor: bool, y: array<real>, o: nat,
                   oc: nat, ic: nat, it: nat, k: nat)
    requires |x| >= sh.ic * sh.len && |w| >= (sh.ic * sh.oc) * sh.kernel && o + sh.olen <= y.Length
    requires oc < sh.oc && ic < sh.ic && it < sh.len && k < sh.kernel
    modifies y
    ensures forall t :: 0 <= t < sh.olen ==>
              Cell(y[..], o, t) == Cell(old(y[..]), o, t) + Spread(sh, x, w, kMajor, oc, t, ic, it, k)
    ensures SameOutside(y[..], old(y[..]), o, sh.olen)
  {
    EntryIn(ic, sh.ic, it, sh.len);
    var value := x[ic * sh.len + it];
    var padded := it * sh.stride + k;
    if padded >= sh.padding && padded - sh.padding < sh.olen {
      var index := padded - sh.padding;
      var wv := FetchWeight(sh, w, kMajor, ic, oc, k);
      var v := y[o + index] + value * wv;
      ghost var before := y[..];
      y[o + index] := v;
      OneCell(before, y[..], o, index, v);
      assert Spread(sh, x, w, kMajor, oc, index, ic, it, k) == value * wv;
    }
  }

  /** One input sample spread over the output row at `o`. */
  method SpreadPoint(sh: Shape, x: seq<real>, w: seq<real>, kMajor: bool, y: array<real>, o: nat,
                     oc: nat, ic: nat, it: nat)
    requires |x| >= sh.ic * sh.len && |w| >= (sh.ic * sh.oc) * sh.kernel && o + sh.olen <= y.Length
    requires oc < sh.oc && ic < sh.ic && it < sh.len
    modifies y
    ensures forall t :: 0 <= t < sh.olen ==>
              Cell(y[..], o, t) == Cell(old(y[..]), o, t) + SpreadSamples(sh, x, w, kMajor, oc, t, ic)(it)
    ensures SameOutside(y[..], old(y[..]), o, sh.olen)
  {
    var k := 0;
    while k < sh.kernel
      invariant 0 <= k <= sh.kernel
      invariant forall t :: 0 <= t < sh.olen ==>
                  Cell(y[..], o, t) == Cell(old(y[..]), o, t) + Sum(k, SpreadTaps(sh, x, w, kMajor, oc, t, ic, it))
      invariant SameOutside(y[..], old(y[..]), o, sh.olen)
    {
      SpreadTap(sh, x, w, kMajor, y, o, oc, ic, it, k);
      k := k + 1;
    }
  }

  /** A row that was not written is unchanged. */
  lemma OtherRow(a: seq<real>, c: seq<real>, m: nat, oc: nat, written: nat, t: nat)
    requires SameOutside(c, a, written * m, m) && oc != written && t < m
    ensures Entry(c, 0, m, oc, t) == Entry(a, 0, m, oc, t)
  {
    if oc < written { RowsApart(oc, written, m); } else { RowsApart(written, oc, m); }
  }

  /** The argument check of the transposed kernel. */
  predicate UsableT(sh: Shape, x: seq<real>, w: seq<real>, b: seq<real>, ylen: nat)
  {
    && sh.ic > 0 && sh.oc > 0 && sh.len > 0 && sh.olen > 0 && sh.kernel > 0 && sh.stride > 0
    && |x| >= sh.ic * sh.len && |w| >= (sh.ic * sh.oc) * sh.kernel && |b| >= sh.oc
    && ylen >= sh.oc * sh.olen
  }

  /** Rows `first` up to `last` start from their bias. */
  method FillRows(sh: Shape, b: seq<real>, y: array<real>, first: nat, last: nat)
    requires first <= last <= sh.oc && |b| >= sh.oc && y.Length >= sh.oc * sh.olen
    modifies y
    ensures forall oc, t :: first <= oc < last && 0 <= t < sh.olen ==> Entry(y[..], 0, sh.olen, oc, t) == b[oc]
    ensures SameOutside(y[..], old(y[..]), first * sh.olen, (last - first) * sh.olen)
  {
    var oc := first;
    while oc < last
      invariant first <= oc <= last
      invariant forall c, t :: first <= c < oc && 0 <= t < sh.olen ==> Entry(y[..], 0, sh.olen, c, t) == b[c]
      invariant SameOutside(y[..], old(y[..]), first * sh.olen, (last - first) * sh.olen)
    {
      RowIn(oc, sh.oc, sh.olen);
      ghost var before := y[..];
      FillRow(y, oc * sh.olen, sh.olen, b[oc]);
      forall c, t | first <= c <= oc && 0 <= t < sh.olen ensures Entry(y[..], 0, sh.olen, c, t) == b[c] {
        if c < oc {
          OtherRow(before, y[..], sh.olen, c, oc, t);
        } else {
          assert Entry(y[..], 0, sh.olen, c, t) == Cell(y[..], oc * sh.olen, t);
        }
      }
      RowInSpan(first, oc, last, sh.olen);
      oc := oc + 1;
    }
  }

  /** One input sample, for output channels `first` up to `last`. */
  method SpreadSample(sh: Shape, x: seq<real>, w: seq<real>, kMajor: bool, y: array<real>,
                      first: nat, last: nat, ic: nat, it: nat)
    requires |x| >= sh.ic * sh.len && |w| >= (sh.ic * sh.oc) * sh.kernel && y.Length >= sh.oc * sh.olen
    requires first <= last <= sh.oc && ic < sh.ic && it < sh.len
    modifies y
    ensures forall oc, t :: first <= oc < last && 0 <= t < sh.olen ==>
              Entry(y[..], 0, sh.olen, oc, t) ==
                Entry(old(y[..]), 0, sh.olen, oc, t) + SpreadSamples(sh, x, w, kMajor, oc, t, ic)(it)
    ensures SameOutside(y[..], old(y[..]), first * sh.olen, (last - first) * sh.olen)
  {
    var oc := first;
    while oc < last
      invariant first <= oc <= last
      invariant forall c, t :: first <= c < last && 0 <= t < sh.olen ==>
                  Entry(y[..], 0, sh.olen, c, t) == Entry(old(y[..]), 0, sh.olen, c, t)
                    + if c < oc then SpreadSamples(sh, x, w, kMajor, c, t, ic)(it) else 0.0
      invariant SameOutside(y[..], old(y[..]), first * sh.olen, (last - first) * sh.olen)
    {
      RowIn(oc, sh.oc, sh.olen);
      ghost var before := y[..];
      SpreadPoint(sh, x, w, kMajor, y, oc * sh.olen, oc, ic, it);
      forall c, t | first <= c < last && 0 <= t < sh.olen
        ensures Entry(y[..], 0, sh.olen, c, t) == Entry(before, 0, sh.olen, c, t)
                  + if c == oc then SpreadSamples(sh, x, w, kMajor, c, t, ic)(it) else 0.0
      {
        if c != oc {
          OtherRow(before, y[..], sh.olen, c, oc, t);
        } else {
          assert Entry(y[..], 0, sh.olen, c, t) == Cell(y[..], oc * sh.olen, t);
          assert Entry(before, 0, sh.olen, c, t) == Cell(before, oc * sh.olen, t);
        }
      }
      RowInSpan(first, oc, last, sh.olen);
      oc := oc + 1;
    }
  }

  /** One input channel, for output channels `first` up to `last`. */
  method SpreadChannel(sh: Shape, x: seq<real>, w: seq<real>, kMajor: bool, y: array<real>,
                       first: nat, last: nat, ic: nat)
    requires |x| >= sh.ic * sh.len && |w| >= (sh.ic * sh.oc) * sh.kernel && y.Length >= sh.oc * sh.olen
    requires first <= last <= sh.oc && ic < sh.ic
    modifies y
    ensures forall oc, t :: first <= oc < last && 0 <= t < sh.olen ==>
              Entry(y[..], 0, sh.olen, oc, t) ==
                Entry(old(y[..]), 0, sh.olen, oc, t) + SpreadChannels(sh, x, w, kMajor, oc, t)(ic)
    ensures SameOutside(y[..], old(y[..]), first * sh.olen, (last - first) * sh.olen)
  {
    var it := 0;
    while it < sh.len
      invariant 0 <= it <= sh.len
      invariant forall c, t :: first <= c < last && 0 <= t < sh.olen ==>
                  Entry(y[..], 0, sh.olen, c, t) ==
                    Entry(old(y[..]), 0, sh.olen, c, t) + Sum(it, SpreadSamples(sh, x, w, kMajor, c, t, ic))
      invariant SameOutside(y[..], old(y[..]), first * sh.olen, (last - first) * sh.olen)
    {
      SpreadSample(sh, x, w, kMajor, y, first, last, ic, it);
      it := it + 1;
    }
  }

  /** Output channel `oc` is finished. */
  ghost predicate RowDoneT(s: seq<real>, sh: Shape, x: seq<real>, w: seq<real>, b: seq<real>, kMajor: bool, oc: int)
  {
    forall t :: 0 <= t < sh.olen ==> Entry(s, 0, sh.olen, oc, t) == ConvT(sh, x, w, b, kMajor, oc, t)
  }

  /** The slice of work of the scatter path; the fixed 4/2 kernel is the same loop with native weights. */
  method Scatter(sh: Shape, x: seq<real>, w: seq<real>, b: seq<real>, kMajor: bool, y: array<real>,
                 first: nat, last: nat)
    requires UsableT(sh, x, w, b, y.Length) && first <= last <= sh.oc
    modifies y
    ensures forall oc :: first <= oc < last ==> RowDoneT(y[..], sh, x, w, b, kMajor, oc)
    ensures SameOutside(y[..], old(y[..]), first * sh.olen, (last - first) * sh.olen)
  {
    FillRows(sh, b, y, first, last);
    var ic := 0;
    while ic < sh.ic
      invariant 0 <= ic <= sh.ic
      invariant forall c, t :: first <= c < last && 0 <= t < sh.olen ==>
                  Entry(y[..], 0, sh.olen, c, t) == b[c] + Sum(ic, SpreadChannels(sh, x, w, kMajor, c, t))
      invariant SameOutside(y[..], old(y[..]), first * sh.olen, (last - first) * sh.olen)
    {
      SpreadChannel(sh, x, w, kMajor, y, first, last, ic);
      ic := ic + 1;
    }
  }

  // ---- one matrix product per tap ---------------------------------------------------------

  function TapProducts(sh: Shape, x: seq<real>, w: seq<real>, kMajor: bool, oc: int, it: int, k: int): int -> real
  {
    ic => At(x, ic * sh.len + it) * WeightAt(sh, w, kMajor, ic, oc, k)
  }

  /** What the samples at `it` add to output channel `oc` through tap `k`. */
  function TapDot(sh: Shape, x: seq<real>, w: seq<real>, kMajor: bool, oc: int, it: int, k: int): real
  {
    Sum(sh.ic, TapProducts(sh, x, w, kMajor, oc, it, k))
  }

  function TapSamples(sh: Shape, x: seq<real>, w: seq<real>, kMajor: bool, oc: int, t: int, k: int): int -> real
  {
    it => if it * sh.stride + k == t + sh.padding then TapDot(sh, x, w, kMajor, oc, it, k) else 0.0
  }

  function TapTotals(sh: Shape, x: seq<real>, w: seq<real>, kMajor: bool, oc: int, t: int): int -> real
  {
    k => Sum(sh.len, TapSamples(sh, x, w, kMajor, oc, t, k))
  }

  function ChannelSpread(sh: Shape, x: seq<real>, w: seq<real>, kMajor: bool, oc: int, t: int, it: int, k: int): int -> real
  {
    ic => Spread(sh, x, w, kMajor, oc, t, ic, it, k)
  }

  lemma TapSampleIsSum(sh: Shape, x: seq<real>, w: seq<real>, kMajor: bool, oc: int, t: int, it: int, k: int)
    ensures TapSamples(sh, x, w, kMajor, oc, t, k)(it) == Sum(sh.ic, ChannelSpread(sh, x, w, kMajor, oc, t, it, k))
  {
    if it * sh.stride + k == t + sh.padding {
      SumEqual(sh.ic, TapProducts(sh, x, w, kMajor, oc, it, k), ChannelSpread(sh, x, w, kMajor, oc, t, it, k));
    } else {
      SumZero(sh.ic, ChannelSpread(sh, x, w, kMajor, oc, t, it, k));
    }
  }

  /** For one input position: taps outside, channels inside, or the other way round. */
  lemma TapsByChannel(sh: Shape, x: seq<real>, w: seq<real>, kMajor: bool, oc: int, t: int, it: int)
    ensures Sum(sh.kernel, k => TapSamples(sh, x, w, kMajor, oc, t, k)(it))
            == Sum(sh.ic, ic => SpreadSamples(sh, x, w, kMajor, oc, t, ic)(it))
  {
    forall k | 0 <= k < sh.kernel
      ensures TapSamples(sh, x, w, kMajor, oc, t, k)(it) == Sum(sh.ic, ChannelSpread(sh, x, w, kMajor, oc, t, it, k))
    {
      TapSampleIsSum(sh, x, w, kMajor, oc, t, it, k);
    }
    assert forall ic :: 0 <= ic < sh.ic ==>
        SpreadSamples(sh, x, w, kMajor, oc, t, ic)(it) == Sum(sh.kernel, SpreadTaps(sh, x, w, kMajor, oc, t, ic, it));
    SumExchange(sh.kernel, sh.ic,
                k => TapSamples(sh, x, w, kMajor, oc, t, k)(it), ic => SpreadSamples(sh, x, w, kMajor, oc, t, ic)(it),
                k => ChannelSpread(sh, x, w, kMajor, oc, t, it, k), ic => SpreadTaps(sh, x, w, kMajor, oc, t, ic, it));
  }

  /** Summing tap by tap gives the transposed convolution. */
  lemma TapByTap(sh: Shape, x: seq<real>, w: seq<real>, kMajor: bool, oc: int, t: int)
    ensures Sum(sh.kernel, TapTotals(sh, x, w, kMajor, oc, t)) == Sum(sh.ic, SpreadChannels(sh, x, w, kMajor, oc, t))
  {
    var byIt := (it: int) => Sum(sh.kernel, k => TapSamples(sh, x, w, kMajor, oc, t, k)(it));
    SumExchange(sh.kernel, sh.len, TapTotals(sh, x, w, kMajor, oc, t), byIt,
                k => TapSamples(sh, x, w, kMajor, oc, t, k),
                it => (k => TapSamples(sh, x, w, kMajor, oc, t, k)(it)));
    forall it | 0 <= it < sh.len
      ensures byIt(it) == Sum(sh.ic, ic => SpreadSamples(sh, x, w, kMajor, oc, t, ic)(it))
    {
      TapsByChannel(sh, x, w, kMajor, oc, t, it);
    }
    SumExchange(sh.len, sh.ic, byIt, SpreadChannels(sh, x, w, kMajor, oc, t),
                it => (ic => SpreadSamples(sh, x, w, kMajor, oc, t, ic)(it)),
                ic => SpreadSamples(sh, x, w, kMajor, oc, t, ic));
  }

  /** The input, transposed into the front of the workspace. */
  method TransposeInput(sh: Shape, x: seq<real>, ws: array<real>)
    requires |x| >= sh.ic * sh.len && ws.Length >= sh.len * sh.ic
    modifies ws
    ensures forall it, ic :: 0 <= it < sh.len && 0 <= ic < sh.ic ==>
              Entry(ws[..], 0, sh.ic, it, ic) == At(x, ic * sh.len + it)
  {
    var ic := 0;
    while ic < sh.ic
      invariant 0 <= ic <= sh.ic
      invariant forall i, c :: 0 <= i < sh.len && 0 <= c < ic ==> Entry(ws[..], 0, sh.ic, i, c) == At(x, c * sh.len + i)
    {
      var it := 0;
      while it < sh.len
        invariant 0 <= it <= sh.len
        invariant forall i, c :: 0 <= i < sh.len && 0 <= c < ic ==> Entry(ws[..], 0, sh.ic, i, c) == At(x, c * sh.len + i)
        invariant forall i :: 0 <= i < it ==> Entry(ws[..], 0, sh.ic, i, ic) == At(x, ic * sh.len + i)
      {
        EntryIn(ic, sh.ic, it, sh.len);
        EntryIn(it, sh.len, ic, sh.ic);
        var v := x[ic * sh.len + it];
        ghost var before := ws[..];
        ws[it * sh.ic + ic] := v;
        OneEntry(before, ws[..], 0, sh.ic, it, ic, v);
        it := it + 1;
      }
      ic := ic + 1;
    }
  }

  const TILE: nat := 16

  /** One tile of the tap's weights: input channels `ic0..icEnd` by output channels `oc0..ocEnd`. */
  method TransposeTile(sh: Shape, w: seq<real>, ws: array<real>, off: nat, k: nat,
                       ic0: nat, icEnd: nat, oc0: nat, ocEnd: nat)
    requires |w| >= (sh.ic * sh.oc) * sh.kernel && off + sh.oc * sh.ic <= ws.Length && k < sh.kernel
    requires ic0 <= icEnd <= sh.ic && oc0 <= ocEnd <= sh.oc
    modifies ws
    ensures forall oc, ic :: 0 <= oc < sh.oc && 0 <= ic < sh.ic ==>
              Entry(ws[..], off, sh.ic, oc, ic) ==
                if ic0 <= ic < icEnd && oc0 <= oc < ocEnd then WeightAt(sh, w, false, ic, oc, k)
                else Entry(old(ws[..]), off, sh.ic, oc, ic)
    ensures SameOutside(ws[..], old(ws[..]), off, sh.oc * sh.ic)
  {
    var ic := ic0;
    while ic < icEnd
      invariant ic0 <= ic <= icEnd
      invariant forall o, i :: 0 <= o < sh.oc && 0 <= i < sh.ic ==>
                  Entry(ws[..], off, sh.ic, o, i) ==
                    if ic0 <= i < ic && oc0 <= o < ocEnd then WeightAt(sh, w, false, i, o, k)
                    else Entry(old(ws[..]), off, sh.ic, o, i)
      invariant SameOutside(ws[..], old(ws[..]), off, sh.oc * sh.ic)
    {
      TransposeColumn(sh, w, ws, off, k, ic, oc0, ocEnd);
      ic := ic + 1;
    }
  }

  method TransposeColumn(sh: Shape, w: seq<real>, ws: array<real>, off: nat, k: nat, ic: nat, oc0: nat, ocEnd: nat)
    requires |w| >= (sh.ic * sh.oc) * sh.kernel && off + sh.oc * sh.ic <= ws.Length && k < sh.kernel
    requires ic < sh.ic && oc0 <= ocEnd <= sh.oc
    modifies ws
    ensures forall oc, i :: 0 <= oc < sh.oc && 0 <= i < sh.ic ==>
              Entry(ws[..], off, sh.ic, oc, i) ==
                if i == ic && oc0 <= oc < ocEnd then WeightAt(sh, w, false, ic, oc, k)
                else Entry(old(ws[..]), off, sh.ic, oc, i)
    ensures SameOutside(ws[..], old(ws[..]), off, sh.oc * sh.ic)
  {
    var oc := oc0;
    while oc < ocEnd
      invariant oc0 <= oc <= ocEnd
      invariant forall o, i :: 0 <= o < sh.oc && 0 <= i < sh.ic ==>
                  Entry(ws[..], off, sh.ic, o, i) ==
                    if i == ic && oc0 <= o < oc then WeightAt(sh, w, false, ic, o, k)
                    else Entry(old(ws[..]), off, sh.ic, o, i)
      invariant SameOutside(ws[..], old(ws[..]), off, sh.oc * sh.ic)
    {
      EntryIn(oc, sh.oc, ic, sh.ic);
      var v := FetchWeight(sh, w, false, ic, oc, k);
      ghost var before := ws[..];
      ws[off + (oc * sh.ic + ic)] := v;
      OneEntry(before, ws[..], off, sh.ic, oc, ic, v);
      oc := oc + 1;
    }
  }

  /** The tap's weights in kernel-major order, tile by tile. */
  method TransposeWeights(sh: Shape, w: seq<real>, ws: array<real>, off: nat, k: nat)
    requires |w| >= (sh.ic * sh.oc) * sh.kernel && off + sh.oc * sh.ic <= ws.Length && k < sh.kernel
    modifies ws
    ensures forall oc, ic :: 0 <= oc < sh.oc && 0 <= ic < sh.ic ==>
              Entry(ws[..], off, sh.ic, oc, ic) == WeightAt(sh, w, false, ic, oc, k)
    ensures SameOutside(ws[..], old(ws[..]), off, sh.oc * sh.ic)
  {
    var ic0 := 0;
    while ic0 < sh.ic
      invariant 0 <= ic0
      invariant forall o, i :: 0 <= o < sh.oc && 0 <= i < sh.ic && i < ic0 ==>
                  Entry(ws[..], off, sh.ic, o, i) == WeightAt(sh, w, false, i, o, k)
      invariant SameOutside(ws[..], old(ws[..]), off, sh.oc * sh.ic)
    {
      var icEnd := Min(sh.ic, ic0 + TILE);
      var oc0 := 0;
      while oc0 < sh.oc
        invariant 0 <= oc0
        invariant forall o, i :: 0 <= o < sh.oc && 0 <= i < sh.ic && (i < ic0 || (i < icEnd && o < oc0)) ==>
                    Entry(ws[..], off, sh.ic, o, i) == WeightAt(sh, w, false, i, o, k)
        invariant SameOutside(ws[..], old(ws[..]), off, sh.oc * sh.ic)
      {
        var ocEnd := Min(sh.oc, oc0 + TILE);
        TransposeTile(sh, w, ws, off, k, ic0, icEnd, oc0, ocEnd);
        oc0 := oc0 + TILE;
      }
      ic0 := ic0 + TILE;
    }
  }

  /** The tap's product row added to output column `ot`. */
  method AddColumn(sh: Shape, gemm: seq<real>, y: array<real>, it: nat, ot: nat)
    requires |gemm| >= sh.len * sh.oc && it < sh.len && ot < sh.olen && y.Length >= sh.oc * sh.olen
    modifies y
    ensures forall oc, t :: 0 <= oc < sh.oc && 0 <= t < sh.olen ==>
              Entry(y[..], 0, sh.olen, oc, t) == Entry(old(y[..]), 0, sh.olen, oc, t)
                + if t == ot then Entry(gemm, 0, sh.oc, it, oc) else 0.0
    ensures SameOutside(y[..], old(y[..]), 0, sh.oc * sh.olen)
  {
    var oc := 0;
    while oc < sh.oc
      invariant 0 <= oc <= sh.oc
      invariant forall c, t :: 0 <= c < sh.oc && 0 <= t < sh.olen ==>
                  Entry(y[..], 0, sh.olen, c, t) == Entry(old(y[..]), 0, sh.olen, c, t)
                    + if t == ot && c < oc then Entry(gemm, 0, sh.oc, it, c) else 0.0
      invariant SameOutside(y[..], old(y[..]), 0, sh.oc * sh.olen)
    {
      EntryIn(oc, sh.oc, ot, sh.olen);
      EntryIn(it, sh.len, oc, sh.oc);
      ghost var before := y[..];
      var v := y[oc * sh.olen + ot] + gemm[it * sh.oc + oc];
      y[oc * sh.olen + ot] := v;
      OneEntry(before, y[..], 0, sh.olen, oc, ot, v);
      assert v == Entry(before, 0, sh.olen, oc, ot) + Entry(gemm, 0, sh.oc, it, oc);
      oc := oc + 1;
    }
  }

  /** One tap's product, scattered over the output. */
  method ScatterTap(sh: Shape, x: seq<real>, w: seq<real>, kMajor: bool, gemm: seq<real>, y: array<real>, k: nat)
    requires |gemm| >= sh.len * sh.oc && y.Length >= sh.oc * sh.olen
    requires forall it, oc :: 0 <= it < sh.len && 0 <= oc < sh.oc ==>
               Entry(gemm, 0, sh.oc, it, oc) == TapDot(sh, x, w, kMajor, oc, it, k)
    modifies y
    ensures forall oc, t :: 0 <= oc < sh.oc && 0 <= t < sh.olen ==>
              Entry(y[..], 0, sh.olen, oc, t) ==
                Entry(old(y[..]), 0, sh.olen, oc, t) + TapTotals(sh, x, w, kMajor, oc, t)(k)
    ensures SameOutside(y[..], old(y[..]), 0, sh.oc * sh.olen)
  {
    var it := 0;
    while it < sh.len
      invariant 0 <= it <= sh.len
      invariant forall c, t :: 0 <= c < sh.oc && 0 <= t < sh.olen ==>
                  Entry(y[..], 0, sh.olen, c, t) ==
                    Entry(old(y[..]), 0, sh.olen, c, t) + Sum(it, TapSamples(sh, x, w, kMajor, c, t, k))
      invariant SameOutside(y[..], old(y[..]), 0, sh.oc * sh.olen)
    {
      var origin := it * sh.stride + k - sh.padding;
      ghost var before := y[..];
      if 0 <= origin < sh.olen {
        AddColumn(sh, gemm, y, it, origin);
      }
      assert forall c, t :: 0 <= c < sh.oc && 0 <= t < sh.olen ==>
          Entry(y[..], 0, sh.olen, c, t) == Entry(before, 0, sh.olen, c, t) + TapSamples(sh, x, w, kMajor, c, t, k)(it);
      it := it + 1;
    }
  }

  /** The transposed input at the front of the workspace. */
  ghost predicate InputTransposed(s: seq<real>, sh: Shape, x: seq<real>)
  {
    forall it, ic :: 0 <= it < sh.len && 0 <= ic < sh.ic ==> Entry(s, 0, sh.ic, it, ic) == At(x, ic * sh.len + it)
  }

  lemma InputKept(a: seq<real>, c: seq<real>, sh: Shape, x: seq<real>, off: nat, n: nat)
    requires InputTransposed(a, sh, x) && SameOutside(c, a, off, n) && sh.len * sh.ic <= off
    ensures InputTransposed(c, sh, x)
  {
    forall it, ic | 0 <= it < sh.len && 0 <= ic < sh.ic
      ensures Entry(c, 0, sh.ic, it, ic) == At(x, ic * sh.len + it)
    {
      EntryIn(it, sh.len, ic, sh.ic);
      assert Entry(a, 0, sh.ic, it, ic) == At(x, ic * sh.len + it);
    }
  }

  /** The weights of tap `k` as a matrix of output by input channels. */
  ghost predicate TapWeights(s: seq<real>, sh: Shape, w: seq<real>, kMajor: bool, k: int)
  {
    forall oc, ic :: 0 <= oc < sh.oc && 0 <= ic < sh.ic ==> Entry(s, 0, sh.ic, oc, ic) == WeightAt(sh, w, kMajor, ic, oc, k)
  }

  lemma ProductIsTapDot(sh: Shape, x: seq<real>, w: seq<real>, kMajor: bool, xt: seq<real>, wk: seq<real>, k: int,
                        it: nat, oc: nat)
    requires InputTransposed(xt, sh, x) && TapWeights(wk, sh, w, kMajor, k) && it < sh.len && oc < sh.oc
    ensures Dot(xt, wk, sh.ic, it, oc) == TapDot(sh, x, w, kMajor, oc, it, k)
  {
    forall ic | 0 <= ic < sh.ic
      ensures Products(xt, wk, sh.ic, it, oc)(ic) == TapProducts(sh, x, w, kMajor, oc, it, k)(ic)
    {
      assert Entry(xt, 0, sh.ic, it, ic) == At(x, ic * sh.len + it);
      assert Entry(wk, 0, sh.ic, oc, ic) == WeightAt(sh, w, kMajor, ic, oc, k);
    }
    SumEqual(sh.ic, Products(xt, wk, sh.ic, it, oc), TapProducts(sh, x, w, kMajor, oc, it, k));
  }

  lemma TapBase(sh: Shape, k: nat)
    requires k < sh.kernel
    ensures 0 <= (k * sh.oc) * sh.ic && (k * sh.oc) * sh.ic + sh.oc * sh.ic <= (sh.ic * sh.oc) * sh.kernel
  {
    RowIn(k, sh.kernel, sh.oc * sh.ic);
    Permute(sh.kernel, sh.oc, sh.ic);
    assert (k * sh.oc) * sh.ic == k * (sh.oc * sh.ic);
    assert sh.kernel * (sh.oc * sh.ic) == (sh.kernel * sh.oc) * sh.ic;
  }

  lemma TapIndex(k: nat, oc: nat, ic: nat, n: nat, m: nat)
    ensures (k * n) * m + (oc * m + ic) == (k * n + oc) * m + ic
  {
  }

  lemma SliceOfTap(sh: Shape, w: seq<real>, k: nat)
    requires |w| >= (sh.ic * sh.oc) * sh.kernel && k < sh.kernel
    ensures 0 <= (k * sh.oc) * sh.ic && (k * sh.oc) * sh.ic + sh.oc * sh.ic <= |w|
    ensures TapWeights(w[(k * sh.oc) * sh.ic..(k * sh.oc) * sh.ic + sh.oc * sh.ic], sh, w, true, k)
  {
    TapBase(sh, k);
    var base, size := (k * sh.oc) * sh.ic, sh.oc * sh.ic;
    forall oc, ic | 0 <= oc < sh.oc && 0 <= ic < sh.ic
      ensures Entry(w[base..base + size], 0, sh.ic, oc, ic) == WeightAt(sh, w, true, ic, oc, k)
    {
      EntryIn(oc, sh.oc, ic, sh.ic);
      TapIndex(k, oc, ic, sh.oc, sh.ic);
      SliceEntry(w, base, size, oc * sh.ic + ic);
    }
  }

  lemma SliceEntry(w: seq<real>, base: nat, size: nat, i: nat)
    requires base + size <= |w| && i < size
    ensures At(w[base..base + size], i) == At(w, base + i)
  {
  }

  lemma PartOf(s: seq<real>, sh: Shape, w: seq<real>, k: nat, off: nat)
    requires off + sh.oc * sh.ic <= |s|
    requires forall oc, ic :: 0 <= oc < sh.oc && 0 <= ic < sh.ic ==>
               Entry(s, off, sh.ic, oc, ic) == WeightAt(sh, w, false, ic, oc, k)
    ensures TapWeights(s[off..off + sh.oc * sh.ic], sh, w, false, k)
  {
    var wk := s[off..off + sh.oc * sh.ic];
    forall oc, ic | 0 <= oc < sh.oc && 0 <= ic < sh.ic
      ensures Entry(wk, 0, sh.ic, oc, ic) == WeightAt(sh, w, false, ic, oc, k)
    {
      EntryIn(oc, sh.oc, ic, sh.ic);
      assert Entry(s, off, sh.ic, oc, ic) == WeightAt(sh, w, false, ic, oc, k);
    }
  }

  /** The weights of tap `k`: a slice of kernel-major weights, or transposed into the workspace. */
  method TapMatrix(sh: Shape, x: seq<real>, w: seq<real>, kMajor: bool, ws: array<real>, k: nat) returns (wk: seq<real>)
    requires |w| >= (sh.ic * sh.oc) * sh.kernel && k < sh.kernel && InputTransposed(ws[..], sh, x)
    requires ws.Length >= sh.len * sh.ic + if kMajor then 0 else sh.oc * sh.ic
    modifies ws
    ensures |wk| == sh.oc * sh.ic && TapWeights(wk, sh, w, kMajor, k) && InputTransposed(ws[..], sh, x)
  {
    if kMajor {
      SliceOfTap(sh, w, k);
      var base := (k * sh.oc) * sh.ic;
      wk := w[base..base + sh.oc * sh.ic];
    } else {
      var off := sh.len * sh.ic;
      TransposeWeights(sh, w, ws, off, k);
      InputKept(old(ws[..]), ws[..], sh, x, off, sh.oc * sh.ic);
      PartOf(ws[..], sh, w, k, off);
      wk := ws[off..off + sh.oc * sh.ic];
    }
  }

  /** The product of the transposed input and the weights of tap `k`. */
  method TapProduct(sh: Shape, x: seq<real>, w: seq<real>, kMajor: bool, ws: array<real>, k: nat, off: nat)
    returns (gemm: seq<real>)
    requires |w| >= (sh.ic * sh.oc) * sh.kernel && k < sh.kernel && InputTransposed(ws[..], sh, x)
    requires off == sh.len * sh.ic + (if kMajor then 0 else sh.oc * sh.ic) && ws.Length >= off + sh.len * sh.oc
    modifies ws
    ensures |gemm| == sh.len * sh.oc && InputTransposed(ws[..], sh, x)
    ensures forall it, oc :: 0 <= it < sh.len && 0 <= oc < sh.oc ==>
              Entry(gemm, 0, sh.oc, it, oc) == TapDot(sh, x, w, kMajor, oc, it, k)
  {
    var wk := TapMatrix(sh, x, w, kMajor, ws, k);
    var xt := ws[..sh.len * sh.ic];
    InputPrefix(ws[..], sh, x);
    ghost var before := ws[..];
    Matmul(xt, wk, ws, off, sh.len, sh.ic, sh.oc);
    InputKept(before, ws[..], sh, x, off, sh.len * sh.oc);
    gemm := ws[off..off + sh.len * sh.oc];
    forall it, oc | 0 <= it < sh.len && 0 <= oc < sh.oc
      ensures Entry(gemm, 0, sh.oc, it, oc) == TapDot(sh, x, w, kMajor, oc, it, k)
    {
      EntryIn(it, sh.len, oc, sh.oc);
      assert Entry(gemm, 0, sh.oc, it, oc) == Entry(ws[..], off, sh.oc, it, oc);
      ProductIsTapDot(sh, x, w, kMajor, xt, wk, k, it, oc);
    }
  }

  lemma InputPrefix(s: seq<real>, sh: Shape, x: seq<real>)
    requires InputTransposed(s, sh, x) && sh.len * sh.ic <= |s|
    ensures InputTransposed(s[..sh.len * sh.ic], sh, x)
  {
    forall it, ic | 0 <= it < sh.len && 0 <= ic < sh.ic
      ensures Entry(s[..sh.len * sh.ic], 0, sh.ic, it, ic) == At(x, ic * sh.len + it)
    {
      EntryIn(it, sh.len, ic, sh.ic);
      assert Entry(s, 0, sh.ic, it, ic) == At(x, ic * sh.len + it);
    }
  }

  /** Workspace the per-tap path needs. */
  function PackedNeed(sh: Shape, kMajor: bool): nat
  {
    sh.len * sh.ic + (if kMajor then 0 else sh.oc * sh.ic) + sh.len * sh.oc
  }

  /** The per-tap path. */
  method PerTap(sh: Shape, x: seq<real>, w: seq<real>, b: seq<real>, kMajor: bool, y: array<real>, ws: array<real>)
    requires UsableT(sh, x, w, b, y.Length) && y != ws && ws.Length >= PackedNeed(sh, kMajor)
    modifies y, ws
    ensures forall oc :: 0 <= oc < sh.oc ==> RowDoneT(y[..], sh, x, w, b, kMajor, oc)
    ensures SameOutside(y[..], old(y[..]), 0, sh.oc * sh.olen)
  {
    var off := sh.len * sh.ic + (if kMajor then 0 else sh.oc * sh.ic);
    TransposeInput(sh, x, ws);
    FillRows(sh, b, y, 0, sh.oc);
    var k := 0;
    while k < sh.kernel
      invariant 0 <= k <= sh.kernel
      invariant InputTransposed(ws[..], sh, x)
      invariant forall c, t :: 0 <= c < sh.oc && 0 <= t < sh.olen ==>
                  Entry(y[..], 0, sh.olen, c, t) == b[c] + Sum(k, TapTotals(sh, x, w, kMajor, c, t))
      invariant SameOutside(y[..], old(y[..]), 0, sh.oc * sh.olen)
    {
      var gemm := TapProduct(sh, x, w, kMajor, ws, k, off);
      ScatterTap(sh, x, w, kMajor, gemm, y, k);
      k := k + 1;
    }
    forall oc | 0 <= oc < sh.oc ensures RowDoneT(y[..], sh, x, w, b, kMajor, oc) {
      forall t | 0 <= t < sh.olen ensures Entry(y[..], 0, sh.olen, oc, t) == ConvT(sh, x, w, b, kMajor, oc, t) {
        TapByTap(sh, x, w, kMajor, oc, t);
      }
    }
  }

  // ---- the kernel -------------------------------------------------------------------------

  lemma RowKeptT(a: seq<real>, c: seq<real>, sh: Shape, x: seq<real>, w: seq<real>, b: seq<real>, kMajor: bool,
                 oc: nat, lo: nat, hi: nat)
    requires RowDoneT(a, sh, x, w, b, kMajor, oc) && lo <= hi && !(lo <= oc < hi)
    requires SameOutside(c, a, lo * sh.olen, (hi - lo) * sh.olen) && oc * sh.olen + sh.olen <= |a|
    ensures RowDoneT(c, sh, x, w, b, kMajor, oc)
  {
    RowSpan(lo, hi, sh.olen);
    if oc < lo { RowsApart(oc, lo, sh.olen); } else if hi < oc { RowsApart(hi, oc, sh.olen); }
    forall t | 0 <= t < sh.olen ensures Entry(c, 0, sh.olen, oc, t) == ConvT(sh, x, w, b, kMajor, oc, t) {
      assert Entry(a, 0, sh.olen, oc, t) == ConvT(sh, x, w, b, kMajor, oc, t);
    }
  }

  method RunSlicesT(sh: Shape, x: seq<real>, w: seq<real>, b: seq<real>, kMajor: bool, y: array<real>,
                    calls: seq<(nat, PF.Slice)>)
    requires UsableT(sh, x, w, b, y.Length) && PF.ExactCover(calls, sh.oc)
    modifies y
    ensures forall oc :: 0 <= oc < sh.oc ==> RowDoneT(y[..], sh, x, w, b, kMajor, oc)
    ensures SameOutside(y[..], old(y[..]), 0, sh.oc * sh.olen)
  {
    var i := 0;
    while i < |calls|
      invariant 0 <= i <= |calls|
      invariant forall k, oc :: 0 <= k < i && 0 <= oc < sh.oc && PF.Covers(calls[k].1, oc) ==>
                  RowDoneT(y[..], sh, x, w, b, kMajor, oc)
      invariant SameOutside(y[..], old(y[..]), 0, sh.oc * sh.olen)
    {
      var lo, hi := calls[i].1.0, calls[i].1.1;
      if lo <= hi {
        ghost var before := y[..];
        Scatter(sh, x, w, b, kMajor, y, lo, hi);
        forall k, oc | 0 <= k <= i && 0 <= oc < sh.oc && PF.Covers(calls[k].1, oc)
          ensures RowDoneT(y[..], sh, x, w, b, kMajor, oc)
        {
          if !(lo <= oc < hi) {
            RowIn(oc, sh.oc, sh.olen);
            assert RowDoneT(before, sh, x, w, b, kMajor, oc);
            RowKeptT(before, y[..], sh, x, w, b, kMajor, oc, lo, hi);
          }
        }
        RowSpan(lo, hi, sh.olen);
        PF.MulMonotone(hi, sh.oc, sh.olen);
      }
      i := i + 1;
    }
    forall oc | 0 <= oc < sh.oc ensures RowDoneT(y[..], sh, x, w, b, kMajor, oc) {
      assert PF.Handled(calls, oc);
      var k :| 0 <= k < |calls| && PF.Covers(calls[k].1, oc);
    }
  }

  /**
  `conv_transpose1d`: unusable arguments leave the output alone; otherwise the per-tap products with
  native or kernel-major weights and the scatter loops, whole or sliced, all compute `ConvT` for every
  channel and output and write nothing else.
   */
  method ConvolveTranspose(sh: Shape, x: seq<real>, w: seq<real>, b: seq<real>, kMajor: bool, y: array<real>,
                           ws: array<real>, calls: seq<(nat, PF.Slice)>)
    requires y != ws && PF.ExactCover(calls, sh.oc)
    modifies y, ws
    ensures if && 0 < sh.ic && 0 < sh.oc && 0 < sh.len && 0 < sh.olen && 0 < sh.kernel && 0 < sh.stride
               && sh.ic * sh.len <= |x| && sh.ic * sh.oc * sh.kernel <= |w| && sh.oc <= |b| && sh.oc * sh.olen <= y.Length
            then && (forall oc :: 0 <= oc < sh.oc ==> RowDoneT(y[..], sh, x, w, b, kMajor, oc))
                 && SameOutside(y[..], old(y[..]), 0, sh.oc * sh.olen)
            else y[..] == old(y[..])
  {
    if !UsableT(sh, x, w, b, y.Length) { return; }
    if ws.Length >= PackedNeed(sh, kMajor) && (sh.ic >= 32 || kMajor) {
      PerTap(sh, x, w, b, kMajor, y, ws);
    } else {
      RunSlicesT(sh, x, w, b, kMajor, y, calls);
    }
  }
}
