/** The matrix product the kernels call, with a transposed second operand: out[r][o] = sum of in[r][i] * w[o][i]. */
module Gemm {
  import opened Sums
  import opened ConvSpec

  function Products(inp: seq<real>, w: seq<real>, inDim: nat, r: int, o: int): int -> real
  {
    i => At(inp, r * inDim + i) * At(w, o * inDim + i)
  }

  function Dot(inp: seq<real>, w: seq<real>, inDim: nat, r: int, o: int): real
  {
    Sum(inDim, Products(inp, w, inDim, r, o))
  }

  method DotProduct(inp: seq<real>, w: seq<real>, inDim: nat, r: nat, o: nat) returns (acc: real)
    requires r * inDim + inDim <= |inp| && o * inDim + inDim <= |w|
    ensures acc == Dot(inp, w, inDim, r, o)
  {
    acc := 0.0;
    var ir, wr := r * inDim, o * inDim;
    var i := 0;
    while i < inDim
      invariant 0 <= i <= inDim
      invariant acc == Sum(i, Products(inp, w, inDim, r, o))
    {
      acc := acc + inp[ir + i] * w[wr + i];
      i := i + 1;
    }
  }

  /** Column `o` of the product. */
  method Column(inp: seq<real>, w: seq<real>, out: array<real>, off: nat, rows: nat, inDim: nat, outDim: nat, o: nat)
    requires |inp| >= rows * inDim && |w| >= outDim * inDim && o < outDim
    requires off + rows * outDim <= out.Length
    modifies out
    ensures forall r :: 0 <= r < rows ==> Entry(out[..], off, outDim, r, o) == Dot(inp, w, inDim, r, o)
    ensures forall r, q :: 0 <= r < rows && 0 <= q < outDim && q != o ==>
              Entry(out[..], off, outDim, r, q) == Entry(old(out[..]), off, outDim, r, q)
    ensures SameOutside(out[..], old(out[..]), off, rows * outDim)
  {
    RowIn(o, outDim, inDim);
    var r := 0;
    while r < rows
      invariant 0 <= r <= rows
      invariant forall p :: 0 <= p < r ==> Entry(out[..], off, outDim, p, o) == Dot(inp, w, inDim, p, o)
      invariant forall p, q :: 0 <= p < rows && 0 <= q < outDim && q != o ==>
                  Entry(out[..], off, outDim, p, q) == Entry(old(out[..]), off, outDim, p, q)
      invariant SameOutside(out[..], old(out[..]), off, rows * outDim)
    {
      RowIn(r, rows, inDim);
      EntryIn(r, rows, o, outDim);
      var acc := DotProduct(inp, w, inDim, r, o);
      ghost var before := out[..];
      out[off + (r * outDim + o)] := acc;
      OneEntry(before, out[..], off, outDim, r, o, acc);
      r := r + 1;
    }
  }

  method Matmul(inp: seq<real>, w: seq<real>, out: array<real>, off: nat, rows: nat, inDim: nat, outDim: nat)
    requires |inp| >= rows * inDim && |w| >= outDim * inDim
    requires off + rows * outDim <= out.Length
    modifies out
    ensures forall r, o :: 0 <= r < rows && 0 <= o < outDim ==>
              Entry(out[..], off, outDim, r, o) == Dot(inp, w, inDim, r, o)
    ensures SameOutside(out[..], old(out[..]), off, rows * outDim)
  {
    var o := 0;
    while o < outDim
      invariant 0 <= o <= outDim
      invariant forall r, q :: 0 <= r < rows && 0 <= q < o ==>
                  Entry(out[..], off, outDim, r, q) == Dot(inp, w, inDim, r, q)
      invariant SameOutside(out[..], old(out[..]), off, rows * outDim)
    {
      Column(inp, w, out, off, rows, inDim, outDim, o);
      o := o + 1;
    }
  }
}
