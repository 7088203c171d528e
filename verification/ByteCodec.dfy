/** Little-endian integers in byte buffers. */
module ByteCodec {
  import opened Bits
  import opened Machine

  type U8 = x: int | 0 <= x < 256

  function Pow256(n: nat): (p: nat)
    ensures p > 0
  {
    if n == 0 then 1 else 256 * Pow256(n - 1)
  }

  /** The low `width` bytes of a number, least significant first. */
  function Le(v: nat, width: nat): (b: seq<U8>)
    ensures |b| == width
  {
    if width == 0 then [] else [v % 256] + Le(v / 256, width - 1)
  }

  /** The number a little-endian byte sequence stands for. */
  function Value(b: seq<U8>): nat
  {
    if b == [] then 0 else b[0] + 256 * Value(b[1..])
  }

  /** `Value` undoes `Le` on every number that fits the width. */
  lemma {:induction false} ValueOfLe(v: nat, width: nat)
    requires v < Pow256(width)
    ensures Value(Le(v, width)) == v
  {
    if width > 0 {
      ValueOfLe(v / 256, width - 1);
      assert Le(v, width)[1..] == Le(v / 256, width - 1);
    }
  }

  /** `Le` undoes `Value` on every byte sequence. */
  lemma {:induction false} LeOfValue(b: seq<U8>)
    ensures Le(Value(b), |b|) == b && Value(b) < Pow256(|b|)
  {
    if b != [] {
      LeOfValue(b[1..]);
    }
  }

  /** A field reads as `v` exactly when it holds the bytes of `v`. */
  lemma ReadsAs(b: seq<U8>, v: nat)
    requires v < Pow256(|b|)
    ensures Value(b) == v <==> b == Le(v, |b|)
  {
    ValueOfLe(v, |b|);
    LeOfValue(b);
  }

  lemma Widths()
    ensures Pow256(2) == 0x1_0000 && Pow256(4) == 0x1_0000_0000 && Pow256(8) == 0x1_0000_0000_0000_0000
  {
    assert Pow256(3) == 256 * 0x1_0000;
    assert Pow256(5) == 256 * 0x1_0000_0000;
    assert Pow256(6) == 0x1_0000 * 0x1_0000_0000;
    assert Pow256(7) == 256 * Pow256(6);
  }

  lemma {:induction false} Digit(v: nat, width: nat, i: nat)
    requires i < width
    ensures Le(v, width)[i] == (v / Pow256(i)) % 256
  {
    if i > 0 {
      Digit(v / 256, width - 1, i - 1);
      DivideTwice(v, Pow256(i - 1));
    }
  }

  lemma DivideTwice(v: nat, b: nat)
    requires b > 0
    ensures (v / 256) / b == v / (256 * b)
  {
    var q := v / 256;
    var q2, r2 := q / b, q % b;
    assert q == b * q2 + r2;
    assert 256 * (b * q2) == (256 * b) * q2;
    DivModUnique(v, 256 * b, q2, 256 * r2 + v % 256);
  }

  lemma {:induction false} ValueAppend(b: seq<U8>, x: U8)
    ensures Value(b + [x]) == Value(b) + x * Pow256(|b|)
  {
    if b == [] {
      assert [x][1..] == [];
    } else {
      ValueAppend(b[1..], x);
      assert (b + [x])[1..] == b[1..] + [x];
      Rescale(x, Pow256(|b| - 1));
    }
  }

  lemma Rescale(x: int, p: int)
    ensures 256 * (x * p) == x * (256 * p)
  {
  }

  /** Stores the value; nothing outside the field changes. */
  method WriteLe(dst: array<U8>, offset: nat, value: nat, width: nat)
    requires offset + width <= dst.Length
    modifies dst
    ensures dst[offset..offset + width] == Le(value, width)
    ensures forall i :: 0 <= i < dst.Length && !(offset <= i < offset + width) ==> dst[i] == old(dst[i])
  {
    var i := 0;
    while i < width
      invariant 0 <= i <= width
      invariant dst[offset..offset + i] == Le(value, width)[..i]
      invariant forall j :: 0 <= j < dst.Length && !(offset <= j < offset + i) ==> dst[j] == old(dst[j])
    {
      Digit(value, width, i);
      dst[offset + i] := (value / Pow256(i)) % 256;
      i := i + 1;
    }
  }

  /** Reads a field; each byte lands on bits that are still clear, so the accumulation is a sum. */
  method ReadLe(src: seq<U8>, offset: nat, width: nat) returns (value: nat)
    requires offset + width <= |src|
    ensures value == Value(src[offset..offset + width]) && value < Pow256(width)
  {
    value := 0;
    var i := 0;
    while i < width
      invariant 0 <= i <= width && value == Value(src[offset..offset + i])
    {
      ValueAppend(src[offset..offset + i], src[offset + i]);
      assert src[offset..offset + i + 1] == src[offset..offset + i] + [src[offset + i]];
      value := value + src[offset + i] * Pow256(i);
      i := i + 1;
    }
    LeOfValue(src[offset..offset + width]);
  }

  /** Writing appends to a prefix that is already in place. */
  method Put(dst: array<U8>, offset: nat, value: nat, width: nat, ghost prefix: seq<U8>)
    requires offset + width <= dst.Length && dst[..offset] == prefix
    modifies dst
    ensures dst[..offset + width] == prefix + Le(value, width)
    ensures forall i :: offset + width <= i < dst.Length ==> dst[i] == old(dst[i])
  {
    WriteLe(dst, offset, value, width);
    assert dst[..offset] == prefix;
    assert dst[..offset + width] == dst[..offset] + dst[offset..offset + width];
  }

  /** Copies bytes behind a prefix that is already in place. */
  method PutBytes(dst: array<U8>, offset: nat, bytes: seq<U8>, ghost prefix: seq<U8>)
    requires offset + |bytes| <= dst.Length && dst[..offset] == prefix
    modifies dst
    ensures dst[..offset + |bytes|] == prefix + bytes
    ensures forall i :: offset + |bytes| <= i < dst.Length ==> dst[i] == old(dst[i])
  {
    var i := 0;
    while i < |bytes|
      invariant 0 <= i <= |bytes|
      invariant dst[..offset + i] == prefix + bytes[..i]
      invariant forall k :: offset + |bytes| <= k < dst.Length ==> dst[k] == old(dst[k])
    {
      dst[offset + i] := bytes[i];
      assert dst[..offset + i + 1] == dst[..offset + i] + [bytes[i]];
      i := i + 1;
    }
  }

  /** A buffer starts with `p + b` exactly when it starts with `p` and goes on with `b`. */
  lemma FieldAt(s: seq<U8>, p: seq<U8>, b: seq<U8>, i: nat, j: nat)
    requires i == |p| && j == i + |b| && j <= |s|
    ensures s[..j] == p + b <==> s[..i] == p && s[i..j] == b
  {
    assert s[..j] == s[..i] + s[i..j];
    if s[..j] == p + b {
      assert s[..i] == (p + b)[..i];
      assert s[i..j] == (p + b)[i..];
    }
  }

  lemma SubSlice(s: seq<U8>, i: nat, j: nat, k: nat, l: nat)
    requires k <= l && i + l <= j <= |s|
    ensures s[i..j][k..l] == s[i + k..i + l]
  {
    assert forall x :: 0 <= x < l - k ==> s[i..j][k..l][x] == s[i + k + x];
  }

  // ---- rows of 64-bit numbers -------------------------------------------------------------

  function Num(s: seq<U8>, i: nat, width: nat): nat
    requires i + width <= |s|
  {
    Value(s[i..i + width])
  }

  /** The numbers, eight bytes each, one after the other. */
  function Numbers(vs: seq<U64>): (b: seq<U8>)
    ensures |b| == 8 * |vs|
  {
    if vs == [] then [] else Numbers(vs[..|vs| - 1]) + Le(vs[|vs| - 1], 8)
  }

  predicate Holds(t: seq<U8>, i: nat, v: U64)
  {
    i + 8 <= |t| && t[i..i + 8] == Le(v, 8)
  }

  lemma HoldsReads(t: seq<U8>, i: nat, v: U64)
    requires i + 8 <= |t|
    ensures Holds(t, i, v) <==> Num(t, i, 8) == v
  {
    Widths();
    ReadsAs(t[i..i + 8], v);
  }

  lemma HoldsInside(t: seq<U8>, i: nat, j: nat, k: nat, v: U64)
    requires i + k + 8 <= j <= |t|
    ensures Holds(t[i..j], k, v) <==> Holds(t, i + k, v)
  {
    SubSlice(t, i, j, k, k + 8);
  }

  lemma LastHeld(t: seq<U8>, vs: seq<U64>, n: nat)
    requires |vs| == n + 1 && |t| == 8 * |vs|
    ensures t == Numbers(vs) <==> t[0..8 * n] == Numbers(vs[..n]) && Holds(t, 8 * n, vs[n])
  {
    FieldAt(t, Numbers(vs[..n]), Le(vs[n], 8), 8 * n, |t|);
    assert t[..|t|] == t && t[0..8 * n] == t[..8 * n];
  }

  lemma FrontHeld(t: seq<U8>, vs: seq<U64>, n: nat)
    requires n <= |vs| && |t| == 8 * |vs|
    ensures forall k :: 0 <= k < n ==> (Holds(t[0..8 * n], 8 * k, vs[..n][k]) <==> Holds(t, 8 * k, vs[k]))
  {
    forall k | 0 <= k < n ensures Holds(t[0..8 * n], 8 * k, vs[..n][k]) <==> Holds(t, 8 * k, vs[k]) {
      HoldsInside(t, 0, 8 * n, 8 * k, vs[k]);
    }
  }

  /** Every field of the row holds its number. */
  predicate AllHeld(t: seq<U8>, vs: seq<U64>)
    requires |t| == 8 * |vs|
  {
    forall k :: 0 <= k < |vs| ==> Holds(t, 8 * k, vs[k])
  }

  lemma AllHeldSplit(t: seq<U8>, vs: seq<U64>, n: nat)
    requires |vs| == n + 1 && |t| == 8 * |vs|
    ensures AllHeld(t, vs) <==> AllHeld(t[0..8 * n], vs[..n]) && Holds(t, 8 * n, vs[n])
  {
    FrontHeld(t, vs, n);
    if AllHeld(t[0..8 * n], vs[..n]) && Holds(t, 8 * n, vs[n]) {
      forall k | 0 <= k < |vs| ensures Holds(t, 8 * k, vs[k]) {
        assert k < n ==> Holds(t[0..8 * n], 8 * k, vs[..n][k]);
      }
    }
  }

  /** A row of bytes holds the numbers exactly when each field does. */
  lemma {:induction false} NumbersHeld(t: seq<U8>, vs: seq<U64>)
    requires |t| == 8 * |vs|
    ensures t == Numbers(vs) <==> AllHeld(t, vs)
  {
    if vs != [] {
      var n := |vs| - 1;
      NumbersHeld(t[0..8 * n], vs[..n]);
      LastHeld(t, vs, n);
      AllHeldSplit(t, vs, n);
    }
  }

  /** Stores the next number of the row. */
  method PutNumber(dst: array<U8>, offset: nat, value: U64, ghost prefix: seq<U8>, ghost vs: seq<U64>, ghost k: nat)
    requires offset + 8 <= dst.Length && k < |vs| && value == vs[k] && dst[..offset] == prefix + Numbers(vs[..k])
    modifies dst
    ensures dst[..offset + 8] == prefix + Numbers(vs[..k + 1])
    ensures forall i :: offset + 8 <= i < dst.Length ==> dst[i] == old(dst[i])
  {
    Put(dst, offset, value, 8, prefix + Numbers(vs[..k]));
    assert vs[..k + 1][..k] == vs[..k];
    assert prefix + Numbers(vs[..k]) + Le(value, 8) == prefix + (Numbers(vs[..k]) + Le(value, 8));
  }

  // ---- what both headers end with: seven numbers in bytes 40 to 96 --------------------------

  const ROW_END: nat := 96

  method PutRow(dst: array<U8>, offset: nat, ghost p: seq<U8>, vs: seq<U64>)
    requires offset + 56 <= dst.Length && |vs| == 7 && dst[..offset] == p
    modifies dst
    ensures dst[..offset + 56] == p + Numbers(vs)
    ensures forall i :: offset + 56 <= i < dst.Length ==> dst[i] == old(dst[i])
  {
    PutNumber(dst, offset, vs[0], p, vs, 0);
    PutNumber(dst, offset + 8, vs[1], p, vs, 1);
    PutNumber(dst, offset + 16, vs[2], p, vs, 2);
    PutNumber(dst, offset + 24, vs[3], p, vs, 3);
    PutNumber(dst, offset + 32, vs[4], p, vs, 4);
    PutNumber(dst, offset + 40, vs[5], p, vs, 5);
    PutNumber(dst, offset + 48, vs[6], p, vs, 6);
    assert vs[..7] == vs;
  }

  lemma RowReads(s: seq<U8>, vs: seq<U64>)
    requires |s| >= ROW_END && |vs| == 7
    ensures s[40..ROW_END] == Numbers(vs)
            <==> && Num(s, 40, 8) == vs[0] && Num(s, 48, 8) == vs[1] && Num(s, 56, 8) == vs[2] && Num(s, 64, 8) == vs[3]
                 && Num(s, 72, 8) == vs[4] && Num(s, 80, 8) == vs[5] && Num(s, 88, 8) == vs[6]
  {
    var t := s[40..ROW_END];
    NumbersHeld(t, vs);
    forall k | 0 <= k < 7 ensures Holds(t, 8 * k, vs[k]) <==> Holds(s, 40 + 8 * k, vs[k]) {
      HoldsInside(s, 40, ROW_END, 8 * k, vs[k]);
    }
    assert forall k :: 0 <= k < 7 ==> (Holds(t, 8 * k, vs[k]) <==> Holds(s, 40 + 8 * k, vs[k]));
    SevenReads(s, vs);
  }

  lemma SevenReads(s: seq<U8>, vs: seq<U64>)
    requires |s| >= ROW_END && |vs| == 7
    ensures (forall k :: 0 <= k < 7 ==> Holds(s, 40 + 8 * k, vs[k]))
            <==> && Num(s, 40, 8) == vs[0] && Num(s, 48, 8) == vs[1] && Num(s, 56, 8) == vs[2] && Num(s, 64, 8) == vs[3]
                 && Num(s, 72, 8) == vs[4] && Num(s, 80, 8) == vs[5] && Num(s, 88, 8) == vs[6]
  {
    HoldsReads(s, 40 + 8 * 0, vs[0]);
    HoldsReads(s, 40 + 8 * 1, vs[1]);
    HoldsReads(s, 40 + 8 * 2, vs[2]);
    HoldsReads(s, 40 + 8 * 3, vs[3]);
    HoldsReads(s, 40 + 8 * 4, vs[4]);
    HoldsReads(s, 40 + 8 * 5, vs[5]);
    HoldsReads(s, 40 + 8 * 6, vs[6]);
  }

  type Digest = d: seq<U8> | |d| == 16 witness seq(16, _ => 0)

  /** A content fingerprint; nothing is assumed of it but its size. */
  type Fingerprint = seq<U8> -> Digest

  // ---- two's complement -------------------------------------------------------------------

  type I32 = x: int | -0x8000_0000 <= x < 0x8000_0000

  function Bits32(x: I32): (b: nat)
    ensures b < 0x1_0000_0000
  {
    if x < 0 then x + 0x1_0000_0000 else x
  }

  function Signed32(b: nat): I32
    requires b < 0x1_0000_0000
  {
    if b >= 0x8000_0000 then b - 0x1_0000_0000 else b
  }
}
