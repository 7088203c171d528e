/** Cursors that write and read little-endian numbers, and the request encoding built on them. */
module StateCodec {
  import opened Machine
  import opened ByteCodec
  import opened MambaStream

  /** Writes numbers one after the other into a window of a buffer. */
  class StateWriter {
    const dst: array<U8>
    const base: nat
    const size: nat
    var position: nat

    ghost predicate Valid()
      reads this
    {
      base + size <= dst.Length && position <= size
    }

    ghost function Written(): seq<U8>
      requires Valid()
      reads this, dst
    {
      dst[base..base + position]
    }

    /** Nothing outside the window differs from `before`. */
    ghost predicate KeptOutside(before: seq<U8>)
      reads this, dst
    {
      |before| == dst.Length && forall i :: 0 <= i < dst.Length && !(base <= i < base + size) ==> dst[i] == before[i]
    }

    constructor (d: array<U8>, b: nat, n: nat)
      requires b + n <= d.Length
      ensures Valid() && dst == d && base == b && size == n && position == 0
    {
      dst, base, size, position := d, b, n, 0;
    }

    method Write(value: nat, width: nat) returns (ok: bool)
      requires Valid()
      modifies this, dst
      ensures Valid() && (ok <==> old(position) + width <= size)
      ensures position == if ok then old(position) + width else old(position)
      ensures Written() == if ok then old(Written()) + Le(value, width) else old(Written())
      ensures KeptOutside(old(dst[..]))
    {
      ok := size - position >= width;
      if ok {
        ghost var at := base + position;
        WriteLe(dst, base + position, value, width);
        assert dst[base..at] == old(Written());
        assert dst[base..at + width] == dst[base..at] + dst[at..at + width];
        position := position + width;
      }
    }
  }

  /** Reads numbers one after the other. */
  class StateReader {
    const source: seq<U8>
    var position: nat

    ghost predicate Valid()
      reads this
    {
      position <= |source|
    }

    constructor (s: seq<U8>)
      ensures Valid() && source == s && position == 0
    {
      source, position := s, 0;
    }

    method Read(width: nat) returns (r: Option<nat>)
      requires Valid()
      modifies this
      ensures Valid() && (r.Some? <==> old(position) + width <= |source|)
      ensures r.Some? ==> position == old(position) + width && r.value == Value(source[old(position)..position])
                          && r.value < Pow256(width)
      ensures r.None? ==> position == old(position)
    {
      if |source| - position < width { return None; }
      var v := ReadLe(source, position, width);
      position := position + width;
      r := Some(v);
    }
  }

  /** Tokens as the bytes of a request. */
  method EncodeRequest(tokens: seq<I32>, limit: nat, dst: array<U8>) returns (ok: bool)
    requires limit <= U64_MAX
    modifies dst
    ensures ok <==> tokens != [] && |tokens| <= limit / 4 && 4 * |tokens| <= dst.Length
    ensures ok ==> dst[..4 * |tokens|] == Words(BitsOf(tokens))
                   && forall i :: 4 * |tokens| <= i < dst.Length ==> dst[i] == old(dst[i])
    ensures !ok ==> unchanged(dst)
  {
    if |tokens| == 0 || |tokens| > limit / 4 || dst.Length < 4 * |tokens| { return false; }
    var writer := new StateWriter(dst, 0, 4 * |tokens|);
    WriteWords(writer, BitsOf(tokens));
    assert dst[..4 * |tokens|] == dst[0..0 + 4 * |tokens|];
    ok := true;
  }

  method WriteWords(writer: StateWriter, words: seq<U32>)
    requires writer.Valid() && writer.position + 4 * |words| <= writer.size
    modifies writer, writer.dst
    ensures writer.Valid() && writer.position == old(writer.position) + 4 * |words|
    ensures writer.Written() == old(writer.Written()) + Words(words)
    ensures writer.KeptOutside(old(writer.dst[..]))
  {
    ghost var before := writer.Written();
    var i := 0;
    while i < |words|
      invariant 0 <= i <= |words| && writer.Valid() && writer.position == old(writer.position) + 4 * i
      invariant writer.Written() == before + Words(words[..i])
      invariant writer.KeptOutside(old(writer.dst[..]))
    {
      var ok := writer.Write(words[i], 4);
      assert words[..i + 1][..i] == words[..i];
      i := i + 1;
    }
    assert words[..i] == words;
  }
}
