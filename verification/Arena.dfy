/** The bump allocator: aligned blocks cut from a slab, one after the other. */
module Arena {
  import opened Machine
  import opened Bits
  import opened ByteCodec

  /** The padding that brings an address to a multiple of `align`. */
  function Padding(address: nat, align: nat): (p: nat)
    requires align > 0
    ensures p < align && (address + p) % align == 0
  {
    var r := address % align;
    PaddingFits(address, align);
    if r == 0 then 0 else align - r
  }

  lemma PaddingFits(address: nat, align: nat)
    requires align > 0
    ensures var r := address % align; r == 0 || (address + (align - r)) % align == 0
  {
    var q, r := address / align, address % align;
    assert address == align * q + r;
    if r != 0 {
      assert address + (align - r) == align * (q + 1);
      DivModUnique(address + (align - r), align, q + 1, 0);
    }
  }

  /** No smaller padding aligns the address. */
  lemma PaddingLeast(address: nat, align: nat, p: nat)
    requires align > 0 && (address + p) % align == 0
    ensures Padding(address, align) <= p
  {
    var m := Padding(address, align);
    if p < m {
      var a, b := (address + p) / align, (address + m) / align;
      assert address + p == align * a && address + m == align * b;
      assert align * (b - a) == m - p;
      MultipleGap(align, b - a);
    }
  }

  /** A slab of bytes at an address, and how much of it is in use. */
  class Slab {
    const memory: array<U8>
    const address: nat
    var cursor: nat

    ghost predicate Valid()
      reads this
    {
      cursor <= memory.Length
    }

    constructor (m: array<U8>, at: nat)
      ensures Valid() && memory == m && address == at && cursor == 0
    {
      memory, address, cursor := m, at, 0;
    }

    /** Cuts the first aligned block that fits behind the cursor, or nothing. */
    method Alloc(align: nat, n: nat) returns (r: Option<nat>)
      requires Valid() && align > 0
      modifies this
      ensures Valid()
      ensures var at := old(cursor) + Padding(address + old(cursor), align);
              && (r.Some? <==> at + n <= memory.Length)
              && (r.Some? ==> r.value == at && (address + at) % align == 0 && cursor == at + n)
              && (r.None? ==> cursor == old(cursor))
    {
      var padding := Padding(address + cursor, align);
      var space := memory.Length - cursor;
      if n > space || padding > space - n { return None; }
      r := Some(cursor + padding);
      cursor := cursor + padding + n;
    }

    /** An array of `count` elements; a size that does not fit 64 bits is refused. */
    method AllocArray(align: nat, count: nat, size: nat) returns (r: Option<nat>)
      requires Valid() && align > 0 && size > 0
      modifies this
      ensures Valid()
      ensures var at := old(cursor) + Padding(address + old(cursor), align);
              && (r.Some? <==> count * size <= U64_MAX && at + count * size <= memory.Length)
              && (r.Some? ==> r.value == at && (address + at) % align == 0 && cursor == at + count * size)
              && (r.None? ==> cursor == old(cursor))
    {
      Fits(count, size);
      if count > U64_MAX / size { return None; }
      r := Alloc(align, count * size);
    }

    function Mark(): nat
      reads this
    {
      cursor
    }

    /** Gives back everything cut since the mark was taken. */
    method ResetTo(mark: nat)
      requires mark <= memory.Length
      modifies this
      ensures Valid() && cursor == mark
    {
      cursor := mark;
    }

    /**
    Serves a plan: its own blocks are those its own requests alone would get, whatever its scopes cut and
    gave back, and no block cut anywhere in it reaches below the cursor it started from.
     */
    method Serve(p: Plan) returns (own: seq<Option<nat>>, blocks: seq<Block>)
      requires Valid() && PlanOk(p)
      modifies this
      ensures Valid() && cursor == Used(address, memory.Length, old(cursor), Own(p))
      ensures own == Served(address, memory.Length, old(cursor), Own(p))
      ensures forall b :: b in blocks ==> old(cursor) <= b.at && b.at + b.size <= memory.Length
      ensures forall i :: 0 <= i < |own| && own[i].Some? ==> Block(own[i].value, Own(p)[i].size) in blocks
      decreases p
    {
      match p
      case Done => own, blocks := [], [];
      case Cut(request, rest) =>
        var r := Alloc(request.align, request.size);
        own, blocks := Serve(rest);
        own := [r] + own;
        if r.Some? { blocks := [Block(r.value, request.size)] + blocks; }
      case Scope(inner, rest) =>
        var mark := Mark();
        var _, scratch := Serve(inner);
        ResetTo(mark);
        own, blocks := Serve(rest);
        blocks := scratch + blocks;
    }
  }

  // ---- marks and resets -------------------------------------------------------------------

  datatype Request = Request(align: nat, size: nat)

  datatype Block = Block(at: nat, size: nat)

  /** Requests in order; a scope takes a mark, makes its own requests and resets to the mark. */
  datatype Plan = Done | Cut(request: Request, rest: Plan) | Scope(inner: Plan, rest: Plan)

  predicate PlanOk(p: Plan)
  {
    match p
    case Done => true
    case Cut(request, rest) => request.align > 0 && PlanOk(rest)
    case Scope(inner, rest) => PlanOk(inner) && PlanOk(rest)
  }

  predicate RequestsOk(rs: seq<Request>)
  {
    forall i :: 0 <= i < |rs| ==> rs[i].align > 0
  }

  /** The plan's requests outside its scopes. */
  function Own(p: Plan): (rs: seq<Request>)
    ensures PlanOk(p) ==> RequestsOk(rs)
  {
    match p
    case Done => []
    case Cut(request, rest) => [request] + Own(rest)
    case Scope(_, rest) => Own(rest)
  }

  /** The block a request gets from a slab used up to `cursor`. */
  function BlockFor(address: nat, size: nat, cursor: nat, r: Request): Option<nat>
    requires r.align > 0
  {
    var at := cursor + Padding(address + cursor, r.align);
    if at + r.size <= size then Some(at) else None
  }

  function Behind(address: nat, size: nat, cursor: nat, r: Request): nat
    requires r.align > 0
  {
    var b := BlockFor(address, size, cursor, r);
    if b.Some? then b.value + r.size else cursor
  }

  /** The cursor after the requests. */
  function Used(address: nat, size: nat, cursor: nat, rs: seq<Request>): nat
    requires RequestsOk(rs)
    decreases |rs|
  {
    if rs == [] then cursor else Used(address, size, Behind(address, size, cursor, rs[0]), rs[1..])
  }

  /** The blocks the requests get, one after the other. */
  function Served(address: nat, size: nat, cursor: nat, rs: seq<Request>): (r: seq<Option<nat>>)
    requires RequestsOk(rs)
    ensures |r| == |rs|
    decreases |rs|
  {
    if rs == [] then []
    else [BlockFor(address, size, cursor, rs[0])] + Served(address, size, Behind(address, size, cursor, rs[0]), rs[1..])
  }

  /** Blocks served lie behind the cursor, inside the slab, aligned, and before the cursor they leave. */
  lemma {:induction false} ServedInside(address: nat, size: nat, cursor: nat, rs: seq<Request>, j: nat)
    requires RequestsOk(rs) && cursor <= size && j < |rs|
    ensures cursor <= Used(address, size, cursor, rs) <= size
    ensures var b := Served(address, size, cursor, rs)[j];
            b.Some? ==> cursor <= b.value && (address + b.value) % rs[j].align == 0
                        && b.value + rs[j].size <= Used(address, size, cursor, rs)
    decreases |rs|
  {
    var next := Behind(address, size, cursor, rs[0]);
    if |rs| > 1 { ServedInside(address, size, next, rs[1..], if j > 0 then j - 1 else 0); }
  }

  /** Blocks served in one go never overlap. */
  lemma {:induction false} ServedApart(address: nat, size: nat, cursor: nat, rs: seq<Request>, i: nat, j: nat)
    requires RequestsOk(rs) && cursor <= size && i < j < |rs|
    ensures var b := Served(address, size, cursor, rs);
            b[i].Some? && b[j].Some? ==> b[i].value + rs[i].size <= b[j].value
    decreases |rs|
  {
    var next := Behind(address, size, cursor, rs[0]);
    if i == 0 {
      ServedInside(address, size, next, rs[1..], j - 1);
    } else {
      ServedApart(address, size, next, rs[1..], i - 1, j - 1);
    }
  }

  lemma Fits(count: nat, size: nat)
    requires size > 0
    ensures count <= U64_MAX / size <==> count * size <= U64_MAX
  {
    var q := U64_MAX / size;
    assert U64_MAX == size * q + U64_MAX % size;
    if count <= q {
      assert count * size <= q * size;
    } else {
      assert count * size >= (q + 1) * size;
    }
  }
}
