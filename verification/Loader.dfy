/** Loading a checkpoint in two passes: one sums up sizes, the other copies into a slab of that size. */
module Loader {
  import opened Machine
  import opened ByteCodec
  import opened Arena

  const MAX_SPANS: nat := 1024
  const ALIGN: nat := 64
  const PADDING: nat := 64512

  /** A tensor entry of the header, as the header iterator hands it out. */
  datatype Entry = Entry(offset: U64, length: U64, shape: seq<U64>, bf16: bool, supported: bool)

  /** The entries in order, and whether the header ends well behind them. */
  datatype Header = Header(entries: seq<Entry>, closed: bool)

  // ---- what is acceptable -----------------------------------------------------------------

  function Product(shape: seq<U64>): nat
  {
    if shape == [] then 1 else Product(shape[..|shape| - 1]) * shape[|shape| - 1]
  }

  function Width(e: Entry): nat { if e.bf16 then 2 else 4 }

  /** The dimensions multiply to the byte length, with no partial product beyond 64 bits. */
  predicate ShapeOk(e: Entry)
  {
    Product(e.shape) * Width(e) == e.length && forall k :: 0 <= k <= |e.shape| ==> Product(e.shape[..k]) <= U64_MAX
  }

  predicate InBounds(e: Entry, size: nat)
  {
    e.offset + e.length <= size
  }

  /** The overlap test: an empty span inside another one also counts. */
  predicate Overlap(a: Entry, b: Entry)
  {
    b.offset < a.offset + a.length && a.offset < b.offset + b.length
  }

  predicate Apart(es: seq<Entry>)
  {
    forall i, j :: 0 <= i < j < |es| ==> !Overlap(es[i], es[j])
  }

  predicate EntryOk(e: Entry, size: nat)
  {
    InBounds(e, size) && ShapeOk(e)
  }

  /** Entries that can all be loaded from a data section of `size` bytes. */
  predicate Acceptable(es: seq<Entry>, size: nat)
  {
    |es| <= MAX_SPANS && Apart(es) && forall i :: 0 <= i < |es| ==> EntryOk(es[i], size)
  }

  function Supported(es: seq<Entry>): seq<Entry>
  {
    if es == [] then []
    else
      var last := es[|es| - 1];
      Supported(es[..|es| - 1]) + if last.supported then [last] else []
  }

  function Total(es: seq<Entry>): nat
  {
    if es == [] then 0 else Total(es[..|es| - 1]) + es[|es| - 1].length
  }

  lemma {:induction false} SupportedSplit(es: seq<Entry>, k: nat)
    requires k <= |es|
    ensures Supported(es) == Supported(es[..k]) + Supported(es[k..])
    decreases |es|
  {
    if k < |es| {
      var n := |es| - 1;
      SupportedSplit(es[..n], k);
      assert es[..n][..k] == es[..k] && es[..n][k..] == es[k..][..n - k] && es[k..][n - k] == es[n];
    } else {
      assert es[..k] == es && es[k..] == [];
    }
  }

  /** One entry that is not acceptable behind its predecessors spoils the whole header. */
  lemma Spoiled(es: seq<Entry>, k: nat, size: nat)
    requires k <= |es| && !Acceptable(Supported(es[..k]), size)
    ensures !Acceptable(Supported(es), size)
  {
    SupportedSplit(es, k);
    var a, b := Supported(es[..k]), Supported(es);
    assert forall i :: 0 <= i < |a| ==> a[i] == b[i];
  }

  lemma AcceptablePrefix(es: seq<Entry>, e: Entry, size: nat)
    ensures Acceptable(es + [e], size) <==>
            Acceptable(es, size) && |es| < MAX_SPANS && EntryOk(e, size)
            && forall i :: 0 <= i < |es| ==> !Overlap(es[i], e)
  {
    var all := es + [e];
    assert all[|es|] == e && forall i :: 0 <= i < |es| ==> all[i] == es[i];
  }

  // ---- disjoint spans ---------------------------------------------------------------------

  /** The addresses of a span. */
  function Range(a: nat, n: nat): (r: set<int>)
    ensures forall x :: x in r <==> a <= x < a + n
  {
    if n == 0 then {} else Range(a, n - 1) + {a + n - 1}
  }

  lemma {:induction false} RangeSize(a: nat, n: nat)
    ensures |Range(a, n)| == n
    decreases n
  {
    if n > 0 { RangeSize(a, n - 1); }
  }

  /** The bytes the entries cover. */
  function Covered(es: seq<Entry>): set<int>
  {
    if es == [] then {} else Covered(es[..|es| - 1]) + Range(es[|es| - 1].offset, es[|es| - 1].length)
  }

  lemma {:induction false} CoveredBy(es: seq<Entry>, x: int)
    ensures x in Covered(es) <==> exists i :: 0 <= i < |es| && es[i].offset <= x < es[i].offset + es[i].length
  {
    if es != [] {
      var n := |es| - 1;
      CoveredBy(es[..n], x);
      if exists i :: 0 <= i < |es| && es[i].offset <= x < es[i].offset + es[i].length {
        var i :| 0 <= i < |es| && es[i].offset <= x < es[i].offset + es[i].length;
        if i < n { assert es[..n][i] == es[i]; }
      }
      if x in Covered(es[..n]) {
        var i :| 0 <= i < n && es[..n][i].offset <= x < es[..n][i].offset + es[..n][i].length;
        assert es[i] == es[..n][i];
      }
    }
  }

  /** Spans that do not overlap cover as many bytes as they have. */
  lemma {:induction false} CoveredSize(es: seq<Entry>)
    requires Apart(es)
    ensures |Covered(es)| == Total(es)
  {
    if es != [] {
      var n := |es| - 1;
      CoveredSize(es[..n]);
      var e := es[n];
      RangeSize(e.offset, e.length);
      forall x | x in Covered(es[..n]) ensures x !in Range(e.offset, e.length) {
        CoveredBy(es[..n], x);
        var i :| 0 <= i < n && es[..n][i].offset <= x < es[..n][i].offset + es[..n][i].length;
        assert !Overlap(es[i], es[n]);
      }
      assert Covered(es[..n]) !! Range(e.offset, e.length);
    }
  }

  /** Disjoint spans inside the data section never add up to more than it holds. */
  lemma TotalBounded(es: seq<Entry>, size: nat)
    requires Acceptable(es, size)
    ensures Total(es) <= size
  {
    CoveredSize(es);
    RangeSize(0, size);
    forall x | x in Covered(es) ensures x in Range(0, size) {
      CoveredBy(es, x);
      var i :| 0 <= i < |es| && es[i].offset <= x < es[i].offset + es[i].length;
      assert EntryOk(es[i], size);
    }
    SubsetSize(Covered(es), Range(0, size));
  }

  // ---- the checks as they run -------------------------------------------------------------

  /** The spans taken so far, in a fixed table. */
  class TensorSpanTracker {
    const dataSize: U64
    const spans: array<(U64, U64)>
    var count: nat

    ghost predicate Valid()
      reads this
    {
      spans.Length == MAX_SPANS && count <= MAX_SPANS
    }

    /** The table holds the spans of these entries. */
    ghost predicate Holds(es: seq<Entry>)
      reads this, spans
    {
      && Valid() && count == |es|
      && forall i :: 0 <= i < count ==> spans[i].0 == es[i].offset && spans[i].1 == es[i].offset + es[i].length
    }

    constructor (size: U64)
      ensures Holds([]) && dataSize == size && fresh(spans)
    {
      dataSize, count := size, 0;
      spans := new (U64, U64)[MAX_SPANS]((_: nat) => (0, 0));
    }

    /** Takes a span that lies in the data section, overlaps none before it, and has room in the table. */
    method Add(e: Entry, ghost es: seq<Entry>) returns (ok: bool)
      requires Holds(es)
      modifies this, spans
      ensures ok <==> InBounds(e, dataSize) && |es| < MAX_SPANS && forall i :: 0 <= i < |es| ==> !Overlap(es[i], e)
      ensures Holds(if ok then es + [e] else es)
    {
      if e.offset > dataSize || e.length > dataSize - e.offset || count == MAX_SPANS { return false; }
      var end: U64 := e.offset + e.length;
      var i := 0;
      while i < count
        invariant 0 <= i <= count && Holds(es)
        invariant forall j :: 0 <= j < i ==> !Overlap(es[j], e)
      {
        var (existing, existingEnd) := spans[i];
        if e.offset < existingEnd && existing < end {
          assert Overlap(es[i], e);
          return false;
        }
        i := i + 1;
      }
      spans[count] := (e.offset, end);
      count := count + 1;
      ok := true;
    }
  }

  /** Multiplies the dimensions, refusing a product beyond 64 bits. */
  method ValidShape(e: Entry) returns (ok: bool)
    ensures ok <==> ShapeOk(e)
    ensures ok <==> && (if e.bf16 then 2 * Product(e.shape) == e.length else 4 * Product(e.shape) == e.length)
                    && forall k :: 0 <= k <= |e.shape| ==> Product(e.shape[..k]) <= U64_MAX
  {
    var elements: U64 := 1;
    var i := 0;
    while i < |e.shape|
      invariant 0 <= i <= |e.shape| && elements == Product(e.shape[..i])
      invariant forall k :: 0 <= k <= i ==> Product(e.shape[..k]) <= U64_MAX
    {
      var d := e.shape[i];
      assert e.shape[..i + 1][..i] == e.shape[..i];
      if d != 0 { Fits(elements, d); }
      if d != 0 && elements > U64_MAX / d {
        assert Product(e.shape[..i + 1]) > U64_MAX;
        return false;
      }
      elements := elements * d;
      i := i + 1;
    }
    assert e.shape[..i] == e.shape;
    var width := if e.bf16 then 2 else 4;
    Fits(elements, width);
    ok := elements <= U64_MAX / width && elements * width == e.length;
  }

  lemma NextSupported(es: seq<Entry>, i: nat)
    requires i < |es|
    ensures Supported(es[..i + 1]) == if es[i].supported then Supported(es[..i]) + [es[i]] else Supported(es[..i])
  {
    assert es[..i + 1][..i] == es[..i];
  }

  lemma TotalSnoc(es: seq<Entry>, e: Entry)
    ensures Total(es + [e]) == Total(es) + e.length
  {
    assert (es + [e])[..|es|] == es;
  }

  /** The checks both passes make of an entry. */
  method CheckEntry(spans: TensorSpanTracker, e: Entry, ghost es: seq<Entry>) returns (ok: bool)
    requires spans.Holds(es) && Acceptable(es, spans.dataSize)
    modifies spans, spans.spans
    ensures ok <==> Acceptable(es + [e], spans.dataSize)
    ensures ok ==> spans.Holds(es + [e]) && Total(es) + e.length == Total(es + [e]) <= spans.dataSize
  {
    AcceptablePrefix(es, e, spans.dataSize);
    TotalSnoc(es, e);
    ok := spans.Add(e, es);
    if ok { ok := ValidShape(e); }
    if ok { TotalBounded(es + [e], spans.dataSize); }
  }

  // ---- the sizing pass --------------------------------------------------------------------

  /** Takes entry `i` into the sum if it is supported; nothing for an entry that cannot be loaded. */
  method SizeNext(entries: seq<Entry>, i: nat, spans: TensorSpanTracker, total: U64, dataSize: U64)
    returns (r: Option<U64>)
    requires i < |entries| && Sizing(spans, total, dataSize, Supported(entries[..i]))
    modifies spans, spans.spans
    ensures r.Some? ==> Sizing(spans, r.value, dataSize, Supported(entries[..i + 1]))
    ensures r.None? ==> !Acceptable(Supported(entries), dataSize)
  {
    NextSupported(entries, i);
    if !entries[i].supported { return Some(total); }
    r := AddBytes(spans, total, entries[i], dataSize, Supported(entries[..i]));
    if r.None? { SpoiledAt(entries, i, Supported(entries[..i]), dataSize); }
  }

  /** Sums up the supported entries one by one and stops at the first that cannot be loaded. */
  method SizeEntries(entries: seq<Entry>, dataSize: U64) returns (r: Option<U64>)
    ensures r.Some? <==> Acceptable(Supported(entries), dataSize)
    ensures r.Some? ==> r.value == Total(Supported(entries))
  {
    var spans := new TensorSpanTracker(dataSize);
    var total := 0;
    var i := 0;
    while i < |entries|
      invariant 0 <= i <= |entries| && fresh(spans) && fresh(spans.spans)
      invariant Sizing(spans, total, dataSize, Supported(entries[..i]))
    {
      var next := SizeNext(entries, i, spans, total, dataSize);
      if next.None? { return None; }
      total := next.value;
      i := i + 1;
    }
    assert entries[..i] == entries;
    r := Some(total);
  }

  /** The bytes to store, or 0 for a header that cannot be loaded; the sum never leaves 64 bits. */
  method WeightBytes(h: Header, dataSize: U64) returns (total: U64)
    ensures var es := Supported(h.entries);
            total == if h.closed && Acceptable(es, dataSize) then Total(es) else 0
  {
    var sum := SizeEntries(h.entries, dataSize);
    total := if sum.Some? && h.closed then sum.value else 0;
  }

  lemma SpoiledAt(entries: seq<Entry>, i: nat, es: seq<Entry>, size: nat)
    requires i < |entries| && entries[i].supported && es == Supported(entries[..i]) && !Acceptable(es + [entries[i]], size)
    ensures !Acceptable(Supported(entries), size)
  {
    NextSupported(entries, i);
    Spoiled(entries, i + 1, size);
  }

  /** The sizing pass after the entries `es`. */
  ghost predicate Sizing(spans: TensorSpanTracker, total: U64, dataSize: U64, es: seq<Entry>)
    reads spans, spans.spans
  {
    spans.Holds(es) && spans.dataSize == dataSize && Acceptable(es, dataSize) && total == Total(es)
  }

  /** Adds one entry; the guard against overflow never fires. */
  method AddBytes(spans: TensorSpanTracker, total: U64, e: Entry, dataSize: U64, ghost es: seq<Entry>)
    returns (r: Option<U64>)
    requires Sizing(spans, total, dataSize, es)
    modifies spans, spans.spans
    ensures r.Some? <==> Acceptable(es + [e], dataSize)
    ensures r.Some? ==> Sizing(spans, r.value, dataSize, es + [e])
  {
    var ok := CheckEntry(spans, e, es);
    if !ok || e.length > U64_MAX - total { return None; }
    r := Some(total + e.length);
  }

  // ---- the load pass ----------------------------------------------------------------------

  datatype View = View(at: nat, bytes: nat, bf16: bool, ndim: nat, shape: seq<U64>)

  function Shape4(shape: seq<U64>): seq<U64>
  {
    seq(4, (i: nat) => if i < |shape| then shape[i] else 0)
  }

  /** The block of an entry: aligned, inside the used part of the slab, holding the entry's file bytes. */
  predicate BlockOk(v: View, e: Entry, data: seq<U8>, memory: seq<U8>, address: nat, limit: nat)
  {
    && (address + v.at) % ALIGN == 0 && v.at + v.bytes <= limit <= |memory| && v.bytes == e.length
    && v.bf16 == e.bf16 && v.ndim == |e.shape| && |v.shape| == 4 && InBounds(e, |data|)
    && (forall i :: 0 <= i < 4 ==> v.shape[i] == if i < |e.shape| then e.shape[i] else 0)
    && memory[v.at..v.at + v.bytes] == data[e.offset..e.offset + e.length]
  }

  /** Every entry has its block, and the blocks lie one behind the other. */
  predicate Placed(views: seq<View>, es: seq<Entry>, data: seq<U8>, memory: seq<U8>, address: nat, limit: nat)
  {
    && |views| == |es| && (forall k :: 0 <= k < |es| ==> BlockOk(views[k], es[k], data, memory, address, limit))
    && forall j, k :: 0 <= j < k < |es| ==> views[j].at + views[j].bytes <= views[k].at
  }

  lemma BlockKept(v: View, e: Entry, data: seq<U8>, before: seq<U8>, after: seq<U8>, address: nat, limit: nat, more: nat)
    requires BlockOk(v, e, data, before, address, limit) && |after| == |before| && limit <= more <= |after|
    requires after[..limit] == before[..limit]
    ensures BlockOk(v, e, data, after, address, more)
  {
    assert after[v.at..v.at + v.bytes] == after[..limit][v.at..v.at + v.bytes];
    assert before[v.at..v.at + v.bytes] == before[..limit][v.at..v.at + v.bytes];
  }

  lemma PlacedMore(views: seq<View>, es: seq<Entry>, data: seq<U8>, before: seq<U8>, after: seq<U8>, address: nat,
                   limit: nat, more: nat, v: View, e: Entry)
    requires Placed(views, es, data, before, address, limit) && |after| == |before| && limit <= v.at <= more <= |after|
    requires after[..limit] == before[..limit] && BlockOk(v, e, data, after, address, more)
    ensures Placed(views + [v], es + [e], data, after, address, more)
  {
    forall k | 0 <= k < |es| ensures BlockOk(views[k], es[k], data, after, address, more) {
      BlockKept(views[k], es[k], data, before, after, address, limit, more);
    }
    assert forall j :: 0 <= j < |es| ==> BlockOk(views[j], es[j], data, before, address, limit);
  }

  /** Room for every block, whatever the padding. */
  predicate Roomy(slab: Slab, used: nat, es: seq<Entry>)
  {
    used + Total(es) + (ALIGN - 1) * |es| <= slab.memory.Length
  }

  /** Cuts a block for the entry and copies its bytes. */
  method Place(e: Entry, data: seq<U8>, slab: Slab) returns (r: Option<View>)
    requires slab.Valid() && InBounds(e, |data|)
    modifies slab, slab.memory
    ensures slab.Valid()
    ensures old(slab.cursor) + (ALIGN - 1) + e.length <= slab.memory.Length ==> r.Some?
    ensures r.Some? ==>
              && old(slab.cursor) <= r.value.at && slab.cursor <= old(slab.cursor) + (ALIGN - 1) + e.length
              && slab.memory[..old(slab.cursor)] == old(slab.memory[..slab.cursor])
              && BlockOk(r.value, e, data, slab.memory[..], slab.address, slab.cursor)
    ensures r.None? ==> slab.cursor == old(slab.cursor) && slab.memory[..] == old(slab.memory[..])
  {
    var at := slab.AllocArray(ALIGN, e.length, 1);
    if at.None? { return None; }
    var bytes := data[e.offset..e.offset + e.length];
    ghost var front := slab.memory[..at.value];
    PutBytes(slab.memory, at.value, bytes, front);
    assert slab.memory[..at.value + e.length][at.value..] == bytes;
    assert slab.memory[..at.value] == slab.memory[..at.value + e.length][..at.value];
    r := Some(View(at.value, e.length, e.bf16, |e.shape|, Shape4(e.shape)));
  }

  lemma {:induction false} TotalAppend(a: seq<Entry>, b: seq<Entry>)
    ensures Total(a + b) == Total(a) + Total(b)
    decreases |b|
  {
    if b == [] {
      assert a + b == a;
    } else {
      var n := |b| - 1;
      TotalAppend(a, b[..n]);
      assert (a + b)[..|a| + n] == a + b[..n];
    }
  }

  /** What is loaded so far is part of the whole. */
  lemma PartOf(es: seq<Entry>, k: nat)
    requires k <= |es|
    ensures Total(Supported(es[..k])) <= Total(Supported(es)) && |Supported(es[..k])| <= |Supported(es)|
  {
    SupportedSplit(es, k);
    TotalAppend(Supported(es[..k]), Supported(es[k..]));
  }

  /** The load pass after the entries `es`. */
  ghost predicate Loading(spans: TensorSpanTracker, slab: Slab, views: seq<View>, data: seq<U8>, es: seq<Entry>)
    reads spans, spans.spans, slab, slab.memory
  {
    && slab.Valid() && spans.Holds(es) && spans.dataSize == |data| && Acceptable(es, |data|)
    && Placed(views, es, data, slab.memory[..], slab.address, slab.cursor)
    && slab.cursor <= Total(es) + (ALIGN - 1) * |es|
  }

  /** Loads one entry: its checks, then its block. */
  method LoadEntry(spans: TensorSpanTracker, e: Entry, data: seq<U8>, slab: Slab, views: seq<View>, ghost es: seq<Entry>)
    returns (r: Option<View>)
    requires Loading(spans, slab, views, data, es)
    modifies slab, slab.memory, spans, spans.spans
    ensures r.Some? ==> Loading(spans, slab, views + [r.value], data, es + [e])
    ensures Acceptable(es + [e], |data|) && Roomy(slab, 0, es + [e]) ==> r.Some?
  {
    AcceptablePrefix(es, e, |data|);
    TotalSnoc(es, e);
    var ok := CheckEntry(spans, e, es);
    if !ok { return None; }
    ghost var before, limit := slab.memory[..], slab.cursor;
    r := Place(e, data, slab);
    if r.Some? {
      assert before[..limit] == slab.memory[..][..limit];
      PlacedMore(views, es, data, before, slab.memory[..], slab.address, limit, slab.cursor, r.value, e);
    }
  }

  /** Loads the supported entries one by one and stops at the first that is refused or has no view left. */
  method LoadEntries(h: Header, data: seq<U8>, slab: Slab, capacity: nat, spans: TensorSpanTracker)
    returns (done: bool, views: seq<View>)
    requires Loading(spans, slab, [], data, [])
    modifies slab, slab.memory, spans, spans.spans
    ensures done ==> Loading(spans, slab, views, data, Supported(h.entries)) && |views| <= capacity
    ensures !done ==> var es := Supported(h.entries); !(Acceptable(es, |data|) && |es| <= capacity && Roomy(slab, 0, es))
  {
    views := [];
    ghost var es: seq<Entry> := [];
    var i := 0;
    while i < |h.entries|
      invariant 0 <= i <= |h.entries| && |views| <= capacity
      invariant es == Supported(h.entries[..i]) && Loading(spans, slab, views, data, es)
    {
      NextSupported(h.entries, i);
      if h.entries[i].supported {
        if |views| >= capacity {
          PartOf(h.entries, i + 1);
          return false, views;
        }
        var view := LoadEntry(spans, h.entries[i], data, slab, views, es);
        if view.None? {
          Refused(h.entries, i, es, |data|, slab);
          return false, views;
        }
        views := views + [view.value];
        es := es + [h.entries[i]];
      }
      i := i + 1;
    }
    assert h.entries[..i] == h.entries;
    done := true;
  }

  /** The load pass over an empty slab. */
  method Load(h: Header, data: seq<U8>, slab: Slab, capacity: nat) returns (ok: bool, views: seq<View>)
    requires slab.Valid() && slab.cursor == 0 && |data| <= U64_MAX
    modifies slab, slab.memory
    ensures var es := Supported(h.entries);
            && (ok ==> h.closed && Acceptable(es, |data|) && 0 < |es| <= capacity)
            && (h.closed && Acceptable(es, |data|) && 0 < |es| <= capacity && Roomy(slab, 0, es) ==> ok)
            && (ok ==> slab.Valid() && Placed(views, es, data, slab.memory[..], slab.address, slab.cursor))
  {
    var spans := new TensorSpanTracker(|data|);
    var done;
    done, views := LoadEntries(h, data, slab, capacity, spans);
    ok := done && h.closed && |views| != 0;
  }

  /** An entry that is not loaded is not acceptable, or does not find room. */
  lemma Refused(entries: seq<Entry>, i: nat, es: seq<Entry>, size: nat, slab: Slab)
    requires i < |entries| && entries[i].supported && es == Supported(entries[..i])
    requires !(Acceptable(es + [entries[i]], size) && Roomy(slab, 0, es + [entries[i]]))
    ensures !(Acceptable(Supported(entries), size) && Roomy(slab, 0, Supported(entries)))
  {
    if !Acceptable(es + [entries[i]], size) {
      SpoiledAt(entries, i, es, size);
    } else {
      NextSupported(entries, i);
      PartOf(entries, i + 1);
    }
  }

  // ---- both passes ------------------------------------------------------------------------

  /** A loaded checkpoint: the slab and a view of each tensor. */
  datatype Weights = Weights(slab: Slab, views: seq<View>, bytes: nat)

  /**
  Two-pass agreement: a checkpoint opens exactly when its entries are acceptable and hold at least one byte.
  The load pass then never runs out of slab or views, and every tensor has its own aligned block with its bytes.
   */
  method Open(h: Header, data: seq<U8>, address: nat) returns (r: Option<Weights>)
    requires |data| <= U64_MAX
    ensures var es := Supported(h.entries);
            && (r.Some? <==> h.closed && Acceptable(es, |data|) && 0 < Total(es) <= U64_MAX - PADDING)
            && (r.Some? ==> var w := r.value;
                            && fresh(w.slab) && w.slab.Valid() && w.slab.address == address && w.bytes == Total(es)
                            && w.slab.memory.Length == w.bytes + PADDING
                            && Placed(w.views, es, data, w.slab.memory[..], address, w.slab.cursor))
  {
    var bytes := WeightBytes(h, |data|);
    if bytes == 0 || bytes > U64_MAX - PADDING { return None; }
    var storage := new U8[bytes + PADDING](_ => 0);
    var slab := new Slab(storage, address);
    ghost var es := Supported(h.entries);
    assert Roomy(slab, 0, es);
    var ok, views := Load(h, data, slab, MAX_SPANS);
    r := if ok then Some(Weights(slab, views, bytes)) else None;
  }

  /** Blocks of different tensors share no byte. */
  lemma BlocksDisjoint(views: seq<View>, es: seq<Entry>, data: seq<U8>, memory: seq<U8>, address: nat, limit: nat, j: nat, k: nat)
    requires Placed(views, es, data, memory, address, limit) && j < |es| && k < |es| && j != k
    ensures Range(views[j].at, views[j].bytes) !! Range(views[k].at, views[k].bytes)
  {
    var a, b := if j < k then j else k, if j < k then k else j;
    assert views[a].at + views[a].bytes <= views[b].at;
  }
}
