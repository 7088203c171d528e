/** The decode-state snapshot: a 96-byte header that names the model, then the state. */
module Snapshot {
  import opened Machine
  import opened ByteCodec

  const HEADER: nat := 96
  const VERSION: nat := 1
  const MAGIC: seq<U8> := [70, 69, 83, 78, 65, 80, 48, 49]

  datatype Identity = Identity(digest: Digest, architecture: U32, precision: U32, dModel: U64, nLayers: U64,
                               dInner: U64, dState: U64, dConv: U64, actionDim: U64, conditionDim: U64)

  /** The fields a snapshot stores: all but the two head dimensions. */
  function Stored(id: Identity): Identity
  {
    id.(actionDim := 0, conditionDim := 0)
  }

  function Checksum(fp: Fingerprint, payload: seq<U8>): U64
  {
    LeOfValue(fp(payload)[..8]);
    Widths();
    Value(fp(payload)[..8])
  }

  // ---- the header, field after field ------------------------------------------------------

  function Preamble(): (b: seq<U8>)
    ensures |b| == 16
  {
    MAGIC + Le(VERSION, 2) + Le(HEADER, 2) + Le(0, 4)
  }

  function ModelPart(id: Identity): (b: seq<U8>)
    ensures |b| == 24
  {
    Le(id.architecture, 4) + Le(id.precision, 4) + id.digest
  }

  /** The five dimensions, the size of the state and its checksum. */
  function Sizes(fp: Fingerprint, id: Identity, payload: seq<U8>): seq<U64>
    requires Fits(payload)
  {
    [id.dModel, id.nLayers, id.dInner, id.dState, id.dConv, |payload|, Checksum(fp, payload)]
  }

  /** Exactly the bytes of a snapshot of `payload` for the model `id`. */
  function Encoded(fp: Fingerprint, id: Identity, payload: seq<U8>): (b: seq<U8>)
    requires Fits(payload)
    ensures |b| == HEADER + |payload|
  {
    Preamble() + ModelPart(id) + Numbers(Sizes(fp, id, payload)) + payload
  }

  lemma PayloadAtEnd(fp: Fingerprint, id: Identity, payload: seq<U8>)
    requires Fits(payload)
    ensures Encoded(fp, id, payload)[HEADER..] == payload
  {
  }

  predicate Fits(payload: seq<U8>)
  {
    |payload| <= U64_MAX - HEADER
  }

  // ---- the format, byte by byte -----------------------------------------------------------

  /** What the bytes of a snapshot are, offset by offset, in terms of the identity and the fingerprint alone. */
  predicate Layout(fp: Fingerprint, id: Identity, s: seq<U8>)
  {
    && 96 <= |s| <= U64_MAX && s[..16] == [70, 69, 83, 78, 65, 80, 48, 49, 1, 0, 96, 0, 0, 0, 0, 0]
    && s[16..20] == Le(id.architecture, 4) && s[20..24] == Le(id.precision, 4) && s[24..40] == id.digest
    && s[40..48] == Le(id.dModel, 8) && s[48..56] == Le(id.nLayers, 8) && s[56..64] == Le(id.dInner, 8)
    && s[64..72] == Le(id.dState, 8) && s[72..80] == Le(id.dConv, 8)
    && s[80..88] == Le(|s| - 96, 8) && s[88..96] == fp(s[96..])[..8]
  }

  lemma PreambleIs()
    ensures Preamble() == [70, 69, 83, 78, 65, 80, 48, 49, 1, 0, 96, 0, 0, 0, 0, 0]
  {
    assert Le(VERSION, 2) == [1, 0] && Le(HEADER, 2) == [96, 0];
    assert Le(0, 2) == [0, 0] && Le(0, 4) == [0, 0] + Le(0, 2);
  }

  lemma ChecksumIs(fp: Fingerprint, b: seq<U8>, payload: seq<U8>)
    requires |b| == 8
    ensures Value(b) == Checksum(fp, payload) <==> b == fp(payload)[..8]
  {
    LeOfValue(b);
    LeOfValue(fp(payload)[..8]);
  }

  lemma DimensionsAre(id: Identity, s: seq<U8>)
    requires |s| >= HEADER
    ensures ModelReads(id, s)
            <==> && s[16..40] == ModelPart(id)
                 && s[40..48] == Le(id.dModel, 8) && s[48..56] == Le(id.nLayers, 8) && s[56..64] == Le(id.dInner, 8)
                 && s[64..72] == Le(id.dState, 8) && s[72..80] == Le(id.dConv, 8)
  {
    ModelBytes(id, s);
    HoldsReads(s, 40, id.dModel);
    HoldsReads(s, 48, id.nLayers);
    HoldsReads(s, 56, id.dInner);
    HoldsReads(s, 64, id.dState);
    HoldsReads(s, 72, id.dConv);
  }

  lemma ModelPartIs(id: Identity, s: seq<U8>)
    requires |s| >= HEADER
    ensures s[16..40] == ModelPart(id)
            <==> s[16..20] == Le(id.architecture, 4) && s[20..24] == Le(id.precision, 4) && s[24..40] == id.digest
  {
    Widths();
    ModelBytes(id, s);
    ReadsAs(s[16..20], id.architecture);
    ReadsAs(s[20..24], id.precision);
  }

  lemma FrontIs(id: Identity, s: seq<U8>)
    requires |s| >= HEADER
    ensures PreambleReads(s) && ModelReads(id, s)
            <==> && s[..16] == [70, 69, 83, 78, 65, 80, 48, 49, 1, 0, 96, 0, 0, 0, 0, 0]
                 && s[16..20] == Le(id.architecture, 4) && s[20..24] == Le(id.precision, 4) && s[24..40] == id.digest
                 && s[40..48] == Le(id.dModel, 8) && s[48..56] == Le(id.nLayers, 8) && s[56..64] == Le(id.dInner, 8)
                 && s[64..72] == Le(id.dState, 8) && s[72..80] == Le(id.dConv, 8)
  {
    PreambleIs();
    PreambleBytes(s);
    DimensionsAre(id, s);
    ModelPartIs(id, s);
  }

  /** Import accepts exactly the byte sequences laid out like this. */
  lemma AcceptsLayout(fp: Fingerprint, id: Identity, s: seq<U8>, size: nat)
    requires |s| <= U64_MAX
    ensures Accepts(fp, id, s, size) <==> |s| == 96 + size && Layout(fp, id, s)
  {
    if |s| == HEADER + size {
      FrontIs(id, s);
      HoldsReads(s, 80, size);
      ChecksumIs(fp, s[88..96], s[HEADER..]);
    }
  }

  /** A state put under the header of another is refused when their fingerprints differ in the stored bytes. */
  lemma SwappedPayloadRefused(fp: Fingerprint, id: Identity, other: Identity, payload: seq<U8>, swapped: seq<U8>)
    requires Fits(payload) && |swapped| == |payload| && fp(swapped)[..8] != fp(payload)[..8]
    ensures !Accepts(fp, other, Encoded(fp, id, payload)[..96] + swapped, |swapped|)
  {
    var s, t := Encoded(fp, id, payload), Encoded(fp, id, payload)[..96] + swapped;
    PayloadAtEnd(fp, id, payload);
    AcceptsExactly(fp, id, s, |payload|);
    AcceptsLayout(fp, id, s, |payload|);
    AcceptsLayout(fp, other, t, |swapped|);
    assert t[96..] == swapped && s[96..] == payload;
    assert t[88..96] == s[88..96];
  }

  /** The error of an import is that of the first check that fails. */
  predicate Explains(fp: Fingerprint, id: Identity, s: seq<U8>, size: nat, r: Status)
  {
    match r
    case Truncated => |s| < 96
    case BadMagic => |s| >= 96 && s[..8] != [70, 69, 83, 78, 65, 80, 48, 49]
    case BadVersion => |s| >= 96 && s[..8] == MAGIC && s[8..12] != [1, 0, 96, 0]
    case BadFlags => |s| >= 96 && s[..8] == MAGIC && s[8..12] == [1, 0, 96, 0] && s[12..16] != [0, 0, 0, 0]
    case BadSize => |s| >= 96 && PreambleReads(s) && (s[80..88] != Le(size, 8) || size > U64_MAX || |s| != 96 + size)
    case WrongModel => |s| >= 96 && PreambleReads(s) && |s| == 96 + size && !ModelReads(id, s)
    case BadChecksum =>
      |s| >= 96 && PreambleReads(s) && |s| == 96 + size && ModelReads(id, s) && s[88..96] != fp(s[96..])[..8]
    case Ok => Layout(fp, id, s) && |s| == 96 + size
    case TooSmall => false
  }

  datatype Status = Ok | TooSmall | Truncated | BadMagic | BadVersion | BadFlags | BadSize | WrongModel | BadChecksum

  /** Writes the snapshot into a window of the buffer, or leaves the buffer alone when the window is too small. */
  method Export(fp: Fingerprint, id: Identity, payload: seq<U8>, dst: array<U8>, base: nat, size: nat) returns (r: Status)
    requires base + size <= dst.Length
    modifies dst
    ensures r == if Fits(payload) && size >= HEADER + |payload| then Ok else TooSmall
    ensures r == Ok ==> dst[..base + HEADER + |payload|] == old(dst[..base]) + Encoded(fp, id, payload)
                        && Layout(fp, id, dst[base..base + 96 + |payload|]) && dst[base + 96..base + 96 + |payload|] == payload
                        && forall i :: base + HEADER + |payload| <= i < dst.Length ==> dst[i] == old(dst[i])
    ensures r != Ok ==> unchanged(dst)
  {
    var required := if |payload| <= U64_MAX - HEADER then HEADER + |payload| else 0;
    if required == 0 || size < required { return TooSmall; }
    ghost var p := dst[..base];
    ExportPreamble(dst, base, p);
    ExportModel(id, dst, base + 16, p + Preamble());
    ghost var vs := Sizes(fp, id, payload);
    PutRow(dst, base + 40, p + Preamble() + ModelPart(id), Sizes(fp, id, payload));
    PutBytes(dst, base + HEADER, payload, p + Preamble() + ModelPart(id) + Numbers(vs));
    Regroup(p, Preamble(), ModelPart(id), Numbers(vs), payload);
    EncodedLayout(fp, id, payload, p, dst[..base + HEADER + |payload|]);
    r := Ok;
  }

  lemma EncodedLayout(fp: Fingerprint, id: Identity, payload: seq<U8>, p: seq<U8>, s: seq<U8>)
    requires Fits(payload) && s == p + Encoded(fp, id, payload)
    ensures Layout(fp, id, s[|p|..]) && s[|p| + HEADER..] == payload
  {
    var b := Encoded(fp, id, payload);
    assert s[|p|..] == b && s[|p| + HEADER..] == b[HEADER..];
    PayloadAtEnd(fp, id, payload);
    AcceptsExactly(fp, id, b, |payload|);
    AcceptsLayout(fp, id, b, |payload|);
  }

  lemma Regroup(p: seq<U8>, a: seq<U8>, b: seq<U8>, c: seq<U8>, d: seq<U8>)
    ensures p + a + b + c + d == p + (a + b + c + d)
  {
    assert p + a + b == p + (a + b);
    assert p + (a + b) + c == p + (a + b + c);
  }

  method ExportPreamble(dst: array<U8>, base: nat, ghost p: seq<U8>)
    requires base + 16 <= dst.Length && dst[..base] == p
    modifies dst
    ensures dst[..base + 16] == p + Preamble() && forall i :: base + 16 <= i < dst.Length ==> dst[i] == old(dst[i])
  {
    PutBytes(dst, base, MAGIC, p);
    Put(dst, base + 8, VERSION, 2, p + MAGIC);
    Put(dst, base + 10, HEADER, 2, p + MAGIC + Le(VERSION, 2));
    Put(dst, base + 12, 0, 4, p + MAGIC + Le(VERSION, 2) + Le(HEADER, 2));
    Regroup(p, MAGIC, Le(VERSION, 2), Le(HEADER, 2), Le(0, 4));
  }

  method ExportModel(id: Identity, dst: array<U8>, base: nat, ghost p: seq<U8>)
    requires base + 24 <= dst.Length && dst[..base] == p
    modifies dst
    ensures dst[..base + 24] == p + ModelPart(id) && forall i :: base + 24 <= i < dst.Length ==> dst[i] == old(dst[i])
  {
    Put(dst, base, id.architecture, 4, p);
    Put(dst, base + 4, id.precision, 4, p + Le(id.architecture, 4));
    PutBytes(dst, base + 8, id.digest, p + Le(id.architecture, 4) + Le(id.precision, 4));
    assert p + Le(id.architecture, 4) + Le(id.precision, 4) + id.digest == p + ModelPart(id);
  }

  // ---- import -----------------------------------------------------------------------------

  /** What import compares, before the checksum. */
  predicate PreambleReads(s: seq<U8>)
    requires |s| >= HEADER
  {
    s[..8] == MAGIC && Num(s, 8, 2) == VERSION && Num(s, 10, 2) == HEADER && Num(s, 12, 4) == 0
  }

  predicate ModelReads(id: Identity, s: seq<U8>)
    requires |s| >= HEADER
  {
    && Num(s, 16, 4) == id.architecture && Num(s, 20, 4) == id.precision && s[24..40] == id.digest
    && Num(s, 40, 8) == id.dModel && Num(s, 48, 8) == id.nLayers && Num(s, 56, 8) == id.dInner
    && Num(s, 64, 8) == id.dState && Num(s, 72, 8) == id.dConv
  }

  lemma PreambleBytes(s: seq<U8>)
    requires |s| >= HEADER
    ensures PreambleReads(s) <==> s[..16] == Preamble()
  {
    Widths();
    ReadsAs(s[8..10], VERSION);
    ReadsAs(s[10..12], HEADER);
    ReadsAs(s[12..16], 0);
    FieldAt(s, MAGIC, Le(VERSION, 2), 8, 10);
    FieldAt(s, MAGIC + Le(VERSION, 2), Le(HEADER, 2), 10, 12);
    FieldAt(s, MAGIC + Le(VERSION, 2) + Le(HEADER, 2), Le(0, 4), 12, 16);
  }

  lemma ModelBytes(id: Identity, s: seq<U8>)
    requires |s| >= HEADER
    ensures s[16..40] == ModelPart(id)
            <==> Num(s, 16, 4) == id.architecture && Num(s, 20, 4) == id.precision && s[24..40] == id.digest
  {
    Widths();
    var t := s[16..40];
    SubSlice(s, 16, 40, 4, 8);
    SubSlice(s, 16, 40, 8, 24);
    assert t[..4] == s[16..20] && t[..24] == t;
    ReadsAs(s[16..20], id.architecture);
    ReadsAs(s[20..24], id.precision);
    FieldAt(t, Le(id.architecture, 4), Le(id.precision, 4), 4, 8);
    FieldAt(t, Le(id.architecture, 4) + Le(id.precision, 4), id.digest, 8, 24);
  }

  /** All the checks of import hold exactly of the bytes export writes. */
  predicate Accepts(fp: Fingerprint, id: Identity, s: seq<U8>, size: nat)
  {
    && |s| >= HEADER && PreambleReads(s) && Num(s, 80, 8) == size && |s| == HEADER + size
    && ModelReads(id, s) && Num(s, 88, 8) == Checksum(fp, s[HEADER..])
  }

  /** Snapshot bijection: import accepts exactly what export writes for that model and that state. */
  lemma AcceptsExactly(fp: Fingerprint, id: Identity, s: seq<U8>, size: nat)
    requires |s| <= U64_MAX
    ensures Accepts(fp, id, s, size) <==> |s| == HEADER + size && s == Encoded(fp, id, s[HEADER..])
  {
    if |s| == HEADER + size {
      var payload := s[HEADER..];
      var p, m, vs := Preamble(), ModelPart(id), Sizes(fp, id, payload);
      PreambleBytes(s);
      ModelBytes(id, s);
      RowReads(s, vs);
      FieldAt(s, p, m, 16, 40);
      FieldAt(s, p + m, Numbers(vs), 40, HEADER);
      FieldAt(s, p + m + Numbers(vs), payload, HEADER, |s|);
      assert s[..|s|] == s && s[HEADER..|s|] == payload;
    }
  }

  /** Every exported state is imported again, exactly by the models that agree on the stored fields. */
  lemma RoundTrip(fp: Fingerprint, id: Identity, other: Identity, payload: seq<U8>)
    requires Fits(payload)
    ensures Accepts(fp, other, Encoded(fp, id, payload), |payload|) <==> Stored(other) == Stored(id)
  {
    var s := Encoded(fp, id, payload);
    PayloadAtEnd(fp, id, payload);
    AcceptsExactly(fp, id, s, |payload|);
    if Accepts(fp, other, s, |payload|) {
      assert ModelReads(other, s) && ModelReads(id, s);
    }
  }

  /** The import checks on the identity, field by field. */
  method Compatible(id: Identity, source: seq<U8>) returns (ok: bool)
    requires |source| >= HEADER
    ensures ok <==> ModelReads(id, source)
  {
    var architecture := ReadLe(source, 16, 4);
    var precision := ReadLe(source, 20, 4);
    var dModel := ReadLe(source, 40, 8);
    var nLayers := ReadLe(source, 48, 8);
    var dInner := ReadLe(source, 56, 8);
    var dState := ReadLe(source, 64, 8);
    var dConv := ReadLe(source, 72, 8);
    ok := architecture == id.architecture && precision == id.precision && source[24..40] == id.digest
    && dModel == id.dModel && nLayers == id.nLayers && dInner == id.dInner && dState == id.dState && dConv == id.dConv;
  }

  /** The checks of the first sixteen bytes. */
  method CheckPreamble(source: seq<U8>) returns (r: Status)
    requires |source| >= HEADER
    ensures r == Ok <==> PreambleReads(source)
    ensures r == BadMagic <==> source[..8] != [70, 69, 83, 78, 65, 80, 48, 49]
    ensures r == BadVersion <==> source[..8] == MAGIC && source[8..12] != [1, 0, 96, 0]
    ensures r == BadFlags <==> source[..8] == MAGIC && source[8..12] == [1, 0, 96, 0] && source[12..16] != [0, 0, 0, 0]
    ensures r in {Ok, BadMagic, BadVersion, BadFlags}
  {
    SmallFields(source);
    if MAGIC != source[..8] { return BadMagic; }
    var version := ReadLe(source, 8, 2);
    var header := ReadLe(source, 10, 2);
    if version != VERSION || header != HEADER { return BadVersion; }
    var flags := ReadLe(source, 12, 4);
    r := if flags != 0 then BadFlags else Ok;
  }

  lemma SmallFields(s: seq<U8>)
    requires |s| >= HEADER
    ensures Num(s, 8, 2) == VERSION && Num(s, 10, 2) == HEADER <==> s[8..12] == [1, 0, 96, 0]
    ensures Num(s, 12, 4) == 0 <==> s[12..16] == [0, 0, 0, 0]
  {
    Widths();
    ReadsAs(s[8..10], VERSION);
    ReadsAs(s[10..12], HEADER);
    ReadsAs(s[12..16], 0);
    assert s[8..12] == s[8..10] + s[10..12];
    assert Le(VERSION, 2) == [1, 0] && Le(HEADER, 2) == [96, 0] && [1, 0] + [96, 0] == [1, 0, 96, 0];
    assert Le(0, 2) == [0, 0] && Le(0, 4) == [0, 0] + Le(0, 2) == [0, 0, 0, 0];
    assert s[8..10] == s[8..12][..2] && s[10..12] == s[8..12][2..];
  }

  /** The checks in order; the destination is touched only after the last. */
  method Check(fp: Fingerprint, id: Identity, source: seq<U8>, size: nat) returns (r: Status)
    requires |source| <= U64_MAX
    ensures r == Ok <==> Accepts(fp, id, source, size)
    ensures Explains(fp, id, source, size, r)
  {
    AcceptsLayout(fp, id, source, size);
    if |source| < HEADER { return Truncated; }
    r := CheckPreamble(source);
    if r != Ok { return; }
    r := CheckRest(fp, id, source, size);
  }

  method CheckRest(fp: Fingerprint, id: Identity, source: seq<U8>, size: nat) returns (r: Status)
    requires HEADER <= |source| <= U64_MAX && PreambleReads(source)
    ensures r == Ok <==> Accepts(fp, id, source, size)
    ensures r != Ok ==> Explains(fp, id, source, size, r)
  {
    var stateBytes := ReadLe(source, 80, 8);
    if size <= U64_MAX { HoldsReads(source, 80, size); }
    if stateBytes != size || stateBytes > |source| - HEADER || |source| != HEADER + stateBytes { return BadSize; }
    var compatible := Compatible(id, source);
    if !compatible { return WrongModel; }
    var checksum := ReadLe(source, 88, 8);
    ChecksumIs(fp, source[88..96], source[HEADER..]);
    r := if checksum == Checksum(fp, source[HEADER..]) then Ok else BadChecksum;
  }

  /** Takes the state out of a snapshot that is exactly an export for this model; otherwise nothing changes. */
  method Import(fp: Fingerprint, id: Identity, source: seq<U8>, payload: array<U8>) returns (r: Status)
    requires |source| <= U64_MAX
    modifies payload
    ensures r == Ok <==> |source| == HEADER + payload.Length && source == Encoded(fp, id, source[HEADER..])
    ensures Explains(fp, id, source, payload.Length, r)
    ensures r == Ok ==> payload[..] == source[96..]
    ensures r != Ok ==> unchanged(payload)
  {
    AcceptsExactly(fp, id, source, payload.Length);
    r := Check(fp, id, source, payload.Length);
    if r == Ok {
      PutBytes(payload, 0, source[HEADER..], []);
      assert payload[..] == payload[..payload.Length];
    }
  }
}
