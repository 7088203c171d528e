/** The state capsule: job metadata, an opaque payload, and a fingerprint over both. */
module StateCapsule {
  import opened Machine
  import opened ByteCodec

  const CAPSULE_HEADER: nat := 96
  const CAPSULE_CHECKSUM: nat := 16
  const CAPSULE_OVERHEAD: nat := 112
  const CAPSULE_VERSION: nat := 1
  const CAPSULE_MAGIC: seq<U8> := [70, 69, 67, 65, 80, 48, 48, 49]
  const JOB_VERSION: nat := 1

  type U16 = x: int | 0 <= x < 0x1_0000

  // Job kinds and states keep their wire numbers: any 16-bit number can arrive.
  const ITERATIVE: U16 := 1
  const STREAMING: U16 := 2
  const SPECULATIVE: U16 := 3
  const READY: U16 := 0
  const RUNNING: U16 := 1
  const COMPLETE: U16 := 2
  const CANCELLED: U16 := 3
  const FAILED: U16 := 4

  datatype JobDescriptor = JobDescriptor(version: U32, kind: U16, reserved: U16, digest: Digest, schema: U64,
                                         session: U64, generation: U64, deadline: U64, total: U64)

  datatype Metadata = Metadata(desc: JobDescriptor, state: U16, completed: U64)

  predicate ValidDescriptor(d: JobDescriptor)
  {
    && d.version == JOB_VERSION && d.kind in {ITERATIVE, STREAMING, SPECULATIVE} && d.schema != 0 && d.total != 0
    && exists i :: 0 <= i < 16 && d.digest[i] != 0
  }

  predicate ValidProgress(m: Metadata)
  {
    && ValidDescriptor(m.desc) && READY <= m.state <= FAILED && m.completed <= m.desc.total
    && (m.state == READY ==> m.completed == 0) && (m.state == RUNNING ==> m.completed < m.desc.total)
    && (m.state == COMPLETE ==> m.completed == m.desc.total)
  }

  /** The checks on a descriptor; some byte of the digest is set. */
  method CheckDescriptor(d: JobDescriptor) returns (ok: bool)
    ensures ok <==> ValidDescriptor(d)
  {
    var hasDigest, i := false, 0;
    while i < 16
      invariant 0 <= i <= 16 && (hasDigest <==> exists j :: 0 <= j < i && d.digest[j] != 0)
    {
      hasDigest := hasDigest || d.digest[i] != 0;
      i := i + 1;
    }
    var known := d.kind == ITERATIVE || d.kind == STREAMING || d.kind == SPECULATIVE;
    ok := d.version == 1 && known && d.schema != 0 && d.total != 0 && hasDigest;
  }

  /** The checks on a job's progress, state by state. */
  method CheckProgress(m: Metadata) returns (ok: bool)
    ensures ok <==> ValidProgress(m)
  {
    ok := CheckDescriptor(m.desc);
    if !ok || m.state > 4 || m.completed > m.desc.total { return false; }
    if m.state == READY { return m.completed == 0; }
    if m.state == RUNNING { return m.completed < m.desc.total; }
    if m.state == COMPLETE { return m.completed == m.desc.total; }
    ok := true;
  }

  // ---- the bytes --------------------------------------------------------------------------

  function Lead(): (b: seq<U8>)
    ensures |b| == 12
  {
    CAPSULE_MAGIC + Le(CAPSULE_VERSION, 2) + Le(CAPSULE_HEADER, 2)
  }

  function Kinds(m: Metadata): (b: seq<U8>)
    ensures |b| == 12
  {
    Le(m.desc.kind, 2) + Le(m.state, 2) + Le(0, 4) + Le(0, 4)
  }

  function Sizes(m: Metadata, n: U64): seq<U64>
  {
    [m.desc.session, m.desc.generation, m.desc.deadline, m.desc.total, m.completed, n, m.desc.schema]
  }

  predicate Fits(payload: seq<U8>)
  {
    |payload| <= U64_MAX - CAPSULE_OVERHEAD
  }

  function Body(m: Metadata, payload: seq<U8>): (b: seq<U8>)
    requires Fits(payload)
    ensures |b| == CAPSULE_HEADER + |payload|
  {
    Lead() + Kinds(m) + m.desc.digest + Numbers(Sizes(m, |payload|)) + payload
  }

  /** Exactly the bytes of a capsule. */
  function Encoded(fp: Fingerprint, m: Metadata, payload: seq<U8>): (b: seq<U8>)
    requires Fits(payload)
    ensures |b| == CAPSULE_OVERHEAD + |payload|
  {
    Body(m, payload) + fp(Body(m, payload))
  }

  // ---- writing ----------------------------------------------------------------------------

  datatype Status = Ok | BufferTooSmall | Truncated | InvalidHeader | UnsupportedVersion | InvalidMetadata | ChecksumMismatch

  /** Writes the capsule at the front of the buffer; the payload may already lie there. */
  method Write(fp: Fingerprint, m: Metadata, payload: seq<U8>, dst: array<U8>) returns (r: Status)
    modifies dst
    ensures r == (if !ValidProgress(m) then InvalidMetadata
                  else if !Fits(payload) || dst.Length < CAPSULE_OVERHEAD + |payload| then BufferTooSmall else Ok)
    ensures r == Ok ==> dst[..CAPSULE_OVERHEAD + |payload|] == Encoded(fp, m, payload)
                        && Layout(fp, m, dst[..112 + |payload|]) && dst[96..96 + |payload|] == payload
                        && forall i :: CAPSULE_OVERHEAD + |payload| <= i < dst.Length ==> dst[i] == old(dst[i])
    ensures r != Ok ==> unchanged(dst)
  {
    var valid := CheckProgress(m);
    if !valid { return InvalidMetadata; }
    var required := if |payload| <= U64_MAX - CAPSULE_OVERHEAD then CAPSULE_OVERHEAD + |payload| else 0;
    if required == 0 || dst.Length < required { return BufferTooSmall; }
    WriteKinds(m, dst);
    ghost var p := Lead() + Kinds(m);
    PutBytes(dst, 24, m.desc.digest, p);
    PutRow(dst, 40, p + m.desc.digest, Sizes(m, |payload|));
    PutBytes(dst, CAPSULE_HEADER, payload, p + m.desc.digest + Numbers(Sizes(m, |payload|)));
    var checksum := fp(dst[..CAPSULE_HEADER + |payload|]);
    PutBytes(dst, CAPSULE_HEADER + |payload|, checksum, Body(m, payload));
    WrittenLayout(fp, m, payload, dst[..CAPSULE_OVERHEAD + |payload|]);
    r := Ok;
  }

  lemma WrittenLayout(fp: Fingerprint, m: Metadata, payload: seq<U8>, s: seq<U8>)
    requires Fits(payload) && s == Encoded(fp, m, payload)
    ensures Layout(fp, m, s) && s[96..96 + |payload|] == payload
  {
    assert s[96..96 + |payload|] == Body(m, payload)[96..] == payload;
    EncodedLayout(fp, m, s);
  }

  method WriteKinds(m: Metadata, dst: array<U8>)
    requires dst.Length >= CAPSULE_HEADER
    modifies dst
    ensures dst[..24] == Lead() + Kinds(m) && forall i :: 24 <= i < dst.Length ==> dst[i] == old(dst[i])
  {
    PutBytes(dst, 0, CAPSULE_MAGIC, []);
    Put(dst, 8, CAPSULE_VERSION, 2, CAPSULE_MAGIC);
    Put(dst, 10, CAPSULE_HEADER, 2, CAPSULE_MAGIC + Le(CAPSULE_VERSION, 2));
    Put(dst, 12, m.desc.kind, 2, Lead());
    Put(dst, 14, m.state, 2, Lead() + Le(m.desc.kind, 2));
    Put(dst, 16, 0, 4, Lead() + Le(m.desc.kind, 2) + Le(m.state, 2));
    Put(dst, 20, 0, 4, Lead() + Le(m.desc.kind, 2) + Le(m.state, 2) + Le(0, 4));
    assert Lead() + Le(m.desc.kind, 2) + Le(m.state, 2) + Le(0, 4) + Le(0, 4) == Lead() + Kinds(m);
  }

  // ---- reading ----------------------------------------------------------------------------

  predicate LeadReads(s: seq<U8>)
    requires |s| >= CAPSULE_HEADER
  {
    s[..8] == CAPSULE_MAGIC && Num(s, 8, 2) == CAPSULE_VERSION && Num(s, 10, 2) == CAPSULE_HEADER
  }

  predicate KindsRead(m: Metadata, s: seq<U8>)
    requires |s| >= CAPSULE_HEADER
  {
    Num(s, 12, 2) == m.desc.kind && Num(s, 14, 2) == m.state && Num(s, 16, 4) == 0 && Num(s, 20, 4) == 0
  }

  predicate NumbersRead(m: Metadata, s: seq<U8>, n: U64)
    requires |s| >= CAPSULE_HEADER
  {
    && Num(s, 40, 8) == m.desc.session && Num(s, 48, 8) == m.desc.generation && Num(s, 56, 8) == m.desc.deadline
    && Num(s, 64, 8) == m.desc.total && Num(s, 72, 8) == m.completed && Num(s, 80, 8) == n
    && Num(s, 88, 8) == m.desc.schema
  }

  lemma LeadBytes(s: seq<U8>)
    requires |s| >= CAPSULE_HEADER
    ensures LeadReads(s) <==> s[..12] == Lead()
  {
    Widths();
    ReadsAs(s[8..10], CAPSULE_VERSION);
    ReadsAs(s[10..12], CAPSULE_HEADER);
    FieldAt(s, CAPSULE_MAGIC, Le(CAPSULE_VERSION, 2), 8, 10);
    FieldAt(s, CAPSULE_MAGIC + Le(CAPSULE_VERSION, 2), Le(CAPSULE_HEADER, 2), 10, 12);
  }

  lemma FourFields(t: seq<U8>, a: seq<U8>, b: seq<U8>, c: seq<U8>, d: seq<U8>)
    requires |t| == 12 && |a| == |b| == 2 && |c| == |d| == 4
    ensures t == a + b + c + d <==> t[0..2] == a && t[2..4] == b && t[4..8] == c && t[8..12] == d
  {
    FieldAt(t, a, b, 2, 4);
    FieldAt(t, a + b, c, 4, 8);
    FieldAt(t, a + b + c, d, 8, 12);
    assert t[..12] == t && t[..2] == t[0..2];
  }

  lemma KindsSlices(m: Metadata, s: seq<U8>)
    requires |s| >= CAPSULE_HEADER
    ensures s[12..24] == Kinds(m)
            <==> s[12..14] == Le(m.desc.kind, 2) && s[14..16] == Le(m.state, 2) && s[16..20] == Le(0, 4) && s[20..24] == Le(0, 4)
  {
    FourFields(s[12..24], Le(m.desc.kind, 2), Le(m.state, 2), Le(0, 4), Le(0, 4));
    SubSlice(s, 12, 24, 0, 2);
    SubSlice(s, 12, 24, 2, 4);
    SubSlice(s, 12, 24, 4, 8);
    SubSlice(s, 12, 24, 8, 12);
  }

  lemma KindsBytes(m: Metadata, s: seq<U8>)
    requires |s| >= CAPSULE_HEADER
    ensures KindsRead(m, s) <==> s[12..24] == Kinds(m)
  {
    KindsSlices(m, s);
    Widths();
    ReadsAs(s[12..14], m.desc.kind);
    ReadsAs(s[14..16], m.state);
    ReadsAs(s[16..20], 0);
    ReadsAs(s[20..24], 0);
  }

  /** The header and payload of a capsule of `m`, read field by field. */
  predicate BodyReads(m: Metadata, s: seq<U8>)
  {
    && CAPSULE_HEADER <= |s| <= U64_MAX - CAPSULE_CHECKSUM && LeadReads(s) && KindsRead(m, s) && s[24..40] == m.desc.digest
    && NumbersRead(m, s, |s| - CAPSULE_HEADER)
  }

  lemma BodyBytes(m: Metadata, s: seq<U8>)
    requires CAPSULE_HEADER <= |s| <= U64_MAX - CAPSULE_CHECKSUM
    ensures BodyReads(m, s) <==> s == Body(m, s[CAPSULE_HEADER..])
  {
    var payload := s[CAPSULE_HEADER..];
    var vs := Sizes(m, |payload|);
    LeadBytes(s);
    KindsBytes(m, s);
    RowReads(s, vs);
    FieldAt(s, Lead(), Kinds(m), 12, 24);
    FieldAt(s, Lead() + Kinds(m), m.desc.digest, 24, 40);
    FieldAt(s, Lead() + Kinds(m) + m.desc.digest, Numbers(vs), 40, CAPSULE_HEADER);
    FieldAt(s, Lead() + Kinds(m) + m.desc.digest + Numbers(vs), payload, CAPSULE_HEADER, |s|);
    assert s[..|s|] == s && s[CAPSULE_HEADER..|s|] == payload;
  }

  /** What a reader makes of a capsule: the version and the reserved field are not stored. */
  function Stored(m: Metadata): Metadata
  {
    m.(desc := m.desc.(version := JOB_VERSION, reserved := 0))
  }

  /** The metadata found in the header. */
  function Found(s: seq<U8>): Metadata
    requires |s| >= CAPSULE_HEADER
  {
    Metadata(JobDescriptor(JOB_VERSION, Field(s, 12, 2), 0, s[24..40], Field(s, 88, 8), Field(s, 40, 8), Field(s, 48, 8),
                           Field(s, 56, 8), Field(s, 64, 8)), Field(s, 14, 2), Field(s, 72, 8))
  }

  function Field(s: seq<U8>, i: nat, width: nat): (v: nat)
    requires i + width <= |s| && width in {2, 8}
    ensures v == Num(s, i, width) && (if width == 2 then v < 0x1_0000 else v <= U64_MAX)
  {
    LeOfValue(s[i..i + width]);
    Widths();
    Num(s, i, width)
  }

  /** The reader as a function: the metadata and payload of a well-formed capsule. */
  function Decoded(fp: Fingerprint, s: seq<U8>): Option<(Metadata, seq<U8>)>
  {
    if |s| < CAPSULE_OVERHEAD || |s| > U64_MAX then None
    else
      var body := s[..|s| - CAPSULE_CHECKSUM];
      var m := Found(body);
      if BodyReads(m, body) && s[|s| - CAPSULE_CHECKSUM..] == fp(body) && ValidProgress(m)
      then Some((m, body[CAPSULE_HEADER..])) else None
  }

  lemma FoundIs(m: Metadata, s: seq<U8>)
    requires BodyReads(m, s)
    ensures Found(s) == Stored(m)
  {
  }

  lemma StoredReads(m: Metadata, s: seq<U8>)
    ensures BodyReads(m, s) <==> BodyReads(Stored(m), s)
  {
  }

  /** Capsule bijection: the reader accepts exactly what the writer produces, and returns what was written. */
  lemma DecodedExactly(fp: Fingerprint, s: seq<U8>, m: Metadata, payload: seq<U8>)
    ensures Decoded(fp, s) == Some((m, payload))
            <==> ValidProgress(m) && m.desc.reserved == 0 && Fits(payload) && s == Encoded(fp, m, payload)
  {
    if CAPSULE_OVERHEAD <= |s| <= U64_MAX {
      var n := |s| - CAPSULE_CHECKSUM;
      var body := s[..n];
      assert s == body + s[n..];
      BodyBytes(Found(body), body);
      if Fits(payload) && s == Encoded(fp, m, payload) {
        assert body == Body(m, payload) && s[n..] == fp(body);
        assert body[CAPSULE_HEADER..] == payload;
        BodyBytes(m, body);
        FoundIs(m, body);
        StoredReads(m, body);
      }
    }
  }

  /** What is written is read back, up to the two fields a capsule does not store. */
  lemma CapsuleRoundTrip(fp: Fingerprint, m: Metadata, payload: seq<U8>)
    requires ValidProgress(m) && Fits(payload)
    ensures Decoded(fp, Encoded(fp, m, payload)) == Some((Stored(m), payload))
  {
    DecodedExactly(fp, Encoded(fp, m, payload), Stored(m), payload);
    assert Body(Stored(m), payload) == Body(m, payload);
  }

  // ---- the format, byte by byte -----------------------------------------------------------

  /** The header of a capsule, offset by offset; the payload size is `n`. */
  predicate HeaderLayout(m: Metadata, s: seq<U8>, n: nat)
  {
    && |s| >= 96 && s[..12] == [70, 69, 67, 65, 80, 48, 48, 49, 1, 0, 96, 0]
    && s[12..14] == Le(m.desc.kind, 2) && s[14..16] == Le(m.state, 2) && s[16..24] == [0, 0, 0, 0, 0, 0, 0, 0]
    && s[24..40] == m.desc.digest && s[40..48] == Le(m.desc.session, 8) && s[48..56] == Le(m.desc.generation, 8)
    && s[56..64] == Le(m.desc.deadline, 8) && s[64..72] == Le(m.desc.total, 8) && s[72..80] == Le(m.completed, 8)
    && s[80..88] == Le(n, 8) && s[88..96] == Le(m.desc.schema, 8)
  }

  /** What the bytes of a capsule are, in terms of the metadata and the fingerprint alone. */
  predicate Layout(fp: Fingerprint, m: Metadata, s: seq<U8>)
  {
    112 <= |s| <= U64_MAX && HeaderLayout(m, s, |s| - 112) && s[|s| - 16..] == fp(s[..|s| - 16])
  }

  lemma LeadIs()
    ensures Lead() == [70, 69, 67, 65, 80, 48, 48, 49, 1, 0, 96, 0]
  {
    assert Le(CAPSULE_VERSION, 2) == [1, 0] && Le(CAPSULE_HEADER, 2) == [96, 0];
  }

  lemma ZerosAre(s: seq<U8>)
    requires |s| >= 24
    ensures s[16..20] == Le(0, 4) && s[20..24] == Le(0, 4) <==> s[16..24] == [0, 0, 0, 0, 0, 0, 0, 0]
  {
    assert Le(0, 2) == [0, 0] && Le(0, 4) == [0, 0] + Le(0, 2) == [0, 0, 0, 0];
    assert s[16..24] == s[16..20] + s[20..24] && [0, 0, 0, 0] + [0, 0, 0, 0] == [0, 0, 0, 0, 0, 0, 0, 0];
    assert s[16..20] == s[16..24][..4] && s[20..24] == s[16..24][4..];
  }

  lemma NumbersAre(m: Metadata, s: seq<U8>, n: U64)
    requires |s| >= CAPSULE_HEADER
    ensures NumbersRead(m, s, n)
            <==> && s[40..48] == Le(m.desc.session, 8) && s[48..56] == Le(m.desc.generation, 8)
                 && s[56..64] == Le(m.desc.deadline, 8) && s[64..72] == Le(m.desc.total, 8)
                 && s[72..80] == Le(m.completed, 8) && s[80..88] == Le(n, 8) && s[88..96] == Le(m.desc.schema, 8)
  {
    HoldsReads(s, 40, m.desc.session);
    HoldsReads(s, 48, m.desc.generation);
    HoldsReads(s, 56, m.desc.deadline);
    HoldsReads(s, 64, m.desc.total);
    HoldsReads(s, 72, m.completed);
    HoldsReads(s, 80, n);
    HoldsReads(s, 88, m.desc.schema);
  }

  lemma BodyLayout(m: Metadata, s: seq<U8>)
    requires 96 <= |s| <= U64_MAX - 16
    ensures BodyReads(m, s) <==> HeaderLayout(m, s, |s| - 96)
  {
    LeadIs();
    LeadBytes(s);
    KindsBytes(m, s);
    KindsSlices(m, s);
    ZerosAre(s);
    NumbersAre(m, s, |s| - CAPSULE_HEADER);
  }

  lemma HeaderOfPrefix(m: Metadata, s: seq<U8>, k: nat, n: nat)
    requires 96 <= k <= |s|
    ensures HeaderLayout(m, s[..k], n) <==> HeaderLayout(m, s, n)
  {
    var b := s[..k];
    assert b[..12] == s[..12] && b[12..14] == s[12..14] && b[14..16] == s[14..16] && b[16..24] == s[16..24];
    assert b[24..40] == s[24..40] && b[40..48] == s[40..48] && b[48..56] == s[48..56] && b[56..64] == s[56..64];
    assert b[64..72] == s[64..72] && b[72..80] == s[72..80] && b[80..88] == s[80..88] && b[88..96] == s[88..96];
  }

  /** The bytes of a capsule are exactly those laid out like this. */
  lemma EncodedLayout(fp: Fingerprint, m: Metadata, s: seq<U8>)
    requires 112 <= |s| <= U64_MAX
    ensures s == Encoded(fp, m, s[96..|s| - 16]) <==> Layout(fp, m, s)
  {
    var n := |s| - 16;
    var body := s[..n];
    BodyBytes(m, body);
    BodyLayout(m, body);
    HeaderOfPrefix(m, s, n, n - 96);
    assert s == body + s[n..] && body[96..] == s[96..n];
    if s == Encoded(fp, m, s[96..n]) {
      assert body == Body(m, s[96..n]) && s[n..] == fp(body);
    }
  }

  datatype ReadResult = Capsule(meta: Metadata, payload: seq<U8>) | Failure(status: Status)

  method ReadMetadata(s: seq<U8>) returns (m: Metadata)
    requires |s| >= CAPSULE_HEADER
    ensures m == Found(s)
  {
    Widths();
    var kind := ReadLe(s, 12, 2);
    var state := ReadLe(s, 14, 2);
    var session := ReadLe(s, 40, 8);
    var generation := ReadLe(s, 48, 8);
    var deadline := ReadLe(s, 56, 8);
    var total := ReadLe(s, 64, 8);
    var completed := ReadLe(s, 72, 8);
    var schema := ReadLe(s, 88, 8);
    m := Metadata(JobDescriptor(JOB_VERSION, kind, 0, s[24..40], schema, session, generation, deadline, total), state, completed);
  }

  /** The error of a failed read is that of the first check that fails. */
  predicate Explains(fp: Fingerprint, s: seq<U8>, e: Status)
  {
    var sized := |s| >= 112 && LeadReads(s) && s[16..24] == [0, 0, 0, 0, 0, 0, 0, 0] && s[80..88] == Le(|s| - 112, 8);
    match e
    case Truncated =>
      || |s| < 112
      || (LeadReads(s) && s[16..24] == [0, 0, 0, 0, 0, 0, 0, 0] && s[80..88] != Le(|s| - 112, 8))
    case InvalidHeader =>
      && |s| >= 112 && (s[..8] != [70, 69, 67, 65, 80, 48, 48, 49]
                        || (s[8..12] == [1, 0, 96, 0] && s[16..24] != [0, 0, 0, 0, 0, 0, 0, 0]))
    case UnsupportedVersion => |s| >= 112 && s[..8] == [70, 69, 67, 65, 80, 48, 48, 49] && s[8..12] != [1, 0, 96, 0]
    case ChecksumMismatch => sized && s[|s| - 16..] != fp(s[..|s| - 16])
    case InvalidMetadata => sized && s[|s| - 16..] == fp(s[..|s| - 16]) && !ValidProgress(Found(s[..|s| - 16]))
    case _ => false
  }

  lemma VersionIs(s: seq<U8>)
    requires |s| >= CAPSULE_HEADER
    ensures Num(s, 8, 2) == CAPSULE_VERSION && Num(s, 10, 2) == CAPSULE_HEADER <==> s[8..12] == [1, 0, 96, 0]
  {
    Widths();
    ReadsAs(s[8..10], CAPSULE_VERSION);
    ReadsAs(s[10..12], CAPSULE_HEADER);
    assert Le(CAPSULE_VERSION, 2) == [1, 0] && Le(CAPSULE_HEADER, 2) == [96, 0] && [1, 0] + [96, 0] == [1, 0, 96, 0];
    assert s[8..12] == s[8..10] + s[10..12] && s[8..10] == s[8..12][..2] && s[10..12] == s[8..12][2..];
  }

  lemma FlagsAre(s: seq<U8>)
    requires |s| >= CAPSULE_HEADER
    ensures Num(s, 16, 4) == 0 && Num(s, 20, 4) == 0 <==> s[16..24] == [0, 0, 0, 0, 0, 0, 0, 0]
  {
    Widths();
    ReadsAs(s[16..20], 0);
    ReadsAs(s[20..24], 0);
    ZerosAre(s);
  }

  method CheckHeader(s: seq<U8>) returns (r: Option<Status>)
    requires |s| >= CAPSULE_HEADER
    ensures r.None? <==> LeadReads(s) && s[16..24] == [0, 0, 0, 0, 0, 0, 0, 0]
    ensures r == Some(UnsupportedVersion) <==> s[..8] == [70, 69, 67, 65, 80, 48, 48, 49] && s[8..12] != [1, 0, 96, 0]
    ensures r == Some(InvalidHeader) ==> s[..8] != [70, 69, 67, 65, 80, 48, 48, 49]
                                         || (s[8..12] == [1, 0, 96, 0] && s[16..24] != [0, 0, 0, 0, 0, 0, 0, 0])
    ensures r in {None, Some(UnsupportedVersion), Some(InvalidHeader)}
  {
    VersionIs(s);
    FlagsAre(s);
    if CAPSULE_MAGIC != s[..8] { return Some(InvalidHeader); }
    var version := ReadLe(s, 8, 2);
    var header := ReadLe(s, 10, 2);
    if version != CAPSULE_VERSION || header != CAPSULE_HEADER { return Some(UnsupportedVersion); }
    var flags := ReadLe(s, 16, 4);
    var more := ReadLe(s, 20, 4);
    r := if flags != 0 || more != 0 then Some(InvalidHeader) else None;
  }

  /** Given its own numbers, a body reads right when the fixed fields and the size do. */
  lemma FoundReads(s: seq<U8>)
    requires CAPSULE_HEADER <= |s| <= U64_MAX - CAPSULE_CHECKSUM
    ensures BodyReads(Found(s), s)
            <==> LeadReads(s) && Num(s, 16, 4) == 0 && Num(s, 20, 4) == 0 && Num(s, 80, 8) == |s| - CAPSULE_HEADER
  {
  }

  /** What the reader checks before the checksum. */
  predicate FrontReads(s: seq<U8>)
    requires |s| >= CAPSULE_OVERHEAD
  {
    LeadReads(s) && Num(s, 16, 4) == 0 && Num(s, 20, 4) == 0 && Num(s, 80, 8) == |s| - CAPSULE_OVERHEAD
  }

  lemma FrontOfBody(s: seq<U8>, body: seq<U8>)
    requires CAPSULE_OVERHEAD <= |s| <= U64_MAX && body == s[..|s| - CAPSULE_CHECKSUM]
    ensures FrontReads(s) <==> BodyReads(Found(body), body)
  {
    SlicesOfBody(s, |s| - CAPSULE_CHECKSUM);
    FoundReads(body);
  }

  method CheckFront(source: seq<U8>, ghost fp: Fingerprint) returns (r: Option<Status>)
    requires CAPSULE_OVERHEAD <= |source| <= U64_MAX
    ensures r.None? <==> FrontReads(source)
    ensures r.Some? ==> Explains(fp, source, r.value)
  {
    FlagsAre(source);
    HoldsReads(source, 80, |source| - CAPSULE_OVERHEAD);
    r := CheckHeader(source);
    if r.Some? { return; }
    var payloadBytes := ReadLe(source, 80, 8);
    if payloadBytes > U64_MAX - CAPSULE_OVERHEAD || |source| != CAPSULE_OVERHEAD + payloadBytes { return Some(Truncated); }
  }

  lemma SizedFront(s: seq<U8>)
    requires CAPSULE_OVERHEAD <= |s| <= U64_MAX
    ensures FrontReads(s) <==> LeadReads(s) && s[16..24] == [0, 0, 0, 0, 0, 0, 0, 0] && s[80..88] == Le(|s| - 112, 8)
  {
    FlagsAre(s);
    HoldsReads(s, 80, |s| - CAPSULE_OVERHEAD);
  }

  /** Reads a capsule, or names the first check that fails. */
  method Read(fp: Fingerprint, source: seq<U8>) returns (r: ReadResult)
    requires |source| <= U64_MAX
    ensures Decoded(fp, source) == (if r.Capsule? then Some((r.meta, r.payload)) else None)
    ensures r.Failure? ==> Explains(fp, source, r.status)
  {
    if |source| < CAPSULE_OVERHEAD { return Failure(Truncated); }
    var n := |source| - CAPSULE_CHECKSUM;
    FrontOfBody(source, source[..n]);
    var problem := CheckFront(source, fp);
    SizedFront(source);
    if problem.Some? { return Failure(problem.value); }
    if source[n..] != fp(source[..n]) { return Failure(ChecksumMismatch); }
    var m := ReadMetadata(source[..n]);
    var valid := CheckProgress(m);
    if !valid { return Failure(InvalidMetadata); }
    r := Capsule(m, source[CAPSULE_HEADER..n]);
    assert source[..n][CAPSULE_HEADER..] == r.payload;
  }

  /** A prefix long enough holds the same fields. */
  lemma SlicesOfBody(s: seq<U8>, n: nat)
    requires CAPSULE_HEADER <= n <= |s|
    ensures var b := s[..n];
            && b[..8] == s[..8] && Num(b, 8, 2) == Num(s, 8, 2) && Num(b, 10, 2) == Num(s, 10, 2)
            && Num(b, 16, 4) == Num(s, 16, 4) && Num(b, 20, 4) == Num(s, 20, 4) && Num(b, 80, 8) == Num(s, 80, 8)
  {
    var b := s[..n];
    assert b[..8] == s[..8] && b[8..10] == s[8..10] && b[10..12] == s[10..12];
    assert b[16..20] == s[16..20] && b[20..24] == s[20..24] && b[80..88] == s[80..88];
  }
}
