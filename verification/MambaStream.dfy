/** The streaming adapter as a specification: tokens fed to an engine, saved to bytes and loaded back. */
module MambaStream {
  import opened Machine
  import opened ByteCodec
  import opened JobMachine
  import Snapshot

  const STATE_VERSION: nat := 1
  const STATE_HEADER: nat := 24

  /** What one engine step leaves behind: the hidden row (bit patterns) and the decode state. */
  datatype Core = Core(hidden: seq<U32>, state: seq<U8>)

  /** An engine: its identity, its sizes, and a step that refuses some tokens. */
  datatype Engine = Engine(fp: Fingerprint, id: Snapshot.Identity, dModel: nat, stateBytes: nat,
                           step: (I32, seq<U8>) -> Option<Core>)

  /** The adapter's fields and the decode state of the engine it owns. */
  datatype Adapter = Adapter(tokens: seq<I32>, hidden: seq<U32>, count: nat, completed: nat,
                             prepared: bool, cancelled: bool, state: seq<U8>)

  predicate CoreFits(e: Engine, c: Core)
  {
    |c.hidden| == e.dModel && |c.state| == e.stateBytes
  }

  ghost predicate EngineOk(e: Engine)
  {
    && 0 < e.dModel && 0 < e.stateBytes
    && forall t: I32, s: seq<U8> :: |s| == e.stateBytes && e.step(t, s).Some? ==> CoreFits(e, e.step(t, s).value)
  }

  function SnapshotBytes(e: Engine): nat
  {
    Snapshot.HEADER + e.stateBytes
  }

  /** Size of a saved state with `n` tokens. */
  function StateBytes(e: Engine, n: nat): nat
  {
    STATE_HEADER + 4 * n + 4 * e.dModel + SnapshotBytes(e)
  }

  /** Sizes for which the capacity checks at construction leave room in 64 bits. */
  predicate Capacity(e: Engine, cap: nat)
  {
    cap > 0 && StateBytes(e, cap) <= U64_MAX
  }

  /** An adapter of any token capacity, the length of its token buffer. */
  predicate AdapterOk(e: Engine, a: Adapter)
  {
    && Capacity(e, |a.tokens|) && CoreFits(e, Core(a.hidden, a.state))
    && a.completed <= a.count <= |a.tokens| && (a.prepared ==> a.count > 0)
  }

  // ---- feeding tokens ---------------------------------------------------------------------

  function Blank(e: Engine): Core
  {
    Core(seq(e.dModel, _ => 0), seq(e.stateBytes, _ => 0))
  }

  /** The core after the longest accepted run of tokens, and the length of that run. */
  function Feed(e: Engine, c: Core, tokens: seq<I32>): (r: (Core, nat))
    ensures r.1 <= |tokens|
    decreases |tokens|
  {
    if tokens == [] then (c, 0)
    else
      match e.step(tokens[0], c.state)
      case None => (c, 0)
      case Some(next) => var (d, n) := Feed(e, next, tokens[1..]); (d, n + 1)
  }

  lemma {:induction false} FeedFits(e: Engine, c: Core, tokens: seq<I32>)
    requires EngineOk(e) && CoreFits(e, c)
    ensures CoreFits(e, Feed(e, c, tokens).0)
    decreases |tokens|
  {
    if tokens != [] && e.step(tokens[0], c.state).Some? {
      FeedFits(e, e.step(tokens[0], c.state).value, tokens[1..]);
    }
  }

  /** Feeding in two goes is feeding at once, when the first go is accepted whole. */
  lemma {:induction false} FeedSplit(e: Engine, c: Core, a: seq<I32>, b: seq<I32>)
    requires Feed(e, c, a).1 == |a|
    ensures Feed(e, c, a + b) == (Feed(e, Feed(e, c, a).0, b).0, |a| + Feed(e, Feed(e, c, a).0, b).1)
    decreases |a|
  {
    if a == [] {
      assert a + b == b;
    } else {
      assert (a + b)[1..] == a[1..] + b;
      FeedSplit(e, e.step(a[0], c.state).value, a[1..], b);
    }
  }

  /** Every prefix of accepted tokens is accepted. */
  lemma {:induction false} FeedPrefix(e: Engine, c: Core, tokens: seq<I32>, n: nat)
    requires Feed(e, c, tokens).1 == |tokens| && n <= |tokens|
    ensures Feed(e, c, tokens[..n]).1 == n
    decreases n
  {
    if n > 0 {
      assert tokens[..n][1..] == tokens[1..][..n - 1];
      FeedPrefix(e, e.step(tokens[0], c.state).value, tokens[1..], n - 1);
    }
  }

  // ---- operations -------------------------------------------------------------------------

  /** The request: tokens as little-endian words. */
  function Words(ws: seq<U32>): (b: seq<U8>)
    ensures |b| == 4 * |ws|
  {
    if ws == [] then [] else Words(ws[..|ws| - 1]) + Le(ws[|ws| - 1], 4)
  }

  function BitsOf(tokens: seq<I32>): (ws: seq<U32>)
    ensures |ws| == |tokens|
  {
    seq(|tokens|, i requires 0 <= i < |tokens| => Bits32(tokens[i]))
  }

  /** Word `i` of a byte sequence. */
  function Word(b: seq<U8>, i: nat): (w: U32)
    requires 4 * i + 4 <= |b|
  {
    LeOfValue(b[4 * i..4 * i + 4]);
    Widths();
    Value(b[4 * i..4 * i + 4])
  }

  function WordsOf(b: seq<U8>, n: nat): (ws: seq<U32>)
    requires 4 * n <= |b|
    ensures |ws| == n
  {
    seq(n, i requires 0 <= i < n => Word(b, i))
  }

  function TokensOf(ws: seq<U32>): (ts: seq<I32>)
    ensures |ts| == |ws|
  {
    seq(|ws|, i requires 0 <= i < |ws| => Signed32(ws[i]))
  }

  lemma {:induction false} WordAt(ws: seq<U32>, i: nat)
    requires i < |ws|
    ensures Words(ws)[4 * i..4 * i + 4] == Le(ws[i], 4)
  {
    var n := |ws| - 1;
    if i < n {
      WordAt(ws[..n], i);
      assert Words(ws)[4 * i..4 * i + 4] == Words(ws[..n])[4 * i..4 * i + 4];
    }
  }

  /** Words are read back as written. */
  lemma WordsRoundTrip(ws: seq<U32>)
    ensures WordsOf(Words(ws), |ws|) == ws
  {
    forall i | 0 <= i < |ws| ensures Word(Words(ws), i) == ws[i] {
      WordAt(ws, i);
      Widths();
      ValueOfLe(ws[i], 4);
    }
  }

  /** A token's bits are its value in two's complement, and its bytes those of the word, lowest first. */
  lemma TokenBits(t: I32, w: U32)
    ensures w == Bits32(t) <==> w == t || w == t + 0x1_0000_0000
    ensures t == Signed32(w) <==> t == w || t == w - 0x1_0000_0000
  {
  }

  lemma TokensRoundTrip(tokens: seq<I32>)
    ensures TokensOf(BitsOf(tokens)) == tokens
  {
  }

  function Overlay(buffer: seq<I32>, front: seq<I32>): (r: seq<I32>)
    requires |front| <= |buffer|
    ensures |r| == |buffer|
  {
    front + buffer[|front|..]
  }

  predicate ValidRequest(cap: nat, request: seq<U8>)
  {
    request != [] && |request| % 4 == 0 && |request| <= 4 * cap
  }

  function Prepared(a: Adapter, request: seq<U8>): (Adapter, bool)
  {
    if !ValidRequest(|a.tokens|, request) then (a, false)
    else
      var n := |request| / 4;
      (a.(tokens := Overlay(a.tokens, TokensOf(WordsOf(request, n))), count := n, completed := 0,
          prepared := true, cancelled := false), true)
  }

  function Begun(e: Engine, a: Adapter): (Adapter, bool)
  {
    if !a.prepared || a.count == 0 then (a, false)
    else (a.(hidden := Blank(e).hidden, state := Blank(e).state, completed := 0, cancelled := false), true)
  }

  function Pushed(e: Engine, a: Adapter, budget: nat): (r: (Adapter, BackendAdvance))
    requires a.completed <= a.count <= |a.tokens|
  {
    if !a.prepared || a.cancelled || budget == 0 || a.completed >= a.count then (a, BackendAdvance(Broken, 0))
    else
      var n := Min(budget, a.count - a.completed);
      var (c, k) := Feed(e, Core(a.hidden, a.state), a.tokens[a.completed..a.completed + n]);
      var next := a.(hidden := c.hidden, state := c.state, completed := a.completed + k);
      if k < n then (next, BackendAdvance(Broken, 0))
      else (next, BackendAdvance(if next.completed == a.count then Done else InProgress, n))
  }

  // ---- saving and loading -----------------------------------------------------------------

  /** The saved state: a header, the tokens, the hidden row, and a snapshot of the decode state. */
  function Saved(e: Engine, a: Adapter): (b: seq<U8>)
    requires a.count <= |a.tokens| && a.count <= U64_MAX && a.completed <= U64_MAX
    requires Snapshot.Fits(a.state)
    ensures |b| == STATE_HEADER + 4 * a.count + 4 * |a.hidden| + Snapshot.HEADER + |a.state|
  {
    SavedHeader(a.count, a.completed) + Words(BitsOf(a.tokens[..a.count])) + Words(a.hidden)
    + Snapshot.Encoded(e.fp, e.id, a.state)
  }

  function SavedHeader(count: U64, completed: U64): (b: seq<U8>)
    ensures |b| == STATE_HEADER
  {
    Le(STATE_VERSION, 4) + Le(0, 4) + Le(count, 8) + Le(completed, 8)
  }

  predicate HeaderOk(cap: nat, s: seq<U8>)
  {
    && |s| >= STATE_HEADER && Num(s, 0, 4) == STATE_VERSION && Num(s, 4, 4) == 0
    && 0 < Num(s, 8, 8) <= cap && Num(s, 16, 8) <= Num(s, 8, 8)
  }

  predicate Loadable(e: Engine, cap: nat, s: seq<U8>)
  {
    && HeaderOk(cap, s) && |s| == StateBytes(e, Num(s, 8, 8))
    && Snapshot.Accepts(e.fp, e.id, s[|s| - SnapshotBytes(e)..], e.stateBytes)
  }

  function Loaded(e: Engine, a: Adapter, s: seq<U8>): (Adapter, bool)
  {
    if !Loadable(e, |a.tokens|, s) then (a, false)
    else
      var n := Num(s, 8, 8);
      var words := s[STATE_HEADER..|s| - SnapshotBytes(e)];
      (Adapter(Overlay(a.tokens, TokensOf(WordsOf(words, n))), WordsOf(words[4 * n..], e.dModel), n, Num(s, 16, 8),
               true, false, s[|s| - e.stateBytes..]), true)
  }

  lemma SavedHeaderReads(count: U64, completed: U64, s: seq<U8>)
    requires |s| >= STATE_HEADER && s[..STATE_HEADER] == SavedHeader(count, completed)
    ensures Num(s, 0, 4) == STATE_VERSION && Num(s, 4, 4) == 0 && Num(s, 8, 8) == count && Num(s, 16, 8) == completed
  {
    var a, b, c, d := Le(STATE_VERSION, 4), Le(0, 4), Le(count, 8), Le(completed, 8);
    FieldAt(s, a + b + c, d, 16, 24);
    FieldAt(s, a + b, c, 8, 16);
    FieldAt(s, a, b, 4, 8);
    assert s[..4] == s[0..4];
    Widths();
    ValueOfLe(STATE_VERSION, 4);
    ValueOfLe(0, 4);
    ValueOfLe(count, 8);
    ValueOfLe(completed, 8);
  }

  /** Where the parts of a saved state lie. */
  lemma SavedParts(s: seq<U8>, h: seq<U8>, words: seq<U8>, snap: seq<U8>)
    requires s == h + words + snap
    ensures s[..|h|] == h && s[|h|..|s| - |snap|] == words && s[|s| - |snap|..] == snap
  {
  }

  lemma Ends(s: seq<U8>, snap: seq<U8>, k: nat)
    requires k <= |snap| <= |s| && s[|s| - |snap|..] == snap
    ensures s[|s| - k..] == snap[|snap| - k..]
  {
    assert s[|s| - k..] == s[|s| - |snap|..][|snap| - k..];
  }

  /** The sizes that let a state be saved. */
  predicate Savable(e: Engine, a: Adapter)
  {
    && a.completed <= a.count <= |a.tokens| && a.count <= U64_MAX && Snapshot.Fits(a.state)
    && CoreFits(e, Core(a.hidden, a.state))
  }

  lemma SavedSplit(h: seq<U8>, ts: seq<U8>, hs: seq<U8>, snap: seq<U8>)
    ensures h + ts + hs + snap == h + (ts + hs) + snap
  {
  }

  lemma SavedIs(e: Engine, a: Adapter, s: seq<U8>)
    requires Savable(e, a)
    requires s == SavedHeader(a.count, a.completed) + (Words(BitsOf(a.tokens[..a.count])) + Words(a.hidden))
                  + Snapshot.Encoded(e.fp, e.id, a.state)
    ensures s == Saved(e, a)
  {
    SavedSplit(SavedHeader(a.count, a.completed), Words(BitsOf(a.tokens[..a.count])), Words(a.hidden),
               Snapshot.Encoded(e.fp, e.id, a.state));
  }

  lemma SavedFront(e: Engine, a: Adapter, s: seq<U8>)
    requires Savable(e, a) && s == Saved(e, a)
    ensures && s[..STATE_HEADER] == SavedHeader(a.count, a.completed)
            && s[STATE_HEADER..|s| - SnapshotBytes(e)] == Words(BitsOf(a.tokens[..a.count])) + Words(a.hidden)
            && s[|s| - SnapshotBytes(e)..] == Snapshot.Encoded(e.fp, e.id, a.state)
  {
    SavedSplit(SavedHeader(a.count, a.completed), Words(BitsOf(a.tokens[..a.count])), Words(a.hidden),
               Snapshot.Encoded(e.fp, e.id, a.state));
    SavedParts(s, SavedHeader(a.count, a.completed), Words(BitsOf(a.tokens[..a.count])) + Words(a.hidden),
               Snapshot.Encoded(e.fp, e.id, a.state));
  }

  lemma SavedBack(e: Engine, a: Adapter, s: seq<U8>)
    requires Savable(e, a) && |s| >= SnapshotBytes(e)
    requires s[|s| - SnapshotBytes(e)..] == Snapshot.Encoded(e.fp, e.id, a.state)
    ensures s[|s| - e.stateBytes..] == a.state
  {
    Snapshot.PayloadAtEnd(e.fp, e.id, a.state);
    Ends(s, Snapshot.Encoded(e.fp, e.id, a.state), e.stateBytes);
  }

  /** A saved state loads into every buffer that holds its tokens, and into no other. */
  lemma SavedLoadable(e: Engine, a: Adapter, cap: nat)
    requires AdapterOk(e, a) && a.prepared
    ensures var s := Saved(e, a);
            && (Loadable(e, cap, s) <==> a.count <= cap) && Num(s, 8, 8) == a.count && Num(s, 16, 8) == a.completed
            && s[STATE_HEADER..|s| - SnapshotBytes(e)] == Words(BitsOf(a.tokens[..a.count])) + Words(a.hidden)
            && s[|s| - e.stateBytes..] == a.state
  {
    SavedFront(e, a, Saved(e, a));
    SavedBack(e, a, Saved(e, a));
    SavedHeaderReads(a.count, a.completed, Saved(e, a));
    Snapshot.RoundTrip(e.fp, e.id, e.id, a.state);
  }

  /** The saved part of `a` in the buffers of `b`. */
  function TakenOver(a: Adapter, b: Adapter): Adapter
    requires a.count <= |a.tokens| && a.count <= |b.tokens|
  {
    Adapter(Overlay(b.tokens, a.tokens[..a.count]), a.hidden, a.count, a.completed, true, false, a.state)
  }

  /**
  Saving and loading is the identity on everything but unused token slots, whatever the loader held and
  however large it is, exactly when its buffer holds the tokens; a smaller loader is left as it was.
   */
  lemma SaveLoad(e: Engine, a: Adapter, b: Adapter)
    requires AdapterOk(e, a) && a.prepared
    ensures Loaded(e, b, Saved(e, a)) == if a.count <= |b.tokens| then (TakenOver(a, b), true) else (b, false)
  {
    SavedLoadable(e, a, |b.tokens|);
    if a.count <= |b.tokens| {
      LoadReads(e, a, b, Saved(e, a));
    }
  }

  lemma LoadReads(e: Engine, a: Adapter, b: Adapter, s: seq<U8>)
    requires AdapterOk(e, a) && a.count <= |b.tokens| && Loadable(e, |b.tokens|, s)
    requires Num(s, 8, 8) == a.count && Num(s, 16, 8) == a.completed
    requires s[STATE_HEADER..|s| - SnapshotBytes(e)] == Words(BitsOf(a.tokens[..a.count])) + Words(a.hidden)
    requires s[|s| - e.stateBytes..] == a.state
    ensures Loaded(e, b, s) == (TakenOver(a, b), true)
  {
    WordsBack(a.tokens[..a.count], a.hidden);
  }

  lemma WordsBack(tokens: seq<I32>, hidden: seq<U32>)
    ensures var words := Words(BitsOf(tokens)) + Words(hidden);
            TokensOf(WordsOf(words, |tokens|)) == tokens && WordsOf(words[4 * |tokens|..], |hidden|) == hidden
  {
    var bits := BitsOf(tokens);
    FrontWords(Words(bits), Words(hidden), |tokens|);
    WordsRoundTrip(bits);
    WordsRoundTrip(hidden);
    TokensRoundTrip(tokens);
    assert (Words(bits) + Words(hidden))[4 * |tokens|..] == Words(hidden);
  }

  lemma FrontWord(ts: seq<U8>, hs: seq<U8>, i: nat)
    requires 4 * i + 4 <= |ts|
    ensures Word(ts + hs, i) == Word(ts, i)
  {
    assert (ts + hs)[4 * i..4 * i + 4] == ts[4 * i..4 * i + 4];
  }

  lemma FrontWords(ts: seq<U8>, hs: seq<U8>, n: nat)
    requires 4 * n <= |ts|
    ensures WordsOf(ts + hs, n) == WordsOf(ts, n)
  {
    forall i | 0 <= i < n ensures Word(ts + hs, i) == Word(ts, i) {
      FrontWord(ts, hs, i);
    }
  }

  // ---- loading and saving -----------------------------------------------------------------

  lemma {:induction false} WordsOfBack(b: seq<U8>, n: nat)
    requires |b| == 4 * n
    ensures Words(WordsOf(b, n)) == b
    decreases n
  {
    if n > 0 {
      var front := b[..4 * (n - 1)];
      WordsOfBack(front, n - 1);
      LastWord(b, n);
      assert b == front + b[4 * (n - 1)..];
    }
  }

  lemma LastWord(b: seq<U8>, n: nat)
    requires n > 0 && |b| == 4 * n
    ensures WordsOf(b, n)[..n - 1] == WordsOf(b[..4 * (n - 1)], n - 1)
    ensures Le(WordsOf(b, n)[n - 1], 4) == b[4 * (n - 1)..]
  {
    var front := b[..4 * (n - 1)];
    forall i | 0 <= i < n - 1 ensures Word(b, i) == Word(front, i) {
      assert b[4 * i..4 * i + 4] == front[4 * i..4 * i + 4];
    }
    var last := b[4 * (n - 1)..4 * (n - 1) + 4];
    LeOfValue(last);
    assert last == b[4 * (n - 1)..];
  }

  lemma BitsBack(ws: seq<U32>)
    ensures BitsOf(TokensOf(ws)) == ws
  {
  }

  lemma HeaderBack(s: seq<U8>)
    requires |s| >= STATE_HEADER && Num(s, 0, 4) == STATE_VERSION && Num(s, 4, 4) == 0
    requires Num(s, 8, 8) <= U64_MAX && Num(s, 16, 8) <= U64_MAX
    ensures s[..STATE_HEADER] == SavedHeader(Num(s, 8, 8), Num(s, 16, 8))
  {
    LeOfValue(s[0..4]);
    LeOfValue(s[4..8]);
    LeOfValue(s[8..16]);
    LeOfValue(s[16..24]);
    var a, b, c, d := Le(STATE_VERSION, 4), Le(0, 4), Le(Num(s, 8, 8), 8), Le(Num(s, 16, 8), 8);
    assert s[..4] == s[0..4];
    FieldAt(s, a, b, 4, 8);
    FieldAt(s, a + b, c, 8, 16);
    FieldAt(s, a + b + c, d, 16, 24);
  }

  /** The words of a loadable state, split into tokens and hidden row. */
  lemma WordsSplit(words: seq<U8>, n: nat, m: nat)
    requires |words| == 4 * n + 4 * m
    ensures Words(BitsOf(TokensOf(WordsOf(words, n)))) + Words(WordsOf(words[4 * n..], m)) == words
  {
    var a, b := words[..4 * n], words[4 * n..];
    assert words == a + b;
    FrontWords(a, b, n);
    BitsBack(WordsOf(words, n));
    WordsOfBack(a, n);
    WordsOfBack(b, m);
  }

  lemma SnapshotOf(e: Engine, s: seq<U8>)
    requires |s| <= U64_MAX && SnapshotBytes(e) <= |s|
    requires Snapshot.Accepts(e.fp, e.id, s[|s| - SnapshotBytes(e)..], e.stateBytes)
    ensures Snapshot.Fits(s[|s| - e.stateBytes..])
    ensures s[|s| - SnapshotBytes(e)..] == Snapshot.Encoded(e.fp, e.id, s[|s| - e.stateBytes..])
  {
    var at := |s| - SnapshotBytes(e);
    Snapshot.AcceptsExactly(e.fp, e.id, s[at..], e.stateBytes);
    assert s[at..][Snapshot.HEADER..] == s[|s| - e.stateBytes..];
  }

  /** What loading reads, in the form in which saving writes it. */
  lemma LoadedParts(e: Engine, a: Adapter, s: seq<U8>, words: seq<U8>, n: nat)
    requires Loadable(e, |a.tokens|, s) && n == Num(s, 8, 8) && words == s[STATE_HEADER..|s| - SnapshotBytes(e)]
    ensures var b := Loaded(e, a, s).0;
            && b.count == n && b.completed == Num(s, 16, 8) <= n <= |b.tokens| && b.state == s[|s| - e.stateBytes..]
            && Words(BitsOf(b.tokens[..n])) + Words(b.hidden) == words && |b.hidden| == e.dModel
  {
    WordsSplit(words, n, e.dModel);
    OverlayFront(a.tokens, TokensOf(WordsOf(words, n)));
  }

  lemma OverlayFront(buffer: seq<I32>, front: seq<I32>)
    requires |front| <= |buffer|
    ensures Overlay(buffer, front)[..|front|] == front
  {
  }

  /** Loading and saving again gives the same bytes: only saved states can be loaded. */
  lemma LoadSave(e: Engine, a: Adapter, s: seq<U8>)
    requires Capacity(e, |a.tokens|) && Loadable(e, |a.tokens|, s)
    ensures var b := Loaded(e, a, s).0; Savable(e, b) && Saved(e, b) == s
  {
    var at := |s| - SnapshotBytes(e);
    HeaderBack(s);
    LoadedParts(e, a, s, s[STATE_HEADER..at], Num(s, 8, 8));
    SnapshotOf(e, s);
    Glue(s, STATE_HEADER, at);
    SavedIs(e, Loaded(e, a, s).0, s);
  }

  lemma Glue(s: seq<U8>, i: nat, j: nat)
    requires i <= j <= |s|
    ensures s == s[..i] + s[i..j] + s[j..]
  {
  }
}
