/** The streaming adapter as an object: it owns an engine state and fixed buffers, updated in place. */
module StreamAdapter {
  import opened Machine
  import opened ByteCodec
  import opened JobMachine
  import opened MambaStream
  import opened StateCodec
  import Snapshot

  /** One more accepted token. */
  lemma FeedNext(e: Engine, c: Core, tokens: seq<I32>, i: nat)
    requires i < |tokens| && Feed(e, c, tokens[..i]).1 == i
    ensures var d := Feed(e, c, tokens[..i]).0;
            var s := e.step(tokens[i], d.state);
            && (s.Some? ==> Feed(e, c, tokens[..i + 1]) == (s.value, i + 1))
            && (s.None? ==> Feed(e, c, tokens) == (d, i))
  {
    var d := Feed(e, c, tokens[..i]).0;
    assert tokens[..i] + [tokens[i]] == tokens[..i + 1];
    FeedSplit(e, c, tokens[..i], [tokens[i]]);
    assert tokens[..i] + tokens[i..] == tokens;
    FeedSplit(e, c, tokens[..i], tokens[i..]);
  }

  /** A window whose front was written before its end. */
  lemma Window(before: seq<U8>, after: seq<U8>, base: nat, at: nat, end: nat, front: seq<U8>)
    requires base <= at <= end <= |after| == |before| && before[base..at] == front
    requires forall i :: base <= i < at ==> after[i] == before[i]
    ensures after[base..end] == front + after[at..end]
  {
    assert after[base..at] == before[base..at];
    assert after[base..end] == after[base..at] + after[at..end];
  }

  class MambaStreamAdapter {
    const engine: Engine
    const tokens: array<I32>
    const hidden: array<U32>
    const state: array<U8>
    var count: nat
    var completed: nat
    var prepared: bool
    var cancelled: bool

    ghost function View(): Adapter
      reads this, tokens, hidden, state
    {
      Adapter(tokens[..], hidden[..], count, completed, prepared, cancelled, state[..])
    }

    ghost predicate Valid()
      reads this, tokens, hidden, state
    {
      EngineOk(engine) && AdapterOk(engine, View())
    }

    constructor (e: Engine, cap: nat)
      requires EngineOk(e) && Capacity(e, cap)
      ensures Valid() && engine == e && tokens.Length == cap && fresh(tokens) && fresh(hidden) && fresh(state)
      ensures View() == Adapter(seq(cap, _ => 0), Blank(e).hidden, 0, 0, false, false, Blank(e).state)
    {
      engine := e;
      tokens := new I32[cap](_ => 0);
      hidden := new U32[e.dModel](_ => 0);
      state := new U8[e.stateBytes](_ => 0);
      count, completed, prepared, cancelled := 0, 0, false, false;
    }

    method Prepare(request: seq<U8>) returns (ok: bool)
      requires Valid()
      modifies this, tokens
      ensures Valid() && (View(), ok) == Prepared(old(View()), request)
    {
      if |request| == 0 || |request| % 4 != 0 || |request| > 4 * tokens.Length { return false; }
      var n := |request| / 4;
      ReadTokens(request, n);
      count, completed, prepared, cancelled := n, 0, true, false;
      ok := true;
    }

    /** Fills the front of the token buffer from little-endian words. */
    method ReadTokens(source: seq<U8>, n: nat)
      requires 4 * n <= |source| && n <= tokens.Length
      modifies tokens
      ensures tokens[..] == Overlay(old(tokens[..]), TokensOf(WordsOf(source, n)))
    {
      var reader := new StateReader(source);
      var i := 0;
      while i < n
        invariant 0 <= i <= n && reader.Valid() && reader.position == 4 * i && reader.source == source && fresh(reader)
        invariant forall j :: 0 <= j < i ==> tokens[j] == Signed32(Word(source, j))
        invariant forall j :: i <= j < tokens.Length ==> tokens[j] == old(tokens[j])
      {
        var word := reader.Read(4);
        Widths();
        tokens[i] := Signed32(word.value);
        i := i + 1;
      }
    }

    method ReadHidden(source: seq<U8>)
      requires |source| == 4 * hidden.Length
      modifies hidden
      ensures hidden[..] == WordsOf(source, hidden.Length)
    {
      var reader := new StateReader(source);
      var i := 0;
      while i < hidden.Length
        invariant 0 <= i <= hidden.Length && reader.Valid() && reader.position == 4 * i && reader.source == source
        invariant fresh(reader)
        invariant forall j :: 0 <= j < i ==> hidden[j] == Word(source, j)
      {
        var word := reader.Read(4);
        Widths();
        hidden[i] := word.value;
        i := i + 1;
      }
    }

    method Begin() returns (ok: bool)
      requires Valid()
      modifies this, hidden, state
      ensures Valid() && (View(), ok) == Begun(engine, old(View()))
    {
      if !prepared || count == 0 { return false; }
      forall i | 0 <= i < state.Length { state[i] := 0; }
      forall i | 0 <= i < hidden.Length { hidden[i] := 0; }
      completed, cancelled := 0, false;
      assert hidden[..] == Blank(engine).hidden && state[..] == Blank(engine).state;
      assert tokens[..] == old(tokens[..]);
      ok := true;
    }

    /** One engine step: on success the hidden row and the decode state are replaced. */
    method StepEngine(token: I32) returns (ok: bool)
      requires EngineOk(engine) && CoreFits(engine, Core(hidden[..], state[..]))
      modifies hidden, state
      ensures var s := engine.step(token, old(state[..]));
              && (ok <==> s.Some?)
              && Core(hidden[..], state[..]) == (if ok then s.value else Core(old(hidden[..]), old(state[..])))
    {
      var s := engine.step(token, state[..]);
      if s.None? { return false; }
      forall i | 0 <= i < hidden.Length { hidden[i] := s.value.hidden[i]; }
      forall i | 0 <= i < state.Length { state[i] := s.value.state[i]; }
      assert hidden[..] == s.value.hidden && state[..] == s.value.state;
      ok := true;
    }

    /** Feeds up to `budget` tokens; a refused token ends the call as a failure. */
    method Advance(budget: nat) returns (r: BackendAdvance)
      requires Valid()
      modifies this, hidden, state
      ensures Valid() && (View(), r) == Pushed(engine, old(View()), budget)
    {
      if !prepared || cancelled || budget == 0 || completed >= count { return BackendAdvance(Broken, 0); }
      var n := if budget < count - completed then budget else count - completed;
      var ok := FeedTokens(n, Core(hidden[..], state[..]), tokens[completed..completed + n]);
      if !ok { return BackendAdvance(Broken, 0); }
      r := BackendAdvance(if completed == count then Done else InProgress, n);
    }

    /** Feeds the next tokens one by one and stops at the first that is refused. */
    method FeedTokens(n: nat, ghost c: Core, ghost ts: seq<I32>) returns (ok: bool)
      requires EngineOk(engine) && CoreFits(engine, c) && c == Core(hidden[..], state[..])
      requires completed + n <= tokens.Length && ts == tokens[completed..completed + n]
      modifies this`completed, hidden, state
      ensures (Core(hidden[..], state[..]), completed - old(completed)) == Feed(engine, c, ts)
      ensures CoreFits(engine, Core(hidden[..], state[..])) && (ok <==> completed == old(completed) + n)
    {
      ghost var from := completed;
      var i := 0;
      while i < n
        invariant 0 <= i <= n && completed == from + i && CoreFits(engine, Core(hidden[..], state[..]))
        invariant Feed(engine, c, ts[..i]) == (Core(hidden[..], state[..]), i)
      {
        FeedNext(engine, c, ts, i);
        assert tokens[completed] == ts[i];
        var stepped := StepEngine(tokens[completed]);
        if !stepped { return false; }
        completed := completed + 1;
        i := i + 1;
      }
      assert ts[..n] == ts;
      ok := true;
    }

    method Cancel()
      modifies this`cancelled
      ensures cancelled
    {
      cancelled := true;
    }

    /** Size of the saved state; 0 before anything is prepared. */
    function SavedBytes(): (n: nat)
      reads this
    {
      if !prepared then 0 else STATE_HEADER + 4 * count + 4 * hidden.Length + Snapshot.HEADER + state.Length
    }

    /** What comes before the snapshot in a saved state. */
    ghost function Front(): (b: seq<U8>)
      requires completed <= count <= tokens.Length && count <= U64_MAX
      reads this, tokens, hidden
      ensures |b| == STATE_HEADER + 4 * count + 4 * hidden.Length
    {
      SavedHeader(count, completed) + Words(BitsOf(tokens[..count])) + Words(hidden[..])
    }

    method WriteHeader(writer: StateWriter)
      requires writer.Valid() && writer.position == 0 && STATE_HEADER <= writer.size && completed <= count <= U64_MAX
      modifies writer, writer.dst
      ensures writer.Valid() && writer.position == STATE_HEADER && writer.KeptOutside(old(writer.dst[..]))
      ensures writer.Written() == SavedHeader(count, completed)
    {
      var ok := writer.Write(STATE_VERSION, 4);
      ghost var h := Le(STATE_VERSION, 4);
      assert writer.Written() == h;
      ok := writer.Write(0, 4);
      h := h + Le(0, 4);
      assert writer.Written() == h;
      ok := writer.Write(count, 8);
      h := h + Le(count, 8);
      assert writer.Written() == h;
      ok := writer.Write(completed, 8);
    }

    /** Header, tokens and hidden row; the snapshot comes after. */
    method SaveFront(dst: array<U8>, base: nat, size: nat, ghost front: seq<U8>) returns (at: nat)
      requires prepared && completed <= count <= tokens.Length && size == SavedBytes() <= U64_MAX && front == Front()
      requires base + size <= dst.Length
      modifies dst
      ensures at == base + |front| && dst[base..at] == front
      ensures forall i :: 0 <= i < dst.Length && !(base <= i < base + size) ==> dst[i] == old(dst[i])
    {
      var bits, row := BitsOf(tokens[..count]), hidden[..];
      var writer := new StateWriter(dst, base, size);
      WriteHeader(writer);
      ghost var header := writer.Written();
      WriteBoth(writer, bits, row);
      assert front == header + Words(bits) + Words(row);
      at := base + writer.position;
    }

    method WriteBoth(writer: StateWriter, bits: seq<U32>, row: seq<U32>)
      requires writer.Valid() && writer.position + 4 * |bits| + 4 * |row| <= writer.size
      modifies writer, writer.dst
      ensures writer.Valid() && writer.position == old(writer.position) + 4 * |bits| + 4 * |row|
      ensures writer.Written() == old(writer.Written()) + Words(bits) + Words(row)
      ensures writer.KeptOutside(old(writer.dst[..]))
    {
      WriteWords(writer, bits);
      WriteWords(writer, row);
    }

    method SaveSnapshot(dst: array<U8>, at: nat, size: nat)
      requires at + size <= dst.Length && dst != state && size == Snapshot.HEADER + state.Length <= U64_MAX
      modifies dst
      ensures dst[at..at + size] == Snapshot.Encoded(engine.fp, engine.id, state[..])
      ensures forall i :: 0 <= i < dst.Length && !(at <= i < at + size) ==> dst[i] == old(dst[i])
    {
      ghost var p := dst[..at];
      var status := Snapshot.Export(engine.fp, engine.id, state[..], dst, at, size);
      assert dst[..at + size] == p + Snapshot.Encoded(engine.fp, engine.id, state[..]);
      assert forall i :: 0 <= i < at ==> dst[i] == dst[..at + size][i] == p[i];
      assert dst[at..at + size] == dst[..at + size][at..];
    }

    /** Writes the saved state into a window of exactly its size. */
    method SaveState(dst: array<U8>, base: nat, size: nat) returns (ok: bool)
      requires Valid() && base + size <= dst.Length && dst != state
      modifies dst
      ensures ok <==> prepared && size == SavedBytes()
      ensures ok ==> Snapshot.Fits(state[..]) && dst[base..base + size] == Saved(engine, View())
                     && forall i :: 0 <= i < dst.Length && !(base <= i < base + size) ==> dst[i] == old(dst[i])
      ensures !ok ==> unchanged(dst)
    {
      ok := prepared && size == SavedBytes();
      if ok { SaveInto(dst, base, size, Front()); }
    }

    method SaveInto(dst: array<U8>, base: nat, size: nat, ghost front: seq<U8>)
      requires prepared && completed <= count <= tokens.Length && size == SavedBytes() <= U64_MAX && front == Front()
      requires base + size <= dst.Length && dst != state
      modifies dst
      ensures dst[base..base + size] == front + Snapshot.Encoded(engine.fp, engine.id, state[..])
      ensures forall i :: 0 <= i < dst.Length && !(base <= i < base + size) ==> dst[i] == old(dst[i])
    {
      var at := SaveFront(dst, base, size, front);
      SaveBack(dst, base, at, base + size, front);
    }

    /** The snapshot goes behind a front that is already in place. */
    method SaveBack(dst: array<U8>, base: nat, at: nat, end: nat, ghost front: seq<U8>)
      requires base <= at <= end <= dst.Length && dst != state && end - at == Snapshot.HEADER + state.Length <= U64_MAX
      requires dst[base..at] == front
      modifies dst
      ensures dst[base..end] == front + Snapshot.Encoded(engine.fp, engine.id, state[..])
      ensures forall i :: 0 <= i < dst.Length && !(at <= i < end) ==> dst[i] == old(dst[i])
    {
      ghost var before := dst[..];
      assert before[base..at] == front;
      SaveSnapshot(dst, at, end - at);
      Window(before, dst[..], base, at, end, front);
    }

    /** Takes over a saved state; a source that is not one changes nothing, in the adapter or the engine. */
    method LoadState(source: seq<U8>) returns (ok: bool)
      requires Valid() && |source| <= U64_MAX
      modifies this, tokens, hidden, state
      ensures Valid() && (View(), ok) == Loaded(engine, old(View()), source)
    {
      var header := CheckHeader(source);
      if header.None? { return false; }
      var (n, done) := header.value;
      var expected := STATE_HEADER + 4 * n + 4 * hidden.Length + Snapshot.HEADER + state.Length;
      if |source| != expected { return false; }
      ok := LoadBody(source, n, done);
    }

    /** The part after the size check. */
    method LoadBody(source: seq<U8>, n: nat, done: nat) returns (ok: bool)
      requires n <= tokens.Length && |source| <= U64_MAX
      requires |source| == STATE_HEADER + 4 * n + 4 * hidden.Length + Snapshot.HEADER + state.Length
      modifies this, tokens, hidden, state
      ensures var at := STATE_HEADER + 4 * n + 4 * hidden.Length;
              var words := source[STATE_HEADER..at];
              && (ok <==> Snapshot.Accepts(engine.fp, engine.id, source[at..], state.Length))
              && View() == if ok then Adapter(Overlay(old(tokens[..]), TokensOf(WordsOf(words, n))),
                                              WordsOf(words[4 * n..], hidden.Length), n, done, true, false,
                                              source[|source| - state.Length..]) else old(View())
    {
      var at := STATE_HEADER + 4 * n + 4 * hidden.Length;
      ok := ImportState(source, at);
      if ok { Adopt(source[STATE_HEADER..at], n, done); }
    }

    /** Takes over tokens, hidden row and progress. */
    method Adopt(words: seq<U8>, n: nat, done: nat)
      requires |words| == 4 * n + 4 * hidden.Length && n <= tokens.Length
      modifies this, tokens, hidden
      ensures View() == Adapter(Overlay(old(tokens[..]), TokensOf(WordsOf(words, n))),
                                WordsOf(words[4 * n..], hidden.Length), n, done, true, false, old(state[..]))
    {
      ReadTokens(words, n);
      ReadHidden(words[4 * n..]);
      count, completed, prepared, cancelled := n, done, true, false;
    }

    /** Replaces the decode state by the snapshot at the end of the source, if it is one of this model. */
    method ImportState(source: seq<U8>, at: nat) returns (ok: bool)
      requires at + Snapshot.HEADER + state.Length == |source| <= U64_MAX
      modifies state
      ensures ok <==> Snapshot.Accepts(engine.fp, engine.id, source[at..], state.Length)
      ensures state[..] == if ok then source[|source| - state.Length..] else old(state[..])
    {
      Snapshot.AcceptsExactly(engine.fp, engine.id, source[at..], state.Length);
      var status := Snapshot.Import(engine.fp, engine.id, source[at..], state);
      ok := status == Snapshot.Ok;
      assert source[at..][Snapshot.HEADER..] == source[|source| - state.Length..];
    }

    method CheckHeader(source: seq<U8>) returns (r: Option<(nat, nat)>)
      ensures r.Some? <==> HeaderOk(tokens.Length, source)
      ensures r.Some? ==> r.value == (Num(source, 8, 8), Num(source, 16, 8))
    {
      var reader := new StateReader(source);
      var version := reader.Read(4);
      var reserved := reader.Read(4);
      var n := reader.Read(8);
      var done := reader.Read(8);
      if version.None? || reserved.None? || n.None? || done.None? || version.value != STATE_VERSION
         || reserved.value != 0 || n.value == 0 || n.value > tokens.Length || done.value > n.value {
        return None;
      }
      r := Some((n.value, done.value));
    }
  }
}
