/** The overlap of two chunks: what `next` blends at each step of a replacement, in every run. */
module GateOverlap {
  import opened Bits
  import opened Machine
  import opened ActionGate
  import opened GateRuns

  /** Start of step `s` of a chunk. */
  function StartOf(u: Setup, d: Descriptor, s: nat): nat
  {
    d.validFrom + s * u.config.period
  }

  lemma QuotientShift(e: nat, s: nat, p: nat)
    requires p > 0
    ensures (e + s * p) / p == e / p + s
  {
    var q := (e + s * p) / p;
    assert e == p * (e / p) + e % p;
    assert e + s * p == p * q + (e + s * p) % p;
    var k := q - e / p - s;
    assert p * k == e % p - (e + s * p) % p;
    MultipleGap(p, k);
  }

  /** The start of the replacement, in steps of the chunk it replaces. */
  function TimedStep(u: Setup, g: Gate, d: Descriptor): nat
    requires u.config.period > 0 && d.validFrom >= g.chunk.validFrom
  {
    (d.validFrom - g.chunk.validFrom) / u.config.period
  }

  /**
  Overlap alignment: step `s` of the replacement is blended with the step the replaced chunk had due at
  the same instant exactly when the replacement starts no earlier than the next unpublished step.
   */
  lemma OverlapAligned(u: Setup, g: Gate, d: Descriptor, s: nat)
    requires u.config.period > 0 && d.validFrom >= g.chunk.validFrom
    ensures OldStep(u, g, d) + s == DueThen(u, g, d, s) <==> TimedStep(u, g, d) >= g.nextStep
  {
    DueIsShifted(u, g, d, s);
  }

  /** The step of the replaced chunk due at the start of step `s` of the replacement. */
  function DueThen(u: Setup, g: Gate, d: Descriptor, s: nat): int
    requires u.config.period > 0
  {
    (StartOf(u, d, s) - g.chunk.validFrom) / u.config.period
  }

  lemma DueIsShifted(u: Setup, g: Gate, d: Descriptor, s: nat)
    requires u.config.period > 0 && d.validFrom >= g.chunk.validFrom
    ensures DueThen(u, g, d, s) == TimedStep(u, g, d) + s
  {
    var e := d.validFrom - g.chunk.validFrom;
    QuotientShift(e, s, u.config.period);
    assert StartOf(u, d, s) - g.chunk.validFrom == e + s * u.config.period;
  }

  // ---- what a taken chunk leaves to blend -------------------------------------------------

  /** The cells of the gate once a chunk is taken: its own values, and the captured ones where it overlaps. */
  lemma TakenCells(u: Setup, g: Gate, chunk: Chunk, now: U64, s: nat, c: nat)
    requires ValidSetup(u) && GateOk(u, g) && Takes(u, g, chunk, now) && s < Steps(u) && c < u.config.controlDim
    ensures var r, i := Accepting(u, g, chunk, now), s * u.config.controlDim + c;
            && GateOk(u, r) && r.overlapSteps == OverlapLength(u, g, chunk.desc)
            && 0 <= i < |chunk.values| && chunk.values[i].Finite? && r.active[i] == chunk.values[i].value
            && (s < r.overlapSteps ==> i < |Captured(u, g, chunk.desc)| && r.overlap[i] == Captured(u, g, chunk.desc)[i])
  {
    TakenGateOk(u, g, chunk, now);
    CellIn(u, g, s, c);
    CapturedSize(u, g, chunk.desc);
    if s < OverlapLength(u, g, chunk.desc) {
      CapturedCell(u, g, chunk.desc, s, c);
    }
  }

  /** Step `s` of the replacement asks for a blend with step `OldStep + s` of the chunk it replaces. */
  lemma BlendIs(u: Setup, g: Gate, chunk: Chunk, now: U64, s: nat, c: nat)
    requires ValidSetup(u) && GateOk(u, g) && Takes(u, g, chunk, now)
    requires s < OverlapLength(u, g, chunk.desc) && c < u.config.controlDim
    ensures var r, cd := Accepting(u, g, chunk, now), u.config.controlDim;
            var i, j := s * cd + c, (OldStep(u, g, chunk.desc) + s) * cd + c;
            && GateOk(u, r) && s < Steps(u) && 0 <= i < |chunk.values| && chunk.values[i].Finite? && 0 <= j < |g.active|
            && Candidate(u, r, s, c)
               == Lerp(g.active[j], chunk.values[i].value, BlendWeight(s, OverlapLength(u, g, chunk.desc)))
  {
    StepCountOf(u, chunk.desc);
    TakenCells(u, g, chunk, now, s, c);
    CapturedCell(u, g, chunk.desc, s, c);
  }

  /**
  Blending is aligned when the replacement starts no earlier than the next unpublished step: the old value
  in the blend is the one due at the start of the step, which lies before the replaced chunk's end.
   */
  lemma OverlapValueDue(u: Setup, g: Gate, chunk: Chunk, now: U64, s: nat, c: nat)
    requires ValidSetup(u) && GateOk(u, g) && Takes(u, g, chunk, now)
    requires s < OverlapLength(u, g, chunk.desc) && c < u.config.controlDim
    requires TimedStep(u, g, chunk.desc) >= g.nextStep
    ensures var r, due, cd := Accepting(u, g, chunk, now), DueThen(u, g, chunk.desc, s), u.config.controlDim;
            && GateOk(u, r) && s < Steps(u) && 0 <= due < g.chunk.stepCount && 0 <= due * cd + c < |g.active|
            && 0 <= s * cd + c < |chunk.values| && chunk.values[s * cd + c].Finite?
            && Candidate(u, r, s, c)
               == Lerp(g.active[due * cd + c], chunk.values[s * cd + c].value,
                       BlendWeight(s, OverlapLength(u, g, chunk.desc)))
  {
    BlendIs(u, g, chunk, now, s, c);
    OverlapAligned(u, g, chunk.desc, s);
  }

  lemma LerpSplit(a: real, x: real, t: real)
    ensures Lerp(a, x, t) == t * x + (1.0 - t) * a
  {
    assert t * (x - a) == t * x - t * a;
    assert (1.0 - t) * a == a - t * a;
  }

  lemma Cancels(k: real, a: real, b: real)
    requires k > 0.0 && k * a == k * b
    ensures a == b
  {
    assert k * (a - b) == 0.0;
  }

  /** Equal blends come from equal old values. */
  lemma LerpInjective(a: real, b: real, x: real, t: real)
    requires t < 1.0
    ensures Lerp(a, x, t) == Lerp(b, x, t) <==> a == b
  {
    LerpSplit(a, x, t);
    LerpSplit(b, x, t);
    if Lerp(a, x, t) == Lerp(b, x, t) { Cancels(1.0 - t, a, b); }
  }

  /**
  Otherwise a later step of the replaced chunk is blended in: the blend is the aligned one only where the
  two old values happen to be equal.
   */
  lemma OverlapValueShifted(u: Setup, g: Gate, chunk: Chunk, now: U64, s: nat, c: nat)
    requires ValidSetup(u) && GateOk(u, g) && Takes(u, g, chunk, now)
    requires s < OverlapLength(u, g, chunk.desc) && c < u.config.controlDim
    requires TimedStep(u, g, chunk.desc) < g.nextStep
    ensures var r, due, cd := Accepting(u, g, chunk, now), DueThen(u, g, chunk.desc, s), u.config.controlDim;
            var later := g.nextStep + s;
            && GateOk(u, r) && s < Steps(u) && 0 <= due < later < g.chunk.stepCount
            && 0 <= due * cd + c < |g.active| && 0 <= later * cd + c < |g.active|
            && 0 <= s * cd + c < |chunk.values| && chunk.values[s * cd + c].Finite?
            && (Candidate(u, r, s, c)
                == Lerp(g.active[due * cd + c], chunk.values[s * cd + c].value,
                        BlendWeight(s, OverlapLength(u, g, chunk.desc)))
                <==> g.active[later * cd + c] == g.active[due * cd + c])
  {
    var due, cd := DueThen(u, g, chunk.desc, s), u.config.controlDim;
    BlendIs(u, g, chunk, now, s, c);
    DueIsShifted(u, g, chunk.desc, s);
    CapturedCell(u, g, chunk.desc, s, c);
    CellIn(u, g, due, c);
    WeightWithin(s, OverlapLength(u, g, chunk.desc));
    LerpInjective(g.active[(g.nextStep + s) * cd + c], g.active[due * cd + c], chunk.values[s * cd + c].value,
                  BlendWeight(s, OverlapLength(u, g, chunk.desc)));
  }

  // ---- runs: from the chunk taken to the step published -----------------------------------

  /** The event is an offer that the gate takes. */
  ghost predicate TakenAt(u: Setup, events: seq<Event>, k: nat)
    requires ValidSetup(u)
  {
    && k < |events| && events[k].Offer?
    && Takes(u, Run(u, events[..k]).gate, events[k].chunk, events[k].now)
  }

  /** From event `n` on there are only ticks and offers that are turned down. */
  ghost predicate NothingTaken(u: Setup, events: seq<Event>, n: nat)
    requires ValidSetup(u)
  {
    forall k :: n <= k < |events| ==> !events[k].Reset? && !TakenAt(u, events, k)
  }

  /** The two gates hold the same chunk and the same tail of the chunk before it. */
  predicate SameChunk(g: Gate, r: Gate)
  {
    r.active == g.active && r.overlap == g.overlap && r.overlapSteps == g.overlapSteps && r.chunk == g.chunk
  }

  lemma EventKeepsChunk(u: Setup, t: Trace, e: Event)
    requires ValidSetup(u) && GateOk(u, t.gate) && !e.Reset? && (e.Offer? ==> !Takes(u, t.gate, e.chunk, e.now))
    ensures SameChunk(t.gate, Apply(u, t, e).gate)
  {
  }

  lemma RunLast(u: Setup, events: seq<Event>, k: nat)
    requires ValidSetup(u) && k < |events|
    ensures Run(u, events[..k + 1]) == Apply(u, Run(u, events[..k]), events[k])
  {
    assert events[..k + 1][..k] == events[..k];
  }

  lemma EventKept(u: Setup, events: seq<Event>, k: nat)
    requires ValidSetup(u) && k < |events| && !events[k].Reset? && !TakenAt(u, events, k)
    ensures SameChunk(Run(u, events[..k]).gate, Run(u, events[..k + 1]).gate)
  {
    RunLast(u, events, k);
    EventKeepsChunk(u, Run(u, events[..k]), events[k]);
  }

  lemma StillSame(a: Gate, b: Gate, c: Gate)
    requires SameChunk(a, b) && SameChunk(b, c)
    ensures SameChunk(a, c)
  {
  }

  /** Ticks and refused offers leave the active chunk and the overlap alone. */
  lemma {:induction false} ChunkKept(u: Setup, events: seq<Event>, n: nat, k: nat)
    requires ValidSetup(u) && n <= k <= |events| && NothingTaken(u, events, n)
    ensures SameChunk(Run(u, events[..n]).gate, Run(u, events[..k]).gate)
    decreases k
  {
    if n < k {
      ChunkKept(u, events, n, k - 1);
      EventKept(u, events, k - 1);
      StillSame(Run(u, events[..n]).gate, Run(u, events[..k - 1]).gate, Run(u, events[..k - 1 + 1]).gate);
    }
  }

  /** Number `i` of a chunk; 0 where there is none. */
  function ValueAt(chunk: Chunk, i: int): real
  {
    if 0 <= i < |chunk.values| && chunk.values[i].Finite? then chunk.values[i].value else 0.0
  }

  /** What step `s` of `next` asks for when it overlaps `prev` from its step `from` on, for `n` steps. */
  function Wanted(cd: nat, prev: Chunk, next: Chunk, from: int, n: nat, s: nat, c: nat): real
  {
    var v := ValueAt(next, s * cd + c);
    if s < n then Lerp(ValueAt(prev, (from + s) * cd + c), v, BlendWeight(s, n)) else v
  }

  /** The active chunk is the one taken last, value by value. */
  lemma ActiveValues(u: Setup, events: seq<Event>, m: nat, n: nat, s: nat, c: nat)
    requires ValidSetup(u) && m < n <= |events| && TakenAt(u, events, m) && NothingTaken(u, events[..n], m + 1)
    requires s < Steps(u) && c < u.config.controlDim
    ensures var i := s * u.config.controlDim + c;
            0 <= i < MAX_DIM && Run(u, events[..n]).gate.active[i] == ValueAt(events[m].chunk, i)
  {
    var g := Run(u, events[..m]).gate;
    TakenCells(u, g, events[m].chunk, events[m].now, s, c);
    RunLast(u, events, m);
    CellIn(u, g, s, c);
    ChunkKept(u, events[..n], m + 1, n);
    assert events[..n][..m + 1] == events[..m + 1] && events[..n][..n] == events[..n];
  }

  /** What a run takes does not depend on what comes after. */
  lemma SameVerdict(u: Setup, events: seq<Event>, n: nat, k: nat)
    requires ValidSetup(u) && k < n <= |events|
    ensures TakenAt(u, events[..n], k) <==> TakenAt(u, events, k)
  {
    assert events[..n][..k] == events[..k];
  }

  lemma EventActivates(u: Setup, t: Trace, e: Event)
    requires ValidSetup(u) && GateOk(u, t.gate) && Apply(u, t, e).gate.isActive
    requires !(e.Offer? && Takes(u, t.gate, e.chunk, e.now))
    ensures t.gate.isActive && !e.Reset?
  {
  }

  lemma ActiveBefore(u: Setup, events: seq<Event>, n: nat)
    requires ValidSetup(u) && n < |events| && Run(u, events[..n + 1]).gate.isActive && !TakenAt(u, events, n)
    ensures Run(u, events[..n]).gate.isActive && !events[n].Reset?
  {
    RunLast(u, events, n);
    EventActivates(u, Run(u, events[..n]), events[n]);
  }

  /** An active chunk was taken at some event, and nothing since. */
  lemma {:induction false} ChunkSource(u: Setup, events: seq<Event>, n: nat) returns (m: nat)
    requires ValidSetup(u) && n <= |events| && Run(u, events[..n]).gate.isActive
    ensures m < n && TakenAt(u, events, m)
    ensures forall k :: m < k < n ==> !events[k].Reset? && !TakenAt(u, events, k)
    decreases n
  {
    if n > 0 {
      if TakenAt(u, events, n - 1) { return n - 1; }
      ActiveBefore(u, events, n - 1);
      m := ChunkSource(u, events, n - 1);
    }
  }

  lemma SourceOf(u: Setup, events: seq<Event>, n: nat, m: nat)
    requires ValidSetup(u) && m < n <= |events|
    requires forall k :: m < k < n ==> !events[k].Reset? && !TakenAt(u, events, k)
    ensures NothingTaken(u, events[..n], m + 1)
  {
    forall k | m < k < n ensures !events[..n][k].Reset? && !TakenAt(u, events[..n], k) {
      SameVerdict(u, events, n, k);
    }
  }

  /** Every blended step comes from a replacement: the two chunks it mixes exist in the run. */
  lemma BlendHasChunks(u: Setup, events: seq<Event>, now: U64) returns (m: nat, n: nat)
    requires ValidSetup(u) && Stepping(u, Run(u, events).gate, now).1.Step?
    requires Stepping(u, Run(u, events).gate, now).1.view.blended
    ensures Replacement(u, events, m, n)
  {
    var r := Run(u, events).gate;
    StepPublished(u, r, now, 0);
    SteppingPublishes(u, r, now);
    assert events[..|events|] == events;
    n := ChunkSource(u, events, |events|);
    SourceOf(u, events, |events|, n);
    ChunkKept(u, events, n + 1, |events|);
    ReplacedActive(u, events, n, Run(u, events[..n]).gate);
    m := ChunkSource(u, events, n);
    SourceOf(u, events, n, m);
  }

  /** A chunk taken with something to blend replaces an active one. */
  lemma ReplacedActive(u: Setup, events: seq<Event>, n: nat, g: Gate)
    requires ValidSetup(u) && TakenAt(u, events, n) && g == Run(u, events[..n]).gate
    requires Run(u, events[..n + 1]).gate.overlapSteps > 0
    ensures g.isActive
  {
    RunLast(u, events, n);
  }

  /** The value asked for by a gate that holds a replacement and the tail it captured. */
  lemma WantedAt(u: Setup, g: Gate, prev: Chunk, chunk: Chunk, at: U64, r: Gate, s: nat, c: nat)
    requires ValidSetup(u) && GateOk(u, g) && Takes(u, g, chunk, at) && GateOk(u, r)
    requires s < Steps(u) && c < u.config.controlDim
    requires SameChunk(Accepting(u, g, chunk, at), r)
    requires forall i, j :: 0 <= i < Steps(u) && 0 <= j < u.config.controlDim ==> HoldsCell(u, g, prev, i, j)
    ensures var k := OverlapLength(u, g, chunk.desc);
            && r.overlapSteps == k && (k > 0 ==> chunk.desc.validFrom >= g.chunk.validFrom)
            && Candidate(u, r, s, c)
               == Wanted(u.config.controlDim, prev, chunk, if k > 0 then OldStep(u, g, chunk.desc) else 0, k, s, c)
  {
    TakenCells(u, g, chunk, at, s, c);
    CellIn(u, g, s, c);
    if s < OverlapLength(u, g, chunk.desc) {
      BlendIs(u, g, chunk, at, s, c);
      CapturedCell(u, g, chunk.desc, s, c);
      assert HoldsCell(u, g, prev, OldStep(u, g, chunk.desc) + s, c);
    }
  }

  /** The active buffer holds the chunk's value at a step and component. */
  predicate HoldsCell(u: Setup, g: Gate, chunk: Chunk, s: nat, c: nat)
  {
    var i := s * u.config.controlDim + c;
    i < |g.active| && g.active[i] == ValueAt(chunk, i)
  }

  /** The chunk taken at `n` is the newest of the run, and the one taken at `m` was the newest before it. */
  ghost predicate Replacement(u: Setup, events: seq<Event>, m: nat, n: nat)
    requires ValidSetup(u)
  {
    && m < n < |events| && TakenAt(u, events, m) && NothingTaken(u, events[..n], m + 1)
    && TakenAt(u, events, n) && NothingTaken(u, events, n + 1)
  }

  /** The gate just after a chunk was taken still holds it at the end of the run. */
  lemma TakenStays(u: Setup, events: seq<Event>, n: nat, g: Gate, r: Gate)
    requires ValidSetup(u) && TakenAt(u, events, n) && NothingTaken(u, events, n + 1)
    requires g == Run(u, events[..n]).gate && r == Run(u, events).gate
    ensures SameChunk(Accepting(u, g, events[n].chunk, events[n].now), r)
  {
    RunLast(u, events, n);
    ChunkKept(u, events, n + 1, |events|);
    assert events[..|events|] == events;
  }

  /** The gate before and after a replacement. */
  lemma ReplacementGates(u: Setup, events: seq<Event>, m: nat, n: nat, g: Gate, r: Gate)
    requires ValidSetup(u) && Replacement(u, events, m, n) && g == Run(u, events[..n]).gate && r == Run(u, events).gate
    ensures GateOk(u, g) && GateOk(u, r) && Takes(u, g, events[n].chunk, events[n].now)
    ensures SameChunk(Accepting(u, g, events[n].chunk, events[n].now), r)
    ensures forall i, j :: 0 <= i < Steps(u) && 0 <= j < u.config.controlDim ==> HoldsCell(u, g, events[m].chunk, i, j)
  {
    TakenStays(u, events, n, g, r);
    forall i, j | 0 <= i < Steps(u) && 0 <= j < u.config.controlDim ensures HoldsCell(u, g, events[m].chunk, i, j) {
      CellHeld(u, events, m, n, g, i, j);
    }
  }

  lemma CellHeld(u: Setup, events: seq<Event>, m: nat, n: nat, g: Gate, i: nat, j: nat)
    requires ValidSetup(u) && m < n <= |events| && TakenAt(u, events, m) && NothingTaken(u, events[..n], m + 1)
    requires g == Run(u, events[..n]).gate && i < Steps(u) && j < u.config.controlDim
    ensures HoldsCell(u, g, events[m].chunk, i, j)
  {
    ActiveValues(u, events, m, n, i, j);
  }

  /** The component of a published step is the safe form of the value asked for. */
  predicate PublishedAs(u: Setup, g: Gate, now: U64, view: StepView, c: nat, wanted: real)
    requires ValidSetup(u) && Sized(g) && c < u.config.controlDim
  {
    && c < |view.values|
    && view.values[c] == SafeOf(wanted, u.lower[c], u.upper[c], g.hasOutput, g.output[c], Allowed(u, g, now, c))
  }

  lemma StepPublished(u: Setup, g: Gate, now: U64, c: nat)
    requires ValidSetup(u) && GateOk(u, g) && Stepping(u, g, now).1.Step? && c < u.config.controlDim
    ensures var view := Stepping(u, g, now).1.view;
            && now >= g.chunk.validFrom && view.stepIndex == DueStep(u, g, now) < Steps(u)
            && (view.blended <==> view.stepIndex < g.overlapSteps)
            && PublishedAs(u, g, now, view, c, Candidate(u, g, view.stepIndex, c))
  {
    SteppingPublishes(u, g, now);
  }

  /** Step `s` is due from its start up to the start of the next one. */
  lemma DueFrom(u: Setup, g: Gate, now: U64, s: nat)
    requires ValidSetup(u) && now >= g.chunk.validFrom
    ensures DueStep(u, g, now) == s <==> StartOf(u, g.chunk, s) <= now < StartOf(u, g.chunk, s + 1)
  {
    QuotientBetween(now - g.chunk.validFrom, u.config.period, s);
  }

  lemma QuotientBetween(e: nat, p: nat, s: nat)
    requires p > 0
    ensures e / p == s <==> s * p <= e < (s + 1) * p
  {
    assert e == p * (e / p) + e % p;
    assert (s + 1) * p == s * p + p;
    if s * p <= e < (s + 1) * p {
      assert p * (e / p - s) == e - e % p - s * p;
      MultipleGap(p, e / p - s);
    }
  }

  /** A step published from `r`, which holds `chunk` and the tail of `prev` that `g` had when it was taken. */
  ghost predicate Blended(u: Setup, g: Gate, prev: Chunk, chunk: Chunk, r: Gate, now: U64, view: StepView, c: nat)
    requires ValidSetup(u) && Sized(r) && c < u.config.controlDim
  {
    var d, k := chunk.desc, OverlapLength(u, g, chunk.desc);
    && StartOf(u, d, view.stepIndex) <= now < StartOf(u, d, view.stepIndex + 1)
    && (view.blended <==> view.stepIndex < k) && (k > 0 ==> d.validFrom >= g.chunk.validFrom)
    && PublishedAs(u, r, now, view, c,
                   Wanted(u.config.controlDim, prev, chunk, if k > 0 then OldStep(u, g, d) else 0, k, view.stepIndex, c))
  }

  lemma BlendedStep(u: Setup, g: Gate, prev: Chunk, chunk: Chunk, at: U64, r: Gate, now: U64, c: nat)
    requires ValidSetup(u) && GateOk(u, g) && Takes(u, g, chunk, at) && GateOk(u, r) && c < u.config.controlDim
    requires SameChunk(Accepting(u, g, chunk, at), r) && Stepping(u, r, now).1.Step?
    requires forall i, j :: 0 <= i < Steps(u) && 0 <= j < u.config.controlDim ==> HoldsCell(u, g, prev, i, j)
    ensures Blended(u, g, prev, chunk, r, now, Stepping(u, r, now).1.view, c)
  {
    StepPublished(u, r, now, c);
    DueFrom(u, r, now, DueStep(u, r, now));
    WantedAt(u, g, prev, chunk, at, r, DueStep(u, r, now), c);
  }

  /**
  What `next` publishes after a replacement, in every run: in the period of step `s` of the new chunk, the
  safe form of its value there, blended over the overlap with step `OldStep + s` of the old chunk.
   */
  lemma OverlapPublished(u: Setup, events: seq<Event>, m: nat, n: nat, now: U64, c: nat)
    requires ValidSetup(u) && Replacement(u, events, m, n) && c < u.config.controlDim
    requires Stepping(u, Run(u, events).gate, now).1.Step?
    ensures Blended(u, Run(u, events[..n]).gate, events[m].chunk, events[n].chunk, Run(u, events).gate, now,
                    Stepping(u, Run(u, events).gate, now).1.view, c)
  {
    var g, r := Run(u, events[..n]).gate, Run(u, events).gate;
    ReplacementGates(u, events, m, n, g, r);
    BlendedStep(u, g, events[m].chunk, events[n].chunk, events[n].now, r, now, c);
  }

  /** The blend of an overlapped step with the old step due at its start. */
  function AlignedBlend(u: Setup, g: Gate, prev: Chunk, chunk: Chunk, s: nat, c: nat): real
    requires ValidSetup(u)
  {
    var d, cd := chunk.desc, u.config.controlDim;
    Lerp(ValueAt(prev, DueThen(u, g, d, s) * cd + c), ValueAt(chunk, s * cd + c), BlendWeight(s, OverlapLength(u, g, d)))
  }

  /** The blend asked for is the aligned one exactly when its old value equals the one due. */
  lemma BlendAlignedIff(u: Setup, g: Gate, prev: Chunk, chunk: Chunk, s: nat, c: nat)
    requires ValidSetup(u) && s < OverlapLength(u, g, chunk.desc)
    ensures var d, cd := chunk.desc, u.config.controlDim;
            Wanted(cd, prev, chunk, OldStep(u, g, d), OverlapLength(u, g, d), s, c) == AlignedBlend(u, g, prev, chunk, s, c)
            <==> ValueAt(prev, (OldStep(u, g, d) + s) * cd + c) == ValueAt(prev, DueThen(u, g, d, s) * cd + c)
  {
    var d, cd := chunk.desc, u.config.controlDim;
    WeightWithin(s, OverlapLength(u, g, d));
    LerpInjective(ValueAt(prev, (OldStep(u, g, d) + s) * cd + c), ValueAt(prev, DueThen(u, g, d, s) * cd + c),
                  ValueAt(chunk, s * cd + c), BlendWeight(s, OverlapLength(u, g, d)));
  }

  lemma SameWanted(cd: nat, prev: Chunk, chunk: Chunk, from: nat, due: int, n: nat, s: nat, c: nat)
    requires s < n && from + s == due
    ensures Wanted(cd, prev, chunk, from, n, s, c)
            == Lerp(ValueAt(prev, due * cd + c), ValueAt(chunk, s * cd + c), BlendWeight(s, n))
  {
  }

  lemma AlignedStep(u: Setup, g: Gate, prev: Chunk, chunk: Chunk, r: Gate, now: U64, view: StepView, c: nat)
    requires ValidSetup(u) && Sized(r) && c < u.config.controlDim
    requires Blended(u, g, prev, chunk, r, now, view, c) && view.blended
    requires chunk.desc.validFrom >= g.chunk.validFrom ==> TimedStep(u, g, chunk.desc) >= g.nextStep
    ensures PublishedAs(u, r, now, view, c, AlignedBlend(u, g, prev, chunk, view.stepIndex, c))
  {
    var d, s := chunk.desc, view.stepIndex;
    OverlapAligned(u, g, d, s);
    SameWanted(u.config.controlDim, prev, chunk, OldStep(u, g, d), DueThen(u, g, d, s), OverlapLength(u, g, d), s, c);
  }

  /**
  The blend is the aligned one, with the old step due at the start of the new one, in every run in which
  the replacement starts no earlier than the next unpublished step.
   */
  lemma OverlapPublishedDue(u: Setup, events: seq<Event>, m: nat, n: nat, now: U64, c: nat)
    requires ValidSetup(u) && Replacement(u, events, m, n) && c < u.config.controlDim
    requires Stepping(u, Run(u, events).gate, now).1.Step? && Stepping(u, Run(u, events).gate, now).1.view.blended
    requires var g, d := Run(u, events[..n]).gate, events[n].chunk.desc;
             d.validFrom >= g.chunk.validFrom ==> TimedStep(u, g, d) >= g.nextStep
    ensures var view := Stepping(u, Run(u, events).gate, now).1.view;
            PublishedAs(u, Run(u, events).gate, now, view, c,
                        AlignedBlend(u, Run(u, events[..n]).gate, events[m].chunk, events[n].chunk, view.stepIndex, c))
  {
    var r := Run(u, events).gate;
    OverlapPublished(u, events, m, n, now, c);
    AlignedStep(u, Run(u, events[..n]).gate, events[m].chunk, events[n].chunk, r, now, Stepping(u, r, now).1.view, c);
  }

  // ---- a run that blends out of step ------------------------------------------------------

  /** One component, four steps of ten nanoseconds, two of them overlapped. */
  function PlainSetup(): (u: Setup)
    ensures ValidSetup(u) && Steps(u) == 4
  {
    Setup(Config(1, 2, 10, 0, Clamp), [], 4, [0.0], [100.0], [1000.0])
  }

  function PlainChunk(generation: U64, values: seq<real>): Chunk
  {
    Chunk(Descriptor(DESCRIPTOR_BYTES, CHUNK_VERSION, 1, 4, [], generation, 0, generation, 0, 0, 0, 0, 40),
          seq(|values|, i requires 0 <= i < |values| => Finite(values[i])))
  }

  /** Two steps of the first chunk are published before a second one arrives for the same span of time. */
  function LateRun(): seq<Event>
  {
    [Offer(PlainChunk(1, [10.0, 20.0, 30.0, 40.0]), 0), Tick(0), Tick(10),
     Offer(PlainChunk(2, [70.0, 70.0, 70.0, 70.0]), 10)]
  }

  /** The gate plays a plain chunk and has published `n` steps of it. */
  predicate Playing(g: Gate, chunk: Chunk, n: nat, last: U64)
  {
    && GateOk(PlainSetup(), g) && g.isActive && g.chunk == chunk.desc && g.nextStep == n
    && g.hasOutput == (n > 0) && (n > 0 ==> g.lastPublish == last && 0.0 <= g.output[0] <= 100.0)
    && g.newestGeneration == g.newestSequence == 1 && g.session == 0
  }

  lemma PlainTaken(g: Gate, generation: U64, values: seq<real>, now: U64)
    requires GateOk(PlainSetup(), g) && |values| == 4 && now < 40 && (g.bound ==> g.session == 0)
    requires g.bound ==> g.newestGeneration < generation && g.newestSequence < generation
    ensures Takes(PlainSetup(), g, PlainChunk(generation, values), now)
  {
  }

  lemma PlainTick(g: Gate, generation: U64, values: seq<real>, n: nat, last: U64, now: U64)
    requires |values| == 4 && Playing(g, PlainChunk(generation, values), n, last) && n < 3
    requires now == 10 * n && (n > 0 ==> last <= now)
    ensures var (r, view) := Stepping(PlainSetup(), g, now);
            Playing(r, PlainChunk(generation, values), n + 1, now) && SameChunk(g, r)
  {
    var u := PlainSetup();
    assert DueStep(u, g, now) == n;
    SteppingDue(u, g, now);
    SafeIsSafe(u, g, now, n, 0);
  }

  lemma LateFirst(u: Setup, es: seq<Event>)
    requires u == PlainSetup() && es == LateRun()
    ensures TakenAt(u, es, 0) && Playing(Run(u, es[..1]).gate, es[0].chunk, 0, 0)
  {
    assert es[..0] == [];
    PlainTaken(Fresh(), 1, [10.0, 20.0, 30.0, 40.0], 0);
    TakenGateOk(u, Fresh(), es[0].chunk, 0);
    RunLast(u, es, 0);
  }

  lemma LateTicks(u: Setup, es: seq<Event>)
    requires u == PlainSetup() && es == LateRun()
    ensures Playing(Run(u, es[..3]).gate, es[0].chunk, 2, 10)
  {
    LateFirst(u, es);
    RunLast(u, es, 1);
    PlainTick(Run(u, es[..1]).gate, 1, [10.0, 20.0, 30.0, 40.0], 0, 0, 0);
    RunLast(u, es, 2);
    PlainTick(Run(u, es[..2]).gate, 1, [10.0, 20.0, 30.0, 40.0], 1, 0, 10);
  }

  lemma TicksTakeNothing(u: Setup, events: seq<Event>, n: nat)
    requires ValidSetup(u) && forall k :: n <= k < |events| ==> events[k].Tick?
    ensures NothingTaken(u, events, n)
  {
  }

  lemma LateSecond(u: Setup, es: seq<Event>, g: Gate)
    requires u == PlainSetup() && es == LateRun() && g == Run(u, es[..3]).gate && Playing(g, es[0].chunk, 2, 10)
    ensures TakenAt(u, es, 3)
  {
    PlainTaken(g, 2, [70.0, 70.0, 70.0, 70.0], 10);
  }

  lemma ReplacedAfterTicks(u: Setup, es: seq<Event>)
    requires ValidSetup(u) && |es| == 4 && TakenAt(u, es, 0) && es[1].Tick? && es[2].Tick? && TakenAt(u, es, 3)
    ensures Replacement(u, es, 0, 3)
  {
    TicksTakeNothing(u, es[..3], 1);
    TicksTakeNothing(u, es, 4);
  }

  /** The gate that holds the second chunk publishes its step 1 at time 10. */
  lemma LateStep(g: Gate, prev: Chunk, chunk: Chunk, r: Gate)
    requires prev == PlainChunk(1, [10.0, 20.0, 30.0, 40.0]) && chunk == PlainChunk(2, [70.0, 70.0, 70.0, 70.0])
    requires Playing(g, prev, 2, 10) && Takes(PlainSetup(), g, chunk, 10)
    requires r == Accepting(PlainSetup(), g, chunk, 10) && GateOk(PlainSetup(), r)
    ensures var step := Stepping(PlainSetup(), r, 10).1;
            step.Step? && step.view.stepIndex == 1 && step.view.blended && |step.view.values| == 1
    ensures Allowed(PlainSetup(), r, 10, 0) == 1000.0 && r.hasOutput && 0.0 <= r.output[0] <= 100.0
  {
    var u := PlainSetup();
    assert DueStep(u, r, 10) == 1;
    SteppingDue(u, r, 10);
  }

  lemma LateValues(g: Gate, prev: Chunk, chunk: Chunk)
    requires prev == PlainChunk(1, [10.0, 20.0, 30.0, 40.0]) && chunk == PlainChunk(2, [70.0, 70.0, 70.0, 70.0])
    requires Playing(g, prev, 2, 10)
    ensures var u := PlainSetup();
            && OverlapLength(u, g, chunk.desc) == 2 && OldStep(u, g, chunk.desc) == 2
            && Wanted(1, prev, chunk, 2, 2, 1, 0) == 60.0
            && 3.0 * AlignedBlend(u, g, prev, chunk, 1, 0) == 160.0
  {
    assert BlendWeight(1, 2) == 2.0 / 3.0;
  }

  /** Step 1 is published as 60, which is not the blend with the old step due then, number 1. */
  ghost predicate OutOfStep(u: Setup, g: Gate, prev: Chunk, chunk: Chunk, r: Gate, now: U64, step: StepResult)
    requires ValidSetup(u) && Sized(r)
  {
    && chunk.desc.validFrom >= g.chunk.validFrom && TimedStep(u, g, chunk.desc) < g.nextStep
    && step.Step? && step.view.stepIndex == 1 && step.view.blended && step.view.values == [60.0]
    && DueThen(u, g, chunk.desc, 1) == 1 && !PublishedAs(u, r, now, step.view, 0, AlignedBlend(u, g, prev, chunk, 1, 0))
  }

  lemma LateIsOutOfStep(g: Gate, prev: Chunk, chunk: Chunk, r: Gate, step: StepResult)
    requires prev == PlainChunk(1, [10.0, 20.0, 30.0, 40.0]) && chunk == PlainChunk(2, [70.0, 70.0, 70.0, 70.0])
    requires Playing(g, prev, 2, 10) && Takes(PlainSetup(), g, chunk, 10)
    requires r == Accepting(PlainSetup(), g, chunk, 10) && GateOk(PlainSetup(), r) && step == Stepping(PlainSetup(), r, 10).1
    requires step.Step? && Blended(PlainSetup(), g, prev, chunk, r, 10, step.view, 0)
    ensures OutOfStep(PlainSetup(), g, prev, chunk, r, 10, step)
  {
    LateStep(g, prev, chunk, r);
    LateValues(g, prev, chunk);
    assert step.view.values == [step.view.values[0]];
  }

  /**
  A run in which the blend is out of step: the second chunk's step 1 is published two thirds of the way from
  the first chunk's step 3 to its own value, while step 1 of the first chunk was due then.
   */
  lemma MisalignedRun()
    ensures var u, es := PlainSetup(), LateRun();
            && Replacement(u, es, 0, 3)
            && OutOfStep(u, Run(u, es[..3]).gate, es[0].chunk, es[3].chunk, Run(u, es).gate, 10,
                         Stepping(u, Run(u, es).gate, 10).1)
  {
    var u, es := PlainSetup(), LateRun();
    LateFirst(u, es);
    LateTicks(u, es);
    LateSecond(u, es, Run(u, es[..3]).gate);
    ReplacedAfterTicks(u, es);
    LateEnd(u, es, Run(u, es[..3]).gate, Run(u, es).gate);
  }

  lemma LateEnd(u: Setup, es: seq<Event>, g: Gate, r: Gate)
    requires u == PlainSetup() && es == LateRun() && Replacement(u, es, 0, 3)
    requires g == Run(u, es[..3]).gate && r == Run(u, es).gate && Playing(g, es[0].chunk, 2, 10)
    ensures OutOfStep(u, g, es[0].chunk, es[3].chunk, r, 10, Stepping(u, r, 10).1)
  {
    RunLast(u, es, 3);
    assert es[..4] == es;
    LateStep(g, es[0].chunk, es[3].chunk, r);
    OverlapPublished(u, es, 0, 3, 10, 0);
    LateIsOutOfStep(g, es[0].chunk, es[3].chunk, r, Stepping(u, r, 10).1);
  }
}
