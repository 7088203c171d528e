/** Whole runs of the gate: any sequence of accepted or rejected chunks, control ticks and resets. */
module GateRuns {
  import opened Bits
  import opened Machine
  import opened ActionGate

  datatype Event = Offer(chunk: Chunk, now: U64) | Tick(now: U64) | Reset

  /** One published step: what the controller got, when, and the chunk it came from. */
  datatype Publication = Publication(view: StepView, now: U64, chunk: Descriptor)

  /** The gate and everything it has published since the last reset. */
  datatype Trace = Trace(gate: Gate, pubs: seq<Publication>)

  function Fresh(): (g: Gate)
    ensures Sized(g)
  {
    var zeros := seq(MAX_DIM, _ => 0.0);
    Gate(zeros, zeros, zeros, Descriptor(0, 0, 0, 0, [], 0, 0, 0, 0, 0, 0, 0, 0),
         Counters(0, 0, 0, 0, 0, 0, 0, 0, 0, 0, 0), 0, 0, 0, 0, 0, 0, false, false, false)
  }

  function Apply(u: Setup, t: Trace, e: Event): (r: Trace)
    requires ValidSetup(u) && GateOk(u, t.gate)
  {
    match e
    case Offer(chunk, now) => t.(gate := Accepting(u, t.gate, chunk, now))
    case Reset => Trace(Resetting(t.gate), [])
    case Tick(now) =>
      var (g, r) := Stepping(u, t.gate, now);
      Trace(g, if r.Step? then t.pubs + [Publication(r.view, now, t.gate.chunk)] else t.pubs)
  }

  // ---- what one publication satisfies -----------------------------------------------------

  ghost predicate PubOk(u: Setup, p: Publication)
    requires ValidSetup(u)
  {
    && |p.view.values| == u.config.controlDim
    && (forall c :: 0 <= c < u.config.controlDim ==> InLimits(u, c, p.view.values[c]))
    && p.chunk.validFrom <= p.now < p.chunk.validUntil
    && p.view.stepIndex == (p.now - p.chunk.validFrom) / u.config.period < Steps(u)
    && p.view.generation == p.chunk.generation
    && (u.config.policy.Reject? ==> !p.view.clamped)
  }

  /** The rate limit between two outputs: one period's change, or one for each whole period elapsed. */
  ghost predicate RateOk(u: Setup, p: Publication, q: Publication)
    requires ValidSetup(u) && PubOk(u, p) && PubOk(u, q)
  {
    && p.now <= q.now
    && forall c :: 0 <= c < u.config.controlDim ==>
         Near(u.maxDelta[c], p.view.values[c], q.view.values[c], Changes(q.now - p.now, u.config.period))
  }

  /** Changes allowed in a gap: one, or one for each whole period once two have passed. */
  function Changes(gap: nat, period: nat): nat
    requires period > 0
  {
    if gap < 2 * period then 1 else gap / period
  }

  /** The gate's own count is that number. */
  lemma PeriodsAreChanges(gap: nat, period: nat)
    requires period > 0
    ensures Periods(gap, period) == Changes(gap, period) <= 1 + gap / period
  {
    var q := gap / period;
    assert gap == period * q + gap % period;
    assert period * (q - 1) == period * q - period;
    MultipleGap(period, q - 1);
  }

  /** `b` is within `n` allowed changes of `a`. */
  predicate Near(maxDelta: real, a: real, b: real, n: nat)
  {
    Abs(b - a) <= maxDelta * n as real
  }

  lemma NearChain(m: real, a: real, b: real, c: real, s: nat, t: nat, n: nat)
    requires m >= 0.0 && Near(m, a, b, s) && Near(m, b, c, t) && s + t <= n
    ensures Near(m, a, c, n)
  {
    ScaledSum(m, s as real, t as real, n as real);
  }

  lemma ScaledSum(m: real, s: real, t: real, n: real)
    requires m >= 0.0 && s + t <= n
    ensures m * s + m * t <= m * n
  {
    assert m * (n - s - t) >= 0.0;
  }

  /** Publications advance: a newer generation, or a later step of the same one. */
  predicate Later(p: Publication, q: Publication)
  {
    p.view.generation < q.view.generation
    || (p.view.generation == q.view.generation && p.view.stepIndex < q.view.stepIndex)
  }

  // ---- the invariant ----------------------------------------------------------------------

  ghost predicate PubsOk(u: Setup, pubs: seq<Publication>)
    requires ValidSetup(u)
  {
    && (forall i :: 0 <= i < |pubs| ==> PubOk(u, pubs[i]))
    && forall i :: 0 < i < |pubs| ==> RateOk(u, pubs[i - 1], pubs[i]) && Later(pubs[i - 1], pubs[i])
  }

  /** The gate remembers the last publication. */
  ghost predicate Remembers(u: Setup, g: Gate, pubs: seq<Publication>)
    requires ValidSetup(u) && Sized(g)
  {
    && (g.hasOutput <==> pubs != [])
    && (pubs != [] ==>
          var p := pubs[|pubs| - 1];
          && g.output[..u.config.controlDim] == p.view.values && g.lastPublish == p.now
          && g.bound && p.view.generation <= g.newestGeneration
          && (g.isActive && g.chunk.generation == p.view.generation ==> g.nextStep == p.view.stepIndex + 1))
  }

  /** Under the reject policy the buffers hold only values within the limits. */
  ghost predicate BuffersSafe(u: Setup, g: Gate)
    requires ValidSetup(u) && GateOk(u, g)
  {
    u.config.policy.Reject? && g.isActive ==>
      forall step, c :: 0 <= step < Steps(u) && 0 <= c < u.config.controlDim ==> CellSafe(u, g, step, c)
  }

  ghost predicate CellSafe(u: Setup, g: Gate, step: nat, c: nat)
    requires ValidSetup(u) && Sized(g) && step < Steps(u) && c < u.config.controlDim
  {
    CellIn(u, g, step, c);
    var i := step * u.config.controlDim + c;
    InLimits(u, c, g.active[i]) && (step < g.overlapSteps ==> InLimits(u, c, g.overlap[i]))
  }

  /** Published and skipped steps are steps of accepted chunks, each counted once. */
  predicate CountersOk(u: Setup, g: Gate)
    requires ValidSetup(u)
  {
    var k := g.counters;
    if g.isActive then k.accepted >= 1 && k.published + k.skipped <= (k.accepted - 1) * Steps(u) + g.nextStep
    else k.published + k.skipped <= k.accepted * Steps(u)
  }

  ghost predicate TraceOk(u: Setup, t: Trace)
    requires ValidSetup(u)
  {
    && GateOk(u, t.gate) && PubsOk(u, t.pubs) && Remembers(u, t.gate, t.pubs)
    && BuffersSafe(u, t.gate) && CountersOk(u, t.gate)
  }

  // ---- one step ---------------------------------------------------------------------------

  /** The published value respects the limits; when there is a last output, also the rate. */
  lemma SafeIsSafe(u: Setup, g: Gate, now: U64, step: nat, c: nat)
    requires ValidSetup(u) && Sized(g) && step < Steps(u) && c < u.config.controlDim
    ensures InLimits(u, c, Safe(u, g, now, step, c))
    ensures g.hasOutput && InLimits(u, c, g.output[c]) ==>
              Abs(Safe(u, g, now, step, c) - g.output[c]) <= Allowed(u, g, now, c)
  {
    assert Allowed(u, g, now, c) >= 0.0;
  }

  /** The last clamp changes nothing: the rate window and the limits share the last output. */
  lemma LastClampIdle(u: Setup, g: Gate, now: U64, step: nat, c: nat)
    requires ValidSetup(u) && Sized(g) && step < Steps(u) && c < u.config.controlDim
    requires g.hasOutput && InLimits(u, c, g.output[c])
    ensures var first := ClampTo(Candidate(u, g, step, c), u.lower[c], u.upper[c]);
            var a := Allowed(u, g, now, c);
            Safe(u, g, now, step, c) == ClampTo(first, g.output[c] - a, g.output[c] + a)
  {
    assert Allowed(u, g, now, c) >= 0.0;
  }

  lemma NearestOf(v: real, x: real, lower: real, upper: real, hasOutput: bool, output: real, allowed: real)
    requires lower <= x <= upper && allowed >= 0.0
    requires hasOutput ==> lower <= output <= upper && Abs(x - output) <= allowed
    ensures Abs(SafeOf(v, lower, upper, hasOutput, output, allowed) - v) <= Abs(x - v)
  {
  }

  /** Clamping moves a value no further than needed: no value that respects limits and rate is nearer to it. */
  lemma SafeNearest(u: Setup, g: Gate, now: U64, step: nat, c: nat, x: real)
    requires ValidSetup(u) && Sized(g) && step < Steps(u) && c < u.config.controlDim && InLimits(u, c, x)
    requires g.hasOutput ==> InLimits(u, c, g.output[c]) && Abs(x - g.output[c]) <= Allowed(u, g, now, c)
    ensures Abs(Safe(u, g, now, step, c) - Candidate(u, g, step, c)) <= Abs(x - Candidate(u, g, step, c))
  {
    assert Allowed(u, g, now, c) >= 0.0;
    NearestOf(Candidate(u, g, step, c), x, u.lower[c], u.upper[c], g.hasOutput, g.output[c], Allowed(u, g, now, c));
  }

  /** A candidate that passes is published as it is. */
  lemma PassingKept(u: Setup, g: Gate, now: U64, step: nat, c: nat)
    requires ValidSetup(u) && Sized(g) && step < Steps(u) && c < u.config.controlDim && Passes(u, g, now, step, c)
    ensures Safe(u, g, now, step, c) == Candidate(u, g, step, c)
  {
  }

  lemma {:induction false} NothingClamped(u: Setup, g: Gate, now: U64, step: nat, n: nat)
    requires ValidSetup(u) && Sized(g) && step < Steps(u) && n <= u.config.controlDim
    requires forall c :: 0 <= c < n ==> Passes(u, g, now, step, c)
    ensures ClampedCount(u, g, now, step, n) == 0
  {
    if n > 0 {
      NothingClamped(u, g, now, step, n - 1);
      PassingKept(u, g, now, step, n - 1);
    }
  }

  /** Before the end of the chunk the due step exists: the second expiry check never fires. */
  lemma DueStepExists(u: Setup, g: Gate, now: U64)
    requires ValidSetup(u) && GateOk(u, g) && g.isActive && g.chunk.validFrom <= now < g.chunk.validUntil
    ensures DueStep(u, g, now) < g.chunk.stepCount
  {
    DivBelow(now - g.chunk.validFrom, u.config.period, g.chunk.stepCount);
  }

  lemma DivBelow(e: nat, p: nat, n: nat)
    requires p > 0 && e < n * p
    ensures e / p < n
  {
    var d := n - e / p;
    assert e == p * (e / p) + e % p;
    assert p * d == n * p - p * (e / p);
    PositiveFactor(p, d);
  }

  lemma PositiveFactor(p: int, d: int)
    requires p > 0 && p * d > 0
    ensures d > 0
  {
  }

  lemma PublishedPubOk(u: Setup, t: Trace, now: U64, step: nat, k: Counters)
    requires ValidSetup(u) && TraceOk(u, t) && t.gate.isActive && Refusal(u, t.gate, now).None?
    requires step == DueStep(u, t.gate, now) < t.gate.chunk.stepCount && !Refused(u, t.gate, now, step)
    ensures PubOk(u, Publication(Published(u, t.gate, now, step, k).1.view, now, t.gate.chunk))
  {
    forall c | 0 <= c < u.config.controlDim ensures InLimits(u, c, Safe(u, t.gate, now, step, c)) {
      SafeIsSafe(u, t.gate, now, step, c);
    }
    if u.config.policy.Reject? {
      NothingClamped(u, t.gate, now, step, u.config.controlDim);
    }
  }

  lemma PublishedDelta(u: Setup, g: Gate, p: Publication, q: Publication, step: nat, c: nat)
    requires ValidSetup(u) && Sized(g) && step < Steps(u) && c < u.config.controlDim
    requires g.hasOutput && g.lastPublish == p.now <= q.now && InLimits(u, c, g.output[c])
    requires |p.view.values| == |q.view.values| == u.config.controlDim
    requires p.view.values[c] == g.output[c] && q.view.values[c] == Safe(u, g, q.now, step, c)
    ensures Near(u.maxDelta[c], p.view.values[c], q.view.values[c], Changes(q.now - p.now, u.config.period))
  {
    SafeIsSafe(u, g, q.now, step, c);
    PeriodsAreChanges(q.now - p.now, u.config.period);
  }

  /** The new publication is within the rate of the last one. */
  lemma PublishedRateOk(u: Setup, g: Gate, p: Publication, q: Publication, step: nat)
    requires ValidSetup(u) && Sized(g) && step < Steps(u) && PubOk(u, p) && PubOk(u, q)
    requires g.hasOutput && g.lastPublish == p.now <= q.now && g.output[..u.config.controlDim] == p.view.values
    requires q.view.values == SafeRow(u, g, q.now, step)
    ensures RateOk(u, p, q)
  {
    forall c | 0 <= c < u.config.controlDim
      ensures Near(u.maxDelta[c], p.view.values[c], q.view.values[c], Changes(q.now - p.now, u.config.period))
    {
      assert p.view.values[c] == g.output[c];
      assert InLimits(u, c, p.view.values[c]);
      PublishedDelta(u, g, p, q, step, c);
    }
  }

  lemma PublishedRemembers(u: Setup, t: Trace, now: U64, step: nat, k: Counters, p: Publication)
    requires ValidSetup(u) && TraceOk(u, t) && t.gate.isActive && step < t.gate.chunk.stepCount
    requires p == Publication(Published(u, t.gate, now, step, k).1.view, now, t.gate.chunk)
    ensures var g := Published(u, t.gate, now, step, k).0;
            GateOk(u, g) && Remembers(u, g, t.pubs + [p]) && BuffersSafe(u, g)
  {
    var g := Published(u, t.gate, now, step, k).0;
    assert g.output[..u.config.controlDim] == p.view.values;
    assert (t.pubs + [p])[|t.pubs|] == p;
    if u.config.policy.Reject? && g.isActive {
      forall s, c | 0 <= s < Steps(u) && 0 <= c < u.config.controlDim ensures CellSafe(u, g, s, c) {
        assert CellSafe(u, t.gate, s, c);
      }
    }
  }

  lemma ExtendPubs(u: Setup, pubs: seq<Publication>, q: Publication)
    requires ValidSetup(u) && PubsOk(u, pubs) && PubOk(u, q)
    requires pubs != [] ==> RateOk(u, pubs[|pubs| - 1], q) && Later(pubs[|pubs| - 1], q)
    ensures PubsOk(u, pubs + [q])
  {
  }

  lemma NotRefused(u: Setup, g: Gate, now: U64)
    requires ValidSetup(u) && Refusal(u, g, now).None?
    ensures g.isActive && g.chunk.validFrom <= now && (g.hasOutput ==> g.lastPublish <= now)
    ensures g.nextStep <= DueStep(u, g, now) < g.chunk.stepCount
  {
  }

  lemma PublicationFollows(u: Setup, g: Gate, now: U64, step: nat, k: Counters, p: Publication, q: Publication)
    requires ValidSetup(u) && GateOk(u, g) && g.isActive && g.hasOutput && g.nextStep <= step < g.chunk.stepCount
    requires PubOk(u, p) && PubOk(u, q) && q == Publication(Published(u, g, now, step, k).1.view, now, g.chunk)
    requires g.lastPublish == p.now <= now && g.output[..u.config.controlDim] == p.view.values
    requires p.view.generation <= g.newestGeneration
    requires g.chunk.generation == p.view.generation ==> g.nextStep == p.view.stepIndex + 1
    ensures RateOk(u, p, q) && Later(p, q)
  {
    PublishedRateOk(u, g, p, q, step);
  }

  lemma PublicationExtends(u: Setup, g: Gate, pubs: seq<Publication>, now: U64, step: nat, k: Counters, q: Publication)
    requires ValidSetup(u) && GateOk(u, g) && PubsOk(u, pubs) && Remembers(u, g, pubs)
    requires g.isActive && g.nextStep <= step < g.chunk.stepCount && (g.hasOutput ==> g.lastPublish <= now)
    requires q == Publication(Published(u, g, now, step, k).1.view, now, g.chunk) && PubOk(u, q)
    ensures PubsOk(u, pubs + [q])
  {
    if pubs != [] {
      var p := pubs[|pubs| - 1];
      PublicationFollows(u, g, now, step, k, p, q);
    }
    ExtendPubs(u, pubs, q);
  }

  lemma PublicationOk(u: Setup, t: Trace, now: U64, step: nat, k: Counters, q: Publication)
    requires ValidSetup(u) && TraceOk(u, t) && t.gate.isActive && t.gate.nextStep <= step < t.gate.chunk.stepCount
    requires t.gate.hasOutput ==> t.gate.lastPublish <= now
    requires q == Publication(Published(u, t.gate, now, step, k).1.view, now, t.gate.chunk) && PubOk(u, q)
    ensures var g := Published(u, t.gate, now, step, k).0;
            GateOk(u, g) && PubsOk(u, t.pubs + [q]) && Remembers(u, g, t.pubs + [q]) && BuffersSafe(u, g)
  {
    PublicationExtends(u, t.gate, t.pubs, now, step, k, q);
    PublishedRemembers(u, t, now, step, k, q);
  }

  lemma TickCounters(u: Setup, g: Gate, now: U64)
    requires ValidSetup(u) && GateOk(u, g) && CountersOk(u, g)
    ensures CountersOk(u, Stepping(u, g, now).0)
  {
    Whole(g.counters.accepted, Steps(u));
  }

  /** A tick that publishes nothing at most retires the chunk. */
  lemma QuietTick(u: Setup, t: Trace, now: U64)
    requires ValidSetup(u) && TraceOk(u, t) && Stepping(u, t.gate, now).1.NoStep?
    ensures var g := Stepping(u, t.gate, now).0;
            GateOk(u, g) && Remembers(u, g, t.pubs) && BuffersSafe(u, g)
  {
    var g := Stepping(u, t.gate, now).0;
    assert g == t.gate || !g.isActive;
  }

  /** After the checks, the step is either refused or published, and the gate stays well formed. */
  lemma SteppingDue(u: Setup, g: Gate, now: U64)
    requires ValidSetup(u) && GateOk(u, g) && Refusal(u, g, now).None?
    ensures GateOk(u, Stepping(u, g, now).0)
    ensures g.isActive && now >= g.chunk.validFrom && g.nextStep <= DueStep(u, g, now) < g.chunk.stepCount
    ensures var step := DueStep(u, g, now);
            var k := g.counters.(skipped := g.counters.skipped + (step - g.nextStep));
            Stepping(u, g, now)
            == if Refused(u, g, now, step)
               then (g.(isActive := false, counters := k.(unsafe := k.unsafe + 1)), NoStep(StepUnsafe))
               else Published(u, g, now, step, k)
  {
  }

  /** A step is published when nothing refuses it. */
  lemma SteppingPublishes(u: Setup, g: Gate, now: U64)
    requires ValidSetup(u) && GateOk(u, g) && Stepping(u, g, now).1.Step?
    ensures Refusal(u, g, now).None? && now >= g.chunk.validFrom && g.isActive
    ensures var step := DueStep(u, g, now);
            && g.nextStep <= step < g.chunk.stepCount && !Refused(u, g, now, step)
            && Stepping(u, g, now)
               == Published(u, g, now, step, g.counters.(skipped := g.counters.skipped + (step - g.nextStep)))
  {
  }

  lemma PublishingTick(u: Setup, t: Trace, now: U64)
    requires ValidSetup(u) && TraceOk(u, t) && Stepping(u, t.gate, now).1.Step?
    ensures var (g, r) := Stepping(u, t.gate, now);
            var pubs := t.pubs + [Publication(r.view, now, t.gate.chunk)];
            GateOk(u, g) && PubsOk(u, pubs) && Remembers(u, g, pubs) && BuffersSafe(u, g)
  {
    SteppingPublishes(u, t.gate, now);
    var step := DueStep(u, t.gate, now);
    var k := t.gate.counters.(skipped := t.gate.counters.skipped + (step - t.gate.nextStep));
    PublishedPubOk(u, t, now, step, k);
    PublicationOk(u, t, now, step, k, Publication(Published(u, t.gate, now, step, k).1.view, now, t.gate.chunk));
  }

  lemma TickOk(u: Setup, t: Trace, now: U64)
    requires ValidSetup(u) && TraceOk(u, t)
    ensures TraceOk(u, Apply(u, t, Tick(now)))
  {
    TickCounters(u, t.gate, now);
    if Stepping(u, t.gate, now).1.NoStep? { QuietTick(u, t, now); } else { PublishingTick(u, t, now); }
  }

  lemma Whole(n: nat, m: nat)
    ensures (n - 1) * m + m == n * m
  {
  }

  lemma ResetOk(u: Setup, t: Trace)
    requires ValidSetup(u) && TraceOk(u, t)
    ensures TraceOk(u, Apply(u, t, Reset))
  {
    if t.gate.isActive { Whole(t.gate.counters.accepted, Steps(u)); }
  }

  // ---- accepting a chunk ------------------------------------------------------------------

  predicate Takes(u: Setup, g: Gate, chunk: Chunk, now: U64)
    requires ValidSetup(u)
  {
    var v := Verdict(u, g, chunk, now);
    v.Accepted? || v.Replaced?
  }

  lemma StepCountOf(u: Setup, d: Descriptor)
    requires ValidSetup(u) && d.controlDim == u.config.controlDim && d.controlDim * d.stepCount == u.actionValues
    ensures d.stepCount == Steps(u) && d.stepCount * u.config.controlDim == u.actionValues
  {
    var cd, n := u.config.controlDim, d.stepCount;
    var q := u.actionValues / cd;
    assert u.actionValues == cd * q + u.actionValues % cd;
    assert cd * (n - q) == 0;
    if n != q { ZeroProduct(cd, n - q); }
  }

  lemma ZeroProduct(a: int, b: int)
    requires a > 0 && a * b == 0
    ensures b == 0
  {
  }

  /** The kept tail of the replaced chunk, cell by cell; every read lies inside it. */
  lemma CapturedCell(u: Setup, g: Gate, d: Descriptor, step: nat, c: nat)
    requires ValidSetup(u) && GateOk(u, g) && step < OverlapLength(u, g, d) && c < u.config.controlDim
    ensures var from, cd := OldStep(u, g, d), u.config.controlDim;
            && from + step < g.chunk.stepCount
            && 0 <= step * cd + c < |Captured(u, g, d)| && 0 <= (from + step) * cd + c < u.actionValues
            && Captured(u, g, d)[step * cd + c] == g.active[(from + step) * cd + c]
  {
    var from, n, cd := OldStep(u, g, d), OverlapLength(u, g, d), u.config.controlDim;
    CapturedSize(u, g, d);
    BlockIn(from, n, g.chunk.stepCount, cd);
    CellIn(u, g, from + step, c);
    CellShift(from, step, n, cd, c);
  }

  lemma CellShift(from: nat, step: nat, n: nat, cd: nat, c: nat)
    requires step < n && c < cd
    ensures 0 <= step * cd + c < n * cd && from * cd + (step * cd + c) == (from + step) * cd + c
  {
    assert (step + 1) * cd <= n * cd;
  }

  lemma CellModulo(step: nat, cd: nat, c: nat)
    requires c < cd
    ensures (step * cd + c) % cd == c
  {
    var a := step * cd + c;
    assert a == cd * (a / cd) + a % cd;
    var k := step - a / cd;
    assert cd * k == a % cd - c;
    MultipleGap(cd, k);
  }

  lemma TakenCellSafe(u: Setup, g: Gate, chunk: Chunk, now: U64, step: nat, c: nat)
    requires ValidSetup(u) && GateOk(u, g) && BuffersSafe(u, g) && Takes(u, g, chunk, now)
    requires u.config.policy.Reject? && step < Steps(u) && c < u.config.controlDim
    ensures GateOk(u, Accepting(u, g, chunk, now)) && CellSafe(u, Accepting(u, g, chunk, now), step, c)
  {
    var r, i := Accepting(u, g, chunk, now), step * u.config.controlDim + c;
    TakenGateOk(u, g, chunk, now);
    CellIn(u, g, step, c);
    CellModulo(step, u.config.controlDim, c);
    var values := Reals(chunk.values);
    assert r.active[i] == values[i];
    assert InLimits(u, i % u.config.controlDim, values[i]);
    if step < r.overlapSteps {
      CapturedSize(u, g, chunk.desc);
      CapturedCell(u, g, chunk.desc, step, c);
      assert r.overlap[i] == Captured(u, g, chunk.desc)[i];
      assert CellSafe(u, g, OldStep(u, g, chunk.desc) + step, c);
    }
  }

  lemma TakenGateOk(u: Setup, g: Gate, chunk: Chunk, now: U64)
    requires ValidSetup(u) && GateOk(u, g) && Takes(u, g, chunk, now)
    ensures GateOk(u, Accepting(u, g, chunk, now))
  {
    StepCountOf(u, chunk.desc);
    CapturedSize(u, g, chunk.desc);
  }

  lemma OfferCounters(u: Setup, g: Gate, chunk: Chunk, now: U64)
    requires ValidSetup(u) && GateOk(u, g) && CountersOk(u, g)
    ensures CountersOk(u, Accepting(u, g, chunk, now))
  {
    Whole(g.counters.accepted, Steps(u));
    Whole(g.counters.accepted + 1, Steps(u));
  }

  lemma TakenBuffers(u: Setup, g: Gate, chunk: Chunk, now: U64)
    requires ValidSetup(u) && GateOk(u, g) && BuffersSafe(u, g) && Takes(u, g, chunk, now)
    ensures GateOk(u, Accepting(u, g, chunk, now)) && BuffersSafe(u, Accepting(u, g, chunk, now))
  {
    var r := Accepting(u, g, chunk, now);
    TakenGateOk(u, g, chunk, now);
    if u.config.policy.Reject? {
      forall step, c | 0 <= step < Steps(u) && 0 <= c < u.config.controlDim ensures CellSafe(u, r, step, c) {
        TakenCellSafe(u, g, chunk, now, step, c);
      }
    }
  }

  lemma RejectedKeeps(u: Setup, g: Gate, chunk: Chunk, now: U64)
    requires ValidSetup(u) && GateOk(u, g) && BuffersSafe(u, g) && !Takes(u, g, chunk, now)
    ensures var r := Accepting(u, g, chunk, now); r == g.(counters := r.counters) && GateOk(u, r) && BuffersSafe(u, r)
  {
    var r := Accepting(u, g, chunk, now);
    if u.config.policy.Reject? && r.isActive {
      forall step, c | 0 <= step < Steps(u) && 0 <= c < u.config.controlDim ensures CellSafe(u, r, step, c) {
        assert CellSafe(u, g, step, c);
      }
    }
  }

  lemma OfferOk(u: Setup, t: Trace, chunk: Chunk, now: U64)
    requires ValidSetup(u) && TraceOk(u, t)
    ensures TraceOk(u, Apply(u, t, Offer(chunk, now)))
  {
    OfferCounters(u, t.gate, chunk, now);
    if Takes(u, t.gate, chunk, now) {
      TakenBuffers(u, t.gate, chunk, now);
    } else {
      RejectedKeeps(u, t.gate, chunk, now);
    }
  }

  // ---- every run --------------------------------------------------------------------------

  lemma ApplyOk(u: Setup, t: Trace, e: Event)
    requires ValidSetup(u) && TraceOk(u, t)
    ensures TraceOk(u, Apply(u, t, e))
  {
    match e
    case Offer(chunk, now) => OfferOk(u, t, chunk, now);
    case Tick(now) => TickOk(u, t, now);
    case Reset => ResetOk(u, t);
  }

  lemma ApplyGateOk(u: Setup, t: Trace, e: Event)
    requires ValidSetup(u) && GateOk(u, t.gate)
    ensures GateOk(u, Apply(u, t, e).gate)
  {
    match e
    case Offer(chunk, now) => if Takes(u, t.gate, chunk, now) { TakenGateOk(u, t.gate, chunk, now); }
    case Tick(now) => if Refusal(u, t.gate, now).None? { SteppingDue(u, t.gate, now); }
    case Reset =>
  }

  /** The gate and its publications after a run from creation. */
  ghost function Run(u: Setup, events: seq<Event>): (t: Trace)
    requires ValidSetup(u)
    ensures GateOk(u, t.gate)
  {
    if events == [] then Trace(Fresh(), [])
    else
      var t := Run(u, events[..|events| - 1]);
      ApplyGateOk(u, t, events[|events| - 1]);
      Apply(u, t, events[|events| - 1])
  }

  /** The invariant holds after every run. */
  lemma {:induction false} RunOk(u: Setup, events: seq<Event>)
    requires ValidSetup(u)
    ensures TraceOk(u, Run(u, events))
  {
    if events != [] {
      RunOk(u, events[..|events| - 1]);
      ApplyOk(u, Run(u, events[..|events| - 1]), events[|events| - 1]);
    }
  }

  /** Gate safety: every value ever published lies within its limits, and so does the next. */
  lemma PublishedWithinLimits(u: Setup, events: seq<Event>, i: nat, c: nat)
    requires ValidSetup(u) && i < |Run(u, events).pubs| && c < u.config.controlDim
    ensures var p := Run(u, events).pubs[i];
            c < |p.view.values| && InLimits(u, c, p.view.values[c])
  {
    RunOk(u, events);
    assert PubOk(u, Run(u, events).pubs[i]);
  }

  lemma {:induction false} OrderedPubs(u: Setup, pubs: seq<Publication>, i: nat, j: nat)
    requires ValidSetup(u) && PubsOk(u, pubs) && i < j < |pubs|
    ensures Later(pubs[i], pubs[j]) && pubs[i].now <= pubs[j].now
    decreases j - i
  {
    assert RateOk(u, pubs[j - 1], pubs[j]) && Later(pubs[j - 1], pubs[j]);
    if i < j - 1 { OrderedPubs(u, pubs, i, j - 1); }
  }

  /** Between resets, publications are strictly increasing in generation and step. */
  lemma PublishedInOrder(u: Setup, events: seq<Event>, i: nat, j: nat)
    requires ValidSetup(u) && i < j < |Run(u, events).pubs|
    ensures Later(Run(u, events).pubs[i], Run(u, events).pubs[j]) && Run(u, events).pubs[i].now <= Run(u, events).pubs[j].now
  {
    RunOk(u, events);
    OrderedPubs(u, Run(u, events).pubs, i, j);
  }

  /** A publication is the step that its clock says, of its chunk, before the chunk ends. */
  lemma PublishedOnSchedule(u: Setup, events: seq<Event>, i: nat)
    requires ValidSetup(u) && i < |Run(u, events).pubs|
    ensures var p := Run(u, events).pubs[i];
            && p.chunk.validFrom <= p.now < p.chunk.validUntil
            && p.view.stepIndex == (p.now - p.chunk.validFrom) / u.config.period
            && p.view.stepIndex < Steps(u) && p.view.generation == p.chunk.generation
            && (u.config.policy.Reject? ==> !p.view.clamped)
  {
    RunOk(u, events);
    assert PubOk(u, Run(u, events).pubs[i]);
  }

  lemma FloorSum(a: nat, b: nat, p: nat)
    requires p > 0
    ensures a / p + b / p <= (a + b) / p
  {
    var s := a / p + b / p;
    assert a == p * (a / p) + a % p && b == p * (b / p) + b % p;
    assert p * s == p * (a / p) + p * (b / p);
    assert a + b == p * ((a + b) / p) + (a + b) % p;
    var d := (a + b) / p + 1 - s;
    assert p * d == p * ((a + b) / p) + p - p * s;
    PositiveFactor(p, d);
  }

  /** One more output adds at most its own periods. */
  lemma DriftStep(m: real, period: nat, x: real, y: real, z: real, a: nat, b: nat, k: nat)
    requires m >= 0.0 && period > 0
    requires Near(m, x, y, k + a / period) && Near(m, y, z, Changes(b, period))
    ensures Near(m, x, z, k + 1 + (a + b) / period)
  {
    FloorSum(a, b, period);
    PeriodsAreChanges(b, period);
    NearChain(m, x, y, z, k + a / period, Changes(b, period), k + 1 + (a + b) / period);
  }

  predicate Drift(u: Setup, p: Publication, q: Publication, k: nat, c: nat)
  {
    && p.now <= q.now && u.config.period > 0
    && c < |u.maxDelta| && c < |p.view.values| && c < |q.view.values|
    && Near(u.maxDelta[c], p.view.values[c], q.view.values[c], k + (q.now - p.now) / u.config.period)
  }

  lemma DriftOn(u: Setup, p: Publication, q: Publication, r: Publication, k: nat, c: nat)
    requires ValidSetup(u) && PubOk(u, q) && PubOk(u, r) && RateOk(u, q, r) && Drift(u, p, q, k, c)
    ensures Drift(u, p, r, k + 1, c)
  {
    DriftStep(u.maxDelta[c], u.config.period, p.view.values[c], q.view.values[c], r.view.values[c],
              q.now - p.now, r.now - q.now, k);
  }

  lemma {:induction false} DriftOf(u: Setup, pubs: seq<Publication>, i: nat, k: nat, c: nat)
    requires ValidSetup(u) && PubsOk(u, pubs) && i + k < |pubs| && c < u.config.controlDim
    ensures Drift(u, pubs[i], pubs[i + k], k, c)
    decreases k
  {
    if k == 0 {
      assert PubOk(u, pubs[i]);
    } else {
      DriftOf(u, pubs, i, k - 1, c);
      assert RateOk(u, pubs[i + k - 1], pubs[i + k]);
      DriftOn(u, pubs[i], pubs[i + k - 1], pubs[i + k], k - 1, c);
    }
  }

  /**
  Drift over a whole run: between resets the k-th later output is within one allowed change per output
  and one per whole period elapsed since the first, under either policy.
   */
  lemma PublishedDrift(u: Setup, events: seq<Event>, i: nat, k: nat, c: nat)
    requires ValidSetup(u) && i + k < |Run(u, events).pubs| && c < u.config.controlDim
    ensures Drift(u, Run(u, events).pubs[i], Run(u, events).pubs[i + k], k, c)
  {
    RunOk(u, events);
    var pubs := Run(u, events).pubs;
    DriftOf(u, pubs, i, k, c);
  }

  /** The two values are no further apart than the rate allows for outputs `gap` nanoseconds apart. */
  predicate WithinRate(maxDelta: real, period: nat, gap: nat, a: real, b: real)
    requires period > 0
  {
    && (gap < 2 * period ==> -maxDelta <= b - a <= maxDelta)
    && (gap >= 2 * period ==> -(maxDelta * (gap / period) as real) <= b - a <= maxDelta * (gap / period) as real)
  }

  lemma NearIsWithinRate(maxDelta: real, period: nat, gap: nat, a: real, b: real)
    requires period > 0
    ensures Near(maxDelta, a, b, Changes(gap, period)) <==> WithinRate(maxDelta, period, gap, a, b)
  {
    assert maxDelta * 1.0 == maxDelta;
  }

  lemma PubsRate(u: Setup, pubs: seq<Publication>, i: nat, c: nat)
    requires ValidSetup(u) && PubsOk(u, pubs) && i + 1 < |pubs| && c < u.config.controlDim
    ensures var p, q := pubs[i], pubs[i + 1];
            && p.now <= q.now && c < |p.view.values| && c < |q.view.values|
            && WithinRate(u.maxDelta[c], u.config.period, q.now - p.now, p.view.values[c], q.view.values[c])
  {
    var p, q := pubs[i], pubs[i + 1];
    assert PubOk(u, p) && PubOk(u, q) && RateOk(u, pubs[i + 1 - 1], pubs[i + 1]);
    NearIsWithinRate(u.maxDelta[c], u.config.period, q.now - p.now, p.view.values[c], q.view.values[c]);
  }

  /**
  Consecutive outputs less than two periods apart differ by at most the allowed change, and others by at most
  the allowed change for each whole period between them.
   */
  lemma PublishedRate(u: Setup, events: seq<Event>, i: nat, c: nat)
    requires ValidSetup(u) && i + 1 < |Run(u, events).pubs| && c < u.config.controlDim
    ensures var p, q := Run(u, events).pubs[i], Run(u, events).pubs[i + 1];
            && p.now <= q.now && c < |p.view.values| && c < |q.view.values|
            && WithinRate(u.maxDelta[c], u.config.period, q.now - p.now, p.view.values[c], q.view.values[c])
  {
    RunOk(u, events);
    PubsRate(u, Run(u, events).pubs, i, c);
  }

  /** A value that may follow the outputs so far: within the limits, and within the rate of the last one. */
  predicate MayFollow(u: Setup, pubs: seq<Publication>, now: nat, c: nat, x: real)
    requires ValidSetup(u) && c < u.config.controlDim
  {
    && u.lower[c] <= x <= u.upper[c]
    && (pubs != [] ==>
          var p := pubs[|pubs| - 1];
          p.now <= now && c < |p.view.values| && WithinRate(u.maxDelta[c], u.config.period, now - p.now, p.view.values[c], x))
  }

  lemma AllowedIsRate(u: Setup, g: Gate, now: U64, c: nat, x: real)
    requires ValidSetup(u) && Sized(g) && c < u.config.controlDim && g.hasOutput && g.lastPublish <= now
    ensures Abs(x - g.output[c]) <= Allowed(u, g, now, c)
            <==> WithinRate(u.maxDelta[c], u.config.period, now - g.lastPublish, g.output[c], x)
  {
    PeriodsAreChanges(now - g.lastPublish, u.config.period);
    NearIsWithinRate(u.maxDelta[c], u.config.period, now - g.lastPublish, g.output[c], x);
  }

  /** The gate's last output is the last publication, if there is one. */
  predicate LastIs(u: Setup, g: Gate, pubs: seq<Publication>, c: nat)
    requires ValidSetup(u) && Sized(g) && c < u.config.controlDim
  {
    && (g.hasOutput <==> pubs != [])
    && (pubs != [] ==>
          var p := pubs[|pubs| - 1];
          c < |p.view.values| && g.lastPublish == p.now && g.output[c] == p.view.values[c] && InLimits(u, c, g.output[c]))
  }

  lemma OutputIsLast(u: Setup, t: Trace, c: nat)
    requires ValidSetup(u) && TraceOk(u, t) && c < u.config.controlDim
    ensures LastIs(u, t.gate, t.pubs, c)
  {
    if t.pubs != [] {
      assert PubOk(u, t.pubs[|t.pubs| - 1]);
      assert t.gate.output[..u.config.controlDim][c] == t.gate.output[c];
    }
  }

  /** What is published may follow, and nothing that may is nearer to the value asked for. */
  predicate Nearest(u: Setup, g: Gate, pubs: seq<Publication>, now: U64, view: StepView, c: nat, x: real)
    requires ValidSetup(u) && Sized(g) && c < u.config.controlDim
  {
    && view.stepIndex < Steps(u) && c < |view.values| && MayFollow(u, pubs, now, c, view.values[c])
    && var asked := Candidate(u, g, view.stepIndex, c);
       MayFollow(u, pubs, now, c, x) ==> Abs(view.values[c] - asked) <= Abs(x - asked)
  }

  lemma NearestOutput(u: Setup, g: Gate, pubs: seq<Publication>, now: U64, c: nat, x: real)
    requires ValidSetup(u) && GateOk(u, g) && c < u.config.controlDim && LastIs(u, g, pubs, c) && Stepping(u, g, now).1.Step?
    ensures Nearest(u, g, pubs, now, Stepping(u, g, now).1.view, c, x)
  {
    SteppingPublishes(u, g, now);
    NotRefused(u, g, now);
    NearestStep(u, g, now, DueStep(u, g, now), c, x);
  }

  /** In every run the published value may follow, and none that may is nearer to the value asked for. */
  lemma PublishedNearest(u: Setup, events: seq<Event>, now: U64, c: nat, x: real)
    requires ValidSetup(u) && c < u.config.controlDim && Stepping(u, Run(u, events).gate, now).1.Step?
    ensures Nearest(u, Run(u, events).gate, Run(u, events).pubs, now, Stepping(u, Run(u, events).gate, now).1.view, c, x)
  {
    var t := Run(u, events);
    RunOk(u, events);
    OutputIsLast(u, t, c);
    NearestOutput(u, t.gate, t.pubs, now, c, x);
  }

  lemma NearestStep(u: Setup, g: Gate, now: U64, step: nat, c: nat, x: real)
    requires ValidSetup(u) && Sized(g) && step < Steps(u) && c < u.config.controlDim
    requires g.hasOutput ==> InLimits(u, c, g.output[c]) && g.lastPublish <= now
    ensures var v := Safe(u, g, now, step, c);
            && InLimits(u, c, v)
            && (g.hasOutput ==> WithinRate(u.maxDelta[c], u.config.period, now - g.lastPublish, g.output[c], v))
            && (InLimits(u, c, x)
                && (g.hasOutput ==> WithinRate(u.maxDelta[c], u.config.period, now - g.lastPublish, g.output[c], x)) ==>
                  Abs(v - Candidate(u, g, step, c)) <= Abs(x - Candidate(u, g, step, c)))
  {
    var v := Safe(u, g, now, step, c);
    SafeIsSafe(u, g, now, step, c);
    if g.hasOutput {
      AllowedIsRate(u, g, now, c, v);
      AllowedIsRate(u, g, now, c, x);
    }
    if InLimits(u, c, x) && (g.hasOutput ==> Abs(x - g.output[c]) <= Allowed(u, g, now, c)) {
      SafeNearest(u, g, now, step, c, x);
    }
  }

  /** Published and skipped steps never exceed the steps of the chunks accepted. */
  lemma StepsAccounted(u: Setup, events: seq<Event>)
    requires ValidSetup(u)
    ensures var k := Run(u, events).gate.counters; k.published + k.skipped <= k.accepted * Steps(u)
  {
    RunOk(u, events);
    Whole(Run(u, events).gate.counters.accepted, Steps(u));
  }

  // ---- blends under the reject policy ------------------------------------------------------

  /** A blend of two values within limits is within them. */
  lemma LerpWithin(a: real, b: real, t: real, lo: real, hi: real)
    requires lo <= a <= hi && lo <= b <= hi && 0.0 <= t <= 1.0
    ensures lo <= Lerp(a, b, t) <= hi
  {
    assert Lerp(a, b, t) - lo == t * (b - lo) + (1.0 - t) * (a - lo);
    assert hi - Lerp(a, b, t) == t * (hi - b) + (1.0 - t) * (hi - a);
    NonNegative(t, b - lo);
    NonNegative(1.0 - t, a - lo);
    NonNegative(t, hi - b);
    NonNegative(1.0 - t, hi - a);
  }

  lemma NonNegative(a: real, b: real)
    requires a >= 0.0 && b >= 0.0
    ensures a * b >= 0.0
  {
  }

  lemma WeightWithin(step: nat, n: nat)
    requires step < n
    ensures 0.0 < BlendWeight(step, n) < 1.0
  {
    Ratio((step + 1) as real, (n + 1) as real);
  }

  lemma Ratio(a: real, b: real)
    requires 0.0 < a < b
    ensures 0.0 < a / b < 1.0
  {
    var q := a / b;
    assert q * b == a;
    assert (1.0 - q) * b == b - a;
    PositiveReal(q, b);
    PositiveReal(1.0 - q, b);
  }

  lemma PositiveReal(a: real, b: real)
    requires b > 0.0 && a * b > 0.0
    ensures a > 0.0
  {
  }

  lemma CandidateWithin(u: Setup, g: Gate, step: nat, c: nat)
    requires ValidSetup(u) && GateOk(u, g) && BuffersSafe(u, g) && u.config.policy.Reject? && g.isActive
    requires step < Steps(u) && c < u.config.controlDim
    ensures InLimits(u, c, Candidate(u, g, step, c))
  {
    assert CellSafe(u, g, step, c);
    CellIn(u, g, step, c);
    var i := step * u.config.controlDim + c;
    if step < g.overlapSteps {
      WeightWithin(step, g.overlapSteps);
      LerpWithin(g.overlap[i], g.active[i], BlendWeight(step, g.overlapSteps), u.lower[c], u.upper[c]);
    }
  }

  /** Under the reject policy `next` refuses a step only for its rate of change, in every run. */
  lemma RejectsOnlyForRate(u: Setup, events: seq<Event>, now: U64)
    requires ValidSetup(u) && Stepping(u, Run(u, events).gate, now).1 == NoStep(StepUnsafe)
    ensures var g := Run(u, events).gate;
            && u.config.policy.Reject? && g.isActive && g.hasOutput && now >= g.chunk.validFrom
            && DueStep(u, g, now) < Steps(u)
            && exists c :: 0 <= c < u.config.controlDim
                 && !DeltaSafe(u, g, now, c, Candidate(u, g, DueStep(u, g, now), c))
  {
    RunOk(u, events);
    var g := Run(u, events).gate;
    NotRefused(u, g, now);
    var step := DueStep(u, g, now);
    var c :| 0 <= c < u.config.controlDim && !Passes(u, g, now, step, c);
    CandidateWithin(u, g, step, c);
    assert !DeltaSafe(u, g, now, c, Candidate(u, g, step, c));
  }

  // ---- the newest chunk -------------------------------------------------------------------

  /** The last chunk taken since the last reset, read off the run's verdicts. */
  ghost function Newest(u: Setup, events: seq<Event>): Option<Descriptor>
    requires ValidSetup(u)
  {
    if events == [] then None
    else
      var n := |events| - 1;
      match events[n]
      case Reset => None
      case Tick(_) => Newest(u, events[..n])
      case Offer(chunk, now) =>
        if Takes(u, Run(u, events[..n]).gate, chunk, now) then Some(chunk.desc) else Newest(u, events[..n])
  }

  /** The gate's session fields are those of the newest chunk. */
  predicate Held(g: Gate, newest: Option<Descriptor>)
  {
    && (g.bound <==> newest.Some?) && (g.isActive ==> newest == Some(g.chunk))
    && (newest.Some? ==> g.newestGeneration == newest.value.generation && g.newestSequence == newest.value.sequence
                         && g.session == newest.value.session)
  }

  lemma TickHeld(u: Setup, g: Gate, now: U64, newest: Option<Descriptor>)
    requires ValidSetup(u) && GateOk(u, g) && Held(g, newest)
    ensures Held(Stepping(u, g, now).0, newest)
  {
  }

  lemma OfferHeld(u: Setup, g: Gate, chunk: Chunk, now: U64, newest: Option<Descriptor>)
    requires ValidSetup(u) && GateOk(u, g) && Held(g, newest)
    ensures Held(Accepting(u, g, chunk, now), if Takes(u, g, chunk, now) then Some(chunk.desc) else newest)
  {
  }

  lemma {:induction false} NewestHeld(u: Setup, events: seq<Event>)
    requires ValidSetup(u)
    ensures Held(Run(u, events).gate, Newest(u, events))
  {
    if events != [] {
      var before := events[..|events| - 1];
      NewestHeld(u, before);
      var g, newest := Run(u, before).gate, Newest(u, before);
      match events[|events| - 1]
      case Reset =>
      case Tick(now) => TickHeld(u, g, now, newest);
      case Offer(chunk, now) => OfferHeld(u, g, chunk, now, newest);
    }
  }

  /** A published step belongs to the newest chunk taken since the last reset. */
  lemma PublishesNewest(u: Setup, events: seq<Event>, now: U64)
    requires ValidSetup(u) && Stepping(u, Run(u, events).gate, now).1.Step?
    ensures var view := Stepping(u, Run(u, events).gate, now).1.view;
            && Newest(u, events).Some?
            && var d := Newest(u, events).value;
               view.generation == d.generation && view.sequence == d.sequence && view.session == d.session
  {
    NewestHeld(u, events);
    NotRefused(u, Run(u, events).gate, now);
  }

  /** A chunk is taken only if newer in both generation and sequence than the newest, and of its session. */
  lemma TakesOnlyNewer(u: Setup, events: seq<Event>, chunk: Chunk, now: U64)
    requires ValidSetup(u) && Takes(u, Run(u, events).gate, chunk, now) && Newest(u, events).Some?
    ensures var d := Newest(u, events).value;
            && chunk.desc.generation > d.generation && chunk.desc.sequence > d.sequence
            && chunk.desc.session == d.session
  {
    NewestHeld(u, events);
  }
}
