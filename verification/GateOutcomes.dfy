/**
What the gate answers, in terms of the fields of a chunk and the clock alone: which chunks are taken, which
ticks publish, and that a chunk which is taken in time is played to its end.
 */
module GateOutcomes {
  import opened Bits
  import opened Machine
  import opened ActionGate
  import opened GateRuns
  import opened GateOverlap

  // ---- blends -----------------------------------------------------------------------------

  /** Of the `n` overlapped steps, step `s` holds `s + 1` parts of the new value and `n - s` of the old one. */
  lemma BlendShares(u: Setup, g: Gate, s: nat, c: nat)
    requires ValidSetup(u) && Sized(g) && s < Steps(u) && s < g.overlapSteps && c < u.config.controlDim
    ensures var i, n := s * u.config.controlDim + c, g.overlapSteps;
            && 0 <= i < MAX_DIM
            && (n + 1) as real * Candidate(u, g, s, c) == (n - s) as real * g.overlap[i] + (s + 1) as real * g.active[i]
  {
    CellIn(u, g, s, c);
    var i := s * u.config.controlDim + c;
    SharesOf(g.overlap[i], g.active[i], (s + 1) as real, (g.overlapSteps + 1) as real);
  }

  lemma SharesOf(a: real, b: real, k: real, n: real)
    requires n > 0.0
    ensures n * Lerp(a, b, k / n) == (n - k) * a + k * b
  {
    var t := k / n;
    assert n * t == k;
    assert n * (t * (b - a)) == (n * t) * (b - a);
  }

  // ---- which chunks are taken -------------------------------------------------------------

  /** The header is right for this gate: sizes, identity and the order of its own times. */
  predicate RightHeader(u: Setup, chunk: Chunk, now: U64)
  {
    var d := chunk.desc;
    && d.structSize == 96 && d.version == 1 && d.controlDim == u.config.controlDim
    && d.controlDim * d.stepCount == u.actionValues == |chunk.values| && d.digest == u.digest
    && d.validUntil == d.validFrom + d.stepCount * u.config.period && d.produced <= now
    && (d.timestamp != 0 ==> d.timestamp <= d.produced) && (u.config.maxAge != 0 ==> d.timestamp != 0)
  }

  predicate FiniteValues(chunk: Chunk)
  {
    forall i :: 0 <= i < |chunk.values| ==> chunk.values[i] != NonFinite
  }

  /** The chunk has not ended, is no older than allowed, and its deadline has not passed. */
  predicate InTime(u: Setup, d: Descriptor, now: U64)
  {
    && now < d.validUntil && (u.config.maxAge != 0 ==> now <= d.timestamp + u.config.maxAge)
    && (d.deadline != 0 ==> now <= d.deadline)
  }

  predicate ValuesInLimits(u: Setup, chunk: Chunk)
    requires ValidSetup(u) && FiniteValues(chunk)
  {
    forall i :: 0 <= i < |chunk.values| ==>
      u.lower[i % u.config.controlDim] <= chunk.values[i].value <= u.upper[i % u.config.controlDim]
  }

  /** Of the session the gate is bound to, and newer than every chunk taken in it. */
  predicate Continues(g: Gate, d: Descriptor)
  {
    g.bound ==> d.session == g.session && d.generation > g.newestGeneration && d.sequence > g.newestSequence
  }

  lemma HeaderFits(u: Setup, chunk: Chunk, now: U64)
    requires ValidSetup(u)
    ensures ShapeOk(u, chunk.desc) && HeaderOk(u, chunk, now) <==> RightHeader(u, chunk, now)
  {
    var d := chunk.desc;
    if RightHeader(u, chunk, now) {
      NoSteps(d.controlDim, d.stepCount);
      QuotientAtLeast(MAX_DIM, d.controlDim, d.stepCount);
      QuotientAtLeast(U64_MAX - d.validFrom, u.config.period, d.stepCount);
      PositiveTimes(d.stepCount, u.config.period);
    }
  }

  lemma NoSteps(width: nat, steps: nat)
    ensures steps == 0 ==> width * steps == 0
  {
  }

  lemma QuotientAtLeast(a: nat, p: nat, n: nat)
    requires p > 0 && n * p <= a
    ensures n <= a / p
  {
    var q := a / p;
    assert a == p * q + a % p;
    assert p * (q - n) == p * q - n * p;
    MultipleGap(p, q - n);
  }

  lemma PositiveTimes(a: nat, b: nat)
    requires a > 0 && b > 0
    ensures a * b > 0
  {
  }

  lemma TimesAre(u: Setup, chunk: Chunk, now: U64)
    requires ValidSetup(u) && RightHeader(u, chunk, now)
    ensures ClockOk(chunk.desc, now) <==> (chunk.desc.deadline != 0 ==> chunk.desc.timestamp <= chunk.desc.deadline)
    ensures !TooLate(u, chunk.desc, now) <==> InTime(u, chunk.desc, now)
  {
  }

  lemma LimitsAre(u: Setup, chunk: Chunk)
    requires ValidSetup(u) && FiniteValues(chunk)
    ensures AllFinite(chunk.values) && (WithinAbsolute(u, Reals(chunk.values)) <==> ValuesInLimits(u, chunk))
  {
    var cd, rs := u.config.controlDim, Reals(chunk.values);
    assert forall i :: 0 <= i < |rs| ==> rs[i] == chunk.values[i].value;
    if ValuesInLimits(u, chunk) {
      forall i | 0 <= i < |rs| ensures InLimits(u, i % cd, rs[i]) {}
    }
    if WithinAbsolute(u, rs) {
      forall i | 0 <= i < |chunk.values| ensures u.lower[i % cd] <= chunk.values[i].value <= u.upper[i % cd] {
        assert InLimits(u, i % cd, rs[i]);
      }
    }
  }

  /** The verdict on every chunk: the first of these demands that it fails. */
  lemma VerdictIs(u: Setup, g: Gate, chunk: Chunk, now: U64)
    requires ValidSetup(u)
    ensures var d := chunk.desc;
            Verdict(u, g, chunk, now)
            == if !RightHeader(u, chunk, now) then Invalid
               else if !FiniteValues(chunk) then Unsafe
               else if d.deadline != 0 && d.timestamp > d.deadline then Invalid
               else if !InTime(u, d, now) then Expired
               else if u.config.policy == Reject && !ValuesInLimits(u, chunk) then Unsafe
               else if g.bound && d.session != g.session then SessionMismatch
               else if !Continues(g, d) then Stale
               else if g.isActive then Replaced else Accepted
  {
    HeaderFits(u, chunk, now);
    if RightHeader(u, chunk, now) { TimesAre(u, chunk, now); }
    if FiniteValues(chunk) { LimitsAre(u, chunk); }
  }

  /** A chunk is taken exactly when it meets every demand; none is taken after its deadline, its end or its age. */
  lemma TakesExactly(u: Setup, g: Gate, chunk: Chunk, now: U64)
    requires ValidSetup(u)
    ensures Takes(u, g, chunk, now)
            <==> && RightHeader(u, chunk, now) && FiniteValues(chunk) && InTime(u, chunk.desc, now)
                 && (u.config.policy == Reject ==> ValuesInLimits(u, chunk)) && Continues(g, chunk.desc)
  {
    VerdictIs(u, g, chunk, now);
  }

  // ---- which ticks publish ----------------------------------------------------------------

  /** The component may be published under the reject policy: in its limits and within the rate. */
  predicate ComponentOk(u: Setup, g: Gate, now: U64, step: nat, c: nat)
    requires ValidSetup(u) && Sized(g) && step < Steps(u) && c < u.config.controlDim
    requires g.hasOutput ==> g.lastPublish <= now
  {
    var v := Candidate(u, g, step, c);
    && u.lower[c] <= v <= u.upper[c]
    && (g.hasOutput ==> WithinRate(u.maxDelta[c], u.config.period, now - g.lastPublish, g.output[c], v))
  }

  /** The clock allows a step: the chunk runs, time has not gone back, and the next step has begun. */
  predicate ClockAllows(u: Setup, g: Gate, now: U64)
  {
    var d := g.chunk;
    && g.isActive && (g.hasOutput ==> g.lastPublish <= now) && d.timestamp <= now < d.validUntil
    && (u.config.maxAge != 0 && d.timestamp != 0 ==> now <= d.timestamp + u.config.maxAge)
    && now >= d.validFrom + g.nextStep * u.config.period
  }

  lemma NextHasBegun(u: Setup, g: Gate, now: U64)
    requires ValidSetup(u) && now >= g.chunk.validFrom
    ensures DueStep(u, g, now) >= g.nextStep <==> now >= g.chunk.validFrom + g.nextStep * u.config.period
  {
    var e, p, n := now - g.chunk.validFrom, u.config.period, g.nextStep;
    var q := e / p;
    assert e == p * q + e % p;
    assert p * (q - n) == p * q - n * p;
    MultipleGap(p, q - n);
  }

  lemma ClockIs(u: Setup, g: Gate, now: U64)
    requires ValidSetup(u) && GateOk(u, g)
    ensures Refusal(u, g, now).None? <==> ClockAllows(u, g, now)
  {
    if now >= g.chunk.validFrom {
      NextHasBegun(u, g, now);
      if g.isActive && now < g.chunk.validUntil { DueStepExists(u, g, now); }
    } else {
      NonNegativeTimes(g.nextStep, u.config.period);
    }
  }

  lemma NonNegativeTimes(a: nat, b: nat)
    ensures a * b >= 0
  {
  }

  lemma ComponentIs(u: Setup, g: Gate, now: U64, step: nat, c: nat)
    requires ValidSetup(u) && Sized(g) && step < Steps(u) && c < u.config.controlDim
    requires g.hasOutput ==> g.lastPublish <= now
    ensures Passes(u, g, now, step, c) <==> ComponentOk(u, g, now, step, c)
  {
    if g.hasOutput { AllowedIsRate(u, g, now, c, Candidate(u, g, step, c)); }
  }

  /** A tick publishes exactly when the clock allows a step and the reject policy has nothing against it. */
  lemma StepsExactly(u: Setup, g: Gate, now: U64)
    requires ValidSetup(u) && GateOk(u, g)
    ensures ClockAllows(u, g, now) ==> now >= g.chunk.validFrom && DueStep(u, g, now) < Steps(u)
    ensures Stepping(u, g, now).1.Step?
            <==> && ClockAllows(u, g, now)
                 && (u.config.policy == Reject ==>
                       forall c :: 0 <= c < u.config.controlDim ==> ComponentOk(u, g, now, DueStep(u, g, now), c))
  {
    ClockIs(u, g, now);
    if ClockAllows(u, g, now) {
      NotRefused(u, g, now);
      SteppingDue(u, g, now);
      forall c | 0 <= c < u.config.controlDim
        ensures Passes(u, g, now, DueStep(u, g, now), c) <==> ComponentOk(u, g, now, DueStep(u, g, now), c)
      {
        ComponentIs(u, g, now, DueStep(u, g, now), c);
      }
    }
  }

  /** Why a tick publishes nothing, read off the clock; under the clamp policy there is no other reason. */
  lemma NoStepIs(u: Setup, g: Gate, now: U64)
    requires ValidSetup(u) && GateOk(u, g) && !ClockAllows(u, g, now)
    ensures var d := g.chunk;
            Stepping(u, g, now).1
            == NoStep(if !g.isActive then Empty
                      else if g.hasOutput && now < g.lastPublish then InvalidTime
                      else if now < d.validFrom then NotReady
                      else if now < d.timestamp then InvalidTime
                      else if now >= d.validUntil || (u.config.maxAge != 0 && d.timestamp != 0 && now > d.timestamp + u.config.maxAge)
                      then StepExpired else NotReady)
  {
    ClockIs(u, g, now);
    if g.isActive && g.chunk.validFrom <= now < g.chunk.validUntil { DueStepExists(u, g, now); }
  }

  // ---- a chunk is played to its end -------------------------------------------------------

  /** A tick at the start of each of the first `k` steps. */
  ghost function TicksOf(u: Setup, d: Descriptor, k: nat): (r: seq<Event>)
    requires StartOf(u, d, k) <= U64_MAX
    ensures |r| == k
  {
    if k == 0 then []
    else
      StepLater(u, d, k - 1);
      TicksOf(u, d, k - 1) + [Tick(StartOf(u, d, k - 1))]
  }

  lemma StepLater(u: Setup, d: Descriptor, s: nat)
    ensures StartOf(u, d, s) + u.config.period == StartOf(u, d, s + 1)
  {
    assert (s + 1) * u.config.period == s * u.config.period + u.config.period;
  }

  /** The gate has published the first `k` steps of its chunk, and nothing since. */
  predicate PlayedTo(u: Setup, g: Gate, d: Descriptor, k: nat)
    requires ValidSetup(u)
  {
    && GateOk(u, g) && g.chunk == d && (g.isActive <==> k < Steps(u)) && (g.isActive ==> g.nextStep == k)
    && (g.hasOutput ==> k == 0 ==> g.lastPublish <= d.validFrom)
    && (k > 0 ==> g.hasOutput && g.lastPublish == StartOf(u, d, k - 1))
  }

  /** Nothing but the end of the chunk can stop it: the values may be clamped, and it cannot grow too old. */
  predicate Unhindered(u: Setup, d: Descriptor)
  {
    u.config.policy == Clamp && d.timestamp <= d.validFrom && (u.config.maxAge == 0 || d.timestamp == 0)
  }

  lemma PlaysStep(u: Setup, g: Gate, d: Descriptor, k: nat, now: U64)
    requires ValidSetup(u) && PlayedTo(u, g, d, k) && k < Steps(u) && Unhindered(u, d) && now == StartOf(u, d, k)
    ensures var (r, step) := Stepping(u, g, now);
            PlayedTo(u, r, d, k + 1) && step.Step? && step.view.stepIndex == k
  {
    if k > 0 { StepLater(u, d, k - 1); }
    EndsAfter(u, d, k, Steps(u));
    StepsExactly(u, g, now);
    SteppingPublishes(u, g, now);
    StepLater(u, d, k);
    DueFrom(u, g, now, k);
    SteppingDue(u, g, now);
  }

  lemma EndsAfter(u: Setup, d: Descriptor, k: nat, n: nat)
    requires k < n && u.config.period > 0
    ensures StartOf(u, d, k) < d.validFrom + n * u.config.period
  {
    PositiveTimes(n - k, u.config.period);
    assert n * u.config.period - k * u.config.period == (n - k) * u.config.period;
  }

  lemma StartsAreTimes(u: Setup, g: Gate, d: Descriptor, k: nat)
    requires ValidSetup(u) && GateOk(u, g) && g.isActive && g.chunk == d && k <= Steps(u)
    ensures StartOf(u, d, k) <= d.validUntil <= U64_MAX
  {
    if k < Steps(u) { EndsAfter(u, d, k, Steps(u)); }
  }

  /** Publication `i` since `base` is step `i` of the chunk, at its start. */
  ghost predicate PlayedInOrder(u: Setup, d: Descriptor, base: nat, pubs: seq<Publication>)
  {
    && |pubs| >= base
    && forall i :: base <= i < |pubs| ==> pubs[i].chunk == d && pubs[i].view.stepIndex == i - base
                                          && pubs[i].now == StartOf(u, d, i - base)
  }

  /** The trace has gone on from `t` by the first `k` steps of the chunk. */
  ghost predicate PlayedFrom(u: Setup, t: Trace, r: Trace, d: Descriptor, k: nat)
    requires ValidSetup(u)
  {
    && PlayedTo(u, r.gate, d, k) && t.pubs <= r.pubs && |r.pubs| == |t.pubs| + k
    && PlayedInOrder(u, d, |t.pubs|, r.pubs)
  }

  lemma PlaysOn(u: Setup, t: Trace, x: Trace, d: Descriptor, k: nat, now: U64)
    requires ValidSetup(u) && PlayedFrom(u, t, x, d, k) && k < Steps(u) && Unhindered(u, d) && now == StartOf(u, d, k)
    ensures PlayedFrom(u, t, Apply(u, x, Tick(now)), d, k + 1)
  {
    PlaysStep(u, x.gate, d, k, now);
  }

  lemma {:induction false} Plays(u: Setup, t: Trace, d: Descriptor, k: nat)
    requires ValidSetup(u) && PlayedTo(u, t.gate, d, 0) && t.gate.isActive && Unhindered(u, d) && k <= Steps(u)
    ensures StartOf(u, d, k) <= U64_MAX && PlayedFrom(u, t, After(u, t, TicksOf(u, d, k)), d, k)
  {
    StartsAreTimes(u, t.gate, d, k);
    if k > 0 {
      var before, now := TicksOf(u, d, k - 1), StartOf(u, d, k - 1);
      Plays(u, t, d, k - 1);
      PlaysOn(u, t, After(u, t, before), d, k - 1, now);
      AfterOne(u, t, before, Tick(now));
    }
  }

  /** The trace after more events. */
  ghost function After(u: Setup, t: Trace, events: seq<Event>): (r: Trace)
    requires ValidSetup(u) && GateOk(u, t.gate)
    ensures GateOk(u, r.gate)
  {
    if events == [] then t
    else
      var x := After(u, t, events[..|events| - 1]);
      ApplyGateOk(u, x, events[|events| - 1]);
      Apply(u, x, events[|events| - 1])
  }

  lemma AfterOne(u: Setup, t: Trace, events: seq<Event>, e: Event)
    requires ValidSetup(u) && GateOk(u, t.gate)
    ensures After(u, t, events + [e]) == Apply(u, After(u, t, events), e)
  {
    assert (events + [e])[..|events|] == events;
  }

  lemma {:induction false} RunAfter(u: Setup, events: seq<Event>, more: seq<Event>)
    requires ValidSetup(u)
    ensures Run(u, events + more) == After(u, Run(u, events), more)
    decreases |more|
  {
    if more == [] {
      assert events + more == events;
    } else {
      var m := |more| - 1;
      RunAfter(u, events, more[..m]);
      assert (events + more)[..|events + more| - 1] == events + more[..m];
    }
  }

  lemma TakenIsPlayed(u: Setup, g: Gate, chunk: Chunk, now: U64)
    requires ValidSetup(u) && GateOk(u, g) && Takes(u, g, chunk, now) && (g.hasOutput ==> g.lastPublish <= chunk.desc.validFrom)
    ensures var r := Accepting(u, g, chunk, now); PlayedTo(u, r, chunk.desc, 0) && r.isActive
  {
    TakenGateOk(u, g, chunk, now);
    StepCountOf(u, chunk.desc);
  }

  /**
  A chunk that is taken and ticked at the start of each of its steps is published whole, in order and on time,
  and then the gate is idle: in every run, under the clamp policy, for a chunk that does not grow too old.
   */
  lemma PlaysThrough(u: Setup, events: seq<Event>, chunk: Chunk, now: U64)
    requires ValidSetup(u) && Takes(u, Run(u, events).gate, chunk, now) && Unhindered(u, chunk.desc)
    requires Run(u, events).gate.hasOutput ==> Run(u, events).gate.lastPublish <= chunk.desc.validFrom
    ensures StartOf(u, chunk.desc, Steps(u)) <= U64_MAX
    ensures var t, r := Run(u, events), Run(u, events + [Offer(chunk, now)] + TicksOf(u, chunk.desc, Steps(u)));
            && t.pubs <= r.pubs && |r.pubs| == |t.pubs| + Steps(u) && PlayedInOrder(u, chunk.desc, |t.pubs|, r.pubs)
            && !r.gate.isActive
  {
    var t := Run(u, events);
    TakenIsPlayed(u, t.gate, chunk, now);
    assert (events + [Offer(chunk, now)])[..|events|] == events;
    var taken := Run(u, events + [Offer(chunk, now)]);
    Plays(u, taken, chunk.desc, Steps(u));
    RunAfter(u, events + [Offer(chunk, now)], TicksOf(u, chunk.desc, Steps(u)));
  }
}
