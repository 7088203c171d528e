/**
The controller-side gate for action chunks, as a specification: its state, and what `accept`, `next`
and `reset` make of it. Values are reals; inputs may be non-finite.
 */
module ActionGate {
  import opened Machine

  const MAX_DIM: nat := 1024
  const DESCRIPTOR_BYTES: nat := 96
  const CHUNK_VERSION: nat := 1

  datatype Policy = Reject | Clamp

  datatype Config = Config(controlDim: nat, overlapSteps: nat, period: U64, maxAge: U64, policy: Policy)

  datatype Descriptor = Descriptor(
    structSize: U32, version: U32, controlDim: U32, stepCount: U32, digest: seq<nat>,
    sequence: U64, session: U64, generation: U64, timestamp: U64, deadline: U64,
    produced: U64, validFrom: U64, validUntil: U64)

  datatype Chunk = Chunk(desc: Descriptor, values: seq<Float>)

  datatype AcceptResult = Accepted | Replaced | Invalid | Stale | Expired | SessionMismatch | Unsafe

  datatype StepError = Empty | NotReady | StepExpired | StepUnsafe | InvalidTime

  datatype StepView = StepView(values: seq<real>, sequence: U64, session: U64, generation: U64,
                               stepIndex: nat, blended: bool, clamped: bool)

  datatype StepResult = Step(view: StepView) | NoStep(error: StepError)

  datatype Counters = Counters(
    accepted: nat, replaced: nat, invalid: nat, stale: nat, expired: nat, session: nat, unsafe: nat,
    published: nat, blended: nat, clamped: nat, skipped: nat)

  /** Limits and sizes, fixed at creation. */
  datatype Setup = Setup(config: Config, digest: seq<nat>, actionValues: nat,
                         lower: seq<real>, upper: seq<real>, maxDelta: seq<real>)

  /** The fields the gate updates. The three buffers have the capacity of the largest action. */
  datatype Gate = Gate(
    active: seq<real>, overlap: seq<real>, output: seq<real>, chunk: Descriptor, counters: Counters,
    nextStep: nat, overlapSteps: nat, session: U64, newestGeneration: U64, newestSequence: U64,
    lastPublish: U64, isActive: bool, bound: bool, hasOutput: bool)

  predicate ValidSetup(u: Setup)
  {
    && 0 < u.config.controlDim <= MAX_DIM && 0 < u.actionValues <= MAX_DIM
    && u.actionValues % u.config.controlDim == 0 && u.config.period > 0
    && u.config.overlapSteps <= u.actionValues / u.config.controlDim
    && |u.lower| == |u.upper| == |u.maxDelta| == u.config.controlDim
    && forall c :: 0 <= c < u.config.controlDim ==> u.lower[c] <= u.upper[c] && u.maxDelta[c] >= 0.0
  }

  /** Control steps in every chunk the gate accepts. */
  function Steps(u: Setup): nat
    requires u.config.controlDim > 0
  {
    u.actionValues / u.config.controlDim
  }

  predicate Sized(g: Gate)
  {
    |g.active| == |g.overlap| == |g.output| == MAX_DIM
  }

  /** A buffer whose front is replaced. */
  function Overwrite(buffer: seq<real>, front: seq<real>): seq<real>
    requires |front| <= |buffer|
  {
    front + buffer[|front|..]
  }

  // ---- accept -----------------------------------------------------------------------------

  /** Shape and range checks that need no other field. */
  predicate ShapeOk(u: Setup, d: Descriptor)
    requires u.config.period > 0
  {
    && d.controlDim != 0 && d.stepCount != 0 && d.stepCount <= MAX_DIM / d.controlDim
    && d.stepCount <= (U64_MAX - d.validFrom) / u.config.period
  }

  predicate HeaderOk(u: Setup, c: Chunk, now: U64)
    requires u.config.period > 0
  {
    var d := c.desc;
    && d.structSize == DESCRIPTOR_BYTES && d.version == CHUNK_VERSION
    && d.controlDim == u.config.controlDim && d.controlDim * d.stepCount == u.actionValues
    && |c.values| == d.controlDim * d.stepCount && d.digest == u.digest
    && d.produced <= now && !(d.timestamp != 0 && d.produced < d.timestamp)
    && d.validFrom < d.validUntil && d.validUntil == d.validFrom + d.stepCount * u.config.period
    && !(u.config.maxAge != 0 && d.timestamp == 0)
  }

  predicate AllFinite(values: seq<Float>)
  {
    forall i :: 0 <= i < |values| ==> values[i].Finite?
  }

  predicate ClockOk(d: Descriptor, now: U64)
  {
    !(d.timestamp != 0 && now < d.timestamp) && !(d.deadline != 0 && d.deadline < d.timestamp)
  }

  predicate TooOld(u: Setup, d: Descriptor, now: U64)
  {
    u.config.maxAge != 0 && d.timestamp != 0 && now - d.timestamp > u.config.maxAge
  }

  predicate TooLate(u: Setup, d: Descriptor, now: U64)
  {
    now >= d.validUntil || TooOld(u, d, now) || (d.deadline != 0 && now > d.deadline)
  }

  predicate InLimits(u: Setup, c: nat, v: real)
    requires c < |u.lower| && c < |u.upper|
  {
    u.lower[c] <= v <= u.upper[c]
  }

  function Reals(values: seq<Float>): (r: seq<real>)
    requires AllFinite(values)
    ensures |r| == |values|
  {
    seq(|values|, i requires 0 <= i < |values| => values[i].value)
  }

  /** Every value lies within the limits of its component. */
  predicate WithinAbsolute(u: Setup, values: seq<real>)
    requires ValidSetup(u)
  {
    forall i :: 0 <= i < |values| ==> InLimits(u, i % u.config.controlDim, values[i])
  }

  /** The verdict on a chunk; `Accepted` and `Replaced` are the two that change more than a counter. */
  function Verdict(u: Setup, g: Gate, c: Chunk, now: U64): AcceptResult
    requires ValidSetup(u)
  {
    var d := c.desc;
    if !ShapeOk(u, d) || !HeaderOk(u, c, now) then Invalid
    else if !AllFinite(c.values) then Unsafe
    else if !ClockOk(d, now) then Invalid
    else if TooLate(u, d, now) then Expired
    else if u.config.policy.Reject? && !WithinAbsolute(u, Reals(c.values)) then Unsafe
    else if g.bound && d.session != g.session then SessionMismatch
    else if g.bound && (d.generation <= g.newestGeneration || d.sequence <= g.newestSequence) then Stale
    else if g.isActive then Replaced else Accepted
  }

  function Count(k: Counters, r: AcceptResult): Counters
  {
    match r
    case Accepted => k.(accepted := k.accepted + 1)
    case Replaced => k.(accepted := k.accepted + 1, replaced := k.replaced + 1)
    case Invalid => k.(invalid := k.invalid + 1)
    case Stale => k.(stale := k.stale + 1)
    case Expired => k.(expired := k.expired + 1)
    case SessionMismatch => k.(session := k.session + 1)
    case Unsafe => k.(unsafe := k.unsafe + 1)
  }

  /** The step of the replaced chunk that the first step of the replacement blends with. */
  function OldStep(u: Setup, g: Gate, d: Descriptor): nat
    requires u.config.period > 0 && d.validFrom >= g.chunk.validFrom
  {
    var timed := (d.validFrom - g.chunk.validFrom) / u.config.period;
    if timed < g.nextStep then g.nextStep else timed
  }

  function Min3(a: nat, b: nat, c: nat): nat
  {
    if a <= b && a <= c then a else if b <= c then b else c
  }

  /** How many steps of the replacement are blended. */
  function OverlapLength(u: Setup, g: Gate, d: Descriptor): nat
    requires u.config.period > 0
  {
    if !g.isActive || u.config.overlapSteps == 0 || d.validFrom < g.chunk.validFrom then 0
    else
      var from := OldStep(u, g, d);
      if from >= g.chunk.stepCount then 0
      else Min3(u.config.overlapSteps, g.chunk.stepCount - from, d.stepCount)
  }

  /** The tail of the replaced chunk that is kept for blending. */
  function Captured(u: Setup, g: Gate, d: Descriptor): seq<real>
    requires ValidSetup(u) && GateOk(u, g)
  {
    var n := OverlapLength(u, g, d);
    if n == 0 then []
    else
      var from := OldStep(u, g, d);
      BlockIn(from, n, g.chunk.stepCount, u.config.controlDim);
      g.active[from * u.config.controlDim..(from + n) * u.config.controlDim]
  }

  lemma BlockIn(start: nat, n: nat, steps: nat, width: nat)
    requires start + n <= steps && steps * width <= MAX_DIM
    ensures 0 <= start * width <= (start + n) * width <= MAX_DIM
    ensures (start + n) * width - start * width == n * width
  {
    assert start * width <= (start + n) * width <= steps * width;
  }

  /** What every reachable state satisfies about the active chunk. */
  predicate GateOk(u: Setup, g: Gate)
    requires ValidSetup(u)
  {
    && Sized(g)
    && (g.isActive ==>
          && g.bound && g.chunk.controlDim == u.config.controlDim && g.chunk.stepCount == Steps(u)
          && g.chunk.stepCount * u.config.controlDim == u.actionValues
          && g.chunk.validUntil == g.chunk.validFrom + g.chunk.stepCount * u.config.period
          && g.nextStep < g.chunk.stepCount && g.overlapSteps <= g.chunk.stepCount
          && g.chunk.generation == g.newestGeneration && g.chunk.sequence == g.newestSequence)
  }

  function Accepting(u: Setup, g: Gate, c: Chunk, now: U64): (r: Gate)
    requires ValidSetup(u) && GateOk(u, g)
  {
    var v := Verdict(u, g, c, now);
    var k := Count(g.counters, v);
    if !v.Accepted? && !v.Replaced? then g.(counters := k)
    else
      assert |c.values| == u.actionValues;
      Taken(u, g, c.desc, Reals(c.values), k)
  }

  /** The gate with a new active chunk. */
  function Taken(u: Setup, g: Gate, d: Descriptor, values: seq<real>, k: Counters): (r: Gate)
    requires ValidSetup(u) && GateOk(u, g) && |values| <= MAX_DIM
  {
    CapturedSize(u, g, d);
    Gate(Overwrite(g.active, values), Overwrite(g.overlap, Captured(u, g, d)), g.output, d, k,
         0, OverlapLength(u, g, d), d.session, d.generation, d.sequence, g.lastPublish, true, true, g.hasOutput)
  }

  lemma CapturedSize(u: Setup, g: Gate, d: Descriptor)
    requires ValidSetup(u) && GateOk(u, g)
    ensures |Captured(u, g, d)| == OverlapLength(u, g, d) * u.config.controlDim <= MAX_DIM
  {
    var n := OverlapLength(u, g, d);
    if n > 0 {
      BlockIn(OldStep(u, g, d), n, g.chunk.stepCount, u.config.controlDim);
    }
  }

  // ---- next -------------------------------------------------------------------------------

  /** Why no step can be published now, if so. */
  function Refusal(u: Setup, g: Gate, now: U64): Option<StepError>
    requires ValidSetup(u)
  {
    if !g.isActive then Some(Empty)
    else if g.hasOutput && now < g.lastPublish then Some(InvalidTime)
    else if now < g.chunk.validFrom then Some(NotReady)
    else if g.chunk.timestamp != 0 && now < g.chunk.timestamp then Some(InvalidTime)
    else if now >= g.chunk.validUntil || TooOld(u, g.chunk, now) then Some(StepExpired)
    else if DueStep(u, g, now) >= g.chunk.stepCount then Some(StepExpired)
    else if DueStep(u, g, now) < g.nextStep then Some(NotReady)
    else None
  }

  /** The control step that is due at `now`. */
  function DueStep(u: Setup, g: Gate, now: U64): nat
    requires ValidSetup(u) && now >= g.chunk.validFrom
  {
    (now - g.chunk.validFrom) / u.config.period
  }

  function Lerp(a: real, b: real, t: real): real
  {
    a + t * (b - a)
  }

  function BlendWeight(step: nat, overlapSteps: nat): real
  {
    (step + 1) as real / (overlapSteps + 1) as real
  }

  lemma CellIn(u: Setup, g: Gate, step: nat, c: nat)
    requires ValidSetup(u) && Sized(g) && step < Steps(u) && c < u.config.controlDim
    ensures 0 <= step * u.config.controlDim + c < u.actionValues
  {
    assert u.actionValues == u.config.controlDim * Steps(u);
    assert (step + 1) * u.config.controlDim <= Steps(u) * u.config.controlDim;
  }

  /** The value asked for: the new step, or a blend with the replaced one. */
  function Candidate(u: Setup, g: Gate, step: nat, c: nat): real
    requires ValidSetup(u) && Sized(g) && step < Steps(u) && c < u.config.controlDim
  {
    CellIn(u, g, step, c);
    var i := step * u.config.controlDim + c;
    if step < g.overlapSteps then Lerp(g.overlap[i], g.active[i], BlendWeight(step, g.overlapSteps)) else g.active[i]
  }

  /** Whole periods in a gap, at least one. */
  function Periods(gap: nat, period: nat): nat
    requires period > 0
  {
    if gap / period > 1 then gap / period else 1
  }

  function ElapsedSteps(u: Setup, g: Gate, now: U64): nat
    requires u.config.period > 0
  {
    if g.hasOutput && now > g.lastPublish then Periods(now - g.lastPublish, u.config.period) else 1
  }

  function Allowed(u: Setup, g: Gate, now: U64, c: nat): real
    requires ValidSetup(u) && c < u.config.controlDim
  {
    u.maxDelta[c] * ElapsedSteps(u, g, now) as real
  }

  function Abs(x: real): real { if x < 0.0 then -x else x }

  function ClampTo(v: real, lo: real, hi: real): real
  {
    if v < lo then lo else if hi < v then hi else v
  }

  predicate DeltaSafe(u: Setup, g: Gate, now: U64, c: nat, v: real)
    requires ValidSetup(u) && Sized(g) && c < u.config.controlDim
  {
    !g.hasOutput || Abs(v - g.output[c]) <= Allowed(u, g, now, c)
  }

  /** Both safety checks of the reject policy. */
  predicate Passes(u: Setup, g: Gate, now: U64, step: nat, c: nat)
    requires ValidSetup(u) && Sized(g) && step < Steps(u) && c < u.config.controlDim
  {
    InLimits(u, c, Candidate(u, g, step, c)) && DeltaSafe(u, g, now, c, Candidate(u, g, step, c))
  }

  /** The published value: clamped to the limits, then to the rate, then to the limits again. */
  function Safe(u: Setup, g: Gate, now: U64, step: nat, c: nat): real
    requires ValidSetup(u) && Sized(g) && step < Steps(u) && c < u.config.controlDim
  {
    SafeOf(Candidate(u, g, step, c), u.lower[c], u.upper[c], g.hasOutput, g.output[c], Allowed(u, g, now, c))
  }

  function SafeOf(v: real, lower: real, upper: real, hasOutput: bool, output: real, allowed: real): real
  {
    var first := ClampTo(v, lower, upper);
    if !hasOutput then first
    else ClampTo(ClampTo(first, output - allowed, output + allowed), lower, upper)
  }

  function SafeRow(u: Setup, g: Gate, now: U64, step: nat): (r: seq<real>)
    requires ValidSetup(u) && Sized(g) && step < Steps(u)
    ensures |r| == u.config.controlDim
  {
    seq(u.config.controlDim, c requires 0 <= c < u.config.controlDim => Safe(u, g, now, step, c))
  }

  function ClampedCount(u: Setup, g: Gate, now: U64, step: nat, n: nat): nat
    requires ValidSetup(u) && Sized(g) && step < Steps(u) && n <= u.config.controlDim
  {
    if n == 0 then 0
    else ClampedCount(u, g, now, step, n - 1)
         + if Safe(u, g, now, step, n - 1) != Candidate(u, g, step, n - 1) then 1 else 0
  }

  /** The step is refused by the reject policy. */
  predicate Refused(u: Setup, g: Gate, now: U64, step: nat)
    requires ValidSetup(u) && Sized(g) && step < Steps(u)
  {
    u.config.policy.Reject? && !forall c :: 0 <= c < u.config.controlDim ==> Passes(u, g, now, step, c)
  }

  /** Time of `next`, and the step it concerns. */
  function Stepping(u: Setup, g: Gate, now: U64): (r: (Gate, StepResult))
    requires ValidSetup(u) && GateOk(u, g)
  {
    match Refusal(u, g, now)
    case Some(StepExpired) =>
      (g.(isActive := false, counters := g.counters.(expired := g.counters.expired + 1)), NoStep(StepExpired))
    case Some(e) => (g, NoStep(e))
    case None =>
      var step := DueStep(u, g, now);
      var k := g.counters.(skipped := g.counters.skipped + (step - g.nextStep));
      if Refused(u, g, now, step) then
        (g.(isActive := false, counters := k.(unsafe := k.unsafe + 1)), NoStep(StepUnsafe))
      else Published(u, g, now, step, k)
  }

  function Published(u: Setup, g: Gate, now: U64, step: nat, k: Counters): (r: (Gate, StepResult))
    requires ValidSetup(u) && GateOk(u, g) && g.isActive && step < g.chunk.stepCount
  {
    var n := ClampedCount(u, g, now, step, u.config.controlDim);
    PublishedRow(g, now, step, SafeRow(u, g, now, step), n, k)
  }

  function PublishedRow(g: Gate, now: U64, step: nat, row: seq<real>, n: nat, k: Counters): (r: (Gate, StepResult))
    requires |row| <= |g.output|
  {
    var blended := step < g.overlapSteps;
    (g.(output := Overwrite(g.output, row), nextStep := step + 1, lastPublish := now, hasOutput := true,
        isActive := step + 1 != g.chunk.stepCount,
        counters := k.(clamped := k.clamped + n, published := k.published + 1,
                       blended := if blended then k.blended + 1 else k.blended)),
     Step(StepView(row, g.chunk.sequence, g.chunk.session, g.chunk.generation, step, blended, n > 0)))
  }

  // ---- reset ------------------------------------------------------------------------------

  function Resetting(g: Gate): Gate
  {
    g.(isActive := false, bound := false, hasOutput := false, nextStep := 0, overlapSteps := 0,
       session := 0, newestGeneration := 0, newestSequence := 0, lastPublish := 0)
  }
}
