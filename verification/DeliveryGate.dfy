/** The gate as the controller holds it: fixed buffers updated in place, refining the specification. */
module DeliveryGate {
  import opened Machine
  import opened ActionGate
  import Bits
  import GateRuns

  datatype CreateError = InvalidModel | InvalidConfig | InvalidOverlap | LimitShapeMismatch | InvalidLimit

  datatype Model = Model(structSize: U32, version: U32, actionDim: U64, digest: seq<nat>)

  datatype Limits = Limits(lower: seq<Float>, upper: seq<Float>, maxDelta: seq<Float>)

  datatype Created = Made(gate: ActionDeliveryGate) | Failed(error: CreateError)

  const METADATA_BYTES: nat := 96
  const PROTOCOL_VERSION: nat := 1

  predicate ValidModel(m: Model)
  {
    m.structSize >= METADATA_BYTES && m.version == PROTOCOL_VERSION && 0 < m.actionDim <= MAX_DIM
  }

  predicate ValidConfig(m: Model, c: Config)
  {
    0 < c.controlDim <= MAX_DIM && m.actionDim % c.controlDim == 0 && c.period != 0
  }

  predicate LimitsFit(l: Limits, c: Config)
  {
    |l.lower| == |l.upper| == |l.maxDelta| == c.controlDim
  }

  predicate LimitsOk(l: Limits, c: Config)
  {
    && LimitsFit(l, c) && AllFinite(l.lower) && AllFinite(l.upper) && AllFinite(l.maxDelta)
    && forall i :: 0 <= i < c.controlDim ==> l.lower[i].value <= l.upper[i].value && l.maxDelta[i].value >= 0.0
  }

  predicate Acceptable(m: Model, c: Config, l: Limits)
  {
    ValidModel(m) && ValidConfig(m, c) && c.overlapSteps <= m.actionDim / c.controlDim && LimitsOk(l, c)
  }

  /** The error reported is that of the first check that fails. */
  predicate Explains(e: CreateError, m: Model, c: Config, l: Limits)
  {
    match e
    case InvalidModel => !ValidModel(m)
    case InvalidConfig => ValidModel(m) && !ValidConfig(m, c)
    case InvalidOverlap => ValidModel(m) && ValidConfig(m, c) && c.overlapSteps > m.actionDim / c.controlDim
    case LimitShapeMismatch =>
      && ValidModel(m) && ValidConfig(m, c) && c.overlapSteps <= m.actionDim / c.controlDim && !LimitsFit(l, c)
    case InvalidLimit =>
      && ValidModel(m) && ValidConfig(m, c) && c.overlapSteps <= m.actionDim / c.controlDim
      && LimitsFit(l, c) && !LimitsOk(l, c)
  }

  /** Steps fit an action exactly when their cells do. */
  lemma WholeSteps(cells: nat, width: nat, steps: nat)
    requires width > 0
    ensures steps <= cells / width <==> steps * width <= cells
  {
    var q := cells / width;
    assert cells == width * q + cells % width;
    assert width * (q - steps) == width * q - steps * width;
    Bits.MultipleGap(width, q - steps);
  }

  /** Copies `n` cells; nothing else changes. */
  method CopyBlock(src: array<real>, from: nat, dst: array<real>, to: nat, n: nat)
    requires src != dst && from + n <= src.Length && to + n <= dst.Length
    modifies dst
    ensures forall i :: to <= i < to + n ==> dst[i] == src[from + (i - to)]
    ensures forall i :: 0 <= i < dst.Length && !(to <= i < to + n) ==> dst[i] == old(dst[i])
  {
    var i := 0;
    while i < n
      invariant 0 <= i <= n
      invariant forall j :: to <= j < to + i ==> dst[j] == src[from + (j - to)]
      invariant forall j :: 0 <= j < dst.Length && !(to <= j < to + i) ==> dst[j] == old(dst[j])
    {
      dst[to + i] := src[from + i];
      i := i + 1;
    }
  }

  /** The nested copy: `n` blocks of `cd` cells from `source` on, to the front of `dst`. */
  method CopyRows(src: array<real>, source: nat, dst: array<real>, n: nat, cd: nat, ghost cells: nat)
    requires src != dst && src.Length == dst.Length && cells == Cells(n, cd) && source + cells <= src.Length
    modifies dst
    ensures forall i :: 0 <= i < cells ==> dst[i] == src[source + i]
    ensures forall i :: cells <= i < dst.Length ==> dst[i] == old(dst[i])
  {
    var step, destination := 0, 0;
    while step < n
      invariant 0 <= step <= n && destination == Cells(step, cd) <= cells
      invariant forall i :: 0 <= i < destination ==> dst[i] == src[source + i]
      invariant forall i :: destination <= i < dst.Length ==> dst[i] == old(dst[i])
    {
      CellsGrow(step, n, cd);
      CopyBlock(src, source + destination, dst, destination, cd);
      step, destination := step + 1, destination + cd;
    }
  }

  lemma {:induction false} CellsGrow(step: nat, n: nat, cd: nat)
    requires step < n
    ensures Cells(step, cd) + cd == Cells(step + 1, cd) <= Cells(n, cd)
    decreases n
  {
    if step + 1 < n { CellsGrow(step, n - 1, cd); }
  }

  /** Cells in `n` blocks. */
  function Cells(n: nat, cd: nat): nat
  {
    if n == 0 then 0 else Cells(n - 1, cd) + cd
  }

  lemma {:induction false} CellsProduct(n: nat, cd: nat)
    ensures Cells(n, cd) == n * cd
  {
    if n > 0 { CellsProduct(n - 1, cd); }
  }

  method CopyBlocks(src: array<real>, start: nat, dst: array<real>, n: nat, cd: nat)
    requires src != dst && (start + n) * cd <= src.Length == dst.Length
    modifies dst
    ensures 0 <= start * cd && start * cd + n * cd == (start + n) * cd
    ensures dst[..] == src[start * cd..start * cd + n * cd] + old(dst[n * cd..])
  {
    CellsProduct(n, cd);
    Distribute(start, n, cd);
    ghost var k, m := start * cd, n * cd;
    CopyRows(src, start * cd, dst, n, cd, m);
    assert dst[..] == src[k..k + m] + old(dst[m..]);
  }

  lemma Distribute(a: nat, b: nat, c: nat)
    ensures a * c + b * c == (a + b) * c && a * c >= 0
  {
  }

  lemma ValuesBound(steps: nat, cd: nat, limit: nat)
    requires cd > 0 && steps <= limit / cd
    ensures cd * steps <= limit
  {
    assert cd * steps <= cd * (limit / cd);
  }

  class ActionDeliveryGate {
    const config: Config
    const digest: seq<nat>
    const actionValues: nat
    const lower: array<real>
    const upper: array<real>
    const maxDelta: array<real>
    const active: array<real>
    const overlap: array<real>
    const output: array<real>
    const pending: array<real>
    var chunk: Descriptor
    var counters: Counters
    var nextStep: nat
    var overlapSteps: nat
    var session: U64
    var newestGeneration: U64
    var newestSequence: U64
    var lastPublish: U64
    var isActive: bool
    var bound: bool
    var hasOutput: bool

    ghost predicate Buffers()
    {
      && lower.Length == upper.Length == maxDelta.Length == MAX_DIM
      && active.Length == overlap.Length == output.Length == pending.Length == MAX_DIM
      && active != overlap && active != output && active != pending && overlap != output && overlap != pending
      && output != pending
      && lower != upper && lower != maxDelta && upper != maxDelta
      && lower !in {active, overlap, output, pending} && upper !in {active, overlap, output, pending}
      && maxDelta !in {active, overlap, output, pending}
      && 0 < config.controlDim <= MAX_DIM
    }

    ghost function Limit(): Setup
      requires Buffers()
      reads lower, upper, maxDelta
    {
      Setup(config, digest, actionValues,
            lower[..config.controlDim], upper[..config.controlDim], maxDelta[..config.controlDim])
    }

    /** The gate's value; the scalar fields alone, with given buffers. */
    ghost function With(front: seq<real>, kept: seq<real>, last: seq<real>): Gate
      reads this
    {
      Gate(front, kept, last, chunk, counters, nextStep, overlapSteps, session,
           newestGeneration, newestSequence, lastPublish, isActive, bound, hasOutput)
    }

    ghost function View(): Gate
      reads this, active, overlap, output
    {
      With(active[..], overlap[..], output[..])
    }

    ghost predicate Valid()
      reads this, lower, upper, maxDelta, active, overlap, output
    {
      Buffers() && ValidSetup(Limit()) && GateOk(Limit(), View())
    }

    ghost predicate Ready()
      reads lower, upper, maxDelta
    {
      Buffers() && ValidSetup(Limit())
    }

    constructor (m: Model, c: Config)
      requires 0 < c.controlDim <= MAX_DIM
      ensures Buffers() && config == c && digest == m.digest && actionValues == m.actionDim
      ensures View() == GateRuns.Fresh()
      ensures fresh(lower) && fresh(upper) && fresh(maxDelta)
      ensures fresh(active) && fresh(overlap) && fresh(output) && fresh(pending)
    {
      config, digest, actionValues := c, m.digest, m.actionDim;
      lower := new real[MAX_DIM](_ => 0.0);
      upper := new real[MAX_DIM](_ => 0.0);
      maxDelta := new real[MAX_DIM](_ => 0.0);
      active := new real[MAX_DIM](_ => 0.0);
      overlap := new real[MAX_DIM](_ => 0.0);
      output := new real[MAX_DIM](_ => 0.0);
      pending := new real[MAX_DIM](_ => 0.0);
      chunk := Descriptor(0, 0, 0, 0, [], 0, 0, 0, 0, 0, 0, 0, 0);
      counters := Counters(0, 0, 0, 0, 0, 0, 0, 0, 0, 0, 0);
      nextStep, overlapSteps, session, newestGeneration, newestSequence, lastPublish := 0, 0, 0, 0, 0, 0;
      isActive, bound, hasOutput := false, false, false;
    }

    /** Copies the limits, component by component, stopping at the first bad one. */
    method SetLimits(l: Limits) returns (ok: bool)
      requires Buffers() && LimitsFit(l, config)
      modifies lower, upper, maxDelta
      ensures ok <==> LimitsOk(l, config)
      ensures ok ==> lower[..config.controlDim] == Reals(l.lower) && upper[..config.controlDim] == Reals(l.upper)
                     && maxDelta[..config.controlDim] == Reals(l.maxDelta)
    {
      var i := 0;
      while i < config.controlDim
        invariant 0 <= i <= config.controlDim
        invariant forall j :: 0 <= j < i ==> l.lower[j].Finite? && lower[j] == l.lower[j].value
        invariant forall j :: 0 <= j < i ==> l.upper[j].Finite? && upper[j] == l.upper[j].value
        invariant forall j :: 0 <= j < i ==> l.maxDelta[j].Finite? && maxDelta[j] == l.maxDelta[j].value
        invariant forall j :: 0 <= j < i ==> l.lower[j].value <= l.upper[j].value && l.maxDelta[j].value >= 0.0
      {
        var lo, hi, delta := l.lower[i], l.upper[i], l.maxDelta[i];
        if !lo.Finite? || !hi.Finite? || !delta.Finite? || lo.value > hi.value || delta.value < 0.0 {
          return false;
        }
        lower[i], upper[i], maxDelta[i] := lo.value, hi.value, delta.value;
        i := i + 1;
      }
      ok := true;
    }

    /** A gate exists exactly for acceptable arguments; otherwise the first failing check is named. */
    static method Create(m: Model, c: Config, l: Limits) returns (r: Created)
      ensures r.Made? <==> && m.structSize >= 96 && m.version == 1 && 0 < m.actionDim <= 1024
                           && 0 < c.controlDim <= 1024 && m.actionDim % c.controlDim == 0 && c.period != 0
                           && c.overlapSteps * c.controlDim <= m.actionDim && LimitsOk(l, c)
      ensures r.Failed? ==> Explains(r.error, m, c, l)
      ensures r.Made? ==>
                && r.gate.Valid() && fresh(r.gate) && r.gate.View() == GateRuns.Fresh()
                && LimitsOk(l, c)
                && r.gate.Limit() == Setup(c, m.digest, m.actionDim, Reals(l.lower), Reals(l.upper), Reals(l.maxDelta))
    {
      if m.structSize < 96 || m.version != 1 || m.actionDim == 0 || m.actionDim > 1024 { return Failed(InvalidModel); }
      if c.controlDim != 0 { WholeSteps(m.actionDim, c.controlDim, c.overlapSteps); }
      if c.controlDim == 0 || c.controlDim > MAX_DIM || m.actionDim % c.controlDim != 0 || c.period == 0 {
        return Failed(InvalidConfig);
      }
      var steps := m.actionDim / c.controlDim;
      if c.overlapSteps > steps { return Failed(InvalidOverlap); }
      if |l.lower| != c.controlDim || |l.upper| != c.controlDim || |l.maxDelta| != c.controlDim {
        return Failed(LimitShapeMismatch);
      }
      var gate := new ActionDeliveryGate(m, c);
      var ok := gate.SetLimits(l);
      if !ok { return Failed(InvalidLimit); }
      r := Made(gate);
    }

    method WithinLimits(values: seq<Float>) returns (ok: bool)
      requires Valid() && AllFinite(values)
      ensures ok <==> WithinAbsolute(Limit(), Reals(values))
    {
      ghost var reals := Reals(values);
      var i := 0;
      while i < |values|
        invariant 0 <= i <= |values|
        invariant forall j :: 0 <= j < i ==> InLimits(Limit(), j % config.controlDim, reals[j])
      {
        var c := i % config.controlDim;
        assert reals[i] == values[i].value && Limit().lower[c] == lower[c] && Limit().upper[c] == upper[c];
        if values[i].value < lower[c] || values[i].value > upper[c] {
          assert !InLimits(Limit(), i % config.controlDim, reals[i]);
          return false;
        }
        i := i + 1;
      }
      ok := true;
    }

    method Finite(values: seq<Float>) returns (ok: bool)
      ensures ok <==> AllFinite(values)
    {
      var i := 0;
      while i < |values|
        invariant 0 <= i <= |values|
        invariant forall j :: 0 <= j < i ==> values[j].Finite?
      {
        if !values[i].Finite? { return false; }
        i := i + 1;
      }
      ok := true;
    }

    /** The header checks; the end of the chunk is computed without overflow. */
    method HeaderFits(c: Chunk, now: U64) returns (ok: bool)
      requires config.period > 0
      requires Buffers()
      ensures ok <==> ShapeOk(Limit(), c.desc) && HeaderOk(Limit(), c, now)
    {
      var d := c.desc;
      if d.controlDim == 0 || d.stepCount == 0 || d.stepCount > MAX_DIM / d.controlDim
         || d.stepCount > (U64_MAX - d.validFrom) / config.period {
        return false;
      }
      ValuesBound(d.stepCount, config.period, U64_MAX - d.validFrom);
      var values := d.controlDim * d.stepCount;
      var validUntil: U64 := d.validFrom + d.stepCount * config.period;
      ok := !(d.structSize != DESCRIPTOR_BYTES || d.version != CHUNK_VERSION || d.controlDim != config.controlDim
              || values != actionValues || |c.values| != values || d.digest != digest || d.produced > now
              || (d.timestamp != 0 && d.produced < d.timestamp) || d.validFrom >= d.validUntil
              || d.validUntil != validUntil || (config.maxAge != 0 && d.timestamp == 0));
    }

    method Judge(c: Chunk, now: U64) returns (r: AcceptResult)
      requires Valid()
      ensures r == Verdict(Limit(), View(), c, now)
    {
      var d := c.desc;
      var ok := HeaderFits(c, now);
      if !ok { return Invalid; }
      ok := Finite(c.values);
      if !ok { return Unsafe; }
      if (d.timestamp != 0 && now < d.timestamp) || (d.deadline != 0 && d.deadline < d.timestamp) {
        return Invalid;
      }
      var tooOld := config.maxAge != 0 && d.timestamp != 0 && now - d.timestamp > config.maxAge;
      if now >= d.validUntil || tooOld || (d.deadline != 0 && now > d.deadline) { return Expired; }
      if config.policy.Reject? {
        ok := WithinLimits(c.values);
        if !ok { return Unsafe; }
      }
      if bound && d.session != session { return SessionMismatch; }
      if bound && (d.generation <= newestGeneration || d.sequence <= newestSequence) { return Stale; }
      r := if isActive then Replaced else Accepted;
    }

    /** Keeps the tail of the active chunk that the replacement overlaps. */
    method CaptureOverlap(d: Descriptor)
      requires Valid()
      modifies this`overlapSteps, overlap
      ensures overlapSteps == OverlapLength(Limit(), old(View()), d)
      ensures |Captured(Limit(), old(View()), d)| <= MAX_DIM
      ensures overlap[..] == Overwrite(old(overlap[..]), Captured(Limit(), old(View()), d))
    {
      CapturedSize(Limit(), View(), d);
      overlapSteps := 0;
      if !isActive || config.overlapSteps == 0 || d.validFrom < chunk.validFrom { return; }
      var elapsed := d.validFrom - chunk.validFrom;
      var timed := elapsed / config.period;
      var from := if timed < nextStep then nextStep else timed;
      if from >= chunk.stepCount { return; }
      overlapSteps := config.overlapSteps;
      if chunk.stepCount - from < overlapSteps { overlapSteps := chunk.stepCount - from; }
      if d.stepCount < overlapSteps { overlapSteps := d.stepCount; }
      BlockIn(from, overlapSteps, chunk.stepCount, config.controlDim);
      CopyBlocks(active, from, overlap, overlapSteps, config.controlDim);
    }

    method StoreChunk(values: seq<Float>)
      requires active.Length == MAX_DIM && |values| <= MAX_DIM && AllFinite(values)
      modifies active
      ensures active[..] == Overwrite(old(active[..]), Reals(values))
    {
      var i := 0;
      while i < |values|
        invariant 0 <= i <= |values|
        invariant forall j :: 0 <= j < i ==> active[j] == values[j].value
        invariant forall j :: i <= j < MAX_DIM ==> active[j] == old(active[j])
      {
        active[i] := values[i].value;
        i := i + 1;
      }
    }

    /** Makes the chunk the active one. */
    method TakeOver(c: Chunk, k: Counters)
      requires Valid() && AllFinite(c.values) && |c.values| <= MAX_DIM
      modifies this, active, overlap
      ensures View() == Taken(Limit(), old(View()), c.desc, Reals(c.values), k)
    {
      CaptureOverlap(c.desc);
      StoreChunk(c.values);
      chunk, nextStep := c.desc, 0;
      session, newestGeneration, newestSequence := chunk.session, chunk.generation, chunk.sequence;
      isActive, bound, counters := true, true, k;
    }

    /** Takes over a chunk that is newer and safe, or counts why not and changes nothing else. */
    method Accept(c: Chunk, now: U64) returns (r: AcceptResult)
      requires Valid()
      modifies this, active, overlap
      ensures Valid() && Limit() == old(Limit())
      ensures r == Verdict(Limit(), old(View()), c, now)
      ensures View() == Accepting(Limit(), old(View()), c, now)
    {
      ghost var u, g := Limit(), View();
      r := Judge(c, now);
      if r.Accepted? || r.Replaced? {
        GateRuns.TakenGateOk(u, g, c, now);
        var k := counters.(accepted := counters.accepted + 1);
        if isActive { k := k.(replaced := k.replaced + 1); }
        TakeOver(c, k);
      } else {
        Reject(r);
      }
    }

    /** Counts a chunk that is turned down. */
    method Reject(r: AcceptResult)
      requires !r.Accepted? && !r.Replaced?
      modifies this`counters
      ensures counters == Count(old(counters), r)
    {
      match r
      case Invalid => counters := counters.(invalid := counters.invalid + 1);
      case Stale => counters := counters.(stale := counters.stale + 1);
      case Expired => counters := counters.(expired := counters.expired + 1);
      case SessionMismatch => counters := counters.(session := counters.session + 1);
      case Unsafe => counters := counters.(unsafe := counters.unsafe + 1);
    }

    /** Step `step` of `n` overlapped ones lies that far on the way from the old value to the new one. */
    static method Blend(a: real, b: real, step: nat, n: nat) returns (v: real)
      ensures v == Lerp(a, b, BlendWeight(step, n))
    {
      var blend := (step + 1) as real / (n + 1) as real;
      v := a + blend * (b - a);
    }

    /** One component: what is asked for, what is safe, and whether they agree with both limits. */
    method Component(now: U64, step: nat, elapsed: nat, c: nat, ghost u: Setup, ghost g: Gate)
      returns (candidate: real, safe: real, ok: bool)
      requires Ready() && u == Limit() && g == View() && step < Steps(u) && c < config.controlDim
      requires elapsed == ElapsedSteps(u, g, now)
      ensures candidate == Candidate(u, g, step, c) && safe == Safe(u, g, now, step, c)
      ensures ok <==> Passes(u, g, now, step, c)
    {
      var offset := step * config.controlDim;
      CellIn(u, g, step, c);
      candidate := active[offset + c];
      if step < overlapSteps { candidate := Blend(overlap[offset + c], candidate, step, overlapSteps); }
      var allowed := maxDelta[c] * elapsed as real;
      assert allowed == Allowed(u, g, now, c);
      safe, ok := SafeValue(candidate, lower[c], upper[c], output[c], allowed);
    }

    /** The component loop of `Next`: the safe row, or a refusal under the reject policy. */
    method Components(now: U64, step: nat, elapsed: nat, ghost u: Setup, ghost g: Gate)
      returns (refused: bool, clamped: nat)
      requires Ready() && u == Limit() && g == View() && step < Steps(u)
      requires elapsed == ElapsedSteps(u, g, now)
      modifies pending
      ensures refused <==> Refused(u, g, now, step)
      ensures !refused ==> pending[..config.controlDim] == SafeRow(u, g, now, step)
      ensures !refused ==> clamped == ClampedCount(u, g, now, step, config.controlDim)
    {
      refused, clamped := false, 0;
      var c := 0;
      while c < config.controlDim
        invariant 0 <= c <= config.controlDim
        invariant config.policy.Reject? ==> forall j :: 0 <= j < c ==> Passes(u, g, now, step, j)
        invariant forall j :: 0 <= j < c ==> pending[j] == Safe(u, g, now, step, j)
        invariant clamped == ClampedCount(u, g, now, step, c)
      {
        var candidate, safe, ok := Component(now, step, elapsed, c, u, g);
        if config.policy.Reject? && !ok {
          refused := true;
          return;
        }
        pending[c] := safe;
        if safe != candidate { clamped := clamped + 1; }
        c := c + 1;
      }
    }

    method SafeValue(candidate: real, lo: real, hi: real, last: real, allowed: real) returns (safe: real, ok: bool)
      ensures safe == SafeOf(candidate, lo, hi, hasOutput, last, allowed)
      ensures ok <==> lo <= candidate <= hi && (!hasOutput || Abs(candidate - last) <= allowed)
    {
      var absoluteSafe := candidate >= lo && candidate <= hi;
      var delta := candidate - last;
      var deltaSafe := !hasOutput || (if delta < 0.0 then -delta else delta) <= allowed;
      ok := absoluteSafe && deltaSafe;
      safe := if candidate < lo then lo else if hi < candidate then hi else candidate;
      if hasOutput {
        safe := if safe < last - allowed then last - allowed else if last + allowed < safe then last + allowed else safe;
        safe := if safe < lo then lo else if hi < safe then hi else safe;
      }
    }

    /** Publishes the step due now, or says why there is none. */
    method Next(now: U64) returns (r: StepResult)
      requires Valid()
      modifies this, output, pending
      ensures Valid() && Limit() == old(Limit())
      ensures (View(), r) == Stepping(Limit(), old(View()), now)
    {
      if !isActive { return NoStep(Empty); }
      if hasOutput && now < lastPublish { return NoStep(InvalidTime); }
      if now < chunk.validFrom { return NoStep(NotReady); }
      if chunk.timestamp != 0 && now < chunk.timestamp { return NoStep(InvalidTime); }
      var tooOld := config.maxAge != 0 && chunk.timestamp != 0 && now - chunk.timestamp > config.maxAge;
      var step := (now - chunk.validFrom) / config.period;
      if now >= chunk.validUntil || tooOld || step >= chunk.stepCount {
        isActive := false;
        counters := counters.(expired := counters.expired + 1);
        return NoStep(StepExpired);
      }
      if step < nextStep { return NoStep(NotReady); }
      r := Publish(now, step);
    }

    /** The bookkeeping of a published step. */
    method Advance(now: U64, step: nat, clamped: nat, ghost k: Counters)
      requires isActive && step >= nextStep && k == counters.(skipped := counters.skipped + (step - nextStep))
      modifies this
      ensures nextStep == step + 1 && lastPublish == now && hasOutput && isActive == (step + 1 != chunk.stepCount)
      ensures counters == k.(clamped := k.clamped + clamped, published := k.published + 1,
                             blended := if step < overlapSteps then k.blended + 1 else k.blended)
      ensures unchanged(`chunk) && unchanged(`overlapSteps) && unchanged(`session) && unchanged(`bound)
      ensures unchanged(`newestGeneration) && unchanged(`newestSequence)
    {
      counters := counters.(skipped := counters.skipped + (step - nextStep));
      counters := counters.(clamped := counters.clamped + clamped);
      nextStep, lastPublish, hasOutput := step + 1, now, true;
      counters := counters.(published := counters.published + 1);
      if step < overlapSteps { counters := counters.(blended := counters.blended + 1); }
      if nextStep == chunk.stepCount { isActive := false; }
    }

    method Refuse(step: nat)
      requires step >= nextStep
      modifies this`isActive, this`counters
      ensures View() == old(View()).(isActive := false,
                                     counters := old(counters).(skipped := old(counters).skipped + (step - nextStep),
                                                                unsafe := old(counters).unsafe + 1))
    {
      counters := counters.(skipped := counters.skipped + (step - nextStep));
      isActive := false;
      counters := counters.(unsafe := counters.unsafe + 1);
    }

    method Elapsed(now: U64) returns (elapsed: nat)
      requires Ready()
      ensures elapsed == ElapsedSteps(Limit(), View(), now)
    {
      elapsed := 1;
      if hasOutput && now > lastPublish {
        var periods := (now - lastPublish) / config.period;
        elapsed := if periods > 1 then periods else 1;
      }
    }

    /** The pending row becomes the output. */
    method Commit(now: U64, step: nat, clamped: nat, ghost row: seq<real>) returns (r: StepResult)
      requires Buffers() && isActive && nextStep <= step && pending[..config.controlDim] == row
      modifies this, output
      ensures (View(), r)
           == PublishedRow(old(View()), now, step, row, clamped,
                           old(counters).(skipped := old(counters).skipped + (step - old(nextStep))))
    {
      ghost var k := counters.(skipped := counters.skipped + (step - nextStep));
      CopyBlock(pending, 0, output, 0, config.controlDim);
      assert forall i :: 0 <= i < config.controlDim ==> output[i] == pending[i];
      assert output[..config.controlDim] == row;
      assert output[..] == Overwrite(old(output[..]), row);
      Advance(now, step, clamped, k);
      r := Step(StepView(output[..config.controlDim], chunk.sequence, chunk.session, chunk.generation,
                         step, step < overlapSteps, clamped > 0));
    }

    /** Either drops the chunk or publishes the pending row. */
    method Settle(now: U64, step: nat, refused: bool, clamped: nat, ghost row: seq<real>, ghost k: Counters)
      returns (r: StepResult)
      requires Buffers() && isActive && nextStep <= step && (!refused ==> pending[..config.controlDim] == row)
      requires |row| == config.controlDim && k == counters.(skipped := counters.skipped + (step - nextStep))
      modifies this, output
      ensures (View(), r)
           == if refused
              then (old(View()).(isActive := false, counters := k.(unsafe := k.unsafe + 1)), NoStep(StepUnsafe))
              else PublishedRow(old(View()), now, step, row, clamped, k)
    {
      if refused {
        Refuse(step);
        r := NoStep(StepUnsafe);
      } else {
        r := Commit(now, step, clamped, row);
      }
    }

    /** Computes the row and either refuses or publishes it. */
    method Emit(now: U64, step: nat, ghost u: Setup, ghost g: Gate, ghost k: Counters) returns (r: StepResult)
      requires Ready() && u == Limit() && g == View() && isActive && nextStep <= step < Steps(u)
      requires k == counters.(skipped := counters.skipped + (step - nextStep))
      modifies this, output, pending
      ensures (View(), r)
           == if Refused(u, g, now, step)
              then (g.(isActive := false, counters := k.(unsafe := k.unsafe + 1)), NoStep(StepUnsafe))
              else PublishedRow(g, now, step, SafeRow(u, g, now, step),
                                ClampedCount(u, g, now, step, config.controlDim), k)
    {
      var elapsed := Elapsed(now);
      var refused, clamped := Components(now, step, elapsed, u, g);
      r := Settle(now, step, refused, clamped, SafeRow(u, g, now, step), k);
    }

    /** The part of `Next` after the checks. */
    method Publish(now: U64, step: nat) returns (r: StepResult)
      requires Valid() && Refusal(Limit(), View(), now).None? && step == DueStep(Limit(), View(), now)
      modifies this, output, pending
      ensures Valid() && Limit() == old(Limit())
      ensures (View(), r) == Stepping(Limit(), old(View()), now)
    {
      ghost var u, g := Limit(), View();
      GateRuns.SteppingDue(u, g, now);
      r := Emit(now, step, u, g, g.counters.(skipped := g.counters.skipped + (step - g.nextStep)));
    }

    method Forget()
      modifies this
      ensures !isActive && !bound && !hasOutput && nextStep == overlapSteps == 0
      ensures session == newestGeneration == newestSequence == lastPublish == 0
      ensures unchanged(`chunk) && unchanged(`counters)
    {
      isActive, bound, hasOutput := false, false, false;
      nextStep, overlapSteps, session := 0, 0, 0;
      newestGeneration, newestSequence, lastPublish := 0, 0, 0;
    }

    /** Forgets the session; counters and buffers stay. */
    method Reset()
      requires Valid()
      modifies this
      ensures Valid() && Limit() == old(Limit()) && View() == Resetting(old(View()))
    {
      Forget();
    }
  }
}
