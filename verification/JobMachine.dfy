/** The cooperative job as a state machine whose backend may answer anything. */
module JobMachine {
  import opened Machine
  import opened StateCapsule

  datatype BackendStep = InProgress | Done | Broken | Unknown

  datatype BackendAdvance = BackendAdvance(step: BackendStep, completed: nat)

  datatype Job = Job(desc: JobDescriptor, state: U16, completed: U64)

  datatype ErrorCode = InvalidState | InvalidBudget | CallbackFailed | CallbackContract | CapsuleInvalid
                     | CapsuleIncompatible | BufferSmall

  datatype Outcome = Progress(state: U16, completed: U64, remaining: U64) | Error(code: ErrorCode)

  predicate Terminal(state: U16)
  {
    state == COMPLETE || state == CANCELLED || state == FAILED
  }

  function Meta(j: Job): Metadata
  {
    Metadata(j.desc, j.state, j.completed)
  }

  /** What holds of every reachable job; a capsule of it is always valid. */
  predicate JobOk(j: Job)
  {
    ValidProgress(Meta(j))
  }

  function Remaining(j: Job): nat
    requires JobOk(j)
  {
    j.desc.total - j.completed
  }

  function Report(j: Job): Outcome
    requires JobOk(j)
  {
    Progress(j.state, j.completed, Remaining(j))
  }

  // ---- operations -------------------------------------------------------------------------

  function Started(j: Job, began: bool): (Job, Outcome)
    requires JobOk(j)
  {
    if j.state != READY then (j, Error(InvalidState))
    else if !began then (j.(state := FAILED), Error(CallbackFailed))
    else (j.(state := RUNNING), Report(j.(state := RUNNING)))
  }

  /** Whether `advance` reaches the backend. */
  predicate Calls(j: Job, budget: nat, cancelBefore: U64)
  {
    j.state == RUNNING && cancelBefore <= j.desc.generation && budget != 0
  }

  function CallbackBudget(j: Job, budget: nat): nat
    requires JobOk(j)
  {
    if budget < Remaining(j) then budget else Remaining(j)
  }

  function Cancelled(j: Job, generation: U64): Job
  {
    if !Terminal(j.state) && generation > j.desc.generation then j.(state := CANCELLED) else j
  }

  /** What the answer of the backend makes of a running job. */
  function Settled(j: Job, callbackBudget: nat, a: BackendAdvance): (r: (Job, Outcome))
    requires JobOk(j) && j.state == RUNNING
  {
    if a.step == Unknown then (j.(state := FAILED), Error(CallbackContract))
    else if a.step == Broken then (j.(state := FAILED), Error(CallbackFailed))
    else if a.completed == 0 || a.completed > callbackBudget || a.completed > Remaining(j) then
      (j.(state := FAILED), Error(CallbackContract))
    else
      var done := j.completed + a.completed;
      if (a.step == Done) != (done == j.desc.total) then
        (j.(state := FAILED, completed := done), Error(CallbackContract))
      else
        var next := j.(state := if done == j.desc.total then COMPLETE else RUNNING, completed := done);
        (next, Report(next))
  }

  function Advanced(j: Job, budget: nat, cancelBefore: U64, callback: nat -> BackendAdvance): (r: (Job, Outcome))
    requires JobOk(j)
  {
    if Terminal(j.state) then (j, Report(j))
    else if j.state != RUNNING then (j, Error(InvalidState))
    else if cancelBefore > j.desc.generation then (Cancelled(j, cancelBefore), Report(Cancelled(j, cancelBefore)))
    else if budget == 0 then (j, Error(InvalidBudget))
    else Settled(j, CallbackBudget(j, budget), callback(CallbackBudget(j, budget)))
  }

  /** The fields a capsule is compared on. */
  predicate SameDescriptor(a: JobDescriptor, b: JobDescriptor)
  {
    a.(reserved := 0) == b.(reserved := 0)
  }

  /** A fresh job takes over the state of a capsule that was read and loaded. */
  function Restored(j: Job, capsule: Option<Metadata>, loaded: bool): (Job, Outcome)
    requires JobOk(j) && (capsule.Some? ==> ValidProgress(capsule.value))
  {
    if j.state != READY then (j, Error(InvalidState))
    else if capsule.None? || capsule.value.state == READY then (j, Error(CapsuleInvalid))
    else if !SameDescriptor(j.desc, capsule.value.desc) then (j, Error(CapsuleIncompatible))
    else if !loaded then (j, Error(CallbackFailed))
    else
      var next := j.(state := capsule.value.state, completed := capsule.value.completed);
      (next, Report(next))
  }

  // ---- runs -------------------------------------------------------------------------------

  datatype Event =
    | Begin(began: bool)
    | Drive(budget: nat, cancelBefore: U64, callback: nat -> BackendAdvance)
    | Cancel(generation: U64)
    | Restore(capsule: Option<Metadata>, loaded: bool)

  predicate Possible(e: Event)
  {
    e.Restore? && e.capsule.Some? ==> ValidProgress(e.capsule.value)
  }

  function Applied(j: Job, e: Event): Job
    requires JobOk(j) && Possible(e)
  {
    match e
    case Begin(began) => Started(j, began).0
    case Drive(budget, cancelBefore, callback) => Advanced(j, budget, cancelBefore, callback).0
    case Cancel(generation) => Cancelled(j, generation)
    case Restore(capsule, loaded) => Restored(j, capsule, loaded).0
  }

  lemma AppliedOk(j: Job, e: Event)
    requires JobOk(j) && Possible(e)
    ensures JobOk(Applied(j, e)) && Applied(j, e).desc == j.desc
    ensures j.completed <= Applied(j, e).completed
    ensures Terminal(j.state) ==> Applied(j, e) == j
  {
    assert ValidDescriptor(j.desc);
  }

  function Run(j: Job, events: seq<Event>): (r: Job)
    requires JobOk(j) && forall i :: 0 <= i < |events| ==> Possible(events[i])
    ensures JobOk(r)
    decreases |events|
  {
    if events == [] then j
    else
      AppliedOk(j, events[0]);
      Run(Applied(j, events[0]), events[1..])
  }

  /** In every run with any backend: counts add up, progress never goes back, ends are final. */
  lemma {:induction false} RunSafe(j: Job, events: seq<Event>)
    requires JobOk(j) && forall i :: 0 <= i < |events| ==> Possible(events[i])
    ensures var r := Run(j, events);
            && r.desc == j.desc && j.completed <= r.completed && r.completed + Remaining(r) == j.desc.total
            && (r.state == COMPLETE ==> Remaining(r) == 0) && (r.state == RUNNING ==> Remaining(r) > 0)
            && (Terminal(j.state) ==> r == j)
    decreases |events|
  {
    if events != [] {
      AppliedOk(j, events[0]);
      RunSafe(Applied(j, events[0]), events[1..]);
    }
  }

  /** The backend is asked only while running, for at least one unit and no more than remain. */
  lemma BackendBudget(j: Job, budget: nat, cancelBefore: U64, f: nat -> BackendAdvance, g: nat -> BackendAdvance)
    requires JobOk(j)
    ensures Calls(j, budget, cancelBefore) ==> 1 <= CallbackBudget(j, budget) <= Remaining(j)
    ensures f(CallbackBudget(j, budget)) == g(CallbackBudget(j, budget)) || !Calls(j, budget, cancelBefore)
            ==> Advanced(j, budget, cancelBefore, f) == Advanced(j, budget, cancelBefore, g)
  {
  }

  /** Exactly the jobs that are ready or running are cancelled, by a later generation; nothing else of a job changes. */
  lemma CancelsExactly(j: Job, generation: U64)
    ensures var r := Cancelled(j, generation);
            && r.desc == j.desc && r.completed == j.completed
            && r.state == if j.state !in {COMPLETE, CANCELLED, FAILED} && generation > j.desc.generation then CANCELLED else j.state
  {
  }

  /** The answer keeps the backend's contract for a running job: a fair amount of work, and done exactly at the end. */
  predicate Honest(j: Job, budget: nat, a: BackendAdvance)
  {
    && (a.step == InProgress || a.step == Done) && 1 <= a.completed <= budget && j.completed + a.completed <= j.desc.total
    && (a.step == Done <==> j.completed + a.completed == j.desc.total)
  }

  /** What a call to `advance` makes of every job: only an honest answer to a running job makes progress. */
  lemma AdvanceOutcome(j: Job, budget: nat, cancelBefore: U64, f: nat -> BackendAdvance)
    requires JobOk(j)
    ensures var (r, out) := Advanced(j, budget, cancelBefore, f);
            var a := f(if budget < j.desc.total - j.completed then budget else j.desc.total - j.completed);
            && r.desc == j.desc && j.completed <= r.completed <= j.desc.total
            && (j.state == READY ==> r == j && out == Error(InvalidState))
            && (j.state !in {READY, RUNNING} ==> r == j && out == Progress(j.state, j.completed, j.desc.total - j.completed))
            && (j.state == RUNNING && cancelBefore > j.desc.generation ==>
                  r == j.(state := CANCELLED) && out == Progress(CANCELLED, j.completed, j.desc.total - j.completed))
            && (j.state == RUNNING && cancelBefore <= j.desc.generation && budget == 0 ==> r == j && out == Error(InvalidBudget))
            && (j.state == RUNNING && cancelBefore <= j.desc.generation && budget > 0 ==>
                  if Honest(j, budget, a)
                  then && r.completed == j.completed + a.completed
                       && r.state == (if r.completed == j.desc.total then COMPLETE else RUNNING)
                       && out == Progress(r.state, r.completed, j.desc.total - r.completed)
                  else r.state == FAILED && out == Error(if a.step == Broken then CallbackFailed else CallbackContract))
  {
  }

  // ---- liveness ---------------------------------------------------------------------------

  /** A backend answer that keeps the contract. */
  predicate Keeps(j: Job, budget: nat, a: BackendAdvance)
    requires JobOk(j)
  {
    && 1 <= a.completed <= CallbackBudget(j, budget)
    && a.step == if a.completed == Remaining(j) then Done else InProgress
  }

  /** Every event asks for work and is answered according to the contract. */
  predicate Cooperative(j: Job, events: seq<Event>)
    requires JobOk(j)
    decreases |events|
  {
    events == [] || (
      && events[0].Drive? && events[0].budget > 0 && events[0].cancelBefore <= j.desc.generation
      && (j.state == RUNNING ==> Keeps(j, events[0].budget, events[0].callback(CallbackBudget(j, events[0].budget))))
      && (AppliedOk(j, events[0]); Cooperative(Applied(j, events[0]), events[1..])))
  }

  lemma {:induction false} CooperativePossible(j: Job, events: seq<Event>)
    requires JobOk(j) && Cooperative(j, events)
    ensures forall i :: 0 <= i < |events| ==> Possible(events[i])
    decreases |events|
  {
    if events != [] {
      AppliedOk(j, events[0]);
      CooperativePossible(Applied(j, events[0]), events[1..]);
    }
  }

  lemma CooperativeStep(j: Job, e: Event)
    requires JobOk(j) && j.state == RUNNING && e.Drive? && e.budget > 0 && e.cancelBefore <= j.desc.generation
    requires Keeps(j, e.budget, e.callback(CallbackBudget(j, e.budget)))
    ensures var r := Applied(j, e);
            && JobOk(r) && Remaining(r) < Remaining(j) && r.desc == j.desc
            && r.state == if Remaining(r) == 0 then COMPLETE else RUNNING
  {
    AppliedOk(j, e);
  }

  /** With a backend that keeps its contract, `remaining` calls complete the job. */
  lemma {:induction false} CompletesInTime(j: Job, events: seq<Event>)
    requires JobOk(j) && (j.state == RUNNING || j.state == COMPLETE) && Cooperative(j, events)
    requires |events| >= Remaining(j)
    ensures (forall i :: 0 <= i < |events| ==> Possible(events[i])) && Run(j, events).state == COMPLETE
    decreases |events|
  {
    CooperativePossible(j, events);
    if j.state == COMPLETE {
      RunSafe(j, events);
    } else {
      CooperativeStep(j, events[0]);
      CompletesInTime(Applied(j, events[0]), events[1..]);
    }
  }
}
