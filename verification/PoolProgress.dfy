/**
What the pool does get done: which enqueues are accepted, and that waiting and joining can always end.
`ThreadPool` and `PoolTheorems` say what no run does wrong; here are the runs that go right.
 */
module PoolProgress {
  import opened Bits
  import opened Machine
  import opened ThreadPool
  import opened PoolInvariant
  import opened PoolWakeup
  import opened PoolTheorems

  // ---- runs, put together -----------------------------------------------------------------

  lemma {:induction false} ExecConcat<T>(s: State<T>, a: seq<Act<T>>, b: seq<Act<T>>)
    requires WellFormed(s)
    ensures Exec(s, a + b) == Exec(Exec(s, a), b)
    decreases |b|
  {
    if b == [] {
      assert a + b == a;
    } else {
      var m := |b| - 1;
      ExecConcat(s, a, b[..m]);
      assert (a + b)[..|a + b| - 1] == a + b[..m];
    }
  }

  lemma ExecOne<T>(s: State<T>, act: Act<T>)
    requires WellFormed(s)
    ensures Exec(s, [act]) == Step(s, act)
  {
    assert [act][..0] == [];
  }

  lemma ExecLast<T>(s: State<T>, acts: seq<Act<T>>, k: nat)
    requires WellFormed(s) && k < |acts|
    ensures Exec(s, acts[..k + 1]) == Step(Exec(s, acts[..k]), acts[k])
  {
    assert acts[..k + 1][..k] == acts[..k];
  }

  predicate WorkersOnly<T>(acts: seq<Act<T>>)
  {
    forall i :: 0 <= i < |acts| ==> acts[i].WorkerAct?
  }

  /** What steps of workers leave as it is, and what they only add to. */
  ghost predicate WorkedOn<T>(s: State<T>, r: State<T>)
  {
    && r.producer == s.producer && r.pushed == s.pushed && r.stop == s.stop && r.accepted == s.accepted
    && r.epoch == s.epoch && r.head == s.head && |r.workers| == |s.workers| && |r.slots| == |s.slots|
    && s.tail <= r.tail && s.done <= r.done
    && forall v :: 0 <= v < |s.workers| && s.workers[v].pc.Exited? ==> r.workers[v].pc.Exited?
  }

  lemma WorkerStepWorks<T>(s: State<T>, act: Act<T>)
    requires Inv(s) && act.WorkerAct?
    ensures Inv(Step(s, act)) && WorkedOn(s, Step(s, act))
  {
    StepInv(s, act);
    if act.w < |s.workers| { assert WorkerOk(s, act.w); }
  }

  lemma WorkedThrough<T>(a: State<T>, b: State<T>, c: State<T>)
    requires WorkedOn(a, b) && WorkedOn(b, c)
    ensures WorkedOn(a, c)
  {
  }

  /** Steps of workers alone lead from `s` to `r`. */
  ghost predicate Reaches<T>(s: State<T>, acts: seq<Act<T>>, r: State<T>)
    requires WellFormed(s)
  {
    WorkersOnly(acts) && r == Exec(s, acts) && Inv(r) && WorkedOn(s, r)
  }

  lemma ReachesNow<T>(s: State<T>)
    requires Inv(s)
    ensures Reaches(s, [], s)
  {
  }

  lemma ReachesStep<T>(s: State<T>, act: Act<T>)
    requires Inv(s) && act.WorkerAct?
    ensures Reaches(s, [act], Step(s, act))
  {
    WorkerStepWorks(s, act);
    ExecOne(s, act);
  }

  lemma ReachesOn<T>(s: State<T>, a: seq<Act<T>>, x: State<T>, b: seq<Act<T>>, r: State<T>)
    requires WellFormed(s) && Reaches(s, a, x) && Reaches(x, b, r)
    ensures Reaches(s, a + b, r)
  {
    ExecConcat(s, a, b);
    WorkedThrough(s, x, r);
  }

  lemma ReachesAfter<T>(s: State<T>, w: nat, x: State<T>, rest: seq<Act<T>>, r: State<T>)
    requires Inv(s) && x == Step(s, WorkerAct(w, false)) && Reaches(x, rest, r)
    ensures Reaches(s, [WorkerAct(w, false)] + rest, r)
  {
    ReachesStep(s, WorkerAct(w, false));
    ReachesOn(s, [WorkerAct(w, false)], x, rest, r);
  }

  // ---- enqueue ----------------------------------------------------------------------------

  /** The ring has room for one more: it was never full, or the slot to use has been released. */
  ghost predicate Room<T>(s: State<T>)
  {
    Basic(s) && (|s.pushed| < |s.slots| || Released(s, |s.pushed| - |s.slots|))
  }

  /** The producer's steps from the call of `enqueue(task)` until it is back, with any steps of workers between. */
  ghost predicate OneCall<T>(s: State<T>, acts: seq<Act<T>>, task: T)
    requires WellFormed(s)
  {
    && s.producer.Idle? && acts != [] && acts[0].ProducerAct? && acts[0].call == Enqueue(task)
    && (forall j :: 0 < j < |acts| ==> !Exec(s, acts[..j]).producer.Idle?)
    && Exec(s, acts).producer.Idle?
  }

  /** Before the stamp is looked at. */
  ghost predicate Asking<T>(s: State<T>, base: seq<T>, task: T)
  {
    s.pushed == base && match s.producer
                        case LoadHead(t) => t == task
                        case CheckFree(t, _) => t == task
                        case _ => false
  }

  /** On the way to an accepted task, or there. */
  ghost predicate Granted<T>(s: State<T>, base: seq<T>, task: T)
  {
    match s.producer
    case WriteSlot(t, _) => t == task && s.pushed == base
    case Publish(t, _) => t == task && s.pushed == base
    case AdvanceHead(_) => s.pushed == base + [task]
    case BumpEpoch => s.pushed == base + [task]
    case Notify => s.pushed == base + [task]
    case Idle => s.pushed == base + [task] && s.accepted
    case _ => false
  }

  /** On the way to a refusal, or there. */
  ghost predicate Denied<T>(s: State<T>, base: seq<T>)
  {
    s.pushed == base && (s.producer.Undo? || (s.producer.Idle? && !s.accepted))
  }

  ghost predicate AtCheck<T>(s: State<T>, base: seq<T>)
  {
    s.producer.CheckFree? && s.pushed == base
  }

  /** The producer looks at the stamp in this step, and finds room or not. */
  lemma CheckDecides<T>(s: State<T>, call: Call<T>, pick: nat, base: seq<T>, task: T)
    requires Inv(s) && Asking(s, base, task) && s.producer.CheckFree?
    ensures var r := ProducerStep(s, call, pick); if Room(s) then Granted(r, base, task) else Denied(r, base)
  {
    StampMeaning(s, 0);
  }

  /** Workers only make room. */
  lemma RoomAfterWorker<T>(s: State<T>, act: Act<T>)
    requires Inv(s) && Room(s) && act.WorkerAct?
    ensures Room(Step(s, act))
  {
    WorkerStepWorks(s, act);
    if act.w < |s.workers| { assert WorkerOk(s, act.w); }
  }

  /** The steps of the call before the check leave the ring alone. */
  lemma RoomAfterAsking<T>(s: State<T>, act: Act<T>)
    requires Inv(s) && Room(s) && act.ProducerAct? && (s.producer.LoadHead? || (s.producer.Idle? && act.call.Enqueue?))
    ensures Room(Step(s, act))
  {
    assert Step(s, act) == s.(producer := Step(s, act).producer, pending := Step(s, act).pending);
  }

  lemma StageKept<T>(s: State<T>, act: Act<T>, base: seq<T>, task: T)
    requires Inv(s) && !s.producer.Idle?
    ensures Asking(s, base, task) && (s.producer.LoadHead? || act.WorkerAct?) ==> Asking(Step(s, act), base, task)
    ensures Granted(s, base, task) ==> Granted(Step(s, act), base, task)
    ensures Denied(s, base) ==> Denied(Step(s, act), base)
  {
    if act.WorkerAct? { WorkerStepWorks(s, act); }
  }

  /** Where the call stands after `j` acts, and the act at which it was decided. */
  ghost predicate Stage<T>(s: State<T>, acts: seq<Act<T>>, task: T, j: nat, c: Option<nat>)
    requires WellFormed(s) && j <= |acts|
  {
    var x := Exec(s, acts[..j]);
    match c
    case None => Asking(x, s.pushed, task) && (Room(s) ==> Room(x))
    case Some(k) =>
      && k < j && acts[k].ProducerAct? && AtCheck(Exec(s, acts[..k]), s.pushed) && (Room(s) ==> Room(Exec(s, acts[..k])))
      && if Room(Exec(s, acts[..k])) then Granted(x, s.pushed, task) else Denied(x, s.pushed)
  }

  lemma {:induction false} StageAt<T>(s: State<T>, acts: seq<Act<T>>, task: T, j: nat) returns (c: Option<nat>)
    requires Inv(s) && s.producer.Idle? && 0 < j <= |acts| && acts[0].ProducerAct? && acts[0].call == Enqueue(task)
    requires forall i :: 0 < i < j ==> !Exec(s, acts[..i]).producer.Idle?
    ensures Stage(s, acts, task, j, c)
    decreases j
  {
    ExecLast(s, acts, j - 1);
    if j == 1 {
      assert acts[..0] == [];
      c := None;
      if Room(s) { RoomAfterAsking(s, acts[0]); }
      return;
    }
    c := StageAt(s, acts, task, j - 1);
    ExecInv(s, acts[..j - 1]);
    c := StageNext(s, acts, task, j - 1, c, Exec(s, acts[..j - 1]));
  }

  lemma StageNext<T>(s: State<T>, acts: seq<Act<T>>, task: T, j: nat, c: Option<nat>, x: State<T>) returns (d: Option<nat>)
    requires WellFormed(s) && j < |acts| && Stage(s, acts, task, j, c) && x == Exec(s, acts[..j])
    requires Inv(x) && !x.producer.Idle?
    ensures Stage(s, acts, task, j + 1, d)
  {
    ExecLast(s, acts, j);
    StageKept(x, acts[j], s.pushed, task);
    d := c;
    if Room(x) && acts[j].WorkerAct? { RoomAfterWorker(x, acts[j]); }
    if Room(x) && acts[j].ProducerAct? && x.producer.LoadHead? { RoomAfterAsking(x, acts[j]); }
    if c.None? && x.producer.CheckFree? && acts[j].ProducerAct? {
      CheckDecides(x, acts[j].call, acts[j].pick, s.pushed, task);
      d := Some(j);
    }
  }

  /**
  What `enqueue` answers: however the workers interleave with the call, the task is accepted and pushed
  exactly if the ring has room when the stamp is looked at, and otherwise nothing is pushed.
   */
  lemma EnqueueOutcome<T>(slots: seq<T>, nthreads: nat, before: seq<Act<T>>, acts: seq<Act<T>>, task: T) returns (k: nat)
    requires HasSingleBit(|slots|) && |slots| >= 2 && OneCall(Exec(Init(slots, nthreads), before), acts, task)
    ensures var s := Exec(Init(slots, nthreads), before);
            && k < |acts| && acts[k].ProducerAct? && AtCheck(Exec(s, acts[..k]), s.pushed) && (Room(s) ==> Room(Exec(s, acts[..k])))
            && (if Room(Exec(s, acts[..k])) then Exec(s, acts).accepted && Exec(s, acts).pushed == s.pushed + [task]
                else !Exec(s, acts).accepted && Exec(s, acts).pushed == s.pushed)
  {
    RunInv(slots, nthreads, before);
    var s := Exec(Init(slots, nthreads), before);
    var c := StageAt(s, acts, task, |acts|);
    assert acts[..|acts|] == acts;
    k := c.value;
  }

  /** A call that finds room at its beginning is accepted. */
  lemma EnqueueWithRoom<T>(slots: seq<T>, nthreads: nat, before: seq<Act<T>>, acts: seq<Act<T>>, task: T)
    requires HasSingleBit(|slots|) && |slots| >= 2 && OneCall(Exec(Init(slots, nthreads), before), acts, task)
    requires Room(Exec(Init(slots, nthreads), before))
    ensures var s := Exec(Init(slots, nthreads), before);
            Exec(s, acts).accepted && Exec(s, acts).pushed == s.pushed + [task]
  {
    var k := EnqueueOutcome(slots, nthreads, before, acts, task);
  }

  /** The producer's steps in a run. */
  function ProducerSteps<T>(acts: seq<Act<T>>): nat
  {
    if acts == [] then 0
    else ProducerSteps(acts[..|acts| - 1]) + if acts[|acts| - 1].ProducerAct? then 1 else 0
  }

  /** Steps the producer still needs, at most, to leave `enqueue`. */
  function Left<T>(pc: ProducerPc<T>): nat
  {
    match pc
    case LoadHead(_) => 7
    case CheckFree(_, _) => 6
    case WriteSlot(_, _) => 5
    case Publish(_, _) => 4
    case AdvanceHead(_) => 3
    case BumpEpoch => 2
    case Notify => 1
    case Undo => 1
    case _ => 0
  }

  lemma LeftFalls<T>(s: State<T>, act: Act<T>)
    requires WellFormed(s) && Left(s.producer) > 0
    ensures var r := Step(s, act);
            && (act.ProducerAct? ==> Left(r.producer) < Left(s.producer) && (Left(r.producer) == 0 ==> r.producer.Idle?))
            && (act.WorkerAct? ==> r.producer == s.producer)
  {
  }

  lemma {:induction false} LeftSoFar<T>(s: State<T>, acts: seq<Act<T>>, task: T, j: nat)
    requires WellFormed(s) && s.producer.Idle? && 0 < j <= |acts|
    requires acts[0].ProducerAct? && acts[0].call == Enqueue(task)
    requires forall i :: 0 < i <= j ==> !Exec(s, acts[..i]).producer.Idle?
    ensures var pc := Exec(s, acts[..j]).producer; 0 < Left(pc) && Left(pc) + ProducerSteps(acts[..j]) <= 8
    decreases j
  {
    ExecLast(s, acts, j - 1);
    assert acts[..j][..j - 1] == acts[..j - 1];
    if j == 1 {
      assert acts[..0] == [];
    } else {
      LeftSoFar(s, acts, task, j - 1);
      LeftFalls(Exec(s, acts[..j - 1]), acts[j - 1]);
    }
  }

  /** `enqueue` never blocks: eight steps of the producer end the call, whatever the workers do. */
  lemma EnqueueEnds<T>(s: State<T>, acts: seq<Act<T>>, task: T)
    requires WellFormed(s) && s.producer.Idle? && acts != []
    requires acts[0].ProducerAct? && acts[0].call == Enqueue(task) && ProducerSteps(acts) >= 8
    ensures exists j :: 0 < j <= |acts| && Exec(s, acts[..j]).producer.Idle?
  {
    assert acts[..|acts|] == acts;
    if forall j :: 0 < j <= |acts| ==> !Exec(s, acts[..j]).producer.Idle? {
      LeftSoFar(s, acts, task, |acts|);
    }
  }

  // ---- draining ---------------------------------------------------------------------------

  /** Steps until a worker that has claimed a position gives its count back. */
  function ToFinish<T>(worker: Worker<T>): nat
  {
    match worker.pc
    case ReadSlot(_) => 4
    case Release(_, _) => 3
    case Run(_, _) => 2
    case Finish(_) => 1
    case _ => 0
  }

  lemma BusyStep<T>(s: State<T>, w: nat, pos: nat)
    requires Inv(s) && w < |s.workers| && Busy(s.workers[w], pos)
    ensures var r := Step(s, WorkerAct(w, false));
            && w < |r.workers| && (pos in r.done || (Busy(r.workers[w], pos) && ToFinish(r.workers[w]) < ToFinish(s.workers[w])))
  {
  }

  /** A worker that has claimed a position runs its task to the end when it is scheduled alone. */
  lemma {:induction false} FinishOne<T>(s: State<T>, w: nat, pos: nat) returns (acts: seq<Act<T>>, r: State<T>)
    requires Inv(s) && w < |s.workers| && Busy(s.workers[w], pos)
    ensures Reaches(s, acts, r) && pos in r.done
    decreases ToFinish(s.workers[w])
  {
    var x := Step(s, WorkerAct(w, false));
    BusyStep(s, w, pos);
    ReachesStep(s, WorkerAct(w, false));
    acts, r := [WorkerAct(w, false)], x;
    if pos !in x.done {
      var rest, y := FinishOne(x, w, pos);
      ReachesOn(s, acts, x, rest, y);
      acts, r := acts + rest, y;
    }
  }

  function SoloActs<T>(w: nat, k: nat): (acts: seq<Act<T>>)
    ensures WorkersOnly(acts)
  {
    if k == 0 then [] else [WorkerAct(w, false)] + SoloActs(w, k - 1)
  }

  lemma {:induction false} SoloReaches<T>(s: State<T>, w: nat, k: nat, r: State<T>)
    requires Inv(s) && w < |s.workers| && r == Solo(s, w, k)
    ensures Reaches(s, SoloActs(w, k), r)
    decreases k
  {
    if k == 0 {
      ReachesNow(s);
    } else {
      var x := Step(s, WorkerAct(w, false));
      WorkerStepWorks(s, WorkerAct(w, false));
      SoloReaches(x, w, k - 1, r);
      ReachesAfter(s, w, x, SoloActs(w, k - 1), r);
    }
  }

  /** While a task is unclaimed and the producer is outside `enqueue`, some worker alone can claim it. */
  lemma ClaimOne<T>(s: State<T>) returns (acts: seq<Act<T>>, r: State<T>)
    requires Inv(s) && |s.workers| > 0 && WorkOutstanding(s)
    ensures Reaches(s, acts, r) && r.tail == s.tail + 1
  {
    assert SomeFresh(s);
    var w: nat :| w < |s.workers| && Fresh(s, w);
    FreshWorkerClaims(s, w);
    var k :| 0 < k <= Distance(s, w) && Solo(s, w, k).tail == s.tail + 1;
    acts, r := SoloActs(w, k), Solo(s, w, k);
    SoloReaches(s, w, k, r);
  }

  /** Claims and completions still to come. */
  ghost function ToDo<T>(s: State<T>): int
  {
    2 * |s.pushed| - s.tail - |s.done|
  }

  lemma DoneBelow<T>(s: State<T>)
    requires Inv(s)
    ensures s.done <= Below(s.tail) && ToDo(s) >= 0
  {
    SubsetSize(s.done, Below(s.tail));
  }

  lemma ToDoFalls<T>(s: State<T>, r: State<T>)
    requires Inv(s) && Inv(r) && WorkedOn(s, r) && (r.tail > s.tail || exists p :: p in r.done && p !in s.done)
    ensures 0 <= ToDo(r) < ToDo(s)
  {
    DoneBelow(r);
    SubsetSize(s.done, r.done);
    if r.tail == s.tail {
      var p :| p in r.done && p !in s.done;
      SubsetSize(s.done + {p}, r.done);
    }
  }

  lemma NothingToDo<T>(s: State<T>)
    requires Inv(s) && s.tail == |s.pushed| && forall p: nat :: p < s.tail ==> p in s.done
    ensures s.done == Below(|s.pushed|) && AllRan(s)
  {
    DoneBelow(s);
    DrainedMeansRan(s);
  }

  /** The next run of one worker on the way to an idle pool. */
  lemma WorkOn<T>(s: State<T>) returns (acts: seq<Act<T>>, r: State<T>)
    requires Inv(s) && |s.workers| > 0 && (s.producer.Idle? || s.producer.Waiting?) && s.done != Below(|s.pushed|)
    ensures Reaches(s, acts, r) && 0 <= ToDo(r) < ToDo(s)
  {
    if s.tail < |s.pushed| {
      acts, r := ClaimOne(s);
    } else {
      if forall p: nat :: p < s.tail ==> p in s.done { NothingToDo(s); }
      var p: nat :| p < s.tail && p !in s.done;
      acts, r := FinishOne(s, s.claims[p], p);
    }
    ToDoFalls(s, r);
  }

  /** The workers can always run everything that was accepted, without a step of the producer. */
  lemma {:induction false} Drains<T>(s: State<T>) returns (acts: seq<Act<T>>, r: State<T>)
    requires Inv(s) && |s.workers| > 0 && (s.producer.Idle? || s.producer.Waiting?)
    ensures Reaches(s, acts, r) && AllRan(r)
    decreases ToDo(s)
  {
    if s.done == Below(|s.pushed|) {
      DrainedMeansRan(s);
      ReachesNow(s);
      acts, r := [], s;
    } else {
      var first, x := WorkOn(s);
      var rest, y := Drains(x);
      ReachesOn(s, first, x, rest, y);
      acts, r := first + rest, y;
    }
  }

  // ---- wait -------------------------------------------------------------------------------

  /** With nothing left to run the counter is back at what is in flight. */
  lemma RanMeansDone<T>(s: State<T>)
    requires Inv(s) && AllRan(s)
    ensures s.pending == InFlight(s.producer)
  {
    DoneBelow(s);
    forall p: nat | p < |s.pushed| ensures p in s.done {
      assert HasRun(s, p);
      var i :| 0 <= i < |s.runs| && s.runs[i].0 == p;
      assert Ran(s, s.runs[i].0);
      assert !Busy(s.workers[s.claims[p]], p);
    }
    assert s.done == Below(|s.pushed|);
  }

  /** `wait` leaves in the very step that finds every accepted task run, and in no other. */
  lemma WaitReturnsExactly<T>(slots: seq<T>, nthreads: nat, acts: seq<Act<T>>, call: Call<T>, pick: nat)
    requires HasSingleBit(|slots|) && |slots| >= 2
    ensures var s := Exec(Init(slots, nthreads), acts);
            s.producer.Waiting? ==> (Step(s, ProducerAct(call, pick)).producer.Idle? <==> AllRan(s))
  {
    RunInv(slots, nthreads, acts);
    var s := Exec(Init(slots, nthreads), acts);
    PendingMeaning(s);
    if AllRan(s) { RanMeansDone(s); }
  }

  /** From every reachable state in which the producer waits, some run lets it return. */
  lemma WaitCanReturn<T>(slots: seq<T>, nthreads: nat, before: seq<Act<T>>) returns (acts: seq<Act<T>>)
    requires HasSingleBit(|slots|) && |slots| >= 2 && nthreads > 0
    requires Exec(Init(slots, nthreads), before).producer.Waiting?
    ensures Exec(Init(slots, nthreads), before + acts).producer.Idle?
  {
    RunInv(slots, nthreads, before);
    var s := Exec(Init(slots, nthreads), before);
    var work, x := Drains(s);
    RanMeansDone(x);
    var act := ProducerAct(WaitAll, 0);
    ExecOne(x, act);
    ExecConcat(s, work, [act]);
    acts := work + [act];
    ExecConcat(Init(slots, nthreads), before, acts);
  }

  // ---- join -------------------------------------------------------------------------------

  /** Steps until a worker exits or claims, when it is alone and the pool is stopped. */
  function ToExit<T>(s: State<T>, w: nat): nat
    requires w < |s.workers|
  {
    match s.workers[w].pc
    case Exited => 0
    case CheckStop(_) => 1
    case Claim(_, pos) => if pos == s.tail then 1 else 3
    case CheckStamp(_, pos) => if pos == s.tail then 2 else 4
    case LoadTail(_) => 3
    case Finish(_) => 4
    case LoadEpoch => 4
    case WaitEpoch(_) => 4
    case Run(_, _) => 5
    case Spin => 5
    case Release(_, _) => 6
    case ReadSlot(_) => 7
    case Asleep(_) => 8
  }

  lemma ExitStep<T>(s: State<T>, w: nat)
    requires Inv(s) && s.producer.Joining? && w < |s.workers| && !s.workers[w].pc.Exited?
    ensures var r := Step(s, WorkerAct(w, false));
            w < |r.workers| && (r.tail == s.tail + 1 || (r.tail == s.tail && ToExit(r, w) < ToExit(s, w)))
  {
    assert WorkerOk(s, w);
  }

  /** A worker of a stopped pool that is scheduled alone exits. */
  lemma {:induction false} OneExits<T>(s: State<T>, w: nat) returns (acts: seq<Act<T>>, r: State<T>)
    requires Inv(s) && s.producer.Joining? && w < |s.workers|
    ensures Reaches(s, acts, r) && r.workers[w].pc.Exited?
    decreases |s.pushed| - s.tail, ToExit(s, w)
  {
    if s.workers[w].pc.Exited? {
      ReachesNow(s);
      acts, r := [], s;
    } else {
      var x := Step(s, WorkerAct(w, false));
      ExitStep(s, w);
      WorkerStepWorks(s, WorkerAct(w, false));
      var rest, y := OneExits(x, w);
      ReachesAfter(s, w, x, rest, y);
      acts, r := [WorkerAct(w, false)] + rest, y;
    }
  }

  predicate ExitedUpTo<T>(s: State<T>, k: nat)
  {
    k <= |s.workers| && forall w :: 0 <= w < k ==> s.workers[w].pc.Exited?
  }

  lemma ExitedMore<T>(s: State<T>, r: State<T>, k: nat)
    requires ExitedUpTo(s, k) && WorkedOn(s, r) && k < |r.workers| && r.workers[k].pc.Exited?
    ensures ExitedUpTo(r, k + 1)
  {
  }

  lemma {:induction false} AllExit<T>(s: State<T>, k: nat) returns (acts: seq<Act<T>>, r: State<T>)
    requires Inv(s) && s.producer.Joining? && k <= |s.workers|
    ensures Reaches(s, acts, r) && ExitedUpTo(r, k)
    decreases k
  {
    if k == 0 {
      ReachesNow(s);
      acts, r := [], s;
    } else {
      var first, x := AllExit(s, k - 1);
      var rest, y := OneExits(x, k - 1);
      ReachesOn(s, first, x, rest, y);
      ExitedMore(x, y, k - 1);
      acts, r := first + rest, y;
    }
  }

  /** The destructor's join can always end: some run takes every worker out of its loop. */
  lemma JoinCanEnd<T>(slots: seq<T>, nthreads: nat, before: seq<Act<T>>) returns (acts: seq<Act<T>>)
    requires HasSingleBit(|slots|) && |slots| >= 2 && Exec(Init(slots, nthreads), before).producer.Joining?
    ensures var r := Exec(Init(slots, nthreads), before + acts);
            |r.workers| == nthreads && forall w :: 0 <= w < nthreads ==> r.workers[w].pc.Exited?
  {
    RunInv(slots, nthreads, before);
    var r;
    acts, r := AllExit(Exec(Init(slots, nthreads), before), nthreads);
    ExecConcat(Init(slots, nthreads), before, acts);
  }
}
