/** What every run of the pool guarantees, whatever the interleaving. */
module PoolTheorems {
  import opened Bits
  import opened Machine
  import opened ThreadPool
  import opened PoolInvariant
  import opened PoolWakeup

  ghost predicate Inv<T>(s: State<T>)
  {
    |s.slots| >= 2 && RingOk(s) && CountOk(s) && WakeOk(s)
  }

  lemma InitInv<T>(slots: seq<T>, nthreads: nat)
    requires HasSingleBit(|slots|) && |slots| >= 2
    ensures Inv(Init(slots, nthreads))
  {
    var s := Init(slots, nthreads);
    forall p | 0 <= p < |slots| ensures WindowAt(s, p) {
      DivModUnique(p, |slots|, 0, p);
    }
  }

  lemma ProducerShape<T>(s: State<T>, call: Call<T>, pick: nat)
    requires WellFormed(s)
    ensures var r := ProducerStep(s, call, pick); |r.slots| == |s.slots| && |r.workers| == |s.workers|
  {
  }

  lemma SameShape<T>(s: State<T>, act: Act<T>)
    requires WellFormed(s)
    ensures var r := Step(s, act); |r.slots| == |s.slots| && |r.workers| == |s.workers|
  {
    if act.ProducerAct? { ProducerShape(s, act.call, act.pick); }
  }

  lemma StepInv<T>(s: State<T>, act: Act<T>)
    requires Inv(s)
    ensures Inv(Step(s, act))
  {
    SameShape(s, act);
    match act
    case ProducerAct(call, pick) =>
      ProducerKeepsRing(s, call, pick);
      ProducerKeepsCount(s, call, pick);
      ProducerKeepsSleep(s, call, pick);
      ProducerKeepsCovered(s, call, pick);
    case WorkerAct(w, spurious) =>
      if w < |s.workers| {
        WorkerKeepsRing(s, w, spurious);
        WorkerKeepsCount(s, w, spurious);
        WorkerKeepsSleep(s, w, spurious);
        WorkerKeepsCovered(s, w, spurious);
      }
  }

  /** The invariant holds after every run. */
  lemma {:induction false} ExecInv<T>(s: State<T>, acts: seq<Act<T>>)
    requires Inv(s)
    ensures Inv(Exec(s, acts))
    ensures |Exec(s, acts).slots| == |s.slots| && |Exec(s, acts).workers| == |s.workers|
  {
    if acts != [] {
      var m := |acts| - 1;
      ExecInv(s, acts[..m]);
      StepInv(Exec(s, acts[..m]), acts[m]);
      SameShape(Exec(s, acts[..m]), acts[m]);
      assert Exec(s, acts) == Step(Exec(s, acts[..m]), acts[m]);
    }
  }

  lemma RunInv<T>(slots: seq<T>, nthreads: nat, acts: seq<Act<T>>)
    requires HasSingleBit(|slots|) && |slots| >= 2
    ensures var s := Exec(Init(slots, nthreads), acts);
            Inv(s) && |s.slots| == |slots| && |s.workers| == nthreads
  {
    InitInv(slots, nthreads);
    ExecInv(Init(slots, nthreads), acts);
  }

  // ---- exactly once, first in first out ---------------------------------------------------

  predicate ClaimedBy<T>(s: State<T>, w: nat, pos: nat)
  {
    pos < |s.claims| && s.claims[pos] == w
  }

  /** Each position belongs to the one worker that claimed it. */
  ghost predicate OneOwner<T>(s: State<T>)
  {
    forall w, pos: nat :: 0 <= w < |s.workers| && Busy(s.workers[w], pos) ==> ClaimedBy(s, w, pos)
  }

  /** A task in a worker's hands, or run, is the one pushed at its position. */
  ghost predicate RightTask<T>(s: State<T>)
  {
    && (forall w :: 0 <= w < |s.workers| && (s.workers[w].pc.Release? || s.workers[w].pc.Run?) ==>
          var pc := s.workers[w].pc; pc.pos < |s.pushed| && pc.task == s.pushed[pc.pos])
    && (forall i :: 0 <= i < |s.runs| ==>
          s.runs[i].0 < |s.pushed| && s.runs[i].1 == s.pushed[s.runs[i].0])
  }

  /** The slot of `pos` holds the task pushed there and is not the slot the producer is filling. */
  ghost predicate SlotSafe<T>(s: State<T>, pos: nat)
    requires WellFormed(s)
  {
    && pos < |s.pushed| && s.slots[SlotOf(pos, |s.slots|)] == s.pushed[pos]
    && (s.producer.WriteSlot? || s.producer.Publish? ==>
          SlotOf(s.producer.pos, |s.slots|) != SlotOf(pos, |s.slots|))
  }

  /** No slot is overwritten between the claim of its position and the release. */
  ghost predicate SlotsSafe<T>(s: State<T>)
    requires WellFormed(s)
  {
    forall w, pos: nat :: 0 <= w < |s.workers| && Holds(s.workers[w], pos) ==> SlotSafe(s, pos)
  }

  ghost predicate RunsDistinct<T>(s: State<T>)
  {
    forall i, j :: 0 <= i < j < |s.runs| ==> s.runs[i].0 != s.runs[j].0
  }

  /** Exactly-once delivery after every run, for every capacity from two up and any number of workers. */
  lemma ExactlyOnce<T>(slots: seq<T>, nthreads: nat, acts: seq<Act<T>>)
    requires HasSingleBit(|slots|) && |slots| >= 2
    ensures var s := Exec(Init(slots, nthreads), acts);
            && |s.claims| == s.tail <= |s.pushed| <= s.tail + |slots|
            && OneOwner(s) && RightTask(s) && SlotsSafe(s) && RunsDistinct(s)
  {
    RunInv(slots, nthreads, acts);
    DeliveredOnce(Exec(Init(slots, nthreads), acts));
  }

  lemma OwnersUnique<T>(s: State<T>)
    requires RingOk(s)
    ensures OneOwner(s)
  {
    forall w, pos: nat | 0 <= w < |s.workers| && Busy(s.workers[w], pos)
      ensures ClaimedBy(s, w, pos)
    {
      assert WorkerOk(s, w);
    }
  }

  lemma DeliveredOnce<T>(s: State<T>)
    requires Inv(s)
    ensures OneOwner(s) && RightTask(s) && SlotsSafe(s) && RunsDistinct(s)
  {
    OwnersUnique(s);
    forall w | 0 <= w < |s.workers| && (s.workers[w].pc.Release? || s.workers[w].pc.Run?)
      ensures var pc := s.workers[w].pc; pc.pos < |s.pushed| && pc.task == s.pushed[pc.pos]
    {
      assert WorkerOk(s, w);
    }
    forall w, pos: nat | 0 <= w < |s.workers| && Holds(s.workers[w], pos) ensures SlotSafe(s, pos) {
      SlotIsSafe(s, w, pos);
    }
  }

  lemma SlotIsSafe<T>(s: State<T>, w: nat, pos: nat)
    requires |s.slots| >= 2 && RingOk(s) && w < |s.workers| && Holds(s.workers[w], pos)
    ensures SlotSafe(s, pos)
  {
    var n, pub := |s.slots|, |s.pushed|;
    HeldTask(s, w, pos);
    if s.producer.WriteSlot? || s.producer.Publish? {
      assert WorkerOk(s, w);
      ModLap(pos, n);
      StampMeaning(s, 0);
      assert pub != pos + n;
      if SlotOf(pub, n) == SlotOf(pos, n) { ModInjective(pub, pos + n, n); }
    }
  }

  /** Claims happen in push order: a step claims nothing, or exactly the oldest unclaimed position. */
  lemma ClaimsInPushOrder<T>(slots: seq<T>, nthreads: nat, acts: seq<Act<T>>, act: Act<T>)
    requires HasSingleBit(|slots|) && |slots| >= 2
    ensures var s := Exec(Init(slots, nthreads), acts);
            var r := Step(s, act);
            || r.claims == s.claims
            || (act.WorkerAct? && !act.spurious && act.w < |r.workers| && r.claims == s.claims + [act.w]
                && |s.claims| < |s.pushed| && r.workers[act.w].pc == ReadSlot(|s.claims|))
  {
    RunInv(slots, nthreads, acts);
    var s := Exec(Init(slots, nthreads), acts);
    if act.WorkerAct? && act.w < |s.workers| {
      assert WorkerOk(s, act.w);
    }
  }

  // ---- wait -------------------------------------------------------------------------------

  function Below(n: nat): (r: set<nat>)
    ensures forall p: nat :: p in r <==> p < n
    ensures |r| == n
  {
    if n == 0 then {} else Below(n - 1) + {n - 1}
  }

  lemma FullRange(s: set<nat>, n: nat)
    requires s <= Below(n) && |s| == n
    ensures s == Below(n)
  {
    if p :| p in Below(n) && p !in s {
      SubsetSize(s, Below(n) - {p});
    }
  }

  /** Positions of finished calls. */
  function PositionSet<T>(runs: seq<(nat, T)>): (r: set<nat>)
    ensures forall i :: 0 <= i < |runs| ==> runs[i].0 in r
    ensures forall p :: p in r ==> exists i :: 0 <= i < |runs| && runs[i].0 == p
  {
    if runs == [] then {}
    else
      var m := |runs| - 1;
      assert forall i :: 0 <= i < m ==> runs[..m][i] == runs[i];
      PositionSet(runs[..m]) + {runs[m].0}
  }

  lemma {:induction false} PositionsSize<T>(runs: seq<(nat, T)>)
    requires forall i, j :: 0 <= i < j < |runs| ==> runs[i].0 != runs[j].0
    ensures |PositionSet(runs)| == |runs|
  {
    if runs != [] {
      PositionsSize(runs[..|runs| - 1]);
    }
  }

  /** Every task accepted so far has run, exactly once, and none is still in a worker's hands. */
  ghost predicate AllRan<T>(s: State<T>)
  {
    && (forall p: nat :: p < |s.pushed| ==> HasRun(s, p))
    && |s.runs| == |s.pushed|
    && (forall w, p: nat :: 0 <= w < |s.workers| ==> !Busy(s.workers[w], p))
  }

  lemma RanPositions<T>(s: State<T>)
    requires Basic(s) && CountOk(s) && s.done == Below(|s.pushed|)
    ensures PositionSet(s.runs) == Below(|s.pushed|)
  {
    forall p | p in Below(|s.pushed|) ensures p in PositionSet(s.runs) {
      assert Ran(s, p) && HasRun(s, p);
    }
    forall p | p in PositionSet(s.runs) ensures p in Below(|s.pushed|) {
      var i :| 0 <= i < |s.runs| && s.runs[i].0 == p;
      assert Ran(s, s.runs[i].0);
    }
  }

  lemma DrainedMeansRan<T>(s: State<T>)
    requires RingOk(s) && CountOk(s) && s.done == Below(|s.pushed|)
    ensures AllRan(s)
  {
    RanPositions(s);
    PositionsSize(s.runs);
    forall p: nat | p < |s.pushed| ensures HasRun(s, p) {
      assert p in PositionSet(s.runs);
    }
    forall w, p: nat | 0 <= w < |s.workers| ensures !Busy(s.workers[w], p) {
      assert WorkerOk(s, w);
      assert p < s.tail ==> p in s.done;
    }
  }

  /** The pending counter is the tasks accepted and not given back, plus the attempt in progress. */
  lemma PendingMeaning<T>(s: State<T>)
    requires Inv(s)
    ensures s.pending == |s.pushed| - |s.done| + InFlight(s.producer) && s.pending >= InFlight(s.producer)
    ensures s.pending == 0 ==> AllRan(s)
  {
    SubsetSize(s.done, Below(|s.pushed|));
    if s.pending == 0 {
      FullRange(s.done, |s.pushed|);
      DrainedMeansRan(s);
    }
  }

  /** `wait` returns only when every accepted task has run, exactly once. */
  lemma WaitReturnsAfterAll<T>(slots: seq<T>, nthreads: nat, acts: seq<Act<T>>, act: Act<T>)
    requires HasSingleBit(|slots|) && |slots| >= 2
    ensures var s := Exec(Init(slots, nthreads), acts);
            s.producer.Waiting? && Step(s, act).producer.Idle? ==> AllRan(s)
  {
    RunInv(slots, nthreads, acts);
    PendingMeaning(Exec(Init(slots, nthreads), acts));
  }

  // ---- sleep and wake ---------------------------------------------------------------------

  /** Work that must not be left to sleepers. */
  ghost predicate WorkOutstanding<T>(s: State<T>)
  {
    !s.stop && (s.producer.Idle? || s.producer.Waiting?) && s.tail < |s.pushed|
  }

  /**
  No lost wakeup: with workers and without a stop request, whenever the producer is outside `enqueue`
  and an accepted task is unclaimed, some worker is awake and will look at the ring before it sleeps.
   */
  lemma NoLostWakeup<T>(slots: seq<T>, nthreads: nat, acts: seq<Act<T>>)
    requires HasSingleBit(|slots|) && |slots| >= 2 && nthreads > 0
    ensures var s := Exec(Init(slots, nthreads), acts);
            WorkOutstanding(s) ==> exists w :: 0 <= w < |s.workers| && !s.workers[w].pc.Asleep? && Fresh(s, w)
  {
    RunInv(slots, nthreads, acts);
    var s := Exec(Init(slots, nthreads), acts);
    if WorkOutstanding(s) {
      var w :| 0 <= w < |s.workers| && Fresh(s, w);
      assert !s.workers[w].pc.Asleep?;
    }
  }

  /** The worker moves alone for `k` steps, without spurious failures. */
  function Solo<T>(s: State<T>, w: nat, k: nat): (r: State<T>)
    requires WellFormed(s) && w < |s.workers|
    ensures WellFormed(r) && |r.workers| == |s.workers|
    decreases k
  {
    if k == 0 then s else Solo(WorkerStep(s, w, false), w, k - 1)
  }

  /** Steps a fresh worker still needs, at most, to claim the front task when it runs alone. */
  function Distance<T>(s: State<T>, w: nat): (d: nat)
    requires w < |s.workers|
    ensures d <= 9
  {
    match s.workers[w].pc
    case Claim(_, pos) => if pos == s.tail then 1 else 3
    case CheckStamp(_, pos) => if pos == s.tail then 2 else 7
    case LoadTail(_) => 3
    case Spin => 5
    case LoadEpoch => 4
    case WaitEpoch(_) => 4
    case CheckStop(_) => 6
    case Finish(_) => 4
    case Run(_, _) => 5
    case Release(_, _) => 6
    case ReadSlot(_) => 7
    case _ => 0
  }

  lemma SoloStepNearer<T>(s: State<T>, w: nat)
    requires |s.slots| >= 2 && RingOk(s) && SleepOk(s) && w < |s.workers| && Fresh(s, w)
    requires !s.stop && s.tail < |s.pushed|
    ensures var r := WorkerStep(s, w, false);
            r.tail == s.tail + 1 ||
            (r.tail == s.tail && Fresh(r, w) && Distance(r, w) < Distance(s, w))
  {
    StampMeaning(s, 0);
    FreshMoves(s, w, false);
  }

  /** A fresh worker that is scheduled alone claims the oldest outstanding task within nine steps. */
  lemma {:induction false} FreshWorkerClaims<T>(s: State<T>, w: nat)
    requires Inv(s) && w < |s.workers| && Fresh(s, w) && !s.stop && s.tail < |s.pushed|
    ensures exists k :: 0 < k <= Distance(s, w) && Solo(s, w, k).tail == s.tail + 1
    decreases Distance(s, w)
  {
    var r := WorkerStep(s, w, false);
    SoloStepNearer(s, w);
    assert Solo(r, w, 0) == r;
    if r.tail == s.tail + 1 {
      assert Solo(s, w, 1).tail == s.tail + 1;
    } else {
      StepInv(s, WorkerAct(w, false));
      FreshWorkerClaims(r, w);
      var k :| 0 < k <= Distance(r, w) && Solo(r, w, k).tail == r.tail + 1;
      assert Solo(s, w, k + 1).tail == s.tail + 1;
    }
  }

  /** Once the destructor joins, no worker sleeps and none that waits can fall asleep again. */
  lemma JoinNeverSleeps<T>(slots: seq<T>, nthreads: nat, acts: seq<Act<T>>)
    requires HasSingleBit(|slots|) && |slots| >= 2
    ensures var s := Exec(Init(slots, nthreads), acts);
            s.producer.Joining? ==>
              forall w, spurious :: 0 <= w < |s.workers| ==>
                !s.workers[w].pc.Asleep? && !WorkerStep(s, w, spurious).workers[w].pc.Asleep?
  {
    RunInv(slots, nthreads, acts);
  }
}
