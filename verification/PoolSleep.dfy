/** When a worker goes to sleep: a pool without work becomes quiet, after a fixed number of looks at the ring. */
module PoolSleep {
  import opened Bits
  import opened ThreadPool
  import opened PoolInvariant
  import opened PoolTheorems

  // ---- what the spin counter means --------------------------------------------------------

  predicate Scanning<T>(pc: WorkerPc<T>)
  {
    match pc
    case LoadTail(look) => look.Scan?
    case CheckStamp(look, _) => look.Scan?
    case Claim(look, _) => look.Scan?
    case CheckStop(look) => look.Scan?
    case Spin => true
    case _ => false
  }

  /** A worker behind its task has not spun, and one that looks for work has not spun too often. */
  predicate SpinsOk<T>(worker: Worker<T>)
  {
    && (worker.pc.Run? || worker.pc.Finish? ==> worker.idle == 0)
    && (Scanning(worker.pc) ==> worker.idle <= 4096)
  }

  /** The epoch counts the tasks made visible to sleepers, and the stop. */
  predicate EpochOk<T>(s: State<T>)
  {
    s.epoch == |s.pushed| - (if s.producer.AdvanceHead? || s.producer.BumpEpoch? then 1 else 0)
               + (if s.producer.StopNotify? || s.producer.Joining? then 1 else 0)
  }

  predicate CountersOk<T>(s: State<T>)
  {
    EpochOk(s) && forall w :: 0 <= w < |s.workers| ==> SpinsOk(s.workers[w])
  }

  lemma WorkerKeepsCounters<T>(s: State<T>, w: nat, spurious: bool)
    requires WellFormed(s) && CountersOk(s) && w < |s.workers|
    ensures CountersOk(WorkerStep(s, w, spurious))
  {
    var r := WorkerStep(s, w, spurious);
    assert SpinsOk(s.workers[w]) && SpinsOk(Moved(s, w, spurious));
    assert EpochOk(r);
  }

  lemma ProducerKeepsEpoch<T>(s: State<T>, call: Call<T>, pick: nat)
    requires WellFormed(s) && EpochOk(s)
    ensures EpochOk(ProducerStep(s, call, pick))
  {
  }

  lemma WokenSpins<T>(ws: seq<Worker<T>>, pick: nat)
    requires forall w :: 0 <= w < |ws| ==> SpinsOk(ws[w])
    ensures forall w :: 0 <= w < |ws| ==> SpinsOk(NotifyOne(ws, pick)[w]) && SpinsOk(NotifyAll(ws)[w])
  {
    assert forall w :: 0 <= w < |ws| ==> SpinsOk(Woken(ws[w]));
  }

  lemma ProducerKeepsCounters<T>(s: State<T>, call: Call<T>, pick: nat)
    requires WellFormed(s) && CountersOk(s)
    ensures CountersOk(ProducerStep(s, call, pick))
  {
    var r := ProducerStep(s, call, pick);
    ProducerKeepsEpoch(s, call, pick);
    WokenSpins(s.workers, pick);
    assert r.workers == s.workers || r.workers == NotifyOne(s.workers, pick) || r.workers == NotifyAll(s.workers);
  }

  lemma {:induction false} CountersOf<T>(slots: seq<T>, nthreads: nat, acts: seq<Act<T>>)
    requires HasSingleBit(|slots|)
    ensures CountersOk(Exec(Init(slots, nthreads), acts))
  {
    if acts != [] {
      var m := |acts| - 1;
      CountersOf(slots, nthreads, acts[..m]);
      var s := Exec(Init(slots, nthreads), acts[..m]);
      match acts[m]
      case ProducerAct(call, pick) => ProducerKeepsCounters(s, call, pick);
      case WorkerAct(w, spurious) => if w < |s.workers| { WorkerKeepsCounters(s, w, spurious); }
    }
  }

  // ---- falling asleep ---------------------------------------------------------------------

  /** The worker looks for work where there is none, or has given up looking. */
  predicate Drowsy<T>(s: State<T>, w: nat)
    requires WellFormed(s) && w < |s.workers|
  {
    && !s.stop && s.stamps[SlotOf(s.tail, |s.slots|)] != s.tail + 1
    && (Scanning(s.workers[w].pc) ==> s.workers[w].idle <= 4096)
    && match s.workers[w].pc
       case LoadTail(look) => look == Scan || look == LastLook(s.epoch)
       case CheckStamp(look, pos) => (look == Scan || look == LastLook(s.epoch)) && pos == s.tail
       case CheckStop(look) => look == Scan || look == LastLook(s.epoch)
       case Spin => true
       case LoadEpoch => true
       case WaitEpoch(observed) => observed == s.epoch
       case Asleep(observed) => observed == s.epoch
       case _ => false
  }

  /** Its steps until it sleeps: four for each further look, and nine for the last one. */
  function ToSleep<T>(worker: Worker<T>): int
  {
    var spins := 4 * (4096 - worker.idle);
    match worker.pc
    case LoadTail(look) => if look.Scan? then spins + 9 else 4
    case CheckStamp(look, _) => if look.Scan? then spins + 8 else 3
    case CheckStop(look) => if look.Scan? then spins + 7 else 2
    case Spin => spins + 6
    case LoadEpoch => 5
    case WaitEpoch(_) => 1
    case _ => 0
  }

  lemma DrowsyStep<T>(s: State<T>, w: nat)
    requires WellFormed(s) && w < |s.workers| && Drowsy(s, w)
    ensures var r := WorkerStep(s, w, false);
            && Drowsy(r, w) && r == s.(workers := s.workers[w := r.workers[w]])
            && if s.workers[w].pc.Asleep? then r.workers[w] == s.workers[w]
               else ToSleep(s.workers[w]) > 0 && ToSleep(r.workers[w]) == ToSleep(s.workers[w]) - 1
  {
  }

  lemma {:induction false} SleepsAt<T>(s: State<T>, w: nat, k: nat)
    requires WellFormed(s) && w < |s.workers| && Drowsy(s, w)
    ensures var r := Solo(s, w, k);
            r.workers[w].pc.Asleep? <==> k >= ToSleep(s.workers[w])
    ensures var r := Solo(s, w, k); r == s.(workers := s.workers[w := r.workers[w]])
    decreases k
  {
    DrowsyStep(s, w);
    if k > 0 { SleepsAt(WorkerStep(s, w, false), w, k - 1); }
  }

  /** The worker begins to look for work as one that has not spun yet. */
  predicate Begins<T>(worker: Worker<T>)
  {
    worker == Worker(LoadTail(Scan), 0)
  }

  /** A worker that has run a task, or was woken for one, begins anew. */
  lemma BeginsAnew<T>(slots: seq<T>, nthreads: nat, acts: seq<Act<T>>, w: nat, spurious: bool)
    requires HasSingleBit(|slots|) && w < |Exec(Init(slots, nthreads), acts).workers|
    ensures var s := Exec(Init(slots, nthreads), acts);
            var pc := s.workers[w].pc;
            pc.Finish? || (pc.WaitEpoch? && pc.observed != s.epoch) ==> Begins(WorkerStep(s, w, spurious).workers[w])
  {
    CountersOf(slots, nthreads, acts);
    assert SpinsOk(Exec(Init(slots, nthreads), acts).workers[w]);
  }

  /**
  In every reachable state without unclaimed work and before the stop, a worker that begins to look for work and
  is scheduled alone looks 4097 times, once more after reading the epoch, and then sleeps: after 16393 steps and
  not before. Nothing but its own program counter changes.
   */
  lemma IdleWorkerSleeps<T>(slots: seq<T>, nthreads: nat, acts: seq<Act<T>>, w: nat, k: nat)
    requires HasSingleBit(|slots|) && |slots| >= 2 && w < |Exec(Init(slots, nthreads), acts).workers|
    requires var s := Exec(Init(slots, nthreads), acts); !s.stop && s.tail == |s.pushed| && Begins(s.workers[w])
    ensures var s := Exec(Init(slots, nthreads), acts);
            var r := Solo(s, w, k);
            && r == s.(workers := s.workers[w := r.workers[w]])
            && (r.workers[w].pc.Asleep? <==> k >= 16393)
            && (r.workers[w].pc.Asleep? ==> r.workers[w].pc.observed == s.epoch)
  {
    RunInv(slots, nthreads, acts);
    var s := Exec(Init(slots, nthreads), acts);
    StampMeaning(s, s.tail);
    SleepsAt(s, w, k);
    SleeperSees(s, w, k);
  }

  lemma {:induction false} SleeperSees<T>(s: State<T>, w: nat, k: nat)
    requires WellFormed(s) && w < |s.workers| && Drowsy(s, w)
    ensures Drowsy(Solo(s, w, k), w)
    decreases k
  {
    DrowsyStep(s, w);
    if k > 0 { SleeperSees(WorkerStep(s, w, false), w, k - 1); }
  }

  /** In every run the epoch is the number of tasks pushed, but for a push or a stop that is not yet announced. */
  lemma EpochCounts<T>(slots: seq<T>, nthreads: nat, acts: seq<Act<T>>)
    requires HasSingleBit(|slots|)
    ensures var s := Exec(Init(slots, nthreads), acts);
            && (s.producer.Idle? || s.producer.Waiting? ==> s.epoch == |s.pushed|)
            && (s.producer.Joining? ==> s.epoch == |s.pushed| + 1)
  {
    CountersOf(slots, nthreads, acts);
  }
}
