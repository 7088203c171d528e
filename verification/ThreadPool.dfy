/**
The work-sharing pool as a state machine: one producer thread, any number of workers, and the
stamped single-producer ring between them. Every shared-memory access of the source is one atomic
step; an `Act` names the thread that moves and resolves the choices the hardware or the client makes
(which task to enqueue, whether a weak compare-and-swap fails spuriously, which sleeper a notify
picks, whether a sleeper wakes on its own). A run is any finite sequence of acts.

The last four fields of `State` are history: they record what happened and steer nothing.
 */
module ThreadPool {
  import opened Bits

  const IDLE_SPIN: nat := 4096

  /** Which of the two `try_pop` calls of the worker loop is in progress. */
  datatype Look = Scan | LastLook(observed: nat)

  datatype WorkerPc<T> =
    | LoadTail(look: Look)
    | CheckStamp(look: Look, pos: nat)
    | Claim(look: Look, pos: nat)
    | ReadSlot(pos: nat)
    | Release(pos: nat, task: T)
    | Run(pos: nat, task: T)
    | Finish(pos: nat)
    | CheckStop(look: Look)
    | Spin
    | LoadEpoch
    | WaitEpoch(observed: nat)
    | Asleep(observed: nat)
    | Exited

  datatype Worker<T> = Worker(pc: WorkerPc<T>, idle: nat)

  datatype ProducerPc<T> =
    | Idle
    | LoadHead(task: T)
    | CheckFree(task: T, pos: nat)
    | WriteSlot(task: T, pos: nat)
    | Publish(task: T, pos: nat)
    | AdvanceHead(pos: nat)
    | BumpEpoch
    | Notify
    | Undo
    | Waiting
    | StopEpoch
    | StopNotify
    | Joining

  datatype Call<T> = Enqueue(task: T) | WaitAll | Destroy

  datatype Act<T> = ProducerAct(call: Call<T>, pick: nat) | WorkerAct(w: nat, spurious: bool)

  datatype State<T> = State(
    slots: seq<T>, stamps: seq<nat>, head: nat, tail: nat,
    pending: int, epoch: nat, stop: bool,
    producer: ProducerPc<T>, accepted: bool, workers: seq<Worker<T>>,
    pushed: seq<T>,          // every published task; the index is its ring position
    claims: seq<nat>,        // claims[k] is the worker that claimed position k
    runs: seq<(nat, T)>,     // finished task calls, in order of completion
    done: set<nat>)          // positions whose pending count has been given back

  /** What the constructor's size check leaves true for ever. */
  predicate WellFormed<T>(s: State<T>)
  {
    HasSingleBit(|s.slots|) && |s.stamps| == |s.slots|
  }

  /** The slot of a ring position: the low bits of the position. */
  function SlotOf(pos: nat, n: nat): (r: nat)
    requires HasSingleBit(n)
    ensures r == pos % n && r < n
  {
    MaskIsRemainder(pos, n);
    And(pos, n - 1)
  }

  /** A fresh pool: stamp `i` in slot `i`, every worker at the top of its loop. */
  function Init<T>(slots: seq<T>, nthreads: nat): (s: State<T>)
    requires HasSingleBit(|slots|)
    ensures WellFormed(s)
  {
    State(slots, seq(|slots|, i => i), 0, 0, 0, 0, false, Idle, false,
          seq(nthreads, i => Worker(LoadTail(Scan), 0)), [], [], [], {})
  }

  /** Whether the compare-and-swap of `tail` in this step succeeds. */
  predicate Claims<T>(s: State<T>, w: nat, spurious: bool)
    requires w < |s.workers|
  {
    s.workers[w].pc.Claim? && s.tail == s.workers[w].pc.pos && !spurious
  }

  /** Where worker `w` stands after its next atomic step. */
  function Moved<T>(s: State<T>, w: nat, spurious: bool): Worker<T>
    requires WellFormed(s) && w < |s.workers|
  {
    var n, idle := |s.slots|, s.workers[w].idle;
    match s.workers[w].pc
    case LoadTail(look) => Worker(CheckStamp(look, s.tail), idle)
    case CheckStamp(look, pos) =>
      Worker(if s.stamps[SlotOf(pos, n)] != pos + 1 then CheckStop(look) else Claim(look, pos), idle)
    case Claim(look, pos) =>
      Worker(if Claims(s, w, spurious) then ReadSlot(pos) else CheckStamp(look, s.tail), idle)
    case ReadSlot(pos) => Worker(Release(pos, s.slots[SlotOf(pos, n)]), idle)
    case Release(pos, task) => Worker(Run(pos, task), 0)
    case Run(pos, task) => Worker(Finish(pos), idle)
    case Finish(pos) => Worker(LoadTail(Scan), idle)
    case CheckStop(look) =>
      Worker(if s.stop then Exited else if look.Scan? then Spin else WaitEpoch(look.observed), idle)
    case Spin => Worker(if idle < IDLE_SPIN then LoadTail(Scan) else LoadEpoch, idle + 1)
    case LoadEpoch => Worker(LoadTail(LastLook(s.epoch)), idle)
    case WaitEpoch(observed) =>
      if s.epoch != observed then Worker(LoadTail(Scan), 0) else Worker(Asleep(observed), idle)
    case Asleep(observed) => Worker(if spurious then WaitEpoch(observed) else Asleep(observed), idle)
    case Exited => s.workers[w]
  }

  /** What that step does to the memory the threads share. */
  function Effect<T>(s: State<T>, w: nat, spurious: bool): State<T>
    requires WellFormed(s) && w < |s.workers|
  {
    match s.workers[w].pc
    case Claim(_, pos) =>
      if Claims(s, w, spurious) then s.(tail := pos + 1, claims := s.claims + [w]) else s
    case Release(pos, _) =>
      s.(stamps := s.stamps[SlotOf(pos, |s.slots|) := pos + |s.slots|])
    case Run(pos, task) => s.(runs := s.runs + [(pos, task)])
    case Finish(pos) => s.(pending := s.pending - 1, done := s.done + {pos})
    case _ => s
  }

  /** One atomic step of worker `w`. */
  function WorkerStep<T>(s: State<T>, w: nat, spurious: bool): (r: State<T>)
    requires WellFormed(s) && w < |s.workers|
    ensures WellFormed(r)
  {
    Effect(s, w, spurious).(workers := s.workers[w := Moved(s, w, spurious)])
  }

  function Woken<T>(worker: Worker<T>): Worker<T>
  {
    if worker.pc.Asleep? then worker.(pc := WaitEpoch(worker.pc.observed)) else worker
  }

  /** The first sleeper at or after `from`, or `|ws|`. */
  function FirstAsleep<T>(ws: seq<Worker<T>>, from: nat): (r: nat)
    requires from <= |ws|
    ensures from <= r <= |ws|
    ensures r < |ws| ==> ws[r].pc.Asleep?
    ensures forall i :: from <= i < r ==> !ws[i].pc.Asleep?
    decreases |ws| - from
  {
    if from == |ws| || ws[from].pc.Asleep? then from else FirstAsleep(ws, from + 1)
  }

  /** Wake the sleeper the scheduler picks; some sleeper is woken whenever there is one. */
  function NotifyOne<T>(ws: seq<Worker<T>>, pick: nat): (r: seq<Worker<T>>)
    ensures |r| == |ws|
  {
    var i := if pick < |ws| && ws[pick].pc.Asleep? then pick else FirstAsleep(ws, 0);
    if i < |ws| then ws[i := Woken(ws[i])] else ws
  }

  function NotifyAll<T>(ws: seq<Worker<T>>): (r: seq<Worker<T>>)
    ensures |r| == |ws|
  {
    seq(|ws|, i requires 0 <= i < |ws| => Woken(ws[i]))
  }

  /** One atomic step of the thread that owns the pool. */
  function ProducerStep<T>(s: State<T>, call: Call<T>, pick: nat): (r: State<T>)
    requires WellFormed(s)
    ensures WellFormed(r)
  {
    var n := |s.slots|;
    match s.producer
    case Idle => (
      match call
      case Enqueue(task) => s.(pending := s.pending + 1, producer := LoadHead(task))
      case WaitAll => s.(producer := Waiting)
      case Destroy => s.(stop := true, producer := StopEpoch))
    case LoadHead(task) => s.(producer := CheckFree(task, s.head))
    case CheckFree(task, pos) =>
      s.(producer := if s.stamps[SlotOf(pos, n)] != pos then Undo else WriteSlot(task, pos))
    case WriteSlot(task, pos) =>
      s.(slots := s.slots[SlotOf(pos, n) := task], producer := Publish(task, pos))
    case Publish(task, pos) =>
      s.(stamps := s.stamps[SlotOf(pos, n) := pos + 1], pushed := s.pushed + [task],
         producer := AdvanceHead(pos))
    case AdvanceHead(pos) => s.(head := pos + 1, producer := BumpEpoch)
    case BumpEpoch => s.(epoch := s.epoch + 1, producer := Notify)
    case Notify => s.(workers := NotifyOne(s.workers, pick), accepted := true, producer := Idle)
    case Undo => s.(pending := s.pending - 1, accepted := false, producer := Idle)
    case Waiting => if s.pending == 0 then s.(producer := Idle) else s
    case StopEpoch => s.(epoch := s.epoch + 1, producer := StopNotify)
    case StopNotify => s.(workers := NotifyAll(s.workers), producer := Joining)
    case Joining => s
  }

  function Step<T>(s: State<T>, act: Act<T>): (r: State<T>)
    requires WellFormed(s)
    ensures WellFormed(r)
  {
    match act
    case ProducerAct(call, pick) => ProducerStep(s, call, pick)
    case WorkerAct(w, spurious) => if w < |s.workers| then WorkerStep(s, w, spurious) else s
  }

  /** The state after a run. */
  function Exec<T>(s: State<T>, acts: seq<Act<T>>): (r: State<T>)
    requires WellFormed(s)
    ensures WellFormed(r)
  {
    if acts == [] then s
    else Step(Exec(s, acts[..|acts| - 1]), acts[|acts| - 1])
  }
}
