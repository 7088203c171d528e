/**
`parallel_for`: the client program that the pool's owner runs. Its steps interleave with every step
of every worker; the slices it hands out are tasks `(lo, hi)`.
 */
module ParallelFor {
  import opened Bits
  import opened Machine
  import opened ThreadPool
  import opened PoolInvariant
  import opened PoolTheorems

  type Slice = (nat, nat)

  /** How many slices are wanted: no more than threads, requested tasks or indices. */
  function SliceCount(nthreads: nat, taskCount: nat, total: nat): nat
  {
    Min(Min(nthreads, taskCount), total)
  }

  function SliceSize(total: nat, n: nat): nat
    requires n > 0
  {
    (total + n - 1) / n
  }

  function SliceAt(total: nat, sz: nat, i: nat): Slice
  {
    (i * sz, if i * sz + sz < total then i * sz + sz else total)
  }

  /** The slices the loop hands out from index `i` on. */
  function Slices(total: nat, n: nat, sz: nat, i: nat): (r: seq<Slice>)
    decreases n - i
  {
    if i < n && i * sz < total then [SliceAt(total, sz, i)] + Slices(total, n, sz, i + 1) else []
  }

  datatype Phase = Start | Looping | Enqueuing | Joining | Returned

  datatype Client = Client(pool: State<Slice>, total: nat, n: nat, i: nat, phase: Phase,
                           inline: seq<(nat, Slice)>)

  function Begin(pool: State<Slice>, total: nat, taskCount: nat): Client
  {
    Client(pool, total, SliceCount(|pool.workers|, taskCount, total), 0, Start, [])
  }

  /** One step of the thread inside `parallel_for`. */
  function ClientStep(c: Client, pick: nat): (r: Client)
    requires WellFormed(c.pool)
    ensures WellFormed(r.pool)
  {
    match c.phase
    case Start =>
      if c.n <= 1 then c.(inline := [(0, (0, c.total))], phase := Returned) else c.(phase := Looping)
    case Looping =>
      if c.n > 0 && c.i < c.n && c.i * SliceSize(c.total, c.n) < c.total then
        c.(pool := ProducerStep(c.pool, Enqueue(SliceAt(c.total, SliceSize(c.total, c.n), c.i)), pick),
           phase := Enqueuing)
      else c.(pool := ProducerStep(c.pool, WaitAll, pick), phase := Phase.Joining)
    case Enqueuing =>
      var p := ProducerStep(c.pool, WaitAll, pick);
      if p.producer.Idle? then c.(pool := p, i := if p.accepted then c.i + 1 else c.i, phase := Looping)
      else c.(pool := p)
    case Joining =>
      var p := ProducerStep(c.pool, WaitAll, pick);
      c.(pool := p, phase := if p.producer.Idle? then Returned else Phase.Joining)
    case Returned => c
  }

  function Step(c: Client, act: Act<Slice>): (r: Client)
    requires WellFormed(c.pool)
    ensures WellFormed(r.pool)
  {
    match act
    case ProducerAct(_, pick) => ClientStep(c, pick)
    case WorkerAct(_, _) => c.(pool := ThreadPool.Step(c.pool, act))
  }

  function Exec(c: Client, acts: seq<Act<Slice>>): (r: Client)
    requires WellFormed(c.pool)
    ensures WellFormed(r.pool)
  {
    if acts == [] then c else Step(Exec(c, acts[..|acts| - 1]), acts[|acts| - 1])
  }

  // ---- the slices partition the range -----------------------------------------------------

  lemma {:induction false} SliceEntry(total: nat, n: nat, sz: nat, i: nat, k: nat)
    requires i <= n && k < |Slices(total, n, sz, i)|
    ensures Slices(total, n, sz, i)[k] == SliceAt(total, sz, i + k) && i + k < n && (i + k) * sz < total
    decreases n - i
  {
    if k > 0 { SliceEntry(total, n, sz, i + 1, k - 1); }
  }

  lemma {:induction false} SlicesReach(total: nat, n: nat, sz: nat, i: nat, k: nat)
    requires i <= k < n && k * sz < total
    ensures k - i < |Slices(total, n, sz, i)|
    decreases n - i
  {
    MulMonotone(i, k, sz);
    if i < k { SlicesReach(total, n, sz, i + 1, k); }
  }

  lemma SliceSizeCovers(total: nat, n: nat)
    requires n > 0 && total > 0
    ensures SliceSize(total, n) > 0 && n * SliceSize(total, n) >= total
  {
    var sz := SliceSize(total, n);
    assert total + n - 1 == n * sz + (total + n - 1) % n;
  }

  lemma MulMonotone(a: nat, b: nat, c: nat)
    requires a <= b
    ensures a * c <= b * c
  {
  }

  predicate Covers(slice: Slice, x: nat)
  {
    slice.0 <= x < slice.1
  }

  /** The slice that holds index `x` is found by division, and it is the only one. */
  lemma SlicesPartition(total: nat, n: nat, x: nat)
    requires n > 0 && x < total
    ensures var ss := Slices(total, n, SliceSize(total, n), 0);
            var k := x / SliceSize(total, n);
            && k < |ss| && Covers(ss[k], x)
            && forall j :: 0 <= j < |ss| && Covers(ss[j], x) ==> j == k
  {
    SliceSizeCovers(total, n);
    var sz := SliceSize(total, n);
    var ss := Slices(total, n, sz, 0);
    var k := x / sz;
    assert x == sz * k + x % sz;
    assert k < n by {
      if k >= n { MulMonotone(n, k, sz); }
    }
    SlicesReach(total, n, sz, 0, k);
    SliceEntry(total, n, sz, 0, k);
    forall j | 0 <= j < |ss| && Covers(ss[j], x) ensures j == k {
      SliceEntry(total, n, sz, 0, j);
      DivModUnique(x, sz, j, x - j * sz);
    }
  }

  // ---- every run of parallel_for ----------------------------------------------------------

  /** All slices of the call. */
  function Plan(c: Client): seq<Slice>
  {
    if c.n > 1 then Slices(c.total, c.n, SliceSize(c.total, c.n), 0) else []
  }

  /** Tasks the ring has accepted since the call began, by phase and producer position. */
  predicate Handed(c: Client, base: seq<Slice>, k: nat)
  {
    k <= |Plan(c)| && c.pool.pushed == base + Plan(c)[..k]
  }

  predicate EnqueuingOk(c: Client, base: seq<Slice>)
  {
    c.i < |Plan(c)| &&
    match c.pool.producer
    case LoadHead(t) => t == Plan(c)[c.i] && Handed(c, base, c.i)
    case CheckFree(t, _) => t == Plan(c)[c.i] && Handed(c, base, c.i)
    case WriteSlot(t, _) => t == Plan(c)[c.i] && Handed(c, base, c.i)
    case Publish(t, _) => t == Plan(c)[c.i] && Handed(c, base, c.i)
    case Undo => Handed(c, base, c.i)
    case AdvanceHead(_) => Handed(c, base, c.i + 1)
    case BumpEpoch => Handed(c, base, c.i + 1)
    case Notify => Handed(c, base, c.i + 1)
    case _ => false
  }

  predicate Progress(c: Client, base: seq<Slice>)
  {
    && (c.phase.Returned? && c.n <= 1 ==> c.inline == [(0, (0, c.total))] && c.pool.pushed == base)
    && (!c.phase.Returned? || c.n > 1 ==> c.inline == [])
    && match c.phase
       case Start => c.pool.producer.Idle? && c.pool.pushed == base && c.i == 0
       case Looping => c.n > 1 && c.pool.producer.Idle? && Handed(c, base, c.i)
       case Enqueuing => c.n > 1 && EnqueuingOk(c, base)
       case Joining => c.n > 1 && c.pool.producer.Waiting? && Handed(c, base, |Plan(c)|)
       case Returned => c.n > 1 ==> Handed(c, base, |Plan(c)|) && c.pool.producer.Idle? && c.pool.pending == 0
  }

  ghost predicate ClientOk(c: Client, base: seq<Slice>)
  {
    Inv(c.pool) && Progress(c, base)
  }

  lemma LoopGuard(c: Client)
    requires c.n > 1 && c.i <= |Plan(c)|
    ensures c.i < c.n && c.i * SliceSize(c.total, c.n) < c.total <==> c.i < |Plan(c)|
    ensures c.i < |Plan(c)| ==> Plan(c)[c.i] == SliceAt(c.total, SliceSize(c.total, c.n), c.i)
  {
    var sz := SliceSize(c.total, c.n);
    if c.i < |Plan(c)| {
      SliceEntry(c.total, c.n, sz, 0, c.i);
    } else if c.i < c.n && c.i * sz < c.total {
      SlicesReach(c.total, c.n, sz, 0, c.i);
    }
  }

  lemma EnqueueStepProgress(c: Client, base: seq<Slice>, pick: nat)
    requires WellFormed(c.pool) && Progress(c, base) && c.phase.Enqueuing?
    ensures Progress(ClientStep(c, pick), base)
  {
    assert base + Plan(c)[..c.i + 1] == (base + Plan(c)[..c.i]) + [Plan(c)[c.i]];
  }

  lemma ClientStepProgress(c: Client, base: seq<Slice>, pick: nat)
    requires WellFormed(c.pool) && Progress(c, base)
    ensures Progress(ClientStep(c, pick), base)
  {
    if c.phase.Enqueuing? {
      EnqueueStepProgress(c, base, pick);
    } else if c.phase.Looping? {
      LoopGuard(c);
    } else if c.phase.Start? {
      assert base + Plan(c)[..0] == base;
    }
  }

  lemma ClientStepInv(c: Client, pick: nat)
    requires Inv(c.pool)
    ensures Inv(ClientStep(c, pick).pool)
  {
    StepInv(c.pool, ProducerAct(WaitAll, pick));
    if c.n > 0 {
      StepInv(c.pool, ProducerAct(Enqueue(SliceAt(c.total, SliceSize(c.total, c.n), c.i)), pick));
    }
  }

  lemma WorkerLeavesClient(s: State<Slice>, w: nat, spurious: bool)
    requires WellFormed(s)
    ensures var r := ThreadPool.Step(s, WorkerAct(w, spurious));
            && r.pushed == s.pushed && r.producer == s.producer
            && (r.pending == s.pending || (w < |s.workers| && s.workers[w].pc.Finish?))
  {
  }

  /** Once the call has returned, the workers find nothing of it left to finish. */
  lemma WorkerStepOk(c: Client, base: seq<Slice>, w: nat, spurious: bool)
    requires ClientOk(c, base)
    ensures ClientOk(Step(c, WorkerAct(w, spurious)), base)
  {
    StepInv(c.pool, WorkerAct(w, spurious));
    WorkerLeavesClient(c.pool, w, spurious);
    PendingMeaning(c.pool);
    assert w < |c.pool.workers| && c.pool.workers[w].pc.Finish? ==>
        Busy(c.pool.workers[w], c.pool.workers[w].pc.pos);
  }

  lemma {:induction false} ExecOk(c: Client, base: seq<Slice>, acts: seq<Act<Slice>>)
    requires ClientOk(c, base)
    ensures ClientOk(Exec(c, acts), base)
    ensures Exec(c, acts).total == c.total && Exec(c, acts).n == c.n
  {
    if acts != [] {
      var m := |acts| - 1;
      ExecOk(c, base, acts[..m]);
      var d := Exec(c, acts[..m]);
      match acts[m]
      case ProducerAct(_, pick) =>
        ClientStepInv(d, pick);
        ClientStepProgress(d, base, pick);
      case WorkerAct(w, spurious) =>
        WorkerStepOk(d, base, w, spurious);
    }
  }

  /** The calls among `runs` that belong to positions from `base` on, in order of completion. */
  function Since(runs: seq<(nat, Slice)>, base: nat): (r: seq<(nat, Slice)>)
    ensures forall k :: 0 <= k < |r| ==> r[k] in runs && r[k].0 >= base
    ensures forall i :: 0 <= i < |runs| && runs[i].0 >= base ==> runs[i] in r
  {
    if runs == [] then []
    else
      var m := |runs| - 1;
      assert runs == runs[..m] + [runs[m]];
      Since(runs[..m], base) + (if runs[m].0 >= base then [runs[m]] else [])
  }

  lemma {:induction false} SinceDistinct(runs: seq<(nat, Slice)>, base: nat)
    requires forall i, j :: 0 <= i < j < |runs| ==> runs[i].0 != runs[j].0
    ensures forall i, j :: 0 <= i < j < |Since(runs, base)| ==> Since(runs, base)[i].0 != Since(runs, base)[j].0
  {
    if runs != [] {
      var m := |runs| - 1;
      var q, r := Since(runs[..m], base), Since(runs, base);
      SinceDistinct(runs[..m], base);
      forall i, j | 0 <= i < j < |r| ensures r[i].0 != r[j].0 {
        assert r[i] == q[i] && q[i] in runs[..m];
      }
    }
  }

  /** The slice calls of this `parallel_for` that have finished, in order of completion. */
  function Finished(c: Client, base: nat): seq<(nat, Slice)>
  {
    c.inline + Since(c.pool.runs, base)
  }

  ghost predicate Handled(calls: seq<(nat, Slice)>, x: nat)
  {
    exists k :: 0 <= k < |calls| && Covers(calls[k].1, x)
  }

  /** Every index below `total` is handled by exactly one of the calls, and none is handled beyond. */
  ghost predicate ExactCover(calls: seq<(nat, Slice)>, total: nat)
  {
    && (forall k :: 0 <= k < |calls| ==> calls[k].1.1 <= total)
    && (forall x: nat :: x < total ==> Handled(calls, x))
    && (forall x: nat, j, k :: (0 <= j < |calls| && 0 <= k < |calls|
                                && Covers(calls[j].1, x) && Covers(calls[k].1, x)) ==> j == k)
  }

  ghost predicate Present(calls: seq<(nat, Slice)>, p: nat)
  {
    exists k :: 0 <= k < |calls| && calls[k].0 == p
  }

  predicate Planned(plan: seq<Slice>, base: nat, call: (nat, Slice))
  {
    base <= call.0 < base + |plan| && call.1 == plan[call.0 - base]
  }

  /** Calls at distinct positions whose tasks are the planned slices, with no position missing. */
  ghost predicate CallsOf(plan: seq<Slice>, base: nat, calls: seq<(nat, Slice)>)
  {
    && (forall k :: 0 <= k < |calls| ==> Planned(plan, base, calls[k]))
    && (forall i, j :: 0 <= i < j < |calls| ==> calls[i].0 != calls[j].0)
    && (forall p: nat :: base <= p < base + |plan| ==> Present(calls, p))
  }

  lemma PlanCover(total: nat, n: nat, base: nat, calls: seq<(nat, Slice)>)
    requires n > 1 && CallsOf(Slices(total, n, SliceSize(total, n), 0), base, calls)
    ensures ExactCover(calls, total)
  {
    var sz := SliceSize(total, n);
    forall k | 0 <= k < |calls| ensures calls[k].1.1 <= total {
      assert Planned(Slices(total, n, sz, 0), base, calls[k]);
      SliceEntry(total, n, sz, 0, calls[k].0 - base);
    }
    forall x: nat | x < total ensures Handled(calls, x) {
      SlicesPartition(total, n, x);
      assert Present(calls, base + x / sz);
      var k :| 0 <= k < |calls| && calls[k].0 == base + x / sz;
      assert Covers(calls[k].1, x);
    }
    forall x: nat, j, k | 0 <= j < |calls| && 0 <= k < |calls|
        && Covers(calls[j].1, x) && Covers(calls[k].1, x) ensures j == k {
      SlicesPartition(total, n, x);
      assert calls[j].0 - base == calls[k].0 - base;
    }
  }

  lemma CallIsPlanned(s: State<Slice>, base: seq<Slice>, plan: seq<Slice>, call: (nat, Slice))
    requires RightTask(s) && s.pushed == base + plan && call in s.runs && call.0 >= |base|
    ensures Planned(plan, |base|, call)
  {
    var i :| 0 <= i < |s.runs| && s.runs[i] == call;
  }

  lemma RunIsPresent(s: State<Slice>, base: nat, p: nat)
    requires AllRan(s) && base <= p < |s.pushed|
    ensures Present(Since(s.runs, base), p)
  {
    assert HasRun(s, p);
    var i :| 0 <= i < |s.runs| && s.runs[i].0 == p;
    assert s.runs[i] in Since(s.runs, base);
  }

  lemma RunsAreCalls(s: State<Slice>, base: seq<Slice>, plan: seq<Slice>)
    requires RightTask(s) && RunsDistinct(s) && AllRan(s) && s.pushed == base + plan
    ensures CallsOf(plan, |base|, Since(s.runs, |base|))
  {
    var calls := Since(s.runs, |base|);
    SinceDistinct(s.runs, |base|);
    forall k | 0 <= k < |calls| ensures Planned(plan, |base|, calls[k]) {
      CallIsPlanned(s, base, plan, calls[k]);
    }
    forall p: nat | |base| <= p < |base| + |plan| ensures Present(calls, p) {
      RunIsPresent(s, |base|, p);
    }
  }

  lemma {:induction false} NothingSince(runs: seq<(nat, Slice)>, base: nat)
    requires forall i :: 0 <= i < |runs| ==> runs[i].0 < base
    ensures Since(runs, base) == []
  {
    if runs != [] { NothingSince(runs[..|runs| - 1], base); }
  }

  /**
  `parallel_for` returns only when every index of the range has been handled by exactly one finished
  slice call: for every total, task count, pool size, earlier life of the pool and interleaving.
   */
  lemma ReturnsWhenCovered(slots: seq<Slice>, nthreads: nat, before: seq<Act<Slice>>,
                           total: nat, taskCount: nat, acts: seq<Act<Slice>>)
    requires HasSingleBit(|slots|) && |slots| >= 2
    ensures var pool := ThreadPool.Exec(Init(slots, nthreads), before);
            var c := Exec(Begin(pool, total, taskCount), acts);
            pool.producer.Idle? && c.phase.Returned? ==> ExactCover(Finished(c, |pool.pushed|), total)
  {
    RunInv(slots, nthreads, before);
    var pool := ThreadPool.Exec(Init(slots, nthreads), before);
    var c0 := Begin(pool, total, taskCount);
    if pool.producer.Idle? {
      ExecOk(c0, pool.pushed, acts);
      if Exec(c0, acts).phase.Returned? {
        CoveredAtReturn(Exec(c0, acts), pool.pushed);
      }
    }
  }

  lemma CoveredAtReturn(c: Client, base: seq<Slice>)
    requires ClientOk(c, base) && c.phase.Returned?
    ensures ExactCover(Finished(c, |base|), c.total)
  {
    DeliveredOnce(c.pool);
    PendingMeaning(c.pool);
    if c.n > 1 {
      assert c.pool.pushed == base + Plan(c);
      RunsAreCalls(c.pool, base, Plan(c));
      assert Finished(c, |base|) == Since(c.pool.runs, |base|);
      PlanCover(c.total, c.n, |base|, Finished(c, |base|));
    } else {
      NothingSince(c.pool.runs, |base|);
      InlineCover(c.total);
      assert Finished(c, |base|) == [(0, (0, c.total))];
    }
  }

  lemma InlineCover(total: nat)
    ensures ExactCover([(0, (0, total))], total)
  {
    var calls: seq<(nat, Slice)> := [(0, (0, total))];
    forall x: nat | x < total ensures Handled(calls, x) {
      assert Covers(calls[0].1, x);
    }
  }
}
