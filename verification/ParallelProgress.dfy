/** `parallel_for` can always return: from any reachable pool some run hands out every slice and finishes it. */
module ParallelProgress {
  import opened Bits
  import opened PoolInvariant
  import opened PoolTheorems
  import opened PoolProgress
  import TP = ThreadPool
  import PF = ParallelFor

  lemma {:induction false} ClientConcat(c: PF.Client, a: seq<TP.Act<PF.Slice>>, b: seq<TP.Act<PF.Slice>>)
    requires TP.WellFormed(c.pool)
    ensures PF.Exec(c, a + b) == PF.Exec(PF.Exec(c, a), b)
    decreases |b|
  {
    if b == [] {
      assert a + b == a;
    } else {
      var m := |b| - 1;
      ClientConcat(c, a, b[..m]);
      assert (a + b)[..|a + b| - 1] == a + b[..m];
    }
  }

  /** Steps of workers move the pool and nothing of the client. */
  lemma {:induction false} WorkersMovePool(c: PF.Client, acts: seq<TP.Act<PF.Slice>>)
    requires TP.WellFormed(c.pool) && WorkersOnly(acts)
    ensures PF.Exec(c, acts) == c.(pool := TP.Exec(c.pool, acts))
  {
    if acts != [] { WorkersMovePool(c, acts[..|acts| - 1]); }
  }

  /** A run of the client from `c` to `d`, within one call over the tasks pushed behind `base`. */
  ghost predicate Gets(c: PF.Client, acts: seq<TP.Act<PF.Slice>>, d: PF.Client, base: seq<PF.Slice>)
    requires TP.WellFormed(c.pool)
  {
    && d == PF.Exec(c, acts) && PF.ClientOk(d, base)
    && d.total == c.total && d.n == c.n && |d.pool.workers| == |c.pool.workers|
  }

  lemma GetsOn(c: PF.Client, a: seq<TP.Act<PF.Slice>>, x: PF.Client, b: seq<TP.Act<PF.Slice>>, d: PF.Client,
               base: seq<PF.Slice>)
    requires TP.WellFormed(c.pool) && Gets(c, a, x, base) && Gets(x, b, d, base)
    ensures Gets(c, a + b, d, base)
  {
    ClientConcat(c, a, b);
  }

  lemma GetsStep(c: PF.Client, base: seq<PF.Slice>) returns (acts: seq<TP.Act<PF.Slice>>)
    requires PF.ClientOk(c, base)
    ensures Gets(c, acts, PF.ClientStep(c, 0), base)
  {
    acts := [TP.ProducerAct(TP.WaitAll, 0)];
    assert acts[..0] == [];
    PF.ClientStepInv(c, 0);
    PF.ClientStepProgress(c, base, 0);
    ClientShape(c);
  }

  lemma ClientShape(c: PF.Client)
    requires TP.WellFormed(c.pool)
    ensures |PF.ClientStep(c, 0).pool.workers| == |c.pool.workers|
  {
    ProducerShape(c.pool, TP.WaitAll, 0);
    if c.n > 0 { ProducerShape(c.pool, TP.Enqueue(PF.SliceAt(c.total, PF.SliceSize(c.total, c.n), c.i)), 0); }
  }

  /** The workers can first run everything that is in the ring. */
  lemma GetsDrained(c: PF.Client, base: seq<PF.Slice>) returns (acts: seq<TP.Act<PF.Slice>>, d: PF.Client)
    requires PF.ClientOk(c, base) && |c.pool.workers| > 0 && (c.phase.Looping? || c.phase.Joining?)
    ensures Gets(c, acts, d, base) && AllRan(d.pool) && d == c.(pool := d.pool)
  {
    var x;
    acts, x := Drains(c.pool);
    WorkersMovePool(c, acts);
    PF.ExecOk(c, base, acts);
    d := PF.Exec(c, acts);
  }

  lemma DrainedHasRoom(s: TP.State<PF.Slice>)
    requires Inv(s) && AllRan(s)
    ensures Room(s)
  {
    if |s.pushed| >= |s.slots| {
      var p := |s.pushed| - |s.slots|;
      assert HasRun(s, p);
      var i :| 0 <= i < |s.runs| && s.runs[i].0 == p;
      assert Ran(s, s.runs[i].0);
      assert !Busy(s.workers[s.claims[p]], p);
    }
  }

  /** The call of `enqueue` is under way and will be accepted. */
  ghost predicate Welcome(c: PF.Client, before: seq<PF.Slice>, task: PF.Slice)
  {
    && c.phase.Enqueuing? && !c.pool.producer.Idle?
    && ((Asking(c.pool, before, task) && Room(c.pool)) || Granted(c.pool, before, task))
  }

  lemma WelcomeStep(c: PF.Client, before: seq<PF.Slice>, task: PF.Slice)
    requires Inv(c.pool) && Welcome(c, before, task)
    ensures var d := PF.ClientStep(c, 0);
            if d.pool.producer.Idle? then d.phase.Looping? && d.i == c.i + 1
            else d.i == c.i && Welcome(d, before, task) && Left(d.pool.producer) < Left(c.pool.producer)
  {
    var act := TP.ProducerAct(TP.WaitAll, 0);
    StageKept(c.pool, act, before, task);
    LeftFalls(c.pool, act);
    if Asking(c.pool, before, task) {
      if c.pool.producer.CheckFree? {
        CheckDecides(c.pool, TP.WaitAll, 0, before, task);
      } else {
        RoomAfterAsking(c.pool, act);
      }
    }
  }

  lemma {:induction false} GetsAccepted(c: PF.Client, base: seq<PF.Slice>, before: seq<PF.Slice>, task: PF.Slice)
    returns (acts: seq<TP.Act<PF.Slice>>, d: PF.Client)
    requires PF.ClientOk(c, base) && Welcome(c, before, task)
    ensures Gets(c, acts, d, base) && d.phase.Looping? && d.i == c.i + 1
    decreases Left(c.pool.producer)
  {
    WelcomeStep(c, before, task);
    acts := GetsStep(c, base);
    d := PF.ClientStep(c, 0);
    if !d.pool.producer.Idle? {
      var rest, e := GetsAccepted(d, base, before, task);
      GetsOn(c, acts, d, rest, e, base);
      acts, d := acts + rest, e;
    }
  }

  lemma BeginsEnqueue(c: PF.Client, base: seq<PF.Slice>)
    requires PF.ClientOk(c, base) && c.phase.Looping? && c.i < |PF.Plan(c)| && Room(c.pool)
    ensures PF.ClientStep(c, 0).i == c.i && Welcome(PF.ClientStep(c, 0), c.pool.pushed, PF.Plan(c)[c.i])
  {
    PF.LoopGuard(c);
    RoomAfterAsking(c.pool, TP.ProducerAct(TP.Enqueue(PF.Plan(c)[c.i]), 0));
  }

  /** One more slice can be handed out. */
  lemma GetsNextSlice(c: PF.Client, base: seq<PF.Slice>) returns (acts: seq<TP.Act<PF.Slice>>, d: PF.Client)
    requires PF.ClientOk(c, base) && |c.pool.workers| > 0 && c.phase.Looping? && c.i < |PF.Plan(c)|
    ensures Gets(c, acts, d, base) && d.phase.Looping? && d.i == c.i + 1
  {
    var first, x := GetsDrained(c, base);
    DrainedHasRoom(x.pool);
    BeginsEnqueue(x, base);
    var start := GetsStep(x, base);
    GetsOn(c, first, x, start, PF.ClientStep(x, 0), base);
    var rest;
    rest, d := GetsAccepted(PF.ClientStep(x, 0), base, x.pool.pushed, PF.Plan(c)[c.i]);
    GetsOn(c, first + start, PF.ClientStep(x, 0), rest, d, base);
    acts := first + start + rest;
  }

  lemma {:induction false} GetsAllSlices(c: PF.Client, base: seq<PF.Slice>)
    returns (acts: seq<TP.Act<PF.Slice>>, d: PF.Client)
    requires PF.ClientOk(c, base) && |c.pool.workers| > 0 && c.phase.Looping?
    ensures Gets(c, acts, d, base) && d.phase.Looping? && d.i == |PF.Plan(c)|
    decreases |PF.Plan(c)| - c.i
  {
    if c.i == |PF.Plan(c)| {
      acts, d := [], c;
    } else {
      var first, x := GetsNextSlice(c, base);
      var rest;
      rest, d := GetsAllSlices(x, base);
      GetsOn(c, first, x, rest, d, base);
      acts := first + rest;
    }
  }

  lemma GetsHome(c: PF.Client, base: seq<PF.Slice>) returns (acts: seq<TP.Act<PF.Slice>>, d: PF.Client)
    requires PF.ClientOk(c, base) && |c.pool.workers| > 0 && c.phase.Looping? && c.i == |PF.Plan(c)|
    ensures Gets(c, acts, d, base) && d.phase.Returned?
  {
    PF.LoopGuard(c);
    var start := GetsStep(c, base);
    var x := PF.ClientStep(c, 0);
    var work, y := GetsDrained(x, base);
    GetsOn(c, start, x, work, y, base);
    RanMeansDone(y.pool);
    var last := GetsStep(y, base);
    d := PF.ClientStep(y, 0);
    GetsOn(c, start + work, y, last, d, base);
    acts := start + work + last;
  }

  lemma GetsReturned(c: PF.Client, base: seq<PF.Slice>) returns (acts: seq<TP.Act<PF.Slice>>, d: PF.Client)
    requires PF.ClientOk(c, base) && (c.n > 1 ==> |c.pool.workers| > 0) && c.phase.Start?
    ensures Gets(c, acts, d, base) && d.phase.Returned?
  {
    acts := GetsStep(c, base);
    d := PF.ClientStep(c, 0);
    if c.n > 1 {
      var slices, x := GetsAllSlices(d, base);
      var end, y := GetsHome(x, base);
      GetsOn(c, acts, d, slices, x, base);
      GetsOn(c, acts + slices, x, end, y, base);
      acts, d := acts + slices + end, y;
    }
  }

  /**
  From every reachable pool outside a call, for every total and task count, some run of `parallel_for`
  returns, and has then handled each index exactly once. There are as many slices as the least of threads,
  tasks and indices asks for, and from two on each of them goes through the ring.
   */
  lemma ParallelForReturns(slots: seq<PF.Slice>, nthreads: nat, before: seq<TP.Act<PF.Slice>>, total: nat, taskCount: nat)
    returns (acts: seq<TP.Act<PF.Slice>>)
    requires HasSingleBit(|slots|) && |slots| >= 2
    requires TP.Exec(TP.Init(slots, nthreads), before).producer.Idle?
    ensures var pool := TP.Exec(TP.Init(slots, nthreads), before);
            var c := PF.Exec(PF.Begin(pool, total, taskCount), acts);
            && c.n <= nthreads && c.n <= taskCount && c.n <= total && c.n in {nthreads, taskCount, total}
            && c.phase.Returned? && PF.ExactCover(PF.Finished(c, |pool.pushed|), total)
            && (c.n > 1 ==> c.pool.pushed == pool.pushed + PF.Slices(total, c.n, PF.SliceSize(total, c.n), 0))
  {
    RunInv(slots, nthreads, before);
    var pool := TP.Exec(TP.Init(slots, nthreads), before);
    var c0 := PF.Begin(pool, total, taskCount);
    var d;
    acts, d := GetsReturned(c0, pool.pushed);
    PF.CoveredAtReturn(d, pool.pushed);
  }
}
