/**
The inductive invariant of the pool. `RingOk` says what every stamp and every unreleased slot hold,
`CountOk` accounts for every position from claim to completion, and `WakeOk` is the sleep/wake
argument. Each is kept by every atomic step of every thread.
 */
module PoolInvariant {
  import opened Bits
  import opened ThreadPool

  /** The worker has claimed `pos` and not yet stamped its slot free. */
  predicate Holds<T>(worker: Worker<T>, pos: nat)
  {
    match worker.pc
    case ReadSlot(p) => p == pos
    case Release(p, _) => p == pos
    case _ => false
  }

  /** The worker has claimed `pos` and not yet given its pending count back. */
  predicate Busy<T>(worker: Worker<T>, pos: nat)
  {
    match worker.pc
    case ReadSlot(p) => p == pos
    case Release(p, _) => p == pos
    case Run(p, _) => p == pos
    case Finish(p) => p == pos
    case _ => false
  }

  /** Position `q` has been claimed, copied out and stamped free again. */
  predicate Released<T>(s: State<T>, q: nat)
    requires |s.claims| == s.tail
    requires forall k :: 0 <= k < |s.claims| ==> s.claims[k] < |s.workers|
  {
    q < s.tail && !Holds(s.workers[s.claims[q]], q)
  }

  ghost predicate Basic<T>(s: State<T>)
  {
    && WellFormed(s)
    && |s.claims| == s.tail <= |s.pushed| <= s.tail + |s.slots|
    && (forall k :: 0 <= k < |s.claims| ==> s.claims[k] < |s.workers|)
  }

  /** The slot that serves position `p` is free for it, or still holds what was pushed one lap behind. */
  ghost predicate WindowAt<T>(s: State<T>, p: nat)
    requires Basic(s) && |s.pushed| <= p < |s.pushed| + |s.slots|
  {
    var i := SlotOf(p, |s.slots|);
    if p < |s.slots| || Released(s, p - |s.slots|) then s.stamps[i] == p
    else s.stamps[i] == p - |s.slots| + 1 && s.slots[i] == s.pushed[p - |s.slots|]
  }

  ghost predicate Window<T>(s: State<T>)
    requires Basic(s)
  {
    forall p :: |s.pushed| <= p < |s.pushed| + |s.slots| ==> WindowAt(s, p)
  }

  ghost predicate ProducerOk<T>(s: State<T>)
    requires Basic(s)
  {
    var pub := |s.pushed|;
    && s.head == (if s.producer.AdvanceHead? then pub - 1 else pub)
    && match s.producer
       case CheckFree(_, pos) => pos == pub
       case WriteSlot(_, pos) => pos == pub && s.stamps[SlotOf(pub, |s.slots|)] == pub
       case Publish(task, pos) =>
         && pos == pub && s.stamps[SlotOf(pub, |s.slots|)] == pub
         && s.slots[SlotOf(pub, |s.slots|)] == task
       case AdvanceHead(pos) => pos == pub - 1
       case _ => true
  }

  /** A program counter that worker `w` may have in state `s`. */
  ghost predicate PcOk<T>(s: State<T>, w: nat, pc: WorkerPc<T>)
    requires Basic(s)
  {
    var pub, n := |s.pushed|, |s.slots|;
    match pc
    case CheckStamp(_, pos) => pos <= s.tail
    case Claim(_, pos) => pos <= s.tail && pos < pub
    case ReadSlot(pos) => pos < s.tail && s.claims[pos] == w && pub <= pos + n
    case Release(pos, task) =>
      pos < s.tail && s.claims[pos] == w && pub <= pos + n && task == s.pushed[pos]
    case Run(pos, task) => pos < s.tail && s.claims[pos] == w && task == s.pushed[pos]
    case Finish(pos) => pos < s.tail && s.claims[pos] == w
    case _ => true
  }

  ghost predicate WorkerOk<T>(s: State<T>, w: nat)
    requires Basic(s) && w < |s.workers|
  {
    PcOk(s, w, s.workers[w].pc)
  }

  ghost predicate RingOk<T>(s: State<T>)
  {
    && Basic(s) && Window(s) && ProducerOk(s)
    && forall w :: 0 <= w < |s.workers| ==> WorkerOk(s, w)
  }

  /** What a free slot and a visible task look like to the two ends of the ring. */
  lemma StampMeaning<T>(s: State<T>, pos: nat)
    requires RingOk(s) && |s.slots| >= 2
    ensures s.stamps[SlotOf(|s.pushed|, |s.slots|)] == |s.pushed|
            <==> |s.pushed| < |s.slots| || Released(s, |s.pushed| - |s.slots|)
    ensures pos <= s.tail && s.stamps[SlotOf(pos, |s.slots|)] == pos + 1 ==> pos < |s.pushed|
    ensures s.tail < |s.pushed| ==> s.stamps[SlotOf(s.tail, |s.slots|)] == s.tail + 1
  {
    var pub, n := |s.pushed|, |s.slots|;
    assert WindowAt(s, pub);
    if s.tail < pub {
      assert WindowAt(s, s.tail + n);
      ModLap(s.tail, n);
    }
  }

  // ---- ring steps of a worker -------------------------------------------------------------

  /** Nothing the window speaks of differs between the two states. */
  ghost predicate SameRing<T>(s: State<T>, r: State<T>)
  {
    && r.slots == s.slots && r.stamps == s.stamps && r.tail == s.tail
    && r.pushed == s.pushed && r.claims == s.claims && |r.workers| == |s.workers|
    && forall v, q: nat :: 0 <= v < |s.workers| ==> Holds(r.workers[v], q) == Holds(s.workers[v], q)
  }

  lemma SameRingKeepsWindow<T>(s: State<T>, r: State<T>)
    requires RingOk(s) && SameRing(s, r)
    ensures Basic(r) && Window(r)
  {
    forall p | |r.pushed| <= p < |r.pushed| + |s.slots| ensures WindowAt(r, p) {
      assert WindowAt(s, p);
    }
  }

  /** The state after worker `w` wins the claim of position `s.tail`. */
  function Claimed<T>(s: State<T>, w: nat): State<T>
    requires w < |s.workers|
  {
    s.(tail := s.tail + 1, claims := s.claims + [w],
       workers := s.workers[w := Worker(ReadSlot(s.tail), s.workers[w].idle)])
  }

  lemma ClaimKeepsWindow<T>(s: State<T>, w: nat, p: nat)
    requires RingOk(s) && w < |s.workers| && s.tail < |s.pushed| <= p < |s.pushed| + |s.slots|
    requires !s.workers[w].pc.ReadSlot? && !s.workers[w].pc.Release?
    ensures Basic(Claimed(s, w)) && WindowAt(Claimed(s, w), p)
  {
    var r, n := Claimed(s, w), |s.slots|;
    assert WindowAt(s, p);
    if p >= n && p - n < s.tail {
      assert r.claims[p - n] == s.claims[p - n];
    }
  }

  lemma ClaimKeepsRing<T>(s: State<T>, w: nat, r: State<T>)
    requires RingOk(s) && w < |s.workers| && s.workers[w].pc.Claim?
    requires s.tail == s.workers[w].pc.pos && r == WorkerStep(s, w, false)
    ensures RingOk(r)
  {
    assert WorkerOk(s, w);
    assert r == Claimed(s, w);
    forall p | |r.pushed| <= p < |r.pushed| + |s.slots| ensures WindowAt(r, p) {
      ClaimKeepsWindow(s, w, p);
    }
    forall v | 0 <= v < |r.workers| ensures WorkerOk(r, v) {
      assert WorkerOk(s, v);
    }
  }

  /** From the claim of a position to its release the slot holds what was pushed there. */
  lemma HeldTask<T>(s: State<T>, w: nat, pos: nat)
    requires RingOk(s) && w < |s.workers| && Holds(s.workers[w], pos)
    ensures pos < |s.pushed| && s.slots[SlotOf(pos, |s.slots|)] == s.pushed[pos]
  {
    assert WorkerOk(s, w);
    assert WindowAt(s, pos + |s.slots|);
    ModLap(pos, |s.slots|);
  }

  lemma ReadKeepsRing<T>(s: State<T>, w: nat, r: State<T>)
    requires RingOk(s) && w < |s.workers| && s.workers[w].pc.ReadSlot?
    requires r == WorkerStep(s, w, false)
    ensures RingOk(r)
  {
    var pos := s.workers[w].pc.pos;
    assert WorkerOk(s, w);
    HeldTask(s, w, pos);
    assert r == s.(workers := s.workers[w := Worker(Release(pos, s.pushed[pos]), s.workers[w].idle)]);
    SameRingKeepsWindow(s, r);
    forall v | 0 <= v < |r.workers| ensures WorkerOk(r, v) {
      assert WorkerOk(s, v);
    }
  }

  /** Positions less than a lap apart from the next lap of `pos` use another slot. */
  lemma OtherSlot(p: nat, pos: nat, n: nat)
    requires HasSingleBit(n) && p != pos + n && pos < p < pos + 2 * n
    ensures SlotOf(p, n) != SlotOf(pos, n)
  {
    ModLap(pos, n);
    if SlotOf(p, n) == SlotOf(pos, n) {
      if p < pos + n { ModInjective(p, pos + n, n); } else { ModInjective(pos + n, p, n); }
    }
  }

  lemma ReleaseKeepsWindow<T>(s: State<T>, w: nat, r: State<T>, p: nat)
    requires RingOk(s) && w < |s.workers| && s.workers[w].pc.Release?
    requires r == WorkerStep(s, w, false) && |s.pushed| <= p < |s.pushed| + |s.slots|
    ensures Basic(r) && WindowAt(r, p)
  {
    var n, pos := |s.slots|, s.workers[w].pc.pos;
    assert WorkerOk(s, w);
    assert WindowAt(s, p);
    ModLap(pos, n);
    if p != pos + n {
      OtherSlot(p, pos, n);
      if p >= n && p - n < s.tail && s.claims[p - n] == w {
        assert !Holds(s.workers[w], p - n) && !Holds(r.workers[w], p - n);
      }
    }
  }

  lemma ReleaseKeepsRing<T>(s: State<T>, w: nat, r: State<T>)
    requires RingOk(s) && |s.slots| >= 2 && w < |s.workers| && s.workers[w].pc.Release?
    requires r == WorkerStep(s, w, false)
    ensures RingOk(r)
  {
    var n, pub := |s.slots|, |s.pushed|;
    var pos := s.workers[w].pc.pos;
    assert WorkerOk(s, w);
    forall p | pub <= p < pub + n ensures WindowAt(r, p) {
      ReleaseKeepsWindow(s, w, r, p);
    }
    if s.producer.WriteSlot? || s.producer.Publish? {
      StampMeaning(s, 0);
      assert pub != pos + n;
      ModLap(pos, n);
      if SlotOf(pub, n) == SlotOf(pos, n) {
        ModInjective(pub, pos + n, n);
      }
    }
    forall v | 0 <= v < |r.workers| ensures WorkerOk(r, v) {
      assert WorkerOk(s, v);
    }
  }

  /** Only worker `w` moves, it holds no slot before or after, and its new place is consistent. */
  lemma OneMoveKeepsRing<T>(s: State<T>, w: nat, x: Worker<T>, r: State<T>)
    requires RingOk(s) && w < |s.workers|
    requires r == s.(workers := s.workers[w := x], pending := r.pending, runs := r.runs, done := r.done)
    requires !s.workers[w].pc.ReadSlot? && !s.workers[w].pc.Release? && !x.pc.ReadSlot? && !x.pc.Release?
    requires PcOk(s, w, x.pc)
    ensures RingOk(r)
  {
    SameRingKeepsWindow(s, r);
    forall v | 0 <= v < |r.workers| ensures WorkerOk(r, v) {
      assert WorkerOk(s, v);
    }
  }

  /** A step that neither claims, reads nor releases a slot. */
  predicate Quiet<T>(s: State<T>, w: nat, spurious: bool)
    requires w < |s.workers|
  {
    !Claims(s, w, spurious) && !s.workers[w].pc.ReadSlot? && !s.workers[w].pc.Release?
  }

  lemma QuietMove<T>(s: State<T>, w: nat, spurious: bool)
    requires RingOk(s) && |s.slots| >= 2 && w < |s.workers| && Quiet(s, w, spurious)
    ensures var x := Moved(s, w, spurious);
            !x.pc.ReadSlot? && !x.pc.Release? && PcOk(s, w, x.pc)
  {
    assert WorkerOk(s, w);
    if s.workers[w].pc.CheckStamp? {
      StampMeaning(s, s.workers[w].pc.pos);
    }
  }

  lemma QuietKeepsRing<T>(s: State<T>, w: nat, spurious: bool, r: State<T>)
    requires RingOk(s) && |s.slots| >= 2 && w < |s.workers| && Quiet(s, w, spurious)
    requires r == WorkerStep(s, w, spurious)
    ensures RingOk(r)
  {
    QuietMove(s, w, spurious);
    OneMoveKeepsRing(s, w, Moved(s, w, spurious), r);
  }

  lemma WorkerKeepsRing<T>(s: State<T>, w: nat, spurious: bool)
    requires RingOk(s) && |s.slots| >= 2 && w < |s.workers|
    ensures RingOk(WorkerStep(s, w, spurious))
  {
    var r := WorkerStep(s, w, spurious);
    if Quiet(s, w, spurious) {
      QuietKeepsRing(s, w, spurious, r);
    } else if s.workers[w].pc.ReadSlot? {
      ReadKeepsRing(s, w, r);
    } else if s.workers[w].pc.Release? {
      ReleaseKeepsRing(s, w, r);
    } else {
      ClaimKeepsRing(s, w, r);
    }
  }

  // ---- ring steps of the producer ---------------------------------------------------------

  lemma PublishKeepsRing<T>(s: State<T>, r: State<T>, call: Call<T>, pick: nat)
    requires RingOk(s) && |s.slots| >= 2 && s.producer.Publish? && r == ProducerStep(s, call, pick)
    ensures RingOk(r)
  {
    var n, pub := |s.slots|, |s.pushed|;
    StampMeaning(s, 0);
    ModLap(pub, n);
    forall p | pub + 1 <= p < pub + 1 + n ensures WindowAt(r, p) {
      if p < pub + n {
        assert WindowAt(s, p);
        if SlotOf(p, n) == SlotOf(pub, n) { ModInjective(pub, p, n); }
      }
    }
    forall v | 0 <= v < |r.workers| ensures WorkerOk(r, v) {
      assert WorkerOk(s, v);
    }
  }

  lemma WriteKeepsRing<T>(s: State<T>, r: State<T>, call: Call<T>, pick: nat)
    requires RingOk(s) && |s.slots| >= 2 && s.producer.WriteSlot? && r == ProducerStep(s, call, pick)
    ensures RingOk(r)
  {
    var n, pub := |s.slots|, |s.pushed|;
    StampMeaning(s, 0);
    forall p | pub <= p < pub + n ensures WindowAt(r, p) {
      assert WindowAt(s, p);
      if SlotOf(p, n) == SlotOf(pub, n) { ModInjective(pub, p, n); }
    }
    forall v | 0 <= v < |r.workers| ensures WorkerOk(r, v) {
      assert WorkerOk(s, v);
    }
  }

  /** A producer step that publishes nothing and writes no slot. */
  lemma QuietProducerKeepsRing<T>(s: State<T>, r: State<T>)
    requires RingOk(s)
    requires r == s.(producer := r.producer, head := r.head, pending := r.pending, epoch := r.epoch,
                     stop := r.stop, accepted := r.accepted, workers := r.workers)
    requires |r.workers| == |s.workers|
    requires forall v :: 0 <= v < |s.workers| ==> r.workers[v] == s.workers[v] || r.workers[v] == Woken(s.workers[v])
    requires Basic(r) ==> ProducerOk(r)
    ensures RingOk(r)
  {
    SameRingKeepsWindow(s, r);
    forall v | 0 <= v < |r.workers| ensures WorkerOk(r, v) {
      assert WorkerOk(s, v);
    }
  }

  lemma NotifyKeepsRing<T>(s: State<T>, r: State<T>, call: Call<T>, pick: nat)
    requires RingOk(s) && (s.producer.Notify? || s.producer.StopNotify?) && r == ProducerStep(s, call, pick)
    ensures RingOk(r)
  {
    QuietProducerKeepsRing(s, r);
  }

  /** A producer step that touches no worker and nothing of the ring. */
  lemma PlainKeepsRing<T>(s: State<T>, r: State<T>)
    requires RingOk(s)
    requires r == s.(producer := r.producer, head := r.head, pending := r.pending, epoch := r.epoch,
                     stop := r.stop, accepted := r.accepted)
    requires ProducerOk(r)
    ensures RingOk(r)
  {
    QuietProducerKeepsRing(s, r);
  }

  /** A producer step outside the ring and outside the notifications. */
  lemma PlainStep<T>(s: State<T>, r: State<T>, call: Call<T>, pick: nat)
    requires WellFormed(s) && r == ProducerStep(s, call, pick)
    requires !s.producer.Publish? && !s.producer.WriteSlot? && !s.producer.Notify? && !s.producer.StopNotify?
    ensures r == s.(producer := r.producer, head := r.head, pending := r.pending, epoch := r.epoch,
                    stop := r.stop, accepted := r.accepted)
  {
  }

  lemma PlainProducerOk<T>(s: State<T>, r: State<T>, call: Call<T>, pick: nat)
    requires Basic(s) && Basic(r) && ProducerOk(s) && r == ProducerStep(s, call, pick)
    requires !s.producer.Publish? && !s.producer.WriteSlot? && !s.producer.Notify? && !s.producer.StopNotify?
    requires r.pushed == s.pushed && r.stamps == s.stamps && r.slots == s.slots
    ensures ProducerOk(r)
  {
  }

  lemma ProducerKeepsRing<T>(s: State<T>, call: Call<T>, pick: nat)
    requires RingOk(s) && |s.slots| >= 2
    ensures RingOk(ProducerStep(s, call, pick))
  {
    var r := ProducerStep(s, call, pick);
    if s.producer.Publish? {
      PublishKeepsRing(s, r, call, pick);
    } else if s.producer.WriteSlot? {
      WriteKeepsRing(s, r, call, pick);
    } else if s.producer.Notify? || s.producer.StopNotify? {
      NotifyKeepsRing(s, r, call, pick);
    } else {
      PlainStep(s, r, call, pick);
      PlainProducerOk(s, r, call, pick);
      PlainKeepsRing(s, r);
    }
  }

  // ---- accounting: claimed, run, given back -----------------------------------------------

  /** Pending counts taken for a task that is not (or not yet) in the ring. */
  function InFlight<T>(pc: ProducerPc<T>): nat
  {
    match pc
    case LoadHead(_) => 1
    case CheckFree(_, _) => 1
    case WriteSlot(_, _) => 1
    case Publish(_, _) => 1
    case Undo => 1
    case _ => 0
  }

  ghost predicate HasRun<T>(s: State<T>, p: nat)
  {
    exists i :: 0 <= i < |s.runs| && s.runs[i].0 == p
  }

  /** The task call at `p` has returned. */
  ghost predicate Ran<T>(s: State<T>, p: nat)
    requires Basic(s)
  {
    p < s.tail && (p in s.done || s.workers[s.claims[p]].pc == Finish(p))
  }

  ghost predicate RunsOk<T>(s: State<T>)
    requires Basic(s)
  {
    && (forall i :: 0 <= i < |s.runs| ==> Ran(s, s.runs[i].0) && s.runs[i].1 == s.pushed[s.runs[i].0])
    && (forall i, j :: 0 <= i < j < |s.runs| ==> s.runs[i].0 != s.runs[j].0)
    && (forall p: nat :: Ran(s, p) ==> HasRun(s, p))
  }

  ghost predicate CountOk<T>(s: State<T>)
    requires Basic(s)
  {
    && (forall p :: p in s.done ==> p < s.tail)
    && (forall p :: 0 <= p < s.tail ==> (p in s.done <==> !Busy(s.workers[s.claims[p]], p)))
    && s.pending == |s.pushed| - |s.done| + InFlight(s.producer)
    && RunsOk(s)
  }

  /** A step that runs no task and finishes none that had not run. */
  lemma SameRunsKept<T>(s: State<T>, r: State<T>)
    requires Basic(s) && Basic(r) && RunsOk(s) && r.runs == s.runs && s.pushed <= r.pushed
    requires forall p: nat :: Ran(r, p) == Ran(s, p)
    ensures RunsOk(r)
  {
    forall p: nat | Ran(r, p) ensures HasRun(r, p) {
      assert Ran(s, p) && HasRun(s, p);
      var i :| 0 <= i < |s.runs| && s.runs[i].0 == p;
      assert r.runs[i].0 == p;
    }
  }

  /** A worker step that leaves the histories alone and keeps what the worker is busy with. */
  lemma BusySameKeepsCount<T>(s: State<T>, w: nat, x: Worker<T>, r: State<T>)
    requires RingOk(s) && CountOk(s) && w < |s.workers| && Basic(r)
    requires r == s.(workers := s.workers[w := x], stamps := r.stamps)
    requires forall p: nat :: Busy(x, p) == Busy(s.workers[w], p)
    requires !x.pc.Finish? && !s.workers[w].pc.Finish?
    ensures CountOk(r)
  {
    SameRunsKept(s, r);
  }

  lemma ClaimKeepsCount<T>(s: State<T>, w: nat, r: State<T>)
    requires RingOk(s) && CountOk(s) && w < |s.workers| && Claims(s, w, false)
    requires r == WorkerStep(s, w, false) && Basic(r)
    ensures CountOk(r)
  {
    SameRunsKept(s, r);
  }

  /** The call that just returned is the only one more that has run. */
  lemma RunAdds<T>(s: State<T>, w: nat, r: State<T>, pos: nat)
    requires RingOk(s) && CountOk(s) && w < |s.workers| && s.workers[w].pc.Run? && pos == s.workers[w].pc.pos
    requires r == WorkerStep(s, w, false) && Basic(r)
    ensures pos < |s.pushed| && r.runs == s.runs + [(pos, s.pushed[pos])] && !Ran(s, pos)
    ensures forall p: nat :: Ran(r, p) <==> Ran(s, p) || p == pos
  {
    assert WorkerOk(s, w);
    assert Busy(s.workers[w], pos);
  }

  lemma RunsGrow<T>(s: State<T>, r: State<T>, pos: nat)
    requires Basic(s) && Basic(r) && RunsOk(s) && r.pushed == s.pushed && pos < |s.pushed|
    requires r.runs == s.runs + [(pos, s.pushed[pos])] && !Ran(s, pos)
    requires forall p: nat :: Ran(r, p) <==> Ran(s, p) || p == pos
    ensures RunsOk(r)
  {
    assert r.runs[|s.runs|].0 == pos;
    forall p: nat | Ran(r, p) ensures HasRun(r, p) {
      if p != pos {
        assert Ran(s, p) && HasRun(s, p);
        var i :| 0 <= i < |s.runs| && s.runs[i].0 == p;
        assert r.runs[i].0 == p;
      }
    }
    forall i | 0 <= i < |r.runs| ensures Ran(r, r.runs[i].0) && r.runs[i].1 == r.pushed[r.runs[i].0] {
      if i < |s.runs| {
        assert r.runs[i] == s.runs[i] && Ran(s, s.runs[i].0);
      }
    }
  }

  lemma RunKeepsCount<T>(s: State<T>, w: nat, r: State<T>)
    requires RingOk(s) && CountOk(s) && w < |s.workers| && s.workers[w].pc.Run?
    requires r == WorkerStep(s, w, false) && Basic(r)
    ensures CountOk(r)
  {
    var pos := s.workers[w].pc.pos;
    assert WorkerOk(s, w);
    RunAdds(s, w, r, pos);
    RunsGrow(s, r, pos);
  }

  lemma FinishKeepsCount<T>(s: State<T>, w: nat, r: State<T>)
    requires RingOk(s) && CountOk(s) && w < |s.workers| && s.workers[w].pc.Finish?
    requires r == WorkerStep(s, w, false) && Basic(r)
    ensures CountOk(r)
  {
    var pos := s.workers[w].pc.pos;
    assert WorkerOk(s, w);
    assert Busy(s.workers[w], pos) && pos !in s.done;
    SameRunsKept(s, r);
  }

  lemma WorkerKeepsCount<T>(s: State<T>, w: nat, spurious: bool)
    requires RingOk(s) && CountOk(s) && w < |s.workers|
    requires Basic(WorkerStep(s, w, spurious))
    ensures CountOk(WorkerStep(s, w, spurious))
  {
    var r := WorkerStep(s, w, spurious);
    if Claims(s, w, spurious) {
      ClaimKeepsCount(s, w, r);
    } else if s.workers[w].pc.Run? {
      RunKeepsCount(s, w, r);
    } else if s.workers[w].pc.Finish? {
      FinishKeepsCount(s, w, r);
    } else {
      BusySameKeepsCount(s, w, Moved(s, w, spurious), r);
    }
  }

  predicate PendingOk<T>(s: State<T>)
  {
    s.pending == |s.pushed| - |s.done| + InFlight(s.producer)
  }

  /** The producer touches the ring. */
  predicate AtRing<T>(s: State<T>)
  {
    s.producer.CheckFree? || s.producer.WriteSlot? || s.producer.Publish?
  }

  lemma PendingAtRing<T>(s: State<T>, call: Call<T>, pick: nat)
    requires WellFormed(s) && PendingOk(s) && AtRing(s)
    ensures PendingOk(ProducerStep(s, call, pick))
  {
  }

  lemma PendingOffRing<T>(s: State<T>, call: Call<T>, pick: nat)
    requires WellFormed(s) && PendingOk(s) && !AtRing(s)
    ensures PendingOk(ProducerStep(s, call, pick))
  {
  }

  /** The pending count follows every attempt of the producer. */
  lemma PendingKept<T>(s: State<T>, call: Call<T>, pick: nat)
    requires WellFormed(s) && PendingOk(s)
    ensures PendingOk(ProducerStep(s, call, pick))
  {
    if AtRing(s) { PendingAtRing(s, call, pick); } else { PendingOffRing(s, call, pick); }
  }

  ghost predicate OnlyWoken<T>(s: State<T>, r: State<T>)
  {
    |r.workers| == |s.workers|
    && forall v :: 0 <= v < |s.workers| ==> r.workers[v] == s.workers[v] || r.workers[v] == Woken(s.workers[v])
  }

  lemma QuietCount<T>(s: State<T>, r: State<T>)
    requires Basic(s) && CountOk(s) && Basic(r) && OnlyWoken(s, r) && s.pushed <= r.pushed
    requires SameClaims(s, r) && r.runs == s.runs && PendingOk(r)
    ensures CountOk(r)
  {
    SameRunsKept(s, r);
  }

  lemma ProducerKeepsCount<T>(s: State<T>, call: Call<T>, pick: nat)
    requires Basic(s) && CountOk(s)
    requires Basic(ProducerStep(s, call, pick))
    ensures CountOk(ProducerStep(s, call, pick))
  {
    WorkersStay(s, call, pick);
    ClaimsStay(s, call, pick);
    PendingKept(s, call, pick);
    QuietCount(s, ProducerStep(s, call, pick));
  }

  /** The producer moves a worker only by waking it. */
  lemma WorkersStay<T>(s: State<T>, call: Call<T>, pick: nat)
    requires WellFormed(s)
    ensures OnlyWoken(s, ProducerStep(s, call, pick))
  {
  }

  predicate SameClaims<T>(s: State<T>, r: State<T>)
  {
    r.tail == s.tail && r.claims == s.claims && r.done == s.done
  }

  lemma ClaimsStay<T>(s: State<T>, call: Call<T>, pick: nat)
    requires WellFormed(s)
    ensures var r := ProducerStep(s, call, pick); SameClaims(s, r) && r.runs == s.runs && s.pushed <= r.pushed
  {
    if AtRing(s) { ClaimsStayAtRing(s, call, pick); } else { ClaimsStayOffRing(s, call, pick); }
  }

  lemma ClaimsStayAtRing<T>(s: State<T>, call: Call<T>, pick: nat)
    requires WellFormed(s) && AtRing(s)
    ensures var r := ProducerStep(s, call, pick); SameClaims(s, r) && r.runs == s.runs && s.pushed <= r.pushed
  {
  }

  lemma ClaimsStayOffRing<T>(s: State<T>, call: Call<T>, pick: nat)
    requires WellFormed(s) && !AtRing(s)
    ensures var r := ProducerStep(s, call, pick); SameClaims(s, r) && r.runs == s.runs && s.pushed <= r.pushed
  {
  }
}
