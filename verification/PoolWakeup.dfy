/**
The sleep/wake protocol: a worker loads the work epoch, looks at the ring once more and only then
sleeps on that epoch; the producer publishes, bumps the epoch and wakes one sleeper.
 */
module PoolWakeup {
  import opened ThreadPool
  import opened PoolInvariant

  /** The epoch a worker has committed to sleep on, if any. */
  function Observed<T>(pc: WorkerPc<T>): nat
  {
    match pc
    case LoadTail(LastLook(o)) => o
    case CheckStamp(LastLook(o), _) => o
    case Claim(LastLook(o), _) => o
    case CheckStop(LastLook(o)) => o
    case WaitEpoch(o) => o
    case Asleep(o) => o
    case _ => 0
  }

  /**
  The worker cannot fall asleep before it has looked at the current front of the ring: it is on its
  way to a look, or looking at the current front, or the epoch it would sleep on is already stale.
   */
  predicate Fresh<T>(s: State<T>, w: nat)
    requires w < |s.workers|
  {
    match s.workers[w].pc
    case Exited => false
    case Asleep(_) => false
    case WaitEpoch(o) => o < s.epoch
    case CheckStop(LastLook(o)) => o < s.epoch
    case CheckStamp(LastLook(o), pos) => o < s.epoch || pos == s.tail
    case Claim(LastLook(o), pos) => o < s.epoch || pos == s.tail
    case _ => true
  }

  ghost predicate SomeFresh<T>(s: State<T>)
  {
    exists w :: 0 <= w < |s.workers| && Fresh(s, w)
  }

  /** Every worker sleeps on an epoch that has passed, so whichever is woken will look. */
  ghost predicate AllBehind<T>(s: State<T>)
  {
    forall w :: 0 <= w < |s.workers| ==> s.workers[w].pc.Asleep? && s.workers[w].pc.observed < s.epoch
  }

  /** Unclaimed work is never left to sleepers alone. */
  ghost predicate Covered<T>(s: State<T>)
  {
    !s.stop && |s.workers| > 0 && s.tail < |s.pushed| ==>
      match s.producer
      case AdvanceHead(_) => true
      case BumpEpoch => true
      case Notify => SomeFresh(s) || AllBehind(s)
      case _ => SomeFresh(s)
  }

  ghost predicate SleepOk<T>(s: State<T>)
  {
    && (s.stop <==> s.producer.StopEpoch? || s.producer.StopNotify? || s.producer.Joining?)
    && (forall w :: 0 <= w < |s.workers| ==> Observed(s.workers[w].pc) <= s.epoch)
    && (forall w :: 0 <= w < |s.workers| && s.workers[w].pc.Exited? ==> s.stop)
    && (s.producer.StopNotify? || s.producer.Joining? ==>
          forall w :: 0 <= w < |s.workers| && (s.workers[w].pc.WaitEpoch? || s.workers[w].pc.Asleep?) ==>
            Observed(s.workers[w].pc) < s.epoch)
    && (s.producer.Joining? ==> forall w :: 0 <= w < |s.workers| ==> !s.workers[w].pc.Asleep?)
  }

  ghost predicate WakeOk<T>(s: State<T>)
  {
    SleepOk(s) && Covered(s)
  }

  lemma WorkerKeepsSleep<T>(s: State<T>, w: nat, spurious: bool)
    requires WellFormed(s) && SleepOk(s) && w < |s.workers|
    ensures SleepOk(WorkerStep(s, w, spurious))
  {
  }

  /** While work is visible, a fresh worker stays fresh or hands over to the worker that claims. */
  lemma FreshMoves<T>(s: State<T>, w: nat, spurious: bool)
    requires RingOk(s) && |s.slots| >= 2 && SleepOk(s) && w < |s.workers| && Fresh(s, w)
    requires !s.stop && s.tail < |s.pushed|
    ensures Fresh(WorkerStep(s, w, spurious), w)
  {
    StampMeaning(s, 0);
    assert WorkerOk(s, w);
  }

  lemma WorkerKeepsCovered<T>(s: State<T>, w: nat, spurious: bool)
    requires RingOk(s) && |s.slots| >= 2 && WakeOk(s) && w < |s.workers|
    ensures Covered(WorkerStep(s, w, spurious))
  {
    var r := WorkerStep(s, w, spurious);
    if !s.stop && s.tail < |s.pushed| && SomeFresh(s) {
      if Claims(s, w, spurious) {
        assert Fresh(r, w);
      } else {
        var v :| 0 <= v < |s.workers| && Fresh(s, v);
        if v == w { FreshMoves(s, w, spurious); }
        assert Fresh(r, v);
      }
    } else if !s.stop && s.tail < |s.pushed| && s.producer.Notify? && AllBehind(s) {
      if spurious { assert Fresh(r, w); }
    }
  }

  lemma NotifyKeepsSleep<T>(s: State<T>, call: Call<T>, pick: nat)
    requires WellFormed(s) && SleepOk(s) && (s.producer.Notify? || s.producer.StopNotify?)
    ensures SleepOk(ProducerStep(s, call, pick))
  {
  }

  lemma ProducerKeepsSleep<T>(s: State<T>, call: Call<T>, pick: nat)
    requires WellFormed(s) && SleepOk(s)
    ensures SleepOk(ProducerStep(s, call, pick))
  {
    if s.producer.Notify? || s.producer.StopNotify? {
      NotifyKeepsSleep(s, call, pick);
    } else {
      assert ProducerStep(s, call, pick).workers == s.workers;
    }
  }

  lemma ProducerKeepsCovered<T>(s: State<T>, call: Call<T>, pick: nat)
    requires Basic(s) && WakeOk(s)
    ensures Covered(ProducerStep(s, call, pick))
  {
    var r := ProducerStep(s, call, pick);
    if s.producer.BumpEpoch? {
      if v :| 0 <= v < |s.workers| && !s.workers[v].pc.Asleep? {
        assert s.stop || Fresh(r, v);
      }
    } else if s.producer.Notify? {
      if v :| 0 <= v < |s.workers| && Fresh(s, v) {
        assert r.workers[v] == s.workers[v];
        assert Fresh(r, v);
      } else if |s.workers| > 0 && AllBehind(s) {
        var i := if pick < |s.workers| then pick else 0;
        assert s.workers[i].pc.Asleep? && Fresh(r, i);
      }
    } else {
      if v :| 0 <= v < |s.workers| && Fresh(s, v) {
        assert r.stop || Fresh(r, v);
      }
    }
  }
}
