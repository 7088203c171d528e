/**
The constructor's check admits a ring of one slot, where the stamp of a published task (position + 1)
and the stamp of a free slot (position + capacity) are the same number.
 */
module PoolCapacity {
  import opened Bits
  import opened ThreadPool
  import opened PoolInvariant
  import opened PoolTheorems

  /** The oldest accepted and unclaimed task carries the stamp that `try_pop` looks for. */
  ghost predicate FrontVisible<T>(s: State<T>)
    requires WellFormed(s)
  {
    s.tail < |s.pushed| ==> s.stamps[SlotOf(s.tail, |s.slots|)] == s.tail + 1
  }

  function Repeat<T>(act: Act<T>, k: nat): (r: seq<Act<T>>)
    ensures |r| == k
  {
    if k == 0 then [] else Repeat(act, k - 1) + [act]
  }

  lemma RepeatStep<T>(s: State<T>, act: Act<T>, k: nat)
    requires WellFormed(s)
    ensures Exec(s, Repeat(act, k + 1)) == Step(Exec(s, Repeat(act, k)), act)
  {
    assert Repeat(act, k + 1)[..k] == Repeat(act, k);
  }

  /** The producer alone takes `k` steps of calls that enqueue `task`. */
  function Produce<T>(s: State<T>, task: T, k: nat): (r: State<T>)
    requires WellFormed(s)
    ensures WellFormed(r)
  {
    if k == 0 then s else ProducerStep(Produce(s, task, k - 1), Enqueue(task), 0)
  }

  lemma {:induction false} ProduceIsRun<T>(s: State<T>, task: T, k: nat)
    requires WellFormed(s)
    ensures Exec(s, Repeat(ProducerAct(Enqueue(task), 0), k)) == Produce(s, task, k)
  {
    if k > 0 {
      RepeatStep(s, ProducerAct(Enqueue(task), 0), k - 1);
      ProduceIsRun(s, task, k - 1);
    }
  }

  /** A one-slot ring whose only slot looks free to the producer. */
  predicate OneSlotFree<T>(s: State<T>)
  {
    |s.slots| == 1 && |s.stamps| == 1 && s.producer.Idle? && s.tail == 0
    && s.stamps[0] == s.head == |s.pushed|
  }

  /** The slot looks free, so an `enqueue` gets as far as writing it. */
  lemma WritesAgain<T>(s: State<T>, task: T, k: nat)
    requires WellFormed(s) && OneSlotFree(Produce(s, task, k))
    ensures var s0, s3 := Produce(s, task, k), Produce(s, task, k + 3);
            && s3.producer == WriteSlot(task, s0.head) && s3.head == s0.head && s3.stamps == s0.stamps
            && s3.slots == s0.slots && s3.pushed == s0.pushed && s3.tail == 0
  {
    var s0 := Produce(s, task, k);
    var s1 := Produce(s, task, k + 1);
    assert s1.producer == LoadHead(task) && s1.head == s0.head && s1.stamps == s0.stamps
           && s1.slots == s0.slots && s1.pushed == s0.pushed && s1.tail == 0;
    assert Produce(s, task, k + 2).producer == CheckFree(task, s0.head);
  }

  /** From there an `enqueue` is accepted, and the slot looks free once more. */
  lemma AcceptsAgain<T>(s: State<T>, task: T, k: nat)
    requires WellFormed(s) && OneSlotFree(Produce(s, task, k))
    ensures OneSlotFree(Produce(s, task, k + 8))
    ensures |Produce(s, task, k + 8).pushed| == |Produce(s, task, k).pushed| + 1
  {
    var s0 := Produce(s, task, k);
    WritesAgain(s, task, k);
    var s5 := Produce(s, task, k + 5);
    assert Produce(s, task, k + 4).producer == Publish(task, s0.head);
    assert s5.producer == AdvanceHead(s0.head) && s5.stamps == [s0.head + 1]
           && |s5.slots| == 1 && s5.pushed == s0.pushed + [task] && s5.tail == 0;
    assert Produce(s, task, k + 6).producer == BumpEpoch;
    assert Produce(s, task, k + 7).producer == Notify;
  }

  /** With one slot a second `enqueue` is accepted on top of the first: both tasks become invisible. */
  lemma CapacityOneLosesTasks<T>(slots: seq<T>, nthreads: nat, task: T)
    requires |slots| == 1
    ensures var s := Exec(Init(slots, nthreads), Repeat(ProducerAct(Enqueue(task), 0), 16));
            |s.pushed| == 2 && s.tail == 0 && !FrontVisible(s)
  {
    var s := Init(slots, nthreads);
    assert Produce(s, task, 0) == s;
    AcceptsAgain(s, task, 0);
    AcceptsAgain(s, task, 8);
    ProduceIsRun(s, task, 16);
  }

  /** Accepted tasks stay visible to the workers in every run if and only if there is a second slot. */
  lemma VisibleIffTwoSlots<T>(slots: seq<T>, nthreads: nat, task: T)
    requires HasSingleBit(|slots|)
    ensures (forall acts: seq<Act<T>> :: FrontVisible(Exec(Init(slots, nthreads), acts))) <==> |slots| >= 2
  {
    if |slots| >= 2 {
      forall acts: seq<Act<T>> ensures FrontVisible(Exec(Init(slots, nthreads), acts)) {
        RunInv(slots, nthreads, acts);
        StampMeaning(Exec(Init(slots, nthreads), acts), 0);
      }
    } else {
      CapacityOneLosesTasks(slots, nthreads, task);
    }
  }
}
