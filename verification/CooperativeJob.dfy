/** The cooperative job as an object that drives a streaming adapter, refining the host of a migration. */
module CooperativeJob {
  import opened Machine
  import opened ByteCodec
  import opened StateCapsule
  import opened JobMachine
  import opened MambaStream
  import opened Migration
  import opened StreamAdapter

  class StreamJob {
    const adapter: MambaStreamAdapter
    const desc: JobDescriptor
    var state: U16
    var completed: U64

    ghost function View(): Host
      reads this, adapter, adapter.tokens, adapter.hidden, adapter.state
    {
      Host(Job(desc, state, completed), adapter.View())
    }

    ghost predicate Valid()
      reads this, adapter, adapter.tokens, adapter.hidden, adapter.state
    {
      adapter.Valid() && JobOk(View().job)
    }

    /** A job exists only for a valid descriptor. */
    static method Bind(a: MambaStreamAdapter, d: JobDescriptor) returns (r: Option<StreamJob>)
      requires a.Valid()
      ensures r.Some? <==> && d.version == 1 && 1 <= d.kind <= 3 && d.schema != 0 && d.total != 0
                           && exists i :: 0 <= i < 16 && d.digest[i] != 0
      ensures r.Some? ==> fresh(r.value) && r.value.Valid() && r.value.adapter == a
                          && r.value.View() == Host(Job(d, READY, 0), a.View())
    {
      var valid := CheckDescriptor(d);
      if !valid { return None; }
      var job := new StreamJob(a, d);
      r := Some(job);
    }

    constructor (a: MambaStreamAdapter, d: JobDescriptor)
      ensures adapter == a && desc == d && state == READY && completed == 0
    {
      adapter, desc, state, completed := a, d, READY, 0;
    }

    function Now(): Outcome
      requires completed <= desc.total
      reads this
    {
      Progress(state, completed, desc.total - completed)
    }

    method Start() returns (r: Outcome)
      requires Valid()
      modifies this, adapter, adapter.hidden, adapter.state
      ensures Valid() && View() == Launch(adapter.engine, old(View()))
      ensures r == Started(old(View()).job, Begun(adapter.engine, old(View()).adapter).1).1
    {
      if state != READY { return Error(InvalidState); }
      var began := adapter.Begin();
      if !began {
        state := FAILED;
        return Error(CallbackFailed);
      }
      state := RUNNING;
      r := Now();
    }

    method CancelBefore(generation: U64) returns (r: Outcome)
      requires Valid()
      modifies this, adapter
      ensures Valid() && View().job == Cancelled(old(View()).job, generation) && r == Report(View().job)
      ensures state == if old(state) in {READY, RUNNING} && generation > desc.generation then CANCELLED else old(state)
      ensures View().adapter == if state != old(state) then old(View()).adapter.(cancelled := true) else old(View()).adapter
    {
      if state != COMPLETE && state != CANCELLED && state != FAILED && generation > desc.generation {
        adapter.Cancel();
        state := CANCELLED;
      }
      r := Now();
    }

    /** Runs the adapter for at most `budget` tokens. */
    method Advance(budget: nat, cancelBefore: U64) returns (r: Outcome)
      requires Valid()
      modifies this, adapter, adapter.hidden, adapter.state
      ensures Valid() && View() == Driven(adapter.engine, old(View()), budget, cancelBefore)
      ensures r == Answered(adapter.engine, old(View()), budget, cancelBefore)
    {
      if state == COMPLETE || state == CANCELLED || state == FAILED { return Now(); }
      if state != RUNNING { return Error(InvalidState); }
      if cancelBefore > desc.generation {
        r := CancelBefore(cancelBefore);
        return;
      }
      if budget == 0 { return Error(InvalidBudget); }
      var remaining := desc.total - completed;
      var bounded := if budget < remaining then budget else remaining;
      var result := adapter.Advance(bounded);
      r := Settle(bounded, result);
    }

    /** Judges the backend's answer. */
    method Settle(bounded: nat, result: BackendAdvance) returns (r: Outcome)
      requires JobOk(Job(desc, state, completed)) && state == RUNNING
      modifies this
      ensures (Job(desc, state, completed), r) == Settled(old(Job(desc, state, completed)), bounded, result)
    {
      if result.step == Unknown {
        state := FAILED;
        return Error(CallbackContract);
      }
      if result.step == Broken {
        state := FAILED;
        return Error(CallbackFailed);
      }
      if result.completed == 0 || result.completed > bounded || result.completed > desc.total - completed {
        state := FAILED;
        return Error(CallbackContract);
      }
      completed := completed + result.completed;
      var exhausted := completed == desc.total;
      if (result.step == Done) != exhausted {
        state := FAILED;
        return Error(CallbackContract);
      }
      state := if exhausted then COMPLETE else RUNNING;
      r := Now();
    }

    /** Writes a capsule of the job and its adapter, or says why not. */
    method ExportCapsule(dst: array<U8>) returns (r: Option<ErrorCode>)
      requires Valid() && dst != adapter.state
      modifies dst
      ensures r == (if state == READY then Some(InvalidState)
                    else if CAPSULE_OVERHEAD + adapter.SavedBytes() > U64_MAX
                            || dst.Length < CAPSULE_OVERHEAD + adapter.SavedBytes() then Some(BufferSmall)
                    else if !adapter.prepared then Some(CallbackFailed) else None)
      ensures r.None? ==> Exportable(adapter.engine, View())
                          && dst[..CAPSULE_OVERHEAD + adapter.SavedBytes()] == Exported(adapter.engine, View())
      ensures r.None? ==> forall i :: CAPSULE_OVERHEAD + adapter.SavedBytes() <= i < dst.Length ==> dst[i] == old(dst[i])
      ensures r.Some? ==> unchanged(dst)
    {
      if state == READY { return Some(InvalidState); }
      var payloadBytes := adapter.SavedBytes();
      var required := if payloadBytes <= U64_MAX - CAPSULE_OVERHEAD then CAPSULE_OVERHEAD + payloadBytes else 0;
      if required == 0 || dst.Length < required { return Some(BufferSmall); }
      var ok := adapter.SaveState(dst, CAPSULE_HEADER, payloadBytes);
      if !ok { return Some(CallbackFailed); }
      Seal(dst, payloadBytes);
      r := None;
    }

    /** Puts header and checksum around a payload that is already in place. */
    method Seal(dst: array<U8>, n: nat)
      requires CAPSULE_OVERHEAD + n <= dst.Length && CAPSULE_OVERHEAD + n <= U64_MAX
      requires JobOk(Job(desc, state, completed))
      modifies dst
      ensures dst[..CAPSULE_OVERHEAD + n]
           == Encoded(adapter.engine.fp, Metadata(desc, state, completed), old(dst[CAPSULE_HEADER..CAPSULE_HEADER + n]))
      ensures forall i :: CAPSULE_OVERHEAD + n <= i < dst.Length ==> dst[i] == old(dst[i])
    {
      var payload := dst[CAPSULE_HEADER..CAPSULE_HEADER + n];
      var status := Write(adapter.engine.fp, Metadata(desc, state, completed), payload, dst);
    }

    /** The checks before the adapter is asked to load anything. */
    method OpenCapsule(source: seq<U8>) returns (r: ReadResult, code: ErrorCode)
      requires |source| <= U64_MAX
      ensures var read := Decoded(adapter.engine.fp, source);
              && (r.Capsule? <==> state == READY && read.Some? && read.value.0.state != READY
                                  && SameDescriptor(desc, read.value.0.desc))
              && (r.Capsule? ==> read == Some((r.meta, r.payload)))
              && (r.Failure? ==> code == if state != READY then InvalidState
                                         else if read.None? || read.value.0.state == READY then CapsuleInvalid
                                         else CapsuleIncompatible)
    {
      code := InvalidState;
      if state != READY { return Failure(InvalidMetadata), InvalidState; }
      r := Read(adapter.engine.fp, source);
      if r.Failure? || r.meta.state == READY { return Failure(InvalidMetadata), CapsuleInvalid; }
      var d := r.meta.desc;
      if desc.version != d.version || desc.kind != d.kind || desc.digest != d.digest || desc.schema != d.schema
         || desc.session != d.session || desc.generation != d.generation || desc.deadline != d.deadline
         || desc.total != d.total {
        return Failure(InvalidMetadata), CapsuleIncompatible;
      }
    }

    /** Takes over a capsule in a fresh job; a failure changes nothing. */
    method RestoreCapsule(source: seq<U8>) returns (r: Outcome)
      requires Valid() && |source| <= U64_MAX
      modifies this, adapter, adapter.tokens, adapter.hidden, adapter.state
      ensures Valid() && (View(), r) == Imported(adapter.engine, old(View()), source)
      ensures r.Error? ==> View() == old(View())
    {
      ghost var e, h := adapter.engine, View();
      var capsule, code := OpenCapsule(source);
      if capsule.Failure? {
        ImportRefuses(e, h, source, code);
        return Error(code);
      }
      PayloadSize(e.fp, source);
      ImportOpens(e, h, source, capsule.meta, capsule.payload);
      r := TakeCapsule(capsule.meta, capsule.payload);
    }

    /** Loads the payload and, if that works, adopts the capsule's progress. */
    method TakeCapsule(m: Metadata, payload: seq<U8>) returns (r: Outcome)
      requires Valid() && |payload| <= U64_MAX && JobOk(Job(desc, m.state, m.completed))
      modifies this, adapter, adapter.tokens, adapter.hidden, adapter.state
      ensures Valid()
      ensures var (a, loaded) := Loaded(adapter.engine, old(View()).adapter, payload);
              var j := Job(desc, m.state, m.completed);
              (View(), r) == if loaded then (Host(j, a), Report(j)) else (Host(old(View()).job, a), Error(CallbackFailed))
    {
      var loaded := adapter.LoadState(payload);
      if !loaded { return Error(CallbackFailed); }
      state, completed := m.state, m.completed;
      r := Now();
    }
  }

  lemma PayloadSize(fp: Fingerprint, s: seq<U8>)
    ensures Decoded(fp, s).Some? ==> |Decoded(fp, s).value.1| <= U64_MAX
  {
  }
}
