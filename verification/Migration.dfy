/** A streaming job that moves between hosts: what it computes does not depend on where or when it moved. */
module Migration {
  import opened Machine
  import opened ByteCodec
  import opened StateCapsule
  import opened JobMachine
  import opened MambaStream

  /** A job and the adapter it drives. */
  datatype Host = Host(job: Job, adapter: Adapter)

  // ---- operations of a host ---------------------------------------------------------------

  function Launch(e: Engine, h: Host): Host
    requires JobOk(h.job)
  {
    if h.job.state != READY then h
    else
      var (a, began) := Begun(e, h.adapter);
      Host(Started(h.job, began).0, a)
  }

  function Driven(e: Engine, h: Host, budget: nat, cancelBefore: U64): Host
    requires JobOk(h.job) && AdapterOk(e, h.adapter)
  {
    var j := Advanced(h.job, budget, cancelBefore, (b: nat) => Pushed(e, h.adapter, b).1).0;
    if Calls(h.job, budget, cancelBefore) then Host(j, Pushed(e, h.adapter, CallbackBudget(h.job, budget)).0)
    else Host(j, if j.state != h.job.state then h.adapter.(cancelled := true) else h.adapter)
  }

  /** What `advance` reports. */
  function Answered(e: Engine, h: Host, budget: nat, cancelBefore: U64): Outcome
    requires JobOk(h.job) && AdapterOk(e, h.adapter)
  {
    Advanced(h.job, budget, cancelBefore, (b: nat) => Pushed(e, h.adapter, b).1).1
  }

  /** The capsule of a job that has left the ready state has a size in 64 bits. */
  predicate Exportable(e: Engine, h: Host)
  {
    h.job.state != READY && h.adapter.prepared && StateBytes(e, h.adapter.count) + CAPSULE_OVERHEAD <= U64_MAX
  }

  /** The bytes of a capsule of the host's job. */
  function Exported(e: Engine, h: Host): seq<U8>
    requires JobOk(h.job) && AdapterOk(e, h.adapter) && Exportable(e, h)
  {
    Encoded(e.fp, Meta(h.job), Saved(e, h.adapter))
  }

  /** Restoring bytes into a host: the adapter is touched only when everything before it is accepted. */
  function Imported(e: Engine, h: Host, bytes: seq<U8>): (Host, Outcome)
    requires JobOk(h.job)
  {
    var read := Decoded(e.fp, bytes);
    var meta := if read.Some? then Some(read.value.0) else None;
    DecodedValid(e.fp, bytes);
    if h.job.state == READY && read.Some? && read.value.0.state != READY && SameDescriptor(h.job.desc, read.value.0.desc)
    then
      var (a, loaded) := Loaded(e, h.adapter, read.value.1);
      var (j, r) := Restored(h.job, meta, loaded);
      (Host(j, a), r)
    else
      var (j, r) := Restored(h.job, meta, false);
      (Host(j, h.adapter), r)
  }

  lemma DecodedValid(fp: Fingerprint, bytes: seq<U8>)
    ensures Decoded(fp, bytes).Some? ==> ValidProgress(Decoded(fp, bytes).value.0)
  {
  }

  // ---- runs -------------------------------------------------------------------------------

  /** Work with a budget, or move to a fresh job on another host whose adapter has any size and holds anything. */
  datatype Move = Work(budget: nat, cancelBefore: U64) | Hop(reserved: U16, adapter: Adapter)

  predicate MoveOk(e: Engine, d: JobDescriptor, m: Move)
  {
    match m
    case Work(budget, cancelBefore) => budget > 0 && cancelBefore <= d.generation
    case Hop(_, adapter) => AdapterOk(e, adapter)
  }

  function FreshJob(d: JobDescriptor, reserved: U16): Job
  {
    Job(d.(reserved := reserved), READY, 0)
  }

  /** The fresh host after restoring the capsule of `h`, or `h` itself where export or restore fails. */
  function Hopped(e: Engine, h: Host, reserved: U16, adapter: Adapter): Host
    requires JobOk(h.job) && AdapterOk(e, h.adapter)
  {
    if !Exportable(e, h) then h
    else
      assert ValidProgress(Meta(FreshJob(h.job.desc, reserved)));
      var (next, r) := Imported(e, Host(FreshJob(h.job.desc, reserved), adapter), Exported(e, h));
      if r.Error? then h else next
  }

  /** The host of the job after one move. */
  function Moved(e: Engine, h: Host, m: Move): Host
    requires JobOk(h.job) && AdapterOk(e, h.adapter) && MoveOk(e, h.job.desc, m)
  {
    match m
    case Work(budget, cancelBefore) => Driven(e, h, budget, cancelBefore)
    case Hop(reserved, adapter) => Hopped(e, h, reserved, adapter)
  }

  /** The host is where an uninterrupted run over `tokens` would be after `completed` of them. */
  predicate Following(e: Engine, tokens: seq<I32>, d: JobDescriptor, h: Host)
  {
    && JobOk(h.job) && AdapterOk(e, h.adapter) && SameDescriptor(h.job.desc, d) && d.total == |tokens|
    && h.job.completed == h.adapter.completed && h.adapter.prepared && !h.adapter.cancelled
    && h.adapter.count == |tokens| && h.adapter.tokens[..|tokens|] == tokens
    && h.job.state == (if h.job.completed == d.total then COMPLETE else RUNNING)
    && Core(h.adapter.hidden, h.adapter.state) == Feed(e, Blank(e), tokens[..h.job.completed]).0
  }

  /** Feeding goes on from any accepted prefix. */
  lemma FeedOn(e: Engine, c: Core, tokens: seq<I32>, k: nat, n: nat)
    requires Feed(e, c, tokens).1 == |tokens| && k + n <= |tokens|
    ensures Feed(e, Feed(e, c, tokens[..k]).0, tokens[k..k + n]) == (Feed(e, c, tokens[..k + n]).0, n)
  {
    assert tokens[..k] + tokens[k..k + n] == tokens[..k + n];
    FeedPrefix(e, c, tokens, k);
    FeedPrefix(e, c, tokens, k + n);
    FeedSplit(e, c, tokens[..k], tokens[k..k + n]);
  }

  lemma PushedAll(e: Engine, a: Adapter, budget: nat, n: nat, c: Core)
    requires a.prepared && !a.cancelled && budget > 0 && a.completed < a.count <= |a.tokens|
    requires n == Min(budget, a.count - a.completed)
    requires Feed(e, Core(a.hidden, a.state), a.tokens[a.completed..a.completed + n]) == (c, n)
    ensures Pushed(e, a, budget)
            == (a.(hidden := c.hidden, state := c.state, completed := a.completed + n),
                BackendAdvance(if a.completed + n == a.count then Done else InProgress, n))
  {
  }

  lemma PushFollows(e: Engine, tokens: seq<I32>, a: Adapter, budget: nat)
    requires Feed(e, Blank(e), tokens).1 == |tokens| && budget > 0
    requires a.prepared && !a.cancelled && a.completed < a.count == |tokens| <= |a.tokens| && a.tokens[..|tokens|] == tokens
    requires Core(a.hidden, a.state) == Feed(e, Blank(e), tokens[..a.completed]).0
    ensures var (b, r) := Pushed(e, a, budget);
            var n := Min(budget, a.count - a.completed);
            && b == a.(hidden := b.hidden, state := b.state, completed := a.completed + n)
            && Core(b.hidden, b.state) == Feed(e, Blank(e), tokens[..b.completed]).0
            && r == BackendAdvance(if b.completed == a.count then Done else InProgress, n)
  {
    var n := Min(budget, a.count - a.completed);
    PrefixSlice(a.tokens, tokens, a.completed, a.completed + n);
    FeedOn(e, Blank(e), tokens, a.completed, n);
    PushedAll(e, a, budget, n, Feed(e, Blank(e), tokens[..a.completed + n]).0);
  }

  lemma PrefixSlice(buffer: seq<I32>, tokens: seq<I32>, i: nat, j: nat)
    requires i <= j <= |tokens| <= |buffer| && buffer[..|tokens|] == tokens
    ensures buffer[i..j] == tokens[i..j]
  {
    assert forall k :: i <= k < j ==> buffer[k] == buffer[..|tokens|][k];
  }

  lemma BlankFits(e: Engine)
    ensures CoreFits(e, Blank(e))
  {
  }

  /** Work keeps the host following the run, and does as much of it as the budget allows. */
  lemma WorkFollows(e: Engine, tokens: seq<I32>, d: JobDescriptor, h: Host, budget: nat, cancelBefore: U64)
    requires EngineOk(e) && Following(e, tokens, d, h) && Feed(e, Blank(e), tokens).1 == |tokens|
    requires budget > 0 && cancelBefore <= d.generation
    ensures var r := Driven(e, h, budget, cancelBefore);
            Following(e, tokens, d, r) && r.job.completed == Min(d.total, h.job.completed + budget)
  {
    if h.job.state == RUNNING {
      var n := CallbackBudget(h.job, budget);
      PushFollows(e, tokens, h.adapter, n);
      var a := Pushed(e, h.adapter, n).0;
      BlankFits(e);
      FeedFits(e, Blank(e), tokens[..a.completed]);
    }
  }

  lemma MetaStored(j: Job, next: Job)
    requires JobOk(j) && next.desc == j.desc.(reserved := next.desc.reserved) && next.state == READY
    ensures SameDescriptor(next.desc, Stored(Meta(j)).desc) && Stored(Meta(j)).state == j.state
    ensures Stored(Meta(j)).completed == j.completed && ValidProgress(Stored(Meta(j)))
  {
    assert ValidDescriptor(j.desc);
    var i :| 0 <= i < 16 && j.desc.digest[i] != 0;
    assert Stored(Meta(j)).desc.digest[i] != 0;
  }

  /** What restoring does once the capsule is open. */
  lemma ImportOpens(e: Engine, h: Host, bytes: seq<U8>, m: Metadata, payload: seq<U8>)
    requires JobOk(h.job) && h.job.state == READY
    requires Decoded(e.fp, bytes) == Some((m, payload)) && m.state != READY && SameDescriptor(h.job.desc, m.desc)
    ensures var (a, loaded) := Loaded(e, h.adapter, payload);
            var j := h.job.(state := m.state, completed := m.completed);
            && JobOk(j) && (!loaded ==> a == h.adapter)
            && Imported(e, h, bytes) == if loaded then (Host(j, a), Report(j)) else (h, Error(CallbackFailed))
  {
    DecodedValid(e.fp, bytes);
    assert ValidDescriptor(h.job.desc);
  }

  /** What restoring reports when the capsule does not open. */
  lemma ImportRefuses(e: Engine, h: Host, bytes: seq<U8>, code: ErrorCode)
    requires JobOk(h.job)
    requires var read := Decoded(e.fp, bytes);
             code == if h.job.state != READY then InvalidState
                     else if read.None? || read.value.0.state == READY then CapsuleInvalid else CapsuleIncompatible
    requires code == CapsuleIncompatible ==> !SameDescriptor(h.job.desc, Decoded(e.fp, bytes).value.0.desc)
    ensures Imported(e, h, bytes) == (h, Error(code))
  {
    DecodedValid(e.fp, bytes);
  }

  /** A hop succeeds exactly when the capsule can be written and the other adapter holds the tokens. */
  predicate HopSucceeds(e: Engine, h: Host, b: Adapter)
  {
    Exportable(e, h) && h.adapter.count <= |b.tokens|
  }

  /** What a restore of the capsule of `h` gives on a fresh host: the job at its place, or an error and no change. */
  lemma HopIs(e: Engine, h: Host, reserved: U16, b: Adapter)
    requires JobOk(h.job) && AdapterOk(e, h.adapter) && Exportable(e, h)
    ensures var next := FreshJob(h.job.desc, reserved);
            JobOk(next)
            && (var j := next.(state := h.job.state, completed := h.job.completed);
                JobOk(j) && Imported(e, Host(next, b), Exported(e, h))
                            == if HopSucceeds(e, h, b) then (Host(j, TakenOver(h.adapter, b)), Report(j))
                               else (Host(next, b), Error(CallbackFailed)))
  {
    var next, a := FreshJob(h.job.desc, reserved), h.adapter;
    assert ValidProgress(Meta(next));
    MetaStored(h.job, next);
    SaveLoad(e, a, b);
    CapsuleRoundTrip(e.fp, Meta(h.job), Saved(e, a));
    ImportOpens(e, Host(next, b), Exported(e, h), Stored(Meta(h.job)), Saved(e, a));
  }

  /** A hop keeps the host following the run at the same point, and moves the job exactly when it can. */
  lemma HopFollows(e: Engine, tokens: seq<I32>, d: JobDescriptor, h: Host, reserved: U16, b: Adapter)
    requires EngineOk(e) && Following(e, tokens, d, h) && AdapterOk(e, b)
    ensures var r := Hopped(e, h, reserved, b);
            && Following(e, tokens, d, r) && r.job.completed == h.job.completed
            && (if HopSucceeds(e, h, b) then |r.adapter.tokens| == |b.tokens| && r.job.desc.reserved == reserved else r == h)
  {
    if Exportable(e, h) {
      HopIs(e, h, reserved, b);
      if HopSucceeds(e, h, b) {
        assert TakenOver(h.adapter, b).tokens[..|tokens|] == tokens;
      }
    }
  }

  /** A restore that fails changes neither the job, nor the adapter, nor the engine. */
  lemma FailedImportKeeps(e: Engine, h: Host, bytes: seq<U8>)
    requires JobOk(h.job)
    ensures Imported(e, h, bytes).1.Error? ==> Imported(e, h, bytes).0 == h
  {
    DecodedValid(e.fp, bytes);
  }

  /** A prepared and started job follows its run from the beginning. */
  lemma LaunchFollows(e: Engine, d: JobDescriptor, tokens: seq<I32>, a: Adapter)
    requires EngineOk(e) && AdapterOk(e, a) && ValidDescriptor(d) && d.total == |tokens| <= |a.tokens|
    ensures var h := Launch(e, Host(Job(d, READY, 0), Prepared(a, Words(BitsOf(tokens))).0));
            Following(e, tokens, d, h) && h.job.completed == 0
  {
    WordsRoundTrip(BitsOf(tokens));
    TokensRoundTrip(tokens);
    BlankFits(e);
    assert Overlay(a.tokens, tokens)[..|tokens|] == tokens;
    assert tokens[..0] == [];
  }

  lemma MoveFollows(e: Engine, tokens: seq<I32>, d: JobDescriptor, h: Host, m: Move)
    requires EngineOk(e) && Following(e, tokens, d, h) && MoveOk(e, d, m)
    requires Feed(e, Blank(e), tokens).1 == |tokens|
    ensures MoveOk(e, h.job.desc, m)
    ensures var r := Moved(e, h, m);
            && Following(e, tokens, d, r)
            && r.job.completed == if m.Work? then Min(d.total, h.job.completed + m.budget) else h.job.completed
  {
    match m
    case Work(budget, cancelBefore) => WorkFollows(e, tokens, d, h, budget, cancelBefore);
    case Hop(reserved, adapter) => HopFollows(e, tokens, d, h, reserved, adapter);
  }

  function Asked(m: Move): nat
  {
    if m.Work? then m.budget else 0
  }

  /** The work asked for by a sequence of moves. */
  function Budgets(moves: seq<Move>): nat
  {
    if moves == [] then 0 else Budgets(moves[..|moves| - 1]) + Asked(moves[|moves| - 1])
  }

  /** One leg of a trip. */
  predicate Leg(e: Engine, h: Host, m: Move, r: Host)
  {
    && JobOk(h.job) && AdapterOk(e, h.adapter) && MoveOk(e, h.job.desc, m)
    && r == Moved(e, h, m)
  }

  predicate LegAt(e: Engine, hosts: seq<Host>, moves: seq<Move>, i: nat)
  {
    i < |moves| && i + 1 < |hosts| && Leg(e, hosts[i], moves[i], hosts[i + 1])
  }

  /** The hosts a job passes through, one move after the other. */
  predicate Trip(e: Engine, hosts: seq<Host>, moves: seq<Move>)
  {
    |hosts| == |moves| + 1 && forall i :: 0 <= i < |moves| ==> LegAt(e, hosts, moves, i)
  }

  /** The host follows the run and has done as much as `asked` units of work allow. */
  predicate FollowsAt(e: Engine, tokens: seq<I32>, d: JobDescriptor, h: Host, asked: nat)
  {
    Following(e, tokens, d, h) && h.job.completed == Min(d.total, asked)
  }

  lemma LegFollows(e: Engine, tokens: seq<I32>, d: JobDescriptor, h: Host, m: Move, r: Host, asked: nat)
    requires EngineOk(e) && FollowsAt(e, tokens, d, h, asked) && Leg(e, h, m, r)
    requires Feed(e, Blank(e), tokens).1 == |tokens|
    ensures FollowsAt(e, tokens, d, r, asked + Asked(m))
  {
    MoveFollows(e, tokens, d, h, m);
  }

  /** Every host of a trip follows the run, and progress depends only on the work asked for. */
  lemma {:induction false} TripFollows(e: Engine, tokens: seq<I32>, d: JobDescriptor, hosts: seq<Host>,
                                       moves: seq<Move>, asked: nat, k: nat)
    requires EngineOk(e) && Trip(e, hosts, moves) && k <= |moves| && FollowsAt(e, tokens, d, hosts[0], asked)
    requires Feed(e, Blank(e), tokens).1 == |tokens|
    ensures FollowsAt(e, tokens, d, hosts[k], asked + Budgets(moves[..k]))
    decreases k
  {
    if k > 0 {
      TripFollows(e, tokens, d, hosts, moves, asked, k - 1);
      assert LegAt(e, hosts, moves, k - 1);
      BudgetsGrow(moves, k);
      LegFollows(e, tokens, d, hosts[k - 1], moves[k - 1], hosts[k], asked + Budgets(moves[..k - 1]));
    }
  }

  lemma BudgetsGrow(moves: seq<Move>, k: nat)
    requires 0 < k <= |moves|
    ensures Budgets(moves[..k]) == Budgets(moves[..k - 1]) + Asked(moves[k - 1])
  {
    assert moves[..k][..k - 1] == moves[..k - 1];
  }

  /** What a client of the job can see: its progress, the hidden row, the decode state, the tokens. */
  datatype Visible = Visible(state: U16, completed: nat, remaining: nat, core: Core, tokens: seq<I32>, result: seq<U8>)

  function Result(a: Adapter): seq<U8>
  {
    if a.completed == 0 then [] else Words(a.hidden)
  }

  function Seen(h: Host): Visible
    requires JobOk(h.job) && h.adapter.count <= |h.adapter.tokens|
  {
    Visible(h.job.state, h.job.completed, Remaining(h.job), Core(h.adapter.hidden, h.adapter.state),
            h.adapter.tokens[..h.adapter.count], Result(h.adapter))
  }

  predicate LooksLike(a: Host, b: Host)
  {
    && JobOk(a.job) && a.adapter.count <= |a.adapter.tokens| && JobOk(b.job) && b.adapter.count <= |b.adapter.tokens|
    && Seen(a) == Seen(b)
  }

  /**
  Migration preserves meaning: however the work is cut into budgets and wherever the job hops, what is
  seen at the end is what one uninterrupted call with the total budget shows.
   */
  lemma MigrationInvisible(e: Engine, tokens: seq<I32>, d: JobDescriptor, hosts: seq<Host>, moves: seq<Move>)
    requires EngineOk(e) && Trip(e, hosts, moves) && Following(e, tokens, d, hosts[0])
    requires Feed(e, Blank(e), tokens).1 == |tokens| && Budgets(moves) > 0
    ensures LooksLike(hosts[|moves|], Driven(e, hosts[0], Budgets(moves), 0))
  {
    TripFollows(e, tokens, d, hosts, moves, hosts[0].job.completed, |moves|);
    assert moves[..|moves|] == moves;
    SeenOnce(e, tokens, d, hosts[0], Budgets(moves), hosts[|moves|]);
  }

  lemma SeenOnce(e: Engine, tokens: seq<I32>, d: JobDescriptor, h: Host, budget: nat, r: Host)
    requires EngineOk(e) && Following(e, tokens, d, h) && budget > 0
    requires Feed(e, Blank(e), tokens).1 == |tokens| && FollowsAt(e, tokens, d, r, h.job.completed + budget)
    ensures LooksLike(r, Driven(e, h, budget, 0))
  {
    WorkFollows(e, tokens, d, h, budget, 0);
    SeenFollowing(e, tokens, d, r, Driven(e, h, budget, 0));
  }

  lemma SeenFollowing(e: Engine, tokens: seq<I32>, d: JobDescriptor, a: Host, b: Host)
    requires Following(e, tokens, d, a) && Following(e, tokens, d, b) && a.job.completed == b.job.completed
    ensures LooksLike(a, b)
  {
  }

  /** Enough work completes the job with the hidden row of the whole token sequence. */
  lemma MigrationCompletes(e: Engine, tokens: seq<I32>, d: JobDescriptor, hosts: seq<Host>, moves: seq<Move>)
    requires EngineOk(e) && Trip(e, hosts, moves) && Following(e, tokens, d, hosts[0])
    requires Feed(e, Blank(e), tokens).1 == |tokens| && hosts[0].job.completed + Budgets(moves) >= d.total
    ensures var last := hosts[|moves|];
            && last.job.state == COMPLETE && last.job.completed == |tokens|
            && Result(last.adapter) == Words(Feed(e, Blank(e), tokens).0.hidden)
  {
    TripFollows(e, tokens, d, hosts, moves, hosts[0].job.completed, |moves|);
    assert moves[..|moves|] == moves;
    CompleteResult(e, tokens, d, hosts[|moves|]);
  }

  lemma CompleteResult(e: Engine, tokens: seq<I32>, d: JobDescriptor, h: Host)
    requires Following(e, tokens, d, h) && h.job.completed == d.total
    ensures h.job.state == COMPLETE && h.job.completed == |tokens|
    ensures Result(h.adapter) == Words(Feed(e, Blank(e), tokens).0.hidden)
  {
    assert tokens[..|tokens|] == tokens;
  }
}
