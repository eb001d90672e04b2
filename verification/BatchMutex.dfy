/** The worker exactly as it is written, with `batch_mutex_`: a full batch calls `process_batch`, which
  * locks the mutex that the caller still holds.  `Pipeline` has the mutex released before the call.
  */
module BatchMutex {
  import opened Base
  import S = StoreSpec
  import Q = BoundedQueue
  import P = Pipeline
  import R = Recovery

  /** `mutex` is the owner of `batch_mutex_`; `nested` says that the worker thread has appended the
    * record in hand, found the batch full and is about to lock the mutex inside `process_batch`. */
  datatype State = State(s: P.State, mutex: Option<Tid>, nested: bool)

  /** `Take` locks the mutex, appends the record in hand and tests the size; `Swap` is the nested
    * lock with the swap under it; any other step is one of the pipeline. */
  datatype Event = Do(e: P.Event) | Take | Swap

  function Init(batchSize: nat, logLimit: nat): State {
    State(P.Init(P.WriteBehind, batchSize, logLimit), None, false)
  }

  /** The other steps that lock `batch_mutex_`, and release it before they end. */
  predicate Locks(s: P.State, e: P.Event) {
    match e
    case Timer(due) => due && s.worker.batch != []
    case StopFlush => true
    case SetBatchSize(_) => true
    case _ => false
  }

  /** A mutex that has an owner cannot be locked, not even by its owner. */
  predicate Enabled(a: State, e: Event) {
    match e
    case Do(e) => P.Enabled(a.s, e) && !e.TakeIntoBatch? && (Locks(a.s, e) ==> a.mutex.None?)
    case Take => P.Enabled(a.s, P.TakeIntoBatch) && !a.nested && a.mutex.None?
    case Swap => P.Enabled(a.s, P.TakeIntoBatch) && a.nested && a.mutex.None?
  }

  function Step(a: State, e: Event): State
    requires Enabled(a, e)
  {
    match e
    case Do(e) => a.(s := P.Step(a.s, e))
    case Take =>
      if P.Fills(a.s.worker) then a.(mutex := Some(P.WORKER), nested := true) else a.(s := P.Step(a.s, P.TakeIntoBatch))
    case Swap => a.(s := P.Step(a.s, P.TakeIntoBatch), nested := false)
  }

  predicate IsRun(a: State, es: seq<Event>)
    decreases |es|, 0
  {
    es != [] ==> IsRun(a, es[..|es| - 1]) && Enabled(Run(a, es[..|es| - 1]), es[|es| - 1])
  }

  function Run(a: State, es: seq<Event>): State
    requires IsRun(a, es)
    decreases |es|, 1
  {
    if es == [] then a else Step(Run(a, es[..|es| - 1]), es[|es| - 1])
  }

  lemma {:induction false} RunMore(a: State, es: seq<Event>, e: Event)
    requires IsRun(a, es) && Enabled(Run(a, es), e)
    ensures IsRun(a, es + [e]) && Run(a, es + [e]) == Step(Run(a, es), e)
  {
    assert (es + [e])[..|es|] == es;
  }

  // ---------------------------------------------------------------- the same pipeline, until it blocks

  /** The steps of the pipeline that a run takes. */
  function Steps(a: State, es: seq<Event>): seq<P.Event>
    requires IsRun(a, es)
  {
    if es == [] then []
    else
      var n := |es| - 1;
      Steps(a, es[..n]) +
      match es[n]
      case Do(e) => [e]
      case Take => if P.Fills(Run(a, es[..n]).s.worker) then [] else [P.TakeIntoBatch]
      case Swap => [P.TakeIntoBatch]
  }

  /** Only the nested call keeps the mutex, and it has the record in hand. */
  predicate MutexOk(a: State) {
    && (a.mutex.Some? <==> a.nested)
    && (a.nested ==> a.s.worker.phase.Holding? && a.mutex == Some(P.WORKER))
  }

  lemma {:induction false} StepKeepsMutex(a: State, e: Event)
    requires MutexOk(a) && Enabled(a, e)
    ensures MutexOk(Step(a, e)) && (a.nested ==> Step(a, e).nested)
  {
  }

  /** Every run as written is, up to where it blocks, a run of the pipeline, so all that is proved of
    * those runs holds of it. */
  lemma {:induction false} RunsAsThePipeline(batchSize: nat, logLimit: nat, es: seq<Event>)
    requires IsRun(Init(batchSize, logLimit), es)
    ensures var a0 := Init(batchSize, logLimit);
      && MutexOk(Run(a0, es)) && Run(a0, es).s.mode.WriteBehind?
      && P.IsRun(a0.s, Steps(a0, es)) && P.Run(a0.s, Steps(a0, es)) == Run(a0, es).s
  {
    var a0 := Init(batchSize, logLimit);
    if es != [] {
      var n := |es| - 1;
      RunsAsThePipeline(batchSize, logLimit, es[..n]);
      var a, steps := Run(a0, es[..n]), Steps(a0, es[..n]);
      StepKeepsMutex(a, es[n]);
      match es[n]
      case Do(e) => R.RunMore(a0.s, steps, e);
      case Take =>
        if P.Fills(a.s.worker) {
          assert steps + [] == steps;
        } else {
          R.RunMore(a0.s, steps, P.TakeIntoBatch);
        }
      case Swap => R.RunMore(a0.s, steps, P.TakeIntoBatch);
    }
  }

  // ---------------------------------------------------------------- when it blocks

  /** The worker thread can take its next step. */
  ghost predicate WorkerCanStep(a: State) {
    || Enabled(a, Take)
    || Enabled(a, Swap)
    || (exists e :: Enabled(a, Do(e)) && ByWorker(e))
  }

  predicate ByWorker(e: P.Event) {
    e.Head? || e.ResumeWorker? || e.Timer? || e.FlushOne? || e.FlushDone?
  }

  /** It never will again, whatever the other threads do, and nothing more reaches the log. */
  ghost predicate Blocked(a: State) {
    forall es | IsRun(a, es) :: !WorkerCanStep(Run(a, es)) && Run(a, es).s.wal == a.s.wal
  }

  lemma {:induction false} NestedStays(a: State, es: seq<Event>)
    requires MutexOk(a) && a.nested && a.s.mode.WriteBehind? && IsRun(a, es)
    ensures var b := Run(a, es);
      MutexOk(b) && b.nested && b.s.mode.WriteBehind? && !WorkerCanStep(b) && b.s.wal == a.s.wal
  {
    if es != [] {
      var n := |es| - 1;
      NestedStays(a, es[..n]);
      StepKeepsMutex(Run(a, es[..n]), es[n]);
    }
  }

  /** The step that takes the record in hand blocks the worker for ever if and only if the record
    * fills the batch. */
  lemma {:induction false} BlocksExactlyWhenFull(batchSize: nat, logLimit: nat, es: seq<Event>)
    requires IsRun(Init(batchSize, logLimit), es) && Enabled(Run(Init(batchSize, logLimit), es), Take)
    ensures var a := Run(Init(batchSize, logLimit), es);
      Blocked(Step(a, Take)) <==> P.Fills(a.s.worker)
  {
    var a := Run(Init(batchSize, logLimit), es);
    RunsAsThePipeline(batchSize, logLimit, es);
    StepKeepsMutex(a, Take);
    var b := Step(a, Take);
    if P.Fills(a.s.worker) {
      forall later | IsRun(b, later)
        ensures !WorkerCanStep(Run(b, later)) && Run(b, later).s.wal == b.s.wal
      {
        NestedStays(b, later);
      }
    } else {
      assert Enabled(b, Do(P.Timer(false))) && ByWorker(P.Timer(false));
      assert IsRun(b, []) && Run(b, []) == b;
    }
  }

  /** The worker thread, or the one that stops it, can take a step of its own. */
  ghost predicate CanStep(a: State) {
    exists e :: Enabled(a, e) && (e.Do? ==>
      !e.e.Client? && !e.e.ResumeWriter? && !e.e.Unpark? && !e.e.RequestStop? && !e.e.SetBatchSize?)
  }

  lemma {:induction false} StepsAsThePipeline(a: State)
    requires MutexOk(a) && !a.nested && a.s.mode.WriteBehind? && R.WorkerCanStep(a.s)
    ensures CanStep(a)
  {
    var e :| P.WorkerEnabled(a.s.worker, e) && !e.Unpark? && !e.RequestStop? && !e.SetBatchSize?;
    var step := if e.TakeIntoBatch? then Take else Do(e);
    assert Enabled(a, step);
  }

  /** Progress of the worker as written: until it is blocked or has stopped, it can step, or it sleeps on
    * an empty queue and a parked writer can step; once blocked it cannot step. */
  lemma {:induction false} NeverDeadlockedUntilBlocked(batchSize: nat, logLimit: nat, es: seq<Event>)
    requires IsRun(Init(batchSize, logLimit), es)
    ensures var a := Run(Init(batchSize, logLimit), es);
      if a.nested then !CanStep(a)
      else a.s.worker.phase.Stopped? || CanStep(a)
           || (a.s.worker.q.queue == []
               && (a.s.writer.Some? ==> exists pick :: Enabled(a, Do(P.ResumeWriter(pick)))))
  {
    var a0 := Init(batchSize, logLimit);
    var a := Run(a0, es);
    RunsAsThePipeline(batchSize, logLimit, es);
    R.NeverDeadlocked(batchSize, logLimit, Steps(a0, es));
    if !a.nested && R.WorkerCanStep(a.s) {
      StepsAsThePipeline(a);
    } else if !a.nested && R.WriterCanStep(a.s) {
      var pick :| P.Enabled(a.s, P.ResumeWriter(pick));
      assert Enabled(a, Do(P.ResumeWriter(pick)));
    }
  }

  // ---------------------------------------------------------------- what that does to writers

  /** The worker is blocked, the queue is full, and client `t` is parked inside its push. */
  predicate StuckBehind(a: State, t: Tid) {
    && MutexOk(a) && a.nested && P.Inv(a.s) && a.s.mode.WriteBehind?
    && |a.s.worker.q.queue| == P.QUEUE_LIMIT && a.s.writer == Some(t)
  }

  lemma {:induction false} StuckBehindStep(a: State, e: Event, t: Tid)
    requires StuckBehind(a, t) && Enabled(a, e)
    ensures StuckBehind(Step(a, e), t)
  {
    P.StepKeeps(a.s, e.e);
    StepKeepsMutex(a, e);
  }

  lemma {:induction false} StuckBehindStays(a: State, es: seq<Event>, t: Tid)
    requires StuckBehind(a, t) && IsRun(a, es)
    ensures StuckBehind(Run(a, es), t)
  {
    if es != [] {
      var n := |es| - 1;
      StuckBehindStays(a, es[..n], t);
      StuckBehindStep(Run(a, es[..n]), es[n], t);
    }
  }

  /** Client `t` holds the store's lock, and will in every continuation. */
  ghost predicate KeepsTheLock(a: State, t: Tid) {
    forall es | IsRun(a, es) :: Run(a, es).s.writer == Some(t)
  }

  lemma {:induction false} WriteBehindBlocked(a: State, e: P.Event)
    requires MutexOk(a) && a.nested && P.Inv(a.s) && a.s.mode.WriteBehind? && a.s.writer.None?
    requires e.Client? && Enabled(a, Do(e)) && S.Logged(a.s.store, e.op) != []
    ensures if |a.s.worker.q.queue| == P.QUEUE_LIMIT then StuckBehind(Step(a, Do(e)), e.t)
      else Step(a, Do(e)).s.writer.None?
  {
    P.StepKeeps(a.s, e);
    StepKeepsMutex(a, Do(e));
  }

  /** Once the worker is blocked, a write keeps the store's lock for ever if and only if it finds the
    * queue full; with room it returns at once, and its record stays in the queue. */
  lemma {:induction false} WriteStuckExactlyWhenFull(batchSize: nat, logLimit: nat, es: seq<Event>, e: P.Event)
    requires IsRun(Init(batchSize, logLimit), es) && e.Client?
    requires var a := Run(Init(batchSize, logLimit), es);
      a.nested && a.s.writer.None? && Enabled(a, Do(e)) && S.Logged(a.s.store, e.op) != []
    ensures var a := Run(Init(batchSize, logLimit), es);
      && (KeepsTheLock(Step(a, Do(e)), e.t) <==> |a.s.worker.q.queue| == P.QUEUE_LIMIT)
      && (Step(a, Do(e)).s.writer.None? <==> |a.s.worker.q.queue| < P.QUEUE_LIMIT)
  {
    var a0 := Init(batchSize, logLimit);
    var a := Run(a0, es);
    RunsAsThePipeline(batchSize, logLimit, es);
    R.RunConserves(P.WriteBehind, batchSize, logLimit, Steps(a0, es));
    WriteBehindBlocked(a, e);
    var b := Step(a, Do(e));
    if b.s.writer.Some? {
      forall later | IsRun(b, later)
        ensures Run(b, later).s.writer == Some(e.t)
      {
        StuckBehindStays(b, later, e.t);
      }
    } else {
      assert IsRun(b, []) && Run(b, []) == b;
    }
  }

  // ---------------------------------------------------------------- it happens for every batch size

  /** At the head of its loop, with `k` records in the batch and none in the queue. */
  predicate AtHead(a: State, k: nat) {
    && MutexOk(a) && !a.nested && P.Inv(a.s) && a.s.mode.WriteBehind? && a.s.writer.None?
    && a.s.worker.phase.LoopHead? && a.s.worker.running && a.s.worker.q.queue == [] && |a.s.worker.batch| == k
  }

  /** The worker is about to pop, and nobody waits for it. */
  predicate Popping(s: P.State) {
    P.Inv(s) && s.mode.WriteBehind? && s.writer.None? && s.worker.phase.LoopHead? && s.worker.running
  }

  lemma {:induction false} WriteComesIn(s: P.State)
    requires Popping(s) && s.worker.q.queue == []
    ensures P.Enabled(s, R.SOME_SET)
    ensures var s' := P.Step(s, R.SOME_SET);
      && Popping(s') && |s'.worker.q.queue| == 1
      && s'.worker.batch == s.worker.batch && s'.worker.batchSize == s.worker.batchSize
  {
    P.StepKeeps(s, R.SOME_SET);
    assert [] + [Record(Slot([], []), [])] == [Record(Slot([], []), [])];
  }

  lemma {:induction false} WorkerPops(s: P.State)
    requires Popping(s) && |s.worker.q.queue| == 1
    ensures P.Enabled(s, P.Head(0))
    ensures var s' := P.Step(s, P.Head(0));
      && P.Inv(s') && s'.mode.WriteBehind? && s'.writer.None? && s'.worker.running && s'.worker.phase.Holding?
      && s'.worker.q.queue == []
      && s'.worker.batch == s.worker.batch && s'.worker.batchSize == s.worker.batchSize
  {
    P.StepKeeps(s, P.Head(0));
  }

  /** A write comes in and the worker pops it. */
  lemma {:induction false} PopOne(a: State, k: nat)
    requires AtHead(a, k)
    ensures Enabled(a, Do(R.SOME_SET)) && Enabled(Step(a, Do(R.SOME_SET)), Do(P.Head(0)))
    ensures var b := Step(Step(a, Do(R.SOME_SET)), Do(P.Head(0)));
      && Enabled(b, Take) && b.s.worker.batch == a.s.worker.batch && b.s.worker.batchSize == a.s.worker.batchSize
      && P.Inv(b.s) && b.s.mode.WriteBehind? && b.s.writer.None? && b.s.worker.running && b.s.worker.q.queue == []
      && MutexOk(b) && !b.nested
  {
    WriteComesIn(a.s);
    WorkerPops(P.Step(a.s, R.SOME_SET));
  }

  lemma {:induction false} BatchOne(b: State, k: nat)
    requires Enabled(b, Take) && P.Inv(b.s) && b.s.mode.WriteBehind? && b.s.writer.None? && b.s.worker.running
    requires b.s.worker.q.queue == [] && MutexOk(b) && !b.nested && |b.s.worker.batch| == k && !P.Fills(b.s.worker)
    ensures Enabled(Step(b, Take), Do(P.Timer(false))) && AtHead(Step(Step(b, Take), Do(P.Timer(false))), k + 1)
    ensures Step(Step(b, Take), Do(P.Timer(false))).s.worker.batchSize == b.s.worker.batchSize
  {
    P.StepKeeps(b.s, P.TakeIntoBatch);
    P.StepKeeps(P.Step(b.s, P.TakeIntoBatch), P.Timer(false));
  }

  lemma {:induction false} FillUp(batchSize: nat, logLimit: nat, k: nat) returns (es: seq<Event>)
    requires k == 0 || k < batchSize
    ensures IsRun(Init(batchSize, logLimit), es) && AtHead(Run(Init(batchSize, logLimit), es), k)
    ensures Run(Init(batchSize, logLimit), es).s.worker.batchSize == batchSize
  {
    var a0 := Init(batchSize, logLimit);
    if k == 0 {
      es := [];
      P.InitInv(P.WriteBehind, batchSize, logLimit);
    } else {
      es := FillUp(batchSize, logLimit, k - 1);
      var a := Run(a0, es);
      PopOne(a, k - 1);
      RunMore(a0, es, Do(R.SOME_SET));
      RunMore(a0, es + [Do(R.SOME_SET)], Do(P.Head(0)));
      es := es + [Do(R.SOME_SET)] + [Do(P.Head(0))];
      BatchOne(Run(a0, es), k - 1);
      RunMore(a0, es, Take);
      RunMore(a0, es + [Take], Do(P.Timer(false)));
      es := es + [Take] + [Do(P.Timer(false))];
    }
  }

  /** For every batch size there is a run that blocks the worker for ever. */
  lemma {:induction false} BlocksForEveryBatchSize(batchSize: nat, logLimit: nat) returns (es: seq<Event>)
    ensures IsRun(Init(batchSize, logLimit), es) && Blocked(Run(Init(batchSize, logLimit), es))
  {
    var a0 := Init(batchSize, logLimit);
    var k := if batchSize == 0 then 0 else batchSize - 1;
    es := FillUp(batchSize, logLimit, k);
    PopOne(Run(a0, es), k);
    RunMore(a0, es, Do(R.SOME_SET));
    RunMore(a0, es + [Do(R.SOME_SET)], Do(P.Head(0)));
    es := es + [Do(R.SOME_SET)] + [Do(P.Head(0))];
    BlocksExactlyWhenFull(batchSize, logLimit, es);
    RunMore(a0, es, Take);
    es := es + [Take];
  }
}
