/** What the pipeline guarantees over whole runs: nothing is lost or reordered on the way to
  * the log, a crash recovers an earlier memory, the lag is bounded, nobody waits for ever.
  */
module Recovery {
  import opened Base
  import S = StoreSpec
  import Q = BoundedQueue
  import W = Wal
  import opened LogFormat
  import opened Pipeline

  /** The records written to memory, in the order of the store's lock. */
  function History(es: seq<Event>): seq<Record> {
    S.Log(S.EMPTY_STORE, ClientOps(es))
  }

  /** What one more event adds to the history and does to the memory. */
  lemma {:induction false} LogSnoc(ops: seq<S.Op>, e: Event)
    ensures var st, ops' := S.Run(S.EMPTY_STORE, ops), ops + (if e.Client? then [e.op] else []);
      && S.Log(S.EMPTY_STORE, ops') == S.Log(S.EMPTY_STORE, ops) + (if e.Client? then S.Logged(st, e.op) else [])
      && S.Run(S.EMPTY_STORE, ops') == (if e.Client? then S.Apply(st, e.op) else st)
  {
    if e.Client? {
      assert (ops + [e.op])[..|ops|] == ops;
    } else {
      assert ops + [] == ops;
    }
  }

  lemma {:induction false} RecordsConcat(a: seq<W.Write>, b: seq<W.Write>)
    ensures Records(a + b) == Records(a) + Records(b)
  {
  }

  /** Log, batch being flushed, current batch, record in hand, queue and pending push, read in
    * this order, are the write history `ops` has led to. */
  ghost predicate InStep(s: State, appended: seq<W.Write>, ops: seq<S.Op>) {
    && Inv(s) && s.store == S.Run(S.EMPTY_STORE, ops)
    && Records(appended) + InFlight(s) == S.Log(S.EMPTY_STORE, ops)
  }

  lemma {:induction false} StaysInStep(s: State, e: Event, appended: seq<W.Write>, ops: seq<S.Op>)
    requires InStep(s, appended, ops) && Enabled(s, e)
    ensures InStep(Step(s, e), appended + Appends(s, e), ops + (if e.Client? then [e.op] else []))
  {
    StepKeeps(s, e);
    LogSnoc(ops, e);
    RecordsConcat(appended, Appends(s, e));
    Regroup(Records(appended), InFlight(s), if e.Client? then S.Logged(s.store, e.op) else [],
            Records(Appends(s, e)), InFlight(Step(s, e)));
  }

  lemma {:induction false} NextInStep(s0: State, es: seq<Event>, n: nat)
    requires IsRun(s0, es) && |es| == n + 1
    requires InStep(Run(s0, es[..n]), Appended(s0, es[..n]), ClientOps(es[..n]))
    ensures InStep(Run(s0, es), Appended(s0, es), ClientOps(es))
  {
    StaysInStep(Run(s0, es[..n]), es[n], Appended(s0, es[..n]), ClientOps(es[..n]));
  }

  lemma {:induction false} StartsInStep(mode: Mode, batchSize: nat, logLimit: nat)
    ensures InStep(Init(mode, batchSize, logLimit), [], [])
  {
    InitInv(mode, batchSize, logLimit);
  }

  lemma {:induction false} ModeStays(s0: State, es: seq<Event>)
    requires IsRun(s0, es)
    ensures Run(s0, es).mode == s0.mode
  {
    if es != [] {
      ModeStays(s0, es[..|es| - 1]);
    }
  }

  lemma {:induction false} RunInStep(mode: Mode, batchSize: nat, logLimit: nat, es: seq<Event>)
    requires IsRun(Init(mode, batchSize, logLimit), es)
    ensures var s0 := Init(mode, batchSize, logLimit); InStep(Run(s0, es), Appended(s0, es), ClientOps(es))
  {
    if es == [] {
      StartsInStep(mode, batchSize, logLimit);
    } else {
      var n := |es| - 1;
      RunInStep(mode, batchSize, logLimit, es[..n]);
      NextInStep(Init(mode, batchSize, logLimit), es, n);
    }
  }

  /** For every interleaving. */
  lemma {:induction false} RunConserves(mode: Mode, batchSize: nat, logLimit: nat, es: seq<Event>)
    requires IsRun(Init(mode, batchSize, logLimit), es)
    ensures var s0 := Init(mode, batchSize, logLimit);
      var s := Run(s0, es);
      && Inv(s) && s.mode == mode
      && s.store == S.Run(S.EMPTY_STORE, ClientOps(es))
      && Records(Appended(s0, es)) + InFlight(s) == History(es)
  {
    RunInStep(mode, batchSize, logLimit, es);
    ModeStays(Init(mode, batchSize, logLimit), es);
  }

  lemma {:induction false} Regroup(logged: seq<Record>, flight: seq<Record>, written: seq<Record>,
                                   appended: seq<Record>, flight': seq<Record>)
    requires flight + written == appended + flight'
    ensures (logged + appended) + flight' == (logged + flight) + written
  {
    calc {
      (logged + appended) + flight';
      logged + (appended + flight');
      logged + (flight + written);
      (logged + flight) + written;
    }
  }

  lemma {:induction false} StepAppends(s: State, e: Event)
    requires Enabled(s, e)
    ensures |Appends(s, e)| <= 1
    ensures Step(s, e).wal == if Appends(s, e) == [] then s.wal
      else W.Append(s.wal, Appends(s, e)[0].record, Appends(s, e)[0].timestamp)
  {
  }

  lemma {:induction false} AppendAllMore(w: W.WalState, before: seq<W.Write>, more: seq<W.Write>)
    requires |more| <= 1
    ensures W.AppendAll(w, before + more) == if more == [] then W.AppendAll(w, before)
      else W.Append(W.AppendAll(w, before), more[0].record, more[0].timestamp)
  {
    if more == [] {
      assert before + more == before;
    } else {
      assert (before + more)[..|before|] == before;
    }
  }

  /** The log object holds exactly what was appended. */
  lemma {:induction false} LogHoldsAppended(mode: Mode, batchSize: nat, logLimit: nat, es: seq<Event>)
    requires IsRun(Init(mode, batchSize, logLimit), es)
    ensures var s0 := Init(mode, batchSize, logLimit);
      Run(s0, es).wal == W.AppendAll(W.Fresh(logLimit), Appended(s0, es))
  {
    var s0 := Init(mode, batchSize, logLimit);
    if es != [] {
      var n := |es| - 1;
      LogHoldsAppended(mode, batchSize, logLimit, es[..n]);
      var s, e := Run(s0, es[..n]), es[n];
      StepAppends(s, e);
      AppendAllMore(W.Fresh(logLimit), Appended(s0, es[..n]), Appends(s, e));
    }
  }

  // ---------------------------------------------------------------- recovery

  lemma {:induction false} PrefixIsRun(s: State, es: seq<Event>, i: nat)
    requires IsRun(s, es) && i <= |es|
    ensures IsRun(s, es[..i])
    decreases |es|
  {
    if i < |es| {
      var n := |es| - 1;
      PrefixIsRun(s, es[..n], i);
      assert es[..n][..i] == es[..i];
    } else {
      assert es[..i] == es;
    }
  }

  lemma {:induction false} HistorySnoc(es: seq<Event>, n: nat)
    requires |es| == n + 1
    ensures History(es[..n]) <= History(es) && |History(es)| <= |History(es[..n])| + 1
  {
    LogSnoc(ClientOps(es[..n]), es[n]);
  }

  /** The `k`-th write of a run happened at some point, with the same history up to it. */
  lemma {:induction false} FindWrite(es: seq<Event>, k: nat) returns (i: nat)
    requires k <= |History(es)|
    ensures i <= |es| && History(es[..i]) == History(es)[..k]
  {
    if k == |History(es)| {
      assert es[..|es|] == es;
      return |es|;
    }
    var n := |es| - 1;
    HistorySnoc(es, n);
    i := FindWrite(es[..n], k);
    assert es[..n][..i] == es[..i];
  }

  /** `m` is what clients had written, as it stood at some moment of the run. */
  ghost predicate WasMemory(s0: State, es: seq<Event>, m: map<Slot, Bytes>)
    requires IsRun(s0, es)
  {
    exists i :: 0 <= i <= |es| && IsRun(s0, es[..i]) && S.Visible(Run(s0, es[..i]).store) == m
  }

  lemma {:induction false} PrefixWasMemory(mode: Mode, batchSize: nat, logLimit: nat, es: seq<Event>, k: nat)
    requires IsRun(Init(mode, batchSize, logLimit), es) && S.OnlyWrites(ClientOps(es))
    requires k <= |History(es)|
    ensures WasMemory(Init(mode, batchSize, logLimit), es, S.Fold(History(es)[..k]))
  {
    var s0 := Init(mode, batchSize, logLimit);
    var i := FindWrite(es, k);
    PrefixIsRun(s0, es, i);
    RunConserves(mode, batchSize, logLimit, es[..i]);
    OnlyWritesPrefix(es, i);
    S.FoldIsExact(ClientOps(es[..i]));
  }

  lemma {:induction false} OnlyWritesPrefix(es: seq<Event>, i: nat)
    requires i <= |es| && S.OnlyWrites(ClientOps(es))
    ensures S.OnlyWrites(ClientOps(es[..i]))
    decreases |es|
  {
    if i < |es| {
      var n := |es| - 1;
      var before := ClientOps(es[..n]);
      assert forall k | 0 <= k < |before| :: before[k] == ClientOps(es)[k];
      OnlyWritesPrefix(es[..n], i);
      assert es[..n][..i] == es[..i];
    } else {
      assert es[..i] == es;
    }
  }

  /** Prefix-consistent recovery: without removals, folding the log alone gives the memory as
    * it stood after some earlier write, whatever the interleaving. */
  lemma {:induction false} PrefixConsistentRecovery(mode: Mode, batchSize: nat, logLimit: nat, es: seq<Event>)
    requires IsRun(Init(mode, batchSize, logLimit), es) && S.OnlyWrites(ClientOps(es))
    ensures var s0 := Init(mode, batchSize, logLimit);
      WasMemory(s0, es, S.Fold(Records(Appended(s0, es))))
  {
    var logged := Records(Appended(Init(mode, batchSize, logLimit), es));
    RunConserves(mode, batchSize, logLimit, es);
    assert History(es)[..|logged|] == logged;
    PrefixWasMemory(mode, batchSize, logLimit, es, |logged|);
  }

  lemma {:induction false} LoggedAreHistory(mode: Mode, batchSize: nat, logLimit: nat, es: seq<Event>)
    requires IsRun(Init(mode, batchSize, logLimit), es)
    ensures var ws := Appended(Init(mode, batchSize, logLimit), es);
      |ws| <= |History(es)| && forall j | 0 <= j < |ws| :: ws[j].record == History(es)[j]
  {
    RunConserves(mode, batchSize, logLimit, es);
    var ws := Appended(Init(mode, batchSize, logLimit), es);
    assert forall j | 0 <= j < |ws| :: Records(ws)[j] == History(es)[j];
  }

  lemma {:induction false} StoppedHasOnlyTheQueue(w: Worker)
    requires WorkerInv(w) && w.phase.Stopped?
    ensures Acknowledged(w) == w.q.queue
  {
  }

  lemma {:induction false} Assoc(a: seq<Record>, b: seq<Record>, c: seq<Record>)
    ensures a + b + c == a + (b + c)
  {
  }

  /** After `stop`, what the log is missing is exactly the queue and the push still waiting. */
  lemma {:induction false} MissingAfterStop(batchSize: nat, logLimit: nat, es: seq<Event>)
    requires IsRun(Init(WriteBehind, batchSize, logLimit), es)
    requires Run(Init(WriteBehind, batchSize, logLimit), es).worker.phase.Stopped?
    ensures var s0 := Init(WriteBehind, batchSize, logLimit);
      Records(Appended(s0, es)) + Run(s0, es).worker.q.queue + PendingPush(Run(s0, es)) == History(es)
  {
    var s0 := Init(WriteBehind, batchSize, logLimit);
    RunConserves(WriteBehind, batchSize, logLimit, es);
    var s := Run(s0, es);
    StoppedHasOnlyTheQueue(s.worker);
    Assoc(Records(Appended(s0, es)), s.worker.q.queue, PendingPush(s));
  }

  /** In write-ahead mode the log is the history at every moment. */
  lemma {:induction false} WriteAheadHasNoLag(batchSize: nat, logLimit: nat, es: seq<Event>)
    requires IsRun(Init(WriteAhead, batchSize, logLimit), es)
    ensures Records(Appended(Init(WriteAhead, batchSize, logLimit), es)) == History(es)
  {
    RunConserves(WriteAhead, batchSize, logLimit, es);
  }

  // ---------------------------------------------------------------- bounded lag

  function Max1(n: nat): nat { if n == 0 then 1 else n }

  predicate SmallBatches(w: Worker, batchSize: nat) {
    && w.batchSize == batchSize
    && |w.batch| < Max1(batchSize)
    && |BeingFlushed(w.phase)| <= Max1(batchSize)
  }

  lemma {:induction false} StepKeepsBatchesSmall(s: State, e: Event, batchSize: nat)
    requires Enabled(s, e) && SmallBatches(s.worker, batchSize) && !e.SetBatchSize?
    ensures SmallBatches(Step(s, e).worker, batchSize)
  {
  }

  predicate FixedBatchSize(es: seq<Event>) {
    forall i | 0 <= i < |es| :: !es[i].SetBatchSize?
  }

  lemma {:induction false} BatchesStaySmall(mode: Mode, batchSize: nat, logLimit: nat, es: seq<Event>)
    requires IsRun(Init(mode, batchSize, logLimit), es) && FixedBatchSize(es)
    ensures SmallBatches(Run(Init(mode, batchSize, logLimit), es).worker, batchSize)
  {
    if es != [] {
      var n := |es| - 1;
      BatchesStaySmall(mode, batchSize, logLimit, es[..n]);
      StepKeepsBatchesSmall(Run(Init(mode, batchSize, logLimit), es[..n]), es[n], batchSize);
    }
  }

  /** Writes acknowledged to clients but not yet in the log never exceed the queue limit plus
    * one batch. */
  lemma {:induction false} BoundedLag(mode: Mode, batchSize: nat, logLimit: nat, es: seq<Event>)
    requires IsRun(Init(mode, batchSize, logLimit), es) && FixedBatchSize(es)
    ensures var s0 := Init(mode, batchSize, logLimit);
      |History(es)| - |PendingPush(Run(s0, es))| - |Records(Appended(s0, es))| <= QUEUE_LIMIT + Max1(batchSize)
  {
    RunConserves(mode, batchSize, logLimit, es);
    BatchesStaySmall(mode, batchSize, logLimit, es);
  }

  // ---------------------------------------------------------------- nobody waits for ever

  /** Some thread of the pipeline can take a step of its own. */
  ghost predicate WorkerCanStep(s: State) {
    exists e :: WorkerEnabled(s.worker, e) && !e.Unpark? && !e.RequestStop? && !e.SetBatchSize?
  }

  ghost predicate WriterCanStep(s: State) {
    exists pick :: Enabled(s, ResumeWriter(pick))
  }

  lemma {:induction false} SomePick(c: Q.Cond) returns (pick: Tid)
    ensures c.CanPick(pick)
  {
    if c.Sleepers() != {} {
      pick :| pick in c.Sleepers();
    } else {
      pick := 0;
    }
  }

  lemma {:induction false} OneThread(c: Q.Cond, t: Tid)
    requires c.Threads() == {t} && t in c.Sleepers()
    ensures c.Notified() == {}
  {
  }

  lemma {:induction false} ParkedWriterGoesOn(s: State)
    requires Inv(s) && s.mode.WriteBehind? && s.writer.Some?
    requires s.worker.phase.Parked? && !WorkerCanStep(s)
    ensures WriterCanStep(s)
  {
    var t, q := s.writer.value, s.worker.q;
    if q.dataCond.CanResume(WORKER) {
      var resume := SomePick(q.spaceCond);
      assert WorkerEnabled(s.worker, ResumeWorker(false, resume));
    }
    OneThread(q.dataCond, WORKER);
    var pick := SomePick(q.dataCond);
    if t in q.spaceCond.Sleepers() {
      OneThread(q.spaceCond, t);
      assert false;
    }
    assert Enabled(s, ResumeWriter(pick));
  }

  lemma {:induction false} ParkedWorkerWaits(s: State)
    requires Inv(s) && s.mode.WriteBehind? && s.worker.phase.Parked?
    ensures WorkerCanStep(s) || s.worker.q.queue == []
  {
    var w := s.worker;
    if w.q.dataCond.CanResume(WORKER) {
      var pick := SomePick(w.q.spaceCond);
      assert WorkerEnabled(w, ResumeWorker(false, pick));
    } else {
      OneThread(w.q.dataCond, WORKER);
    }
  }

  lemma {:induction false} BusyWorkerGoesOn(s: State)
    requires s.worker.q.size == |s.worker.q.queue| && !s.worker.phase.Parked? && !s.worker.phase.Stopped?
    requires s.worker.phase.LoopHead? ==>
      forall pick :: s.worker.q.spaceCond.CanPick(pick) ==> WorkerEnabled(s.worker, Head(pick))
    ensures WorkerCanStep(s)
  {
    var w := s.worker;
    var pick := SomePick(w.q.spaceCond);
    match w.phase
    case LoopHead => assert WorkerEnabled(w, Head(pick));
    case Holding(_) => assert WorkerEnabled(w, TakeIntoBatch);
    case TimerCheck => assert WorkerEnabled(w, Timer(true));
    case Flushing(rest, _) =>
      var e := if rest == [] then FlushDone else FlushOne(0);
      assert WorkerEnabled(w, e);
    case Exited => assert WorkerEnabled(w, StopFlush);
  }

  /** Until the worker has exited, either it can step, or it sleeps on an empty queue and a
    * parked writer can step. */
  lemma {:induction false} NeverDeadlocked(batchSize: nat, logLimit: nat, es: seq<Event>)
    requires IsRun(Init(WriteBehind, batchSize, logLimit), es)
    ensures var s := Run(Init(WriteBehind, batchSize, logLimit), es);
      s.worker.phase.Stopped? || WorkerCanStep(s)
      || (s.worker.q.queue == [] && (s.writer.Some? ==> WriterCanStep(s)))
  {
    RunConserves(WriteBehind, batchSize, logLimit, es);
    var s := Run(Init(WriteBehind, batchSize, logLimit), es);
    if s.worker.phase.Parked? {
      ParkedWorkerWaits(s);
      if s.writer.Some? && !WorkerCanStep(s) {
        ParkedWriterGoesOn(s);
      }
    } else if !s.worker.phase.Stopped? {
      BusyWorkerGoesOn(s);
    }
  }

  /** Stopped for good, with the queue full and a client parked inside `set`. */
  predicate StuckAfterStop(s: State, t: Tid) {
    && Inv(s) && s.mode.WriteBehind? && s.worker.phase.Stopped?
    && |s.worker.q.queue| == QUEUE_LIMIT && s.writer == Some(t)
  }

  lemma {:induction false} StuckStep(s: State, e: Event, t: Tid)
    requires StuckAfterStop(s, t) && Enabled(s, e)
    ensures StuckAfterStop(Step(s, e), t) && Appends(s, e) == []
  {
    StepKeeps(s, e);
  }

  /** Such a client holds the store's lock for ever, and nothing more reaches the log. */
  lemma {:induction false} WriterStuckAfterStop(s: State, es: seq<Event>, t: Tid)
    requires StuckAfterStop(s, t) && IsRun(s, es)
    ensures Run(s, es).writer == Some(t) && Appended(s, es) == []
    ensures StuckAfterStop(Run(s, es), t)
    decreases |es|
  {
    if es != [] {
      var n := |es| - 1;
      WriterStuckAfterStop(s, es[..n], t);
      StuckStep(Run(s, es[..n]), es[n], t);
    }
  }

  lemma {:induction false} RunMore(s0: State, es: seq<Event>, e: Event)
    requires IsRun(s0, es) && Enabled(Run(s0, es), e)
    ensures IsRun(s0, es + [e]) && Run(s0, es + [e]) == Step(Run(s0, es), e)
  {
  }

  /** Stopped, with `k` records left in the queue and nobody parked. */
  predicate StoppedWith(s: State, k: nat) {
    && Inv(s) && s.mode.WriteBehind? && s.worker.phase.Stopped?
    && |s.worker.q.queue| == k && s.writer.None?
  }

  lemma {:induction false} StopsAtHead(s: State)
    requires Inv(s) && s.mode.WriteBehind? && s.worker.phase.LoopHead? && !s.worker.running && s.writer.None?
    requires s.worker.batch == [] && s.worker.q.queue == []
    ensures Enabled(s, Head(0)) && Enabled(Step(s, Head(0)), StopFlush)
    ensures Enabled(Step(Step(s, Head(0)), StopFlush), FlushDone)
    ensures StoppedWith(Step(Step(Step(s, Head(0)), StopFlush), FlushDone), 0)
  {
    StepKeeps(s, Head(0));
    StepKeeps(Step(s, Head(0)), StopFlush);
    StepKeeps(Step(Step(s, Head(0)), StopFlush), FlushDone);
  }

  lemma {:induction false} StopAtOnce(batchSize: nat, logLimit: nat) returns (es: seq<Event>)
    ensures IsRun(Init(WriteBehind, batchSize, logLimit), es)
    ensures StoppedWith(Run(Init(WriteBehind, batchSize, logLimit), es), 0)
  {
    var s0 := Init(WriteBehind, batchSize, logLimit);
    InitInv(WriteBehind, batchSize, logLimit);
    StepKeeps(s0, RequestStop);
    StopsAtHead(Step(s0, RequestStop));
    RunMore(s0, [], RequestStop);
    es := [] + [RequestStop];
    RunMore(s0, es, Head(0));
    es := es + [Head(0)];
    RunMore(s0, es, StopFlush);
    es := es + [StopFlush];
    RunMore(s0, es, FlushDone);
    es := es + [FlushDone];
  }

  const SOME_SET := Client(1, S.Op.Set(Slot([], []), [], None, 0), 0, 0)

  lemma {:induction false} SetAfterStop(s: State, k: nat)
    requires StoppedWith(s, k) && k <= QUEUE_LIMIT
    ensures Enabled(s, SOME_SET)
    ensures if k < QUEUE_LIMIT then StoppedWith(Step(s, SOME_SET), k + 1) else StuckAfterStop(Step(s, SOME_SET), 1)
  {
    assert Enabled(s, SOME_SET);
    StepKeeps(s, SOME_SET);
  }

  lemma {:induction false} FillAfterStop(batchSize: nat, logLimit: nat, k: nat) returns (es: seq<Event>)
    requires k <= QUEUE_LIMIT
    ensures IsRun(Init(WriteBehind, batchSize, logLimit), es)
    ensures StoppedWith(Run(Init(WriteBehind, batchSize, logLimit), es), k)
  {
    if k == 0 {
      es := StopAtOnce(batchSize, logLimit);
    } else {
      es := FillAfterStop(batchSize, logLimit, k - 1);
      var s0 := Init(WriteBehind, batchSize, logLimit);
      SetAfterStop(Run(s0, es), k - 1);
      RunMore(s0, es, SOME_SET);
      es := es + [SOME_SET];
    }
  }

  /** It happens: after `stop`, the first `set` that finds the queue full never returns. */
  lemma {:induction false} StuckAfterStopIsReachable(batchSize: nat, logLimit: nat) returns (es: seq<Event>)
    ensures IsRun(Init(WriteBehind, batchSize, logLimit), es)
    ensures StuckAfterStop(Run(Init(WriteBehind, batchSize, logLimit), es), 1)
  {
    var s0 := Init(WriteBehind, batchSize, logLimit);
    es := FillAfterStop(batchSize, logLimit, QUEUE_LIMIT);
    SetAfterStop(Run(s0, es), QUEUE_LIMIT);
    RunMore(s0, es, SOME_SET);
    es := es + [SOME_SET];
  }

  /** Exactly when: once stopped, a write is stuck if and only if it finds the queue full. */
  lemma {:induction false} StuckExactlyWhenFull(batchSize: nat, logLimit: nat, es: seq<Event>, e: Event)
    requires IsRun(Init(WriteBehind, batchSize, logLimit), es) && e.Client?
    requires var s := Run(Init(WriteBehind, batchSize, logLimit), es);
      s.worker.phase.Stopped? && s.writer.None? && Enabled(s, e) && S.Logged(s.store, e.op) != []
    ensures var s := Run(Init(WriteBehind, batchSize, logLimit), es);
      && (StuckAfterStop(Step(s, e), e.t) <==> |s.worker.q.queue| == QUEUE_LIMIT)
      && (Step(s, e).writer.None? <==> |s.worker.q.queue| < QUEUE_LIMIT)
  {
    var s := Run(Init(WriteBehind, batchSize, logLimit), es);
    RunConserves(WriteBehind, batchSize, logLimit, es);
    StepKeeps(s, e);
  }

  lemma {:induction false} WriterWithRoom(s: State)
    requires Inv(s) && s.mode.WriteBehind? && s.writer.Some?
    requires |s.worker.q.queue| < QUEUE_LIMIT
    ensures exists pick :: Enabled(s, ResumeWriter(pick)) && Step(s, ResumeWriter(pick)).writer.None?
  {
    var t, q := s.writer.value, s.worker.q;
    var pick := SomePick(q.dataCond);
    if t in q.spaceCond.Sleepers() {
      OneThread(q.spaceCond, t);
      assert false;
    }
    assert Enabled(s, ResumeWriter(pick));
  }

  /** Some continuation lets the parked client return. */
  ghost predicate CanReturn(s: State) {
    exists later :: IsRun(s, later) && Run(s, later).writer != s.writer
  }

  lemma {:induction false} ParkedCanReturn(s: State)
    requires Inv(s) && s.mode.WriteBehind? && s.worker.phase.Stopped? && s.writer.Some?
    requires |s.worker.q.queue| < QUEUE_LIMIT
    ensures CanReturn(s)
  {
    WriterWithRoom(s);
    var pick :| Enabled(s, ResumeWriter(pick)) && Step(s, ResumeWriter(pick)).writer.None?;
    var later := [] + [ResumeWriter(pick)];
    RunMore(s, [], ResumeWriter(pick));
    assert IsRun(s, later) && Run(s, later).writer != s.writer;
  }

  lemma {:induction false} ParkedCannotReturn(s: State, t: Tid)
    requires StuckAfterStop(s, t)
    ensures !CanReturn(s)
  {
    forall later | IsRun(s, later)
      ensures Run(s, later).writer == s.writer
    {
      WriterStuckAfterStop(s, later, t);
    }
  }

  /** And for a client that is parked when the worker has stopped: some continuation lets it return
    * if and only if there is room in the queue. */
  lemma {:induction false} ParkedReturnsExactlyWithRoom(batchSize: nat, logLimit: nat, es: seq<Event>)
    requires IsRun(Init(WriteBehind, batchSize, logLimit), es)
    requires var s := Run(Init(WriteBehind, batchSize, logLimit), es); s.worker.phase.Stopped? && s.writer.Some?
    ensures var s := Run(Init(WriteBehind, batchSize, logLimit), es);
      CanReturn(s) <==> |s.worker.q.queue| < QUEUE_LIMIT
  {
    var s := Run(Init(WriteBehind, batchSize, logLimit), es);
    RunConserves(WriteBehind, batchSize, logLimit, es);
    if |s.worker.q.queue| < QUEUE_LIMIT {
      ParkedCanReturn(s);
    } else {
      ParkedCannotReturn(s, s.writer.value);
    }
  }
}
