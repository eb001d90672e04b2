/** The durability pipeline: `MemStore`, its dirty queue, `WriteBehindWorker` and the log.
  * An event is one critical section of a client, of the worker thread or of the thread that
  * stops the worker; events of different threads interleave freely.
  */
module Pipeline {
  import opened Base
  import opened StoreSpec
  import Q = BoundedQueue
  import W = Wal
  import opened LogFormat

  datatype Mode = WriteAhead | WriteBehind

  const WORKER: Tid := 0
  const QUEUE_LIMIT := 1000

  /** Where the worker thread goes when a flush is done. */
  datatype After = ToTimer | ToHead | ToStopped

  /** Program counter of the worker thread; the flush of `stop` runs after the join. */
  datatype Phase =
    | LoopHead
    | Parked
    | Holding(record: Record)
    | TimerCheck
    | Flushing(rest: seq<Record>, after: After)
    | Exited
    | Stopped

  datatype Worker = Worker(q: Q.State<Record>, batch: seq<Record>, batchSize: nat, running: bool, phase: Phase)

  /** `writer` is the client parked inside `Push`; it still holds the store's lock. */
  datatype State = State(mode: Mode, store: Store, writer: Option<Tid>, worker: Worker, wal: W.WalState)

  /** `at` is the clock reading an append to the log makes. */
  datatype Event =
    | Client(t: Tid, op: Op, pick: Tid, at: U64)
    | ResumeWriter(pick: Tid)
    | Unpark(t: Tid)
    | Head(pick: Tid)
    | ResumeWorker(deadline: bool, pick: Tid)
    | TakeIntoBatch
    | Timer(due: bool)
    | FlushOne(at: U64)
    | FlushDone
    | RequestStop
    | StopFlush
    | SetBatchSize(size: nat)

  function IdleWorker(batchSize: nat, started: bool): Worker {
    Worker(Q.Init(QUEUE_LIMIT, Q.Block), [], batchSize, started, if started then LoopHead else Stopped)
  }

  function Init(mode: Mode, batchSize: nat, logLimit: nat): State {
    State(mode, EMPTY_STORE, None, IdleWorker(batchSize, mode.WriteBehind?), W.Fresh(logLimit))
  }

  // ---------------------------------------------------------------- the worker's critical sections

  /** `enqueue` */
  predicate CanEnqueue(w: Worker, t: Tid, pick: Tid) {
    Q.Idle(w.q, t) && w.q.dataCond.CanPick(pick)
  }

  function Enqueue(w: Worker, t: Tid, r: Record, pick: Tid): (Worker, Q.Outcome<Record>)
    requires CanEnqueue(w, t, pick)
  {
    var (q, o) := Q.PushStep(w.q, t, r, pick);
    (w.(q := q), o)
  }

  function FinishEnqueue(w: Worker, t: Tid, pick: Tid): (Worker, Q.Outcome<Record>)
    requires Q.Enabled(w.q, Q.ResumePush(t, pick))
  {
    var (q, o) := Q.ResumePushStep(w.q, t, pick);
    (w.(q := q), o)
  }

  function AfterPop(o: Q.Outcome<Record>): Phase {
    match o
    case Got(r) => Holding(r)
    case Sleeping => Parked
    case _ => TimerCheck
  }

  /** Whether one more record fills the batch. */
  predicate Fills(w: Worker) {
    |w.batch| + 1 >= w.batchSize
  }

  /** What the worker can do, and what it appends to the log. */
  predicate WorkerEnabled(w: Worker, e: Event) {
    match e
    case Unpark(t) => Q.Enabled(w.q, Q.Unblock(t))
    case Head(pick) => w.phase.LoopHead? && Q.Enabled(w.q, Q.Pop(WORKER, true, pick))
    case ResumeWorker(deadline, pick) => w.phase.Parked? && Q.Enabled(w.q, Q.ResumePop(WORKER, deadline, pick))
    case TakeIntoBatch => w.phase.Holding?
    case Timer(_) => w.phase.TimerCheck?
    case FlushOne(_) => w.phase.Flushing? && w.phase.rest != []
    case FlushDone => w.phase.Flushing? && w.phase.rest == []
    case RequestStop => true
    case StopFlush => w.phase.Exited?
    case SetBatchSize(_) => true
    case _ => false
  }

  function WorkerStep(w: Worker, e: Event): Worker
    requires WorkerEnabled(w, e)
  {
    match e
    case Unpark(t) => w.(q := Q.Step(w.q, Q.Unblock(t)).0)
    case Head(pick) =>
      if !w.running then w.(phase := Exited)
      else
        var (q, o) := Q.PopStep(w.q, WORKER, true, pick);
        w.(q := q, phase := AfterPop(o))
    case ResumeWorker(deadline, pick) =>
      var (q, o) := Q.ResumePopStep(w.q, WORKER, deadline, pick);
      w.(q := q, phase := AfterPop(o))
    case TakeIntoBatch =>
      var batch := w.batch + [w.phase.record];
      if |batch| >= w.batchSize then w.(batch := [], phase := Flushing(batch, ToTimer))
      else w.(batch := batch, phase := TimerCheck)
    case Timer(due) =>
      if due && w.batch != [] then w.(batch := [], phase := Flushing(w.batch, ToHead))
      else w.(phase := LoopHead)
    case FlushOne(_) => w.(phase := Flushing(w.phase.rest[1..], w.phase.after))
    case FlushDone =>
      w.(phase := match w.phase.after case ToTimer => TimerCheck case ToHead => LoopHead case ToStopped => Stopped)
    case RequestStop => w.(running := false)
    case StopFlush => w.(batch := [], phase := Flushing(w.batch, ToStopped))
    case SetBatchSize(size) => w.(batchSize := size)
  }

  // ---------------------------------------------------------------- the whole pipeline

  /** `set`, `del` and `set_if_version` need the exclusive lock, `get` the shared one;
    * `cleanup_expired` takes none. */
  predicate Enabled(s: State, e: Event) {
    match e
    case Client(t, op, pick, _) =>
      t != WORKER && CanEnqueue(s.worker, t, pick) && (s.writer.None? || op.Cleanup?)
    case ResumeWriter(pick) =>
      s.writer.Some? && Q.Enabled(s.worker.q, Q.ResumePush(s.writer.value, pick))
    case _ => s.mode.WriteBehind? && WorkerEnabled(s.worker, e)
  }

  function ClientStep(s: State, t: Tid, op: Op, pick: Tid, at: U64): State
    requires CanEnqueue(s.worker, t, pick)
  {
    var s' := s.(store := Apply(s.store, op));
    var log := Logged(s.store, op);
    if log == [] then s'
    else if s.mode.WriteAhead? then s'.(wal := W.Append(s.wal, log[0], at))
    else
      var (worker, o) := Enqueue(s.worker, t, log[0], pick);
      s'.(worker := worker, writer := if o.Sleeping? then Some(t) else s.writer)
  }

  function Step(s: State, e: Event): State
    requires Enabled(s, e)
  {
    match e
    case Client(t, op, pick, at) => ClientStep(s, t, op, pick, at)
    case ResumeWriter(pick) =>
      var (worker, o) := FinishEnqueue(s.worker, s.writer.value, pick);
      s.(worker := worker, writer := if o.Sleeping? then s.writer else None)
    case FlushOne(at) =>
      s.(worker := WorkerStep(s.worker, e), wal := W.Append(s.wal, s.worker.phase.rest[0], at))
    case _ => s.(worker := WorkerStep(s.worker, e))
  }

  // ---------------------------------------------------------------- runs

  predicate IsRun(s: State, es: seq<Event>)
    decreases |es|, 0
  {
    es != [] ==> IsRun(s, es[..|es| - 1]) && Enabled(Run(s, es[..|es| - 1]), es[|es| - 1])
  }

  function Run(s: State, es: seq<Event>): State
    requires IsRun(s, es)
    decreases |es|, 1
  {
    if es == [] then s else Step(Run(s, es[..|es| - 1]), es[|es| - 1])
  }

  /** The store operations of a run, in the order of the store's lock. */
  function ClientOps(es: seq<Event>): seq<Op> {
    if es == [] then []
    else
      var e := es[|es| - 1];
      ClientOps(es[..|es| - 1]) + (if e.Client? then [e.op] else [])
  }

  /** What one step appends to the log. */
  function Appends(s: State, e: Event): seq<W.Write>
    requires Enabled(s, e)
  {
    match e
    case Client(_, op, _, at) =>
      var log := Logged(s.store, op);
      if log != [] && s.mode.WriteAhead? then [W.Write(log[0], at)] else []
    case FlushOne(at) => [W.Write(s.worker.phase.rest[0], at)]
    case _ => []
  }

  function Appended(s: State, es: seq<Event>): seq<W.Write>
    requires IsRun(s, es)
  {
    if es == [] then []
    else
      var n := |es| - 1;
      Appended(s, es[..n]) + Appends(Run(s, es[..n]), es[n])
  }

  function Records(ws: seq<W.Write>): (rs: seq<Record>)
    ensures |rs| == |ws|
    ensures forall i | 0 <= i < |ws| :: rs[i] == ws[i].record
  {
    if ws == [] then [] else Records(ws[..|ws| - 1]) + [ws[|ws| - 1].record]
  }

  // ---------------------------------------------------------------- conservation

  function InHand(p: Phase): seq<Record> {
    match p
    case Holding(r) => [r]
    case _ => []
  }

  function BeingFlushed(p: Phase): seq<Record> {
    match p
    case Flushing(rest, _) => rest
    case _ => []
  }

  /** Records the worker has taken charge of. */
  function Acknowledged(w: Worker): seq<Record> {
    BeingFlushed(w.phase) + w.batch + InHand(w.phase) + w.q.queue
  }

  function PendingPush(s: State): seq<Record> {
    if s.writer.Some? && s.writer.value in s.worker.q.pending then [s.worker.q.pending[s.writer.value]] else []
  }

  /** Written to memory but not to the log, oldest first. */
  function InFlight(s: State): seq<Record> {
    Acknowledged(s.worker) + PendingPush(s)
  }

  predicate WorkerInv(w: Worker) {
    && Q.Inv(w.q) && w.q.maxSize == QUEUE_LIMIT && w.q.policy.Block? && !w.q.stopped
    && w.q.dataCond.Threads() == (if w.phase.Parked? then {WORKER} else {})
    && (w.phase.Flushing? ==> w.batch == [])
    && (w.phase.Stopped? ==> w.batch == [])
  }

  predicate Inv(s: State) {
    && WorkerInv(s.worker)
    && s.worker.q.spaceCond.Threads() == (if s.writer.Some? then {s.writer.value} else {})
    && (s.writer.Some? ==> s.writer.value != WORKER)
    && (s.mode.WriteAhead? ==> s.worker == IdleWorker(s.worker.batchSize, false) && s.writer.None?)
  }

  lemma {:induction false} InitInv(mode: Mode, batchSize: nat, logLimit: nat)
    ensures Inv(Init(mode, batchSize, logLimit)) && InFlight(Init(mode, batchSize, logLimit)) == []
  {
  }

  predicate QueueOk(q: Q.State<Record>) {
    Q.Inv(q) && q.maxSize == QUEUE_LIMIT && q.policy.Block? && !q.stopped
  }

  lemma {:induction false} QueueStepKeeps(q: Q.State<Record>, e: Q.Event<Record>)
    requires QueueOk(q) && Q.Enabled(q, e) && !e.Stop?
    ensures QueueOk(Q.Step(q, e).0)
  {
    Q.StepKeepsInv(q, e);
    Q.StepKeepsConfig(q, e);
  }

  /** What a worker step leaves alone: the parked producer and its value. */
  ghost predicate ProducerKept(w: Worker, w': Worker) {
    w'.q.spaceCond.Threads() == w.q.spaceCond.Threads() && w'.q.pending == w.q.pending
  }

  lemma {:induction false} HeadKeeps(w: Worker, pick: Tid)
    requires WorkerInv(w) && WorkerEnabled(w, Head(pick))
    ensures var w' := WorkerStep(w, Head(pick));
      WorkerInv(w') && ProducerKept(w, w') && Acknowledged(w') == Acknowledged(w)
  {
    if w.running {
      QueueStepKeeps(w.q, Q.Pop(WORKER, true, pick));
    }
  }

  lemma {:induction false} TakesFront(before: seq<Record>, queue: seq<Record>)
    requires queue != []
    ensures before + [] + queue == before + [queue[0]] + queue[1..]
  {
  }

  lemma {:induction false} ResumeWorkerKeeps(w: Worker, deadline: bool, pick: Tid)
    requires WorkerInv(w) && WorkerEnabled(w, ResumeWorker(deadline, pick))
    ensures var w' := WorkerStep(w, ResumeWorker(deadline, pick));
      WorkerInv(w') && ProducerKept(w, w') && Acknowledged(w') == Acknowledged(w)
  {
    QueueStepKeeps(w.q, Q.ResumePop(WORKER, deadline, pick));
    if w.q.queue != [] {
      TakesFront(BeingFlushed(w.phase) + w.batch, w.q.queue);
    }
  }

  lemma {:induction false} UnparkKeeps(w: Worker, t: Tid)
    requires WorkerInv(w) && WorkerEnabled(w, Unpark(t))
    ensures var w' := WorkerStep(w, Unpark(t));
      WorkerInv(w') && ProducerKept(w, w') && Acknowledged(w') == Acknowledged(w)
  {
    QueueStepKeeps(w.q, Q.Unblock(t));
  }

  lemma {:induction false} TakeIntoBatchKeeps(w: Worker)
    requires WorkerInv(w) && WorkerEnabled(w, TakeIntoBatch)
    ensures var w' := WorkerStep(w, TakeIntoBatch);
      WorkerInv(w') && w'.q == w.q && Acknowledged(w') == Acknowledged(w)
  {
    assert [] + w.batch + [w.phase.record] == [] + (w.batch + [w.phase.record]) + [];
    assert w.batch + [w.phase.record] + [] + [] == [] + w.batch + [w.phase.record];
  }

  lemma {:induction false} BatchStepKeeps(w: Worker, e: Event)
    requires WorkerInv(w) && WorkerEnabled(w, e)
    requires !e.Head? && !e.ResumeWorker? && !e.Unpark? && !e.FlushOne? && !e.TakeIntoBatch?
    ensures var w' := WorkerStep(w, e);
      WorkerInv(w') && w'.q == w.q && Acknowledged(w') == Acknowledged(w)
  {
  }

  lemma {:induction false} FlushOneKeeps(w: Worker, e: Event)
    requires WorkerInv(w) && WorkerEnabled(w, e) && e.FlushOne?
    ensures var w' := WorkerStep(w, e);
      WorkerInv(w') && w'.q == w.q && [w.phase.rest[0]] + Acknowledged(w') == Acknowledged(w)
  {
  }

  lemma {:induction false} WorkerStepKeeps(w: Worker, e: Event)
    requires WorkerInv(w) && WorkerEnabled(w, e)
    ensures var w' := WorkerStep(w, e);
      WorkerInv(w') && ProducerKept(w, w')
      && (if e.FlushOne? then [w.phase.rest[0]] else []) + Acknowledged(w') == Acknowledged(w)
  {
    match e
    case Head(pick) => HeadKeeps(w, pick);
    case ResumeWorker(deadline, pick) => ResumeWorkerKeeps(w, deadline, pick);
    case Unpark(t) => UnparkKeeps(w, t);
    case FlushOne(_) => FlushOneKeeps(w, e);
    case TakeIntoBatch => TakeIntoBatchKeeps(w);
    case _ => BatchStepKeeps(w, e);
  }

  /** The parked producer, if any, and the record it waits to push. */
  predicate Waits(w: Worker, t: Tid, r: Record) {
    w.q.spaceCond.Threads() == {t} && t in w.q.pending && w.q.pending[t] == r
  }

  lemma {:induction false} EnqueueKeeps(w: Worker, t: Tid, r: Record, pick: Tid)
    requires WorkerInv(w) && CanEnqueue(w, t, pick) && w.q.spaceCond.Threads() == {}
    ensures var (w', o) := Enqueue(w, t, r, pick);
      && WorkerInv(w')
      && (if o.Sleeping? then Waits(w', t, r) && Acknowledged(w') == Acknowledged(w)
          else w'.q.spaceCond.Threads() == {} && Acknowledged(w') == Acknowledged(w) + [r])
  {
    QueueStepKeeps(w.q, Q.Push(t, r, pick));
  }

  lemma {:induction false} FinishEnqueueKeeps(w: Worker, t: Tid, r: Record, pick: Tid)
    requires WorkerInv(w) && Q.Enabled(w.q, Q.ResumePush(t, pick)) && Waits(w, t, r)
    ensures var (w', o) := FinishEnqueue(w, t, pick);
      && WorkerInv(w')
      && (if o.Sleeping? then Waits(w', t, r) && Acknowledged(w') == Acknowledged(w)
          else w'.q.spaceCond.Threads() == {} && Acknowledged(w') == Acknowledged(w) + [r])
  {
    QueueStepKeeps(w.q, Q.ResumePush(t, pick));
  }

  /** One step moves records along the pipeline and neither loses nor reorders any: what was in
    * flight, plus what the step writes to memory, is what it appends plus what is in flight. */
  predicate Conserved(s: State, e: Event)
    requires Enabled(s, e)
  {
    InFlight(s) + (if e.Client? then Logged(s.store, e.op) else []) == Records(Appends(s, e)) + InFlight(Step(s, e))
  }

  lemma {:induction false} InFlightWith(s: State, r: Record)
    requires s.writer.Some? && Waits(s.worker, s.writer.value, r)
    ensures InFlight(s) == Acknowledged(s.worker) + [r]
  {
  }

  lemma {:induction false} InFlightWithout(s: State)
    requires s.writer.None?
    ensures InFlight(s) == Acknowledged(s.worker)
  {
  }

  lemma {:induction false} WriteBehindKeeps(s: State, e: Event)
    requires Inv(s) && Enabled(s, e) && e.Client? && s.mode.WriteBehind? && Logged(s.store, e.op) != []
    ensures Inv(Step(s, e)) && Conserved(s, e)
  {
    var r, s' := Logged(s.store, e.op)[0], Step(s, e);
    EnqueueKeeps(s.worker, e.t, r, e.pick);
    InFlightWithout(s);
    if s'.writer.Some? {
      InFlightWith(s', r);
    } else {
      InFlightWithout(s');
    }
    assert Logged(s.store, e.op) == [r] && Records(Appends(s, e)) == [];
    assert InFlight(s') == InFlight(s) + [r] == [] + InFlight(s');
  }

  lemma {:induction false} ClientStepKeeps(s: State, e: Event)
    requires Inv(s) && Enabled(s, e) && e.Client?
    ensures Inv(Step(s, e)) && Conserved(s, e)
  {
    var log := Logged(s.store, e.op);
    if log == [] {
      assert Step(s, e) == s.(store := Apply(s.store, e.op)) && Appends(s, e) == [];
    } else if s.mode.WriteAhead? {
      assert Records(Appends(s, e)) == log;
      assert Step(s, e).worker == s.worker && InFlight(s) == [];
    } else {
      WriteBehindKeeps(s, e);
    }
  }

  lemma {:induction false} ResumeWriterKeeps(s: State, pick: Tid)
    requires Inv(s) && Enabled(s, ResumeWriter(pick))
    ensures Inv(Step(s, ResumeWriter(pick))) && Conserved(s, ResumeWriter(pick))
  {
    var t := s.writer.value;
    FinishEnqueueKeeps(s.worker, t, s.worker.q.pending[t], pick);
  }

  lemma {:induction false} WorkerRecords(s: State, e: Event)
    requires Enabled(s, e) && !e.Client? && !e.ResumeWriter?
    ensures Records(Appends(s, e)) == if e.FlushOne? then [s.worker.phase.rest[0]] else []
  {
  }

  lemma {:induction false} Regroup(out: seq<Record>, kept: seq<Record>, pending: seq<Record>)
    ensures out + kept + pending == out + (kept + pending)
  {
  }

  lemma {:induction false} WorkerEventKeeps(s: State, e: Event)
    requires Inv(s) && Enabled(s, e) && !e.Client? && !e.ResumeWriter?
    ensures Inv(Step(s, e)) && Conserved(s, e)
  {
    WorkerStepKeeps(s.worker, e);
    WorkerRecords(s, e);
    var out := if e.FlushOne? then [s.worker.phase.rest[0]] else [];
    assert PendingPush(Step(s, e)) == PendingPush(s);
    Regroup(out, Acknowledged(Step(s, e).worker), PendingPush(s));
    assert InFlight(s) + [] == InFlight(s);
  }

  lemma {:induction false} StepKeeps(s: State, e: Event)
    requires Inv(s) && Enabled(s, e)
    ensures Inv(Step(s, e)) && Conserved(s, e)
  {
    match e
    case Client(_, _, _, _) => ClientStepKeeps(s, e);
    case ResumeWriter(pick) => ResumeWriterKeeps(s, pick);
    case _ => WorkerEventKeeps(s, e);
  }
}
