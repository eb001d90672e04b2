/** That the worker gets everything into the log: the timer flushes what is in the batch, and from any
  * moment on, if no client writes any more, the worker can log all there is.
  */
module Drain {
  import opened Base
  import Q = BoundedQueue
  import W = Wal
  import S = StoreSpec
  import opened Pipeline
  import R = Recovery

  lemma {:induction false} RunMore(s0: State, es: seq<Event>, e: Event, longer: seq<Event>)
    requires IsRun(s0, es) && Enabled(Run(s0, es), e) && longer == es + [e]
    ensures IsRun(s0, longer) && Run(s0, longer) == Step(Run(s0, es), e)
    ensures Appended(s0, longer) == Appended(s0, es) + Appends(Run(s0, es), e)
  {
    assert longer[..|es|] == es;
  }

  // ---------------------------------------------------------------- the timer

  /** The flush loop, with the clock readings of its appends, and its end. */
  function Flush(ats: seq<U64>): seq<Event> {
    if ats == [] then [FlushDone] else [FlushOne(ats[0])] + Flush(ats[1..])
  }

  function Stamped(rs: seq<Record>, ats: seq<U64>): seq<W.Write>
    requires |rs| == |ats|
  {
    seq(|rs|, i requires 0 <= i < |rs| => W.Write(rs[i], ats[i]))
  }

  function Back(after: After): Phase {
    match after case ToTimer => TimerCheck case ToHead => LoopHead case ToStopped => Stopped
  }

  lemma {:induction false} FlushOneStep(s: State, at: U64)
    requires s.mode.WriteBehind? && s.worker.phase.Flushing? && s.worker.phase.rest != []
    ensures Enabled(s, FlushOne(at)) && Appends(s, FlushOne(at)) == [W.Write(s.worker.phase.rest[0], at)]
    ensures Step(s, FlushOne(at)).mode == s.mode
    ensures Step(s, FlushOne(at)).worker
      == s.worker.(phase := Flushing(s.worker.phase.rest[1..], s.worker.phase.after))
  {
  }

  lemma {:induction false} StampedFirst(done: seq<W.Write>, rs: seq<Record>, ats: seq<U64>)
    requires |rs| == |ats| > 0
    ensures done + [W.Write(rs[0], ats[0])] + Stamped(rs[1..], ats[1..]) == done + Stamped(rs, ats)
  {
  }

  lemma {:induction false} FlushFirst(es: seq<Event>, ats: seq<U64>)
    requires ats != []
    ensures es + [FlushOne(ats[0])] + Flush(ats[1..]) == es + Flush(ats)
  {
  }

  /** The run `es` leaves the worker as `w` and has put `appended` into the log. */
  ghost predicate Reaches(s0: State, es: seq<Event>, w: Worker, appended: seq<W.Write>) {
    IsRun(s0, es) && Run(s0, es).mode.WriteBehind? && Run(s0, es).worker == w && Appended(s0, es) == appended
  }

  lemma {:induction false} FlushNext(s0: State, es: seq<Event>, at: U64, next: seq<Event>, w: Worker,
                                     appended: seq<W.Write>)
    requires Reaches(s0, es, w, appended) && w.phase.Flushing? && w.phase.rest != [] && next == es + [FlushOne(at)]
    ensures Reaches(s0, next, w.(phase := Flushing(w.phase.rest[1..], w.phase.after)),
                    appended + [W.Write(w.phase.rest[0], at)])
  {
    FlushOneStep(Run(s0, es), at);
    RunMore(s0, es, FlushOne(at), next);
  }

  lemma {:induction false} FlushEnds(s0: State, es: seq<Event>, longer: seq<Event>, w: Worker,
                                     appended: seq<W.Write>)
    requires Reaches(s0, es, w, appended) && w.phase.Flushing? && w.phase.rest == [] && longer == es + [FlushDone]
    ensures Reaches(s0, longer, w.(phase := Back(w.phase.after)), appended)
  {
    RunMore(s0, es, FlushDone, longer);
    assert appended + [] == appended;
  }

  /** A flush appends exactly its records, in order, and leaves the rest of the worker alone. */
  lemma {:induction false} FlushRuns(s0: State, es: seq<Event>, ats: seq<U64>, longer: seq<Event>, w: Worker,
                                     appended: seq<W.Write>, flushed: seq<W.Write>)
    requires Reaches(s0, es, w, appended) && w.phase.Flushing? && |ats| == |w.phase.rest|
    requires longer == es + Flush(ats) && flushed == appended + Stamped(w.phase.rest, ats)
    ensures Reaches(s0, longer, w.(phase := Back(w.phase.after)), flushed)
    decreases |ats|
  {
    if ats == [] {
      FlushEnds(s0, es, longer, w, appended);
      assert flushed == appended;
    } else {
      var next, rest := es + [FlushOne(ats[0])], w.phase.rest;
      FlushNext(s0, es, ats[0], next, w, appended);
      FlushFirst(es, ats);
      StampedFirst(appended, rest, ats);
      FlushRuns(s0, next, ats[1..], longer, w.(phase := Flushing(rest[1..], w.phase.after)),
                appended + [W.Write(rest[0], ats[0])], flushed);
    }
  }

  /** The timer step and the flush it begins. */
  function TimerFlush(ats: seq<U64>): seq<Event> {
    [Timer(true)] + Flush(ats)
  }

  lemma {:induction false} TimerBegins(s0: State, es: seq<Event>, next: seq<Event>, w: Worker, appended: seq<W.Write>)
    requires Reaches(s0, es, w, appended) && w.phase.TimerCheck? && w.batch != [] && next == es + [Timer(true)]
    ensures Reaches(s0, next, w.(batch := [], phase := Flushing(w.batch, ToHead)), appended)
  {
    RunMore(s0, es, Timer(true), next);
    assert appended + [] == appended;
  }

  /** In every reachable state in which the worker comes to its timer with something in the batch: a due
    * timer appends exactly the batch to the log, in order, and leaves it empty, whatever the clock reads. */
  lemma {:induction false} TimerFlushesBatch(batchSize: nat, logLimit: nat, es: seq<Event>, ats: seq<U64>,
                                             longer: seq<Event>, w: Worker)
    requires IsRun(Init(WriteBehind, batchSize, logLimit), es) && longer == es + TimerFlush(ats)
    requires w == Run(Init(WriteBehind, batchSize, logLimit), es).worker
    requires w.phase.TimerCheck? && w.batch != [] && |ats| == |w.batch|
    ensures var s0 := Init(WriteBehind, batchSize, logLimit);
      Reaches(s0, longer, w.(batch := [], phase := LoopHead), Appended(s0, es) + Stamped(w.batch, ats))
  {
    var s0 := Init(WriteBehind, batchSize, logLimit);
    var next, appended := es + [Timer(true)], Appended(s0, es);
    R.ModeStays(s0, es);
    TimerBegins(s0, es, next, w, appended);
    FlushRuns(s0, next, ats, longer, w.(batch := [], phase := Flushing(w.batch, ToHead)), appended,
              appended + Stamped(w.batch, ats));
  }

  // ---------------------------------------------------------------- clients

  /** While nobody is parked with the store's lock, any client can make any call, and it is one step in
    * which the store does what the call says and the record of a write goes to the log or to the queue. */
  lemma {:induction false} ClientsCanCall(mode: Mode, batchSize: nat, logLimit: nat, es: seq<Event>, t: Tid, op: S.Op,
                                          at: U64) returns (pick: Tid)
    requires IsRun(Init(mode, batchSize, logLimit), es) && t != WORKER
    requires Run(Init(mode, batchSize, logLimit), es).writer.None?
    ensures var s := Run(Init(mode, batchSize, logLimit), es);
      && Enabled(s, Client(t, op, pick, at)) && Step(s, Client(t, op, pick, at)).store == S.Apply(s.store, op)
      && Records(Appends(s, Client(t, op, pick, at))) == (if mode.WriteAhead? then S.Logged(s.store, op) else [])
  {
    R.RunConserves(mode, batchSize, logLimit, es);
    var s := Run(Init(mode, batchSize, logLimit), es);
    pick := R.SomePick(s.worker.q.dataCond);
  }

  // ---------------------------------------------------------------- going on without clients

  /** A step of the worker, or of a client that comes back from its wait for room. */
  predicate Internal(e: Event) {
    || e.ResumeWriter? || e.Unpark? || e.Head? || e.ResumeWorker?
    || e.TakeIntoBatch? || e.Timer? || e.FlushOne? || e.FlushDone?
  }

  /** `later` goes on from `es` by such steps alone; if `small`, no batch is filled on the way. */
  ghost predicate Leads(s0: State, es: seq<Event>, later: seq<Event>, small: bool)
    decreases |later|
  {
    && IsRun(s0, later)
    && (later == es ||
        (|later| > |es|
         && var n := |later| - 1;
            && Leads(s0, es, later[..n], small) && Internal(later[n])
            && (small && later[n].TakeIntoBatch? ==> !Fills(Run(s0, later[..n]).worker))))
  }

  lemma {:induction false} LeadsOn(s0: State, es: seq<Event>, mid: seq<Event>, e: Event, small: bool, later: seq<Event>)
    requires Leads(s0, es, mid, small) && |mid| >= |es| && Enabled(Run(s0, mid), e) && Internal(e)
    requires later == mid + [e] && (small && e.TakeIntoBatch? ==> !Fills(Run(s0, mid).worker))
    ensures Leads(s0, es, later, small) && |later| > |es| && Run(s0, later) == Step(Run(s0, mid), e)
  {
    RunMore(s0, mid, e, later);
    assert later[..|mid|] == mid && later[|mid|] == e;
  }

  /** The worker has not been told to stop. */
  predicate Working(s: State) {
    && Inv(s) && s.mode.WriteBehind? && s.worker.running
    && !s.worker.phase.Exited? && !s.worker.phase.Stopped?
    && (s.worker.phase.Flushing? ==> !s.worker.phase.after.ToStopped?)
  }

  lemma {:induction false} StepKeepsWorking(s: State, e: Event)
    requires Working(s) && Enabled(s, e) && !e.RequestStop?
    ensures Working(Step(s, e))
  {
    StepKeeps(s, e);
  }

  predicate RunsOn(s: State) {
    s.mode.WriteBehind? && s.worker.running ==>
      && !s.worker.phase.Exited? && !s.worker.phase.Stopped?
      && (s.worker.phase.Flushing? ==> !s.worker.phase.after.ToStopped?)
  }

  lemma {:induction false} StepRunsOn(s: State, e: Event)
    requires RunsOn(s) && Enabled(s, e)
    ensures RunsOn(Step(s, e))
  {
  }

  lemma {:induction false} RunRunsOn(s0: State, es: seq<Event>)
    requires IsRun(s0, es) && RunsOn(s0)
    ensures RunsOn(Run(s0, es))
  {
    if es != [] {
      RunRunsOn(s0, es[..|es| - 1]);
      StepRunsOn(Run(s0, es[..|es| - 1]), es[|es| - 1]);
    }
  }

  // ---------------------------------------------------------------- the worker's next step

  /** The same writer, batch size and batch. */
  predicate SameSide(s: State, s': State) {
    s'.writer == s.writer && s'.worker.batchSize == s.worker.batchSize && s'.worker.batch == s.worker.batch
  }

  /** What a pop that does not wait has done. */
  predicate Popped(s: State, s': State) {
    && SameSide(s, s')
    && if s.worker.q.queue == [] then s'.worker.q.queue == [] && !s'.worker.phase.Holding?
       else s'.worker.q.queue == s.worker.q.queue[1..] && s'.worker.phase.Holding?
  }

  lemma {:induction false} HeadStep(s: State) returns (pick: Tid)
    requires Working(s) && s.worker.phase.LoopHead?
    ensures Enabled(s, Head(pick)) && Popped(s, Step(s, Head(pick)))
    ensures s.worker.q.queue == [] ==> Step(s, Head(pick)).worker.phase.Parked?
  {
    pick := R.SomePick(s.worker.q.spaceCond);
  }

  lemma {:induction false} UnparkStep(s: State)
    requires Working(s) && s.worker.phase.Parked? && !s.worker.q.dataCond.CanResume(WORKER)
    ensures Enabled(s, Unpark(WORKER))
    ensures var s' := Step(s, Unpark(WORKER));
      && SameSide(s, s') && s'.worker.q.queue == s.worker.q.queue && s'.worker.phase.Parked?
      && s'.worker.q.dataCond.CanResume(WORKER)
  {
    assert WORKER in s.worker.q.dataCond.Threads();
  }

  lemma {:induction false} ResumeStep(s: State) returns (pick: Tid)
    requires Working(s) && s.worker.phase.Parked? && s.worker.q.dataCond.CanResume(WORKER)
    ensures Enabled(s, ResumeWorker(true, pick)) && Popped(s, Step(s, ResumeWorker(true, pick)))
    ensures s.worker.q.queue == [] ==> Step(s, ResumeWorker(true, pick)).worker.phase.TimerCheck?
  {
    pick := R.SomePick(s.worker.q.spaceCond);
  }

  /** Same writer, batch size and queue. */
  predicate SameOutside(s: State, s': State) {
    s'.writer == s.writer && s'.worker.batchSize == s.worker.batchSize && s'.worker.q.queue == s.worker.q.queue
  }

  lemma {:induction false} TakeStep(s: State)
    requires Working(s) && s.worker.phase.Holding?
    ensures Enabled(s, TakeIntoBatch) && SameOutside(s, Step(s, TakeIntoBatch))
    ensures var w := Step(s, TakeIntoBatch).worker; w.phase.TimerCheck? || (w.phase.Flushing? && w.phase.after.ToTimer?)
  {
  }

  lemma {:induction false} TimerStep(s: State)
    requires Working(s) && s.worker.phase.TimerCheck?
    ensures Enabled(s, Timer(true)) && SameOutside(s, Step(s, Timer(true)))
    ensures var w := Step(s, Timer(true)).worker;
      w.batch == [] && (w.phase.LoopHead? || (w.phase.Flushing? && w.phase.after.ToHead?))
  {
  }

  lemma {:induction false} FlushStep(s: State) returns (e: Event)
    requires Working(s) && s.worker.phase.Flushing?
    ensures Enabled(s, e) && Internal(e) && !e.TakeIntoBatch? && SameOutside(s, Step(s, e))
    ensures var w, w' := s.worker, Step(s, e).worker;
      && w'.batch == []
      && if w.phase.rest == [] then w'.phase == Back(w.phase.after)
         else w'.phase == Flushing(w.phase.rest[1..], w.phase.after)
  {
    e := if s.worker.phase.rest == [] then FlushDone else FlushOne(0);
  }

  /** A parked client comes back as soon as there is room. */
  lemma {:induction false} WriterStep(s: State) returns (pick: Tid)
    requires Working(s) && s.writer.Some? && |s.worker.q.queue| < QUEUE_LIMIT
    ensures Enabled(s, ResumeWriter(pick))
    ensures var s' := Step(s, ResumeWriter(pick));
      && s'.writer.None? && |s'.worker.q.queue| == |s.worker.q.queue| + 1
      && s'.worker.phase == s.worker.phase && s'.worker.batch == s.worker.batch
      && s'.worker.batchSize == s.worker.batchSize
  {
    R.WriterWithRoom(s);
    pick :| Enabled(s, ResumeWriter(pick)) && Step(s, ResumeWriter(pick)).writer.None?;
  }

  // ---------------------------------------------------------------- a run to an empty pipeline

  /** `s` is where `mid`, which goes on from `es`, has led. */
  ghost predicate At(s0: State, es: seq<Event>, mid: seq<Event>, small: bool, s: State) {
    Leads(s0, es, mid, small) && |mid| >= |es| && s == Run(s0, mid) && Working(s)
  }

  lemma {:induction false} Go(s0: State, es: seq<Event>, mid: seq<Event>, small: bool, s: State, e: Event)
    returns (later: seq<Event>, s': State)
    requires At(s0, es, mid, small, s) && Enabled(s, e) && Internal(e)
    requires small && e.TakeIntoBatch? ==> !Fills(s.worker)
    ensures At(s0, es, later, small, s') && s' == Step(s, e)
  {
    later, s' := mid + [e], Step(s, e);
    LeadsOn(s0, es, mid, e, small, later);
    StepKeepsWorking(s, e);
  }

  /** At the head of its loop with nothing in the batch. */
  predicate Settled(s: State) {
    s.worker.phase.LoopHead? && s.worker.batch == []
  }

  lemma {:induction false} FlushOut(s0: State, es: seq<Event>, mid: seq<Event>, small: bool, s: State)
    returns (later: seq<Event>, s': State)
    requires At(s0, es, mid, small, s) && s.worker.phase.Flushing?
    ensures At(s0, es, later, small, s') && SameOutside(s, s')
    ensures s'.worker.batch == [] && s'.worker.phase == Back(s.worker.phase.after)
    decreases |s.worker.phase.rest|
  {
    var e := FlushStep(s);
    later, s' := Go(s0, es, mid, small, s, e);
    if s.worker.phase.rest != [] {
      later, s' := FlushOut(s0, es, later, small, s');
    }
  }

  lemma {:induction false} FromTimer(s0: State, es: seq<Event>, mid: seq<Event>, small: bool, s: State)
    returns (later: seq<Event>, s': State)
    requires At(s0, es, mid, small, s) && s.worker.phase.TimerCheck?
    ensures At(s0, es, later, small, s') && SameOutside(s, s') && Settled(s')
  {
    TimerStep(s);
    later, s' := Go(s0, es, mid, small, s, Timer(true));
    if s'.worker.phase.Flushing? {
      later, s' := FlushOut(s0, es, later, small, s');
    }
  }

  lemma {:induction false} FromFlush(s0: State, es: seq<Event>, mid: seq<Event>, small: bool, s: State)
    returns (later: seq<Event>, s': State)
    requires At(s0, es, mid, small, s) && s.worker.phase.Flushing?
    ensures At(s0, es, later, small, s') && SameOutside(s, s') && Settled(s')
  {
    later, s' := FlushOut(s0, es, mid, small, s);
    if s'.worker.phase.TimerCheck? {
      later, s' := FromTimer(s0, es, later, small, s');
    }
  }

  lemma {:induction false} FromHolding(s0: State, es: seq<Event>, mid: seq<Event>, small: bool, s: State)
    returns (later: seq<Event>, s': State)
    requires At(s0, es, mid, small, s) && s.worker.phase.Holding? && (small ==> !Fills(s.worker))
    ensures At(s0, es, later, small, s') && SameOutside(s, s') && Settled(s')
  {
    TakeStep(s);
    later, s' := Go(s0, es, mid, small, s, TakeIntoBatch);
    if s'.worker.phase.TimerCheck? {
      later, s' := FromTimer(s0, es, later, small, s');
    } else {
      later, s' := FromFlush(s0, es, later, small, s');
    }
  }

  /** The worker has taken the front element, if there is one, and logged it. */
  predicate TookFront(s: State, s': State) {
    && s'.writer == s.writer && s'.worker.batchSize == s.worker.batchSize
    && s'.worker.q.queue == (if s.worker.q.queue == [] then [] else s.worker.q.queue[1..])
  }

  lemma {:induction false} AfterPop(s0: State, es: seq<Event>, mid: seq<Event>, small: bool, was: State, s: State)
    returns (later: seq<Event>, s': State)
    requires At(s0, es, mid, small, s) && Popped(was, s) && (s.worker.phase.Holding? || s.worker.phase.TimerCheck?)
    requires small && was.worker.q.queue != [] ==> !Fills(was.worker)
    ensures At(s0, es, later, small, s') && TookFront(was, s') && Settled(s')
  {
    if s.worker.phase.Holding? {
      later, s' := FromHolding(s0, es, mid, small, s);
    } else {
      later, s' := FromTimer(s0, es, mid, small, s);
    }
  }

  lemma {:induction false} FromParked(s0: State, es: seq<Event>, mid: seq<Event>, small: bool, s: State)
    returns (later: seq<Event>, s': State)
    requires At(s0, es, mid, small, s) && s.worker.phase.Parked?
    requires small && s.worker.q.queue != [] ==> !Fills(s.worker)
    ensures At(s0, es, later, small, s') && TookFront(s, s') && Settled(s')
  {
    later, s' := mid, s;
    if !s.worker.q.dataCond.CanResume(WORKER) {
      UnparkStep(s);
      later, s' := Go(s0, es, mid, small, s, Unpark(WORKER));
    }
    var pick := ResumeStep(s');
    var awake := s';
    later, s' := Go(s0, es, later, small, s', ResumeWorker(true, pick));
    later, s' := AfterPop(s0, es, later, small, awake, s');
  }

  lemma {:induction false} FromHead(s0: State, es: seq<Event>, mid: seq<Event>, small: bool, s: State)
    returns (later: seq<Event>, s': State)
    requires At(s0, es, mid, small, s) && s.worker.phase.LoopHead?
    requires small && s.worker.q.queue != [] ==> !Fills(s.worker)
    ensures At(s0, es, later, small, s') && TookFront(s, s') && Settled(s')
  {
    var pick := HeadStep(s);
    later, s' := Go(s0, es, mid, small, s, Head(pick));
    if s'.worker.phase.Parked? {
      later, s' := FromParked(s0, es, later, small, s');
    } else {
      later, s' := AfterPop(s0, es, later, small, s, s');
    }
  }

  /** What there is to log outside the worker's hands. */
  function Outside(s: State): nat {
    |s.worker.q.queue| + if s.writer.Some? then 2 else 0
  }

  /** Whether the worker cannot but take a record next. */
  predicate MustTake(w: Worker) {
    w.phase.Holding? || ((w.phase.LoopHead? || w.phase.Parked?) && w.q.queue != [])
  }

  lemma {:induction false} Settle(s0: State, es: seq<Event>, mid: seq<Event>, small: bool, s: State)
    returns (later: seq<Event>, s': State)
    requires At(s0, es, mid, small, s) && (small && MustTake(s.worker) ==> !Fills(s.worker))
    ensures At(s0, es, later, small, s') && Settled(s') && Outside(s') <= Outside(s)
    ensures s'.worker.batchSize == s.worker.batchSize
  {
    match s.worker.phase
    case LoopHead => later, s' := FromHead(s0, es, mid, small, s);
    case Parked => later, s' := FromParked(s0, es, mid, small, s);
    case Holding(_) => later, s' := FromHolding(s0, es, mid, small, s);
    case TimerCheck => later, s' := FromTimer(s0, es, mid, small, s);
    case Flushing(_, _) => later, s' := FromFlush(s0, es, mid, small, s);
  }

  lemma {:induction false} LogAll(s0: State, es: seq<Event>, mid: seq<Event>, small: bool, s: State)
    returns (later: seq<Event>, s': State)
    requires At(s0, es, mid, small, s) && Settled(s) && (small ==> s.worker.batchSize >= 2 || Outside(s) == 0)
    ensures At(s0, es, later, small, s') && Settled(s') && Outside(s') == 0
    decreases Outside(s)
  {
    if s.writer.Some? && |s.worker.q.queue| < QUEUE_LIMIT {
      var pick := WriterStep(s);
      later, s' := Go(s0, es, mid, small, s, ResumeWriter(pick));
      later, s' := LogAll(s0, es, later, small, s');
    } else if s.worker.q.queue != [] {
      later, s' := FromHead(s0, es, mid, small, s);
      later, s' := LogAll(s0, es, later, small, s');
    } else {
      later, s' := mid, s;
    }
  }

  /** No batch need be filled on the way: the record the worker must take next, if any, does not fill its
    * batch, and one record alone does not, unless there is nothing more to take. */
  predicate CanStaySmall(s: State) {
    && (MustTake(s.worker) ==> !Fills(s.worker))
    && (s.worker.batchSize >= 2 || (Outside(s) == 0 && !s.worker.phase.Holding?))
  }

  lemma {:induction false} LeadsToNothingLeft(s0: State, es: seq<Event>, small: bool) returns (later: seq<Event>)
    requires IsRun(s0, es) && Working(Run(s0, es)) && (small ==> CanStaySmall(Run(s0, es)))
    ensures Leads(s0, es, later, small) && InFlight(Run(s0, later)) == []
  {
    var s' := Run(s0, es);
    later, s' := Settle(s0, es, es, small, s');
    later, s' := LogAll(s0, es, later, small, s');
  }

  lemma {:induction false} LeadsKeepsHistory(s0: State, es: seq<Event>, later: seq<Event>, small: bool)
    requires Leads(s0, es, later, small)
    ensures R.History(later) == R.History(es)
    decreases |later|
  {
    if later != es {
      var n := |later| - 1;
      LeadsKeepsHistory(s0, es, later[..n], small);
      R.LogSnoc(ClientOps(later[..n]), later[n]);
    }
  }

  /** Nothing waits for ever: from every reachable state of a worker that has not been told to stop, its own
    * steps and those of clients coming back from their wait can lead to a state in which the log is the
    * whole write history. */
  lemma {:induction false} EverythingCanBeLogged(batchSize: nat, logLimit: nat, es: seq<Event>)
    returns (later: seq<Event>)
    requires IsRun(Init(WriteBehind, batchSize, logLimit), es)
    requires Run(Init(WriteBehind, batchSize, logLimit), es).worker.running
    ensures var s0 := Init(WriteBehind, batchSize, logLimit);
      && Leads(s0, es, later, false)
      && Records(Appended(s0, later)) == R.History(later) == R.History(es)
  {
    var s0 := Init(WriteBehind, batchSize, logLimit);
    R.RunConserves(WriteBehind, batchSize, logLimit, es);
    RunRunsOn(s0, es);
    later := LeadsToNothingLeft(s0, es, false);
    LeadsKeepsHistory(s0, es, later, false);
    R.RunConserves(WriteBehind, batchSize, logLimit, later);
    assert Records(Appended(s0, later)) + [] == Records(Appended(s0, later));
  }
}
