/** When the worker exactly as it is written, with `batch_mutex_`, can still get everything into the log. */
module DrainAsWritten {
  import opened Base
  import P = Pipeline
  import R = Recovery
  import D = Drain
  import opened BatchMutex

  /** A step of the worker, or of a client that comes back from its wait for room. */
  predicate Internal(e: Event) {
    match e case Do(e) => D.Internal(e) case _ => true
  }

  /** `later` goes on from `es` by such steps alone. */
  ghost predicate GoesOn(a0: State, es: seq<Event>, later: seq<Event>)
    decreases |later|
  {
    && IsRun(a0, later)
    && (later == es ||
        (|later| > |es| && GoesOn(a0, es, later[..|later| - 1]) && Internal(later[|later| - 1])))
  }

  lemma {:induction false} GoesOnMore(a0: State, es: seq<Event>, mid: seq<Event>, e: Event, later: seq<Event>)
    requires GoesOn(a0, es, mid) && |mid| >= |es| && Enabled(Run(a0, mid), e) && Internal(e) && later == mid + [e]
    ensures GoesOn(a0, es, later) && |later| > |es| && Run(a0, later) == Step(Run(a0, mid), e)
  {
    RunMore(a0, mid, e);
    assert later[..|later| - 1] == mid && later[|later| - 1] == e;
  }

  /** Not blocked yet, and no batch need be filled on the way. */
  predicate CanDrain(a: State) {
    !a.nested && D.CanStaySmall(a.s)
  }

  // ---------------------------------------------------------------- then it can

  /** The step as written that is this step of the pipeline. */
  function AsWritten(e: P.Event): Event {
    if e.TakeIntoBatch? then Take else Do(e)
  }

  lemma {:induction false} SmallStep(a: State, e: P.Event)
    requires MutexOk(a) && !a.nested && P.Enabled(a.s, e) && D.Internal(e)
    requires e.TakeIntoBatch? ==> !P.Fills(a.s.worker)
    ensures Enabled(a, AsWritten(e)) && Internal(AsWritten(e))
    ensures var b := Step(a, AsWritten(e)); MutexOk(b) && !b.nested && b.s == P.Step(a.s, e)
  {
  }

  lemma {:induction false} StepsMore(a0: State, mid: seq<Event>, e: P.Event, later: seq<Event>)
    requires IsRun(a0, mid) && later == mid + [AsWritten(e)] && IsRun(a0, later)
    requires e.TakeIntoBatch? ==> !P.Fills(Run(a0, mid).s.worker)
    ensures Steps(a0, later) == Steps(a0, mid) + [e]
  {
    assert later[..|mid|] == mid;
  }

  /** `later` takes the steps `more` of the pipeline and has not blocked. */
  ghost predicate Follows(a0: State, es: seq<Event>, later: seq<Event>, more: seq<P.Event>) {
    && GoesOn(a0, es, later) && |later| >= |es| && MutexOk(Run(a0, later)) && !Run(a0, later).nested
    && Steps(a0, later) == more && P.IsRun(a0.s, more) && P.Run(a0.s, more) == Run(a0, later).s
  }

  lemma {:induction false} FollowMore(a0: State, es: seq<Event>, mid: seq<Event>, before: seq<P.Event>, e: P.Event,
                                      later: seq<Event>, more: seq<P.Event>)
    requires Follows(a0, es, mid, before) && P.Enabled(P.Run(a0.s, before), e) && D.Internal(e)
    requires e.TakeIntoBatch? ==> !P.Fills(P.Run(a0.s, before).worker)
    requires later == mid + [AsWritten(e)] && more == before + [e]
    ensures Follows(a0, es, later, more)
  {
    SmallStep(Run(a0, mid), e);
    GoesOnMore(a0, es, mid, AsWritten(e), later);
    StepsMore(a0, mid, e, later);
    R.RunMore(a0.s, before, e);
  }

  lemma {:induction false} LastStep(s0: P.State, es: seq<P.Event>, more: seq<P.Event>, n: nat)
    requires D.Leads(s0, es, more, true) && more != es && n == |more| - 1
    ensures D.Leads(s0, es, more[..n], true) && P.IsRun(s0, more[..n]) && more == more[..n] + [more[n]]
    ensures P.Enabled(P.Run(s0, more[..n]), more[n]) && D.Internal(more[n])
    ensures more[n].TakeIntoBatch? ==> !P.Fills(P.Run(s0, more[..n]).worker)
  {
  }

  lemma {:induction false} FollowsPipeline(a0: State, es: seq<Event>, steps: seq<P.Event>, more: seq<P.Event>)
    returns (later: seq<Event>)
    requires Follows(a0, es, es, steps) && D.Leads(a0.s, steps, more, true)
    ensures Follows(a0, es, later, more)
    decreases |more|
  {
    if more == steps {
      later := es;
    } else {
      var n := |more| - 1;
      LastStep(a0.s, steps, more, n);
      var mid := FollowsPipeline(a0, es, steps, more[..n]);
      later := mid + [AsWritten(more[n])];
      FollowMore(a0, es, mid, more[..n], more[n], later, more);
    }
  }

  // ---------------------------------------------------------------- otherwise it never can

  /** There will always be something left to log. */
  ghost predicate Doomed(a: State) {
    MutexOk(a) && D.Working(a.s) && !CanDrain(a)
  }

  lemma {:induction false} TakeDooms(a: State)
    requires Doomed(a) && Enabled(a, Take)
    ensures Doomed(Step(a, Take))
  {
    StepKeepsMutex(a, Take);
  }

  lemma {:induction false} WorkerDooms(s: P.State, e: P.Event)
    requires D.Working(s) && !D.CanStaySmall(s) && P.Enabled(s, e) && D.Internal(e) && !e.TakeIntoBatch?
    ensures !D.CanStaySmall(P.Step(s, e))
  {
  }

  lemma {:induction false} NestedDooms(a: State, e: Event)
    requires Doomed(a) && a.nested && Enabled(a, e) && Internal(e)
    ensures Doomed(Step(a, e))
  {
    StepKeepsMutex(a, e);
    D.StepKeepsWorking(a.s, e.e);
  }

  lemma {:induction false} DoomStays(a: State, e: Event)
    requires Doomed(a) && Enabled(a, e) && Internal(e)
    ensures Doomed(Step(a, e))
  {
    if a.nested {
      NestedDooms(a, e);
    } else if e.Take? {
      TakeDooms(a);
    } else {
      StepKeepsMutex(a, e);
      D.StepKeepsWorking(a.s, e.e);
      WorkerDooms(a.s, e.e);
    }
  }

  lemma {:induction false} DoomedHasMore(a: State)
    requires Doomed(a)
    ensures P.InFlight(a.s) != []
  {
  }

  lemma {:induction false} LastDooms(a0: State, later: seq<Event>, n: nat, a: State)
    requires IsRun(a0, later) && n == |later| - 1 && a == Run(a0, later[..n]) && Doomed(a) && Internal(later[n])
    ensures Doomed(Run(a0, later))
  {
    DoomStays(a, later[n]);
  }

  lemma {:induction false} DoomedForEver(a0: State, es: seq<Event>, later: seq<Event>)
    requires GoesOn(a0, es, later) && IsRun(a0, es) && Doomed(Run(a0, es))
    ensures Doomed(Run(a0, later))
    decreases |later|
  {
    if later != es {
      var n := |later| - 1;
      DoomedForEver(a0, es, later[..n]);
      LastDooms(a0, later, n, Run(a0, later[..n]));
    }
  }

  lemma {:induction false} GoesOnKeepsHistory(a0: State, es: seq<Event>, later: seq<Event>)
    requires GoesOn(a0, es, later) && IsRun(a0, es)
    ensures R.History(Steps(a0, later)) == R.History(Steps(a0, es))
    decreases |later|
  {
    if later != es {
      var n := |later| - 1;
      var before := Steps(a0, later[..n]);
      GoesOnKeepsHistory(a0, es, later[..n]);
      match later[n]
      case Do(e) => StepsHistory(before, e, Steps(a0, later));
      case Take =>
        if P.Fills(Run(a0, later[..n]).s.worker) {
          assert before + [] == before;
        } else {
          StepsHistory(before, P.TakeIntoBatch, Steps(a0, later));
        }
      case Swap => StepsHistory(before, P.TakeIntoBatch, Steps(a0, later));
    }
  }

  lemma {:induction false} StepsHistory(before: seq<P.Event>, e: P.Event, after: seq<P.Event>)
    requires !e.Client? && after == before + [e]
    ensures R.History(after) == R.History(before)
  {
    R.LogSnoc(P.ClientOps(before), e);
    assert after[..|before|] == before;
  }

  /** The run has put its whole write history into the log. */
  ghost predicate LoggedAll(batchSize: nat, logLimit: nat, es: seq<Event>) {
    var a0 := Init(batchSize, logLimit);
    && IsRun(a0, es) && P.IsRun(a0.s, Steps(a0, es))
    && P.Records(P.Appended(a0.s, Steps(a0, es))) == R.History(Steps(a0, es))
  }

  lemma {:induction false} LoggedAllExactly(batchSize: nat, logLimit: nat, es: seq<Event>)
    requires IsRun(Init(batchSize, logLimit), es)
    ensures LoggedAll(batchSize, logLimit, es) <==> P.InFlight(Run(Init(batchSize, logLimit), es).s) == []
  {
    var a0 := Init(batchSize, logLimit);
    RunsAsThePipeline(batchSize, logLimit, es);
    R.RunConserves(P.WriteBehind, batchSize, logLimit, Steps(a0, es));
    var logged := P.Records(P.Appended(a0.s, Steps(a0, es)));
    assert logged + [] == logged;
  }

  lemma {:induction false} StartsWorking(batchSize: nat, logLimit: nat, es: seq<Event>)
    requires IsRun(Init(batchSize, logLimit), es) && Run(Init(batchSize, logLimit), es).s.worker.running
    ensures D.Working(Run(Init(batchSize, logLimit), es).s) && MutexOk(Run(Init(batchSize, logLimit), es))
  {
    var a0 := Init(batchSize, logLimit);
    RunsAsThePipeline(batchSize, logLimit, es);
    R.RunConserves(P.WriteBehind, batchSize, logLimit, Steps(a0, es));
    D.RunRunsOn(a0.s, Steps(a0, es));
  }

  lemma {:induction false} CanLogAll(batchSize: nat, logLimit: nat, es: seq<Event>) returns (later: seq<Event>)
    requires IsRun(Init(batchSize, logLimit), es) && Run(Init(batchSize, logLimit), es).s.worker.running
    requires CanDrain(Run(Init(batchSize, logLimit), es))
    ensures GoesOn(Init(batchSize, logLimit), es, later) && LoggedAll(batchSize, logLimit, later)
  {
    var a0 := Init(batchSize, logLimit);
    StartsWorking(batchSize, logLimit, es);
    RunsAsThePipeline(batchSize, logLimit, es);
    var more := D.LeadsToNothingLeft(a0.s, Steps(a0, es), true);
    later := FollowsPipeline(a0, es, Steps(a0, es), more);
    RunsAsThePipeline(batchSize, logLimit, later);
    LoggedAllExactly(batchSize, logLimit, later);
  }

  /** For every reachable state of the worker as written that has not been told to stop, and without
    * further writes: some continuation gets the whole write history into the log if and only if the worker
    * is not blocked, the record it must take next, if any, does not fill its batch, and either a batch holds
    * more than one record or there is nothing more to take.  Otherwise none ever does. */
  lemma {:induction false} LogsAllExactly(batchSize: nat, logLimit: nat, es: seq<Event>)
    requires IsRun(Init(batchSize, logLimit), es) && Run(Init(batchSize, logLimit), es).s.worker.running
    ensures (exists later :: GoesOn(Init(batchSize, logLimit), es, later) && LoggedAll(batchSize, logLimit, later))
      <==> CanDrain(Run(Init(batchSize, logLimit), es))
    ensures forall later | GoesOn(Init(batchSize, logLimit), es, later) ::
      R.History(Steps(Init(batchSize, logLimit), later)) == R.History(Steps(Init(batchSize, logLimit), es))
  {
    var a0 := Init(batchSize, logLimit);
    StartsWorking(batchSize, logLimit, es);
    if CanDrain(Run(a0, es)) {
      var later := CanLogAll(batchSize, logLimit, es);
    } else {
      forall later | GoesOn(a0, es, later)
        ensures !LoggedAll(batchSize, logLimit, later)
      {
        DoomedForEver(a0, es, later);
        DoomedHasMore(Run(a0, later));
        LoggedAllExactly(batchSize, logLimit, later);
      }
    }
    forall later | GoesOn(a0, es, later)
      ensures R.History(Steps(a0, later)) == R.History(Steps(a0, es))
    {
      GoesOnKeepsHistory(a0, es, later);
    }
  }
}
