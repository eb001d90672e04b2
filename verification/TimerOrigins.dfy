/** Where the tasks of the timer thread come from, and that none is lost or invented. */
module TimerOrigins {
  import opened TimerLoop

  // ---------------------------------------------------------------- every task is accounted for

  /** The timed task a call puts into the heap: a `ScheduleAt` its time and no interval, a `ScheduleEvery` one
    * interval after the reading of its clock. */
  function AskedTask(e: Event): Heap {
    match e
    case ScheduleAt(runAt, fn) => multiset{Task(runAt, fn, 0)}
    case ScheduleEvery(interval, fn, now) => multiset{Task(now + interval, fn, interval)}
    case _ => multiset{}
  }

  function AskedTasks(es: seq<Event>): Heap {
    if es == [] then multiset{} else AskedTasks(es[..|es| - 1]) + AskedTask(es[|es| - 1])
  }

  function SubmittedTasks(submitted: seq<Submission>): Heap {
    if submitted == [] then multiset{}
    else SubmittedTasks(submitted[..|submitted| - 1]) + multiset{submitted[|submitted| - 1].task}
  }

  /** A task with a positive interval comes back once, an interval after the reading that made it due. */
  function BackFrom(task: Task, at: Time): Heap {
    if task.interval > 0 then multiset{Task(at + task.interval, task.fn, 0)} else multiset{}
  }

  function BackFromAll(submitted: seq<Submission>): Heap {
    if submitted == [] then multiset{}
    else
      var last := submitted[|submitted| - 1];
      BackFromAll(submitted[..|submitted| - 1]) + BackFrom(last.task, last.at)
  }

  /** The timed task in hand before it is submitted, and after that the one it still has to put back. */
  function HeldTask(hand: Hand): Heap {
    match hand
    case Waiting => multiset{}
    case Popped(task, _) => multiset{task}
    case Rearming(task, at) => BackFrom(task, at)
  }

  lemma {:induction false} SubmittedMore(submitted: seq<Submission>, x: Submission)
    ensures SubmittedTasks(submitted + [x]) == SubmittedTasks(submitted) + multiset{x.task}
    ensures BackFromAll(submitted + [x]) == BackFromAll(submitted) + BackFrom(x.task, x.at)
  {
    assert (submitted + [x])[..|submitted|] == submitted;
  }

  /** How often a task is in the heap, in hand and among the submitted ones. */
  function CountIn(s: State, t: Task): nat {
    s.heap[t] + HeldTask(s.hand)[t] + SubmittedTasks(s.submitted)[t]
  }

  lemma {:induction false} AddCounts(heap: Heap, more: Heap, t: Task)
    ensures (heap + more)[t] == heap[t] + more[t]
  {
  }

  lemma {:induction false} TakeCounts(heap: Heap, top: Task, t: Task)
    requires top in heap
    ensures (heap - multiset{top})[t] + multiset{top}[t] == heap[t]
  {
  }

  lemma {:induction false} SubmitCounts(s: State, t: Task)
    requires Enabled(s, Submit)
    ensures CountIn(Step(s, Submit), t) + BackFromAll(s.submitted)[t]
      == CountIn(s, t) + BackFromAll(Step(s, Submit).submitted)[t]
  {
    var task, at := s.hand.task, s.hand.at;
    SubmittedMore(s.submitted, Submission(task, at));
    AddCounts(SubmittedTasks(s.submitted), multiset{task}, t);
    AddCounts(BackFromAll(s.submitted), BackFrom(task, at), t);
  }

  lemma {:induction false} AskCounts(s: State, e: Event, t: Task)
    requires Enabled(s, e) && (e.ScheduleAt? || e.ScheduleEvery?)
    ensures CountIn(Step(s, e), t) == CountIn(s, t) + AskedTask(e)[t] && Step(s, e).submitted == s.submitted
  {
    assert Step(s, e).heap == s.heap + AskedTask(e);
    AddCounts(s.heap, AskedTask(e), t);
  }

  lemma {:induction false} TurnCounts(s: State, top: Task, now: Time, t: Task)
    requires Enabled(s, Turn(top, now))
    ensures CountIn(Step(s, Turn(top, now)), t) == CountIn(s, t) && Step(s, Turn(top, now)).submitted == s.submitted
  {
    TakeCounts(s.heap, top, t);
  }

  lemma {:induction false} RearmCounts(s: State, t: Task)
    requires Enabled(s, Rearm) && HandOk(s)
    ensures CountIn(Step(s, Rearm), t) == CountIn(s, t) && Step(s, Rearm).submitted == s.submitted
  {
    assert Step(s, Rearm).heap == s.heap + BackFrom(s.hand.task, s.hand.at);
    AddCounts(s.heap, BackFrom(s.hand.task, s.hand.at), t);
  }

  lemma {:induction false} StepCounts(s: State, e: Event, t: Task)
    requires Enabled(s, e) && HandOk(s)
    ensures CountIn(Step(s, e), t) + BackFromAll(s.submitted)[t]
      == CountIn(s, t) + AskedTask(e)[t] + BackFromAll(Step(s, e).submitted)[t]
  {
    match e
    case Turn(top, now) => TurnCounts(s, top, now, t);
    case Submit => SubmitCounts(s, t);
    case Rearm => RearmCounts(s, t);
    case _ => AskCounts(s, e, t);
  }

  /** In every state of every run, for every task with its time, function and interval: it is in the heap,
    * in hand and submitted as often as it was asked for and put back by what was submitted. */
  lemma {:induction false} TasksAreConserved(es: seq<Event>, t: Task)
    requires IsRun(es)
    ensures CountIn(Run(es), t) == AskedTasks(es)[t] + BackFromAll(Run(es).submitted)[t]
  {
    if es != [] {
      var n := |es| - 1;
      TasksAreConserved(es[..n], t);
      RunKeepsHand(es[..n]);
      StepCounts(Run(es[..n]), es[n], t);
    }
  }

  // ---------------------------------------------------------------- where a task comes from

  /** A call asked for this task. */
  predicate WasAsked(es: seq<Event>, t: Task) {
    exists i | 0 <= i < |es| ::
      || (es[i] == ScheduleAt(t.runAt, t.fn) && t.interval == 0)
      || (es[i].ScheduleEvery? && t == Task(es[i].now + es[i].interval, es[i].fn, es[i].interval))
  }

  /** One of the first `n` submissions put it back. */
  predicate CameBack(submitted: seq<Submission>, n: nat, t: Task)
    requires n <= |submitted|
  {
    exists i | 0 <= i < n :: submitted[i].task.interval > 0
      && t == Task(submitted[i].at + submitted[i].task.interval, submitted[i].task.fn, 0)
  }

  predicate HasOrigin(es: seq<Event>, submitted: seq<Submission>, n: nat, t: Task)
    requires n <= |submitted|
  {
    WasAsked(es, t) || CameBack(submitted, n, t)
  }

  ghost predicate Originates(es: seq<Event>, s: State) {
    && (forall t | t in s.heap :: HasOrigin(es, s.submitted, |s.submitted|, t))
    && (forall k | 0 <= k < |s.submitted| :: HasOrigin(es, s.submitted, k, s.submitted[k].task))
    && (s.hand.Popped? ==> HasOrigin(es, s.submitted, |s.submitted|, s.hand.task))
    && (s.hand.Rearming? ==>
          s.submitted != [] && s.submitted[|s.submitted| - 1] == Submission(s.hand.task, s.hand.at)
          && s.hand.task.interval > 0)
  }

  lemma {:induction false} OriginStays(es: seq<Event>, e: Event, submitted: seq<Submission>, more: seq<Submission>,
                                       n: nat, m: nat, t: Task)
    requires n <= |submitted| && n <= m <= |submitted + more| && HasOrigin(es, submitted, n, t)
    ensures HasOrigin(es + [e], submitted + more, m, t)
  {
    if WasAsked(es, t) {
      var i :| 0 <= i < |es| &&
        ((es[i] == ScheduleAt(t.runAt, t.fn) && t.interval == 0)
         || (es[i].ScheduleEvery? && t == Task(es[i].now + es[i].interval, es[i].fn, es[i].interval)));
      assert (es + [e])[i] == es[i];
    } else {
      var i :| 0 <= i < n && submitted[i].task.interval > 0
        && t == Task(submitted[i].at + submitted[i].task.interval, submitted[i].task.fn, 0);
      assert (submitted + more)[i] == submitted[i];
    }
  }

  lemma {:induction false} NewTaskWasAsked(es: seq<Event>, e: Event, t: Task)
    requires t in AskedTask(e)
    ensures WasAsked(es + [e], t)
  {
    assert (es + [e])[|es|] == e;
  }

  lemma {:induction false} QueuedOriginates(es: seq<Event>, s: State, e: Event, more: seq<Submission>, t: Task)
    requires Enabled(s, e) && Originates(es, s) && t in Step(s, e).heap && Step(s, e).submitted == s.submitted + more
    ensures HasOrigin(es + [e], s.submitted + more, |s.submitted + more|, t)
  {
    if t in s.heap {
      OriginStays(es, e, s.submitted, more, |s.submitted|, |s.submitted + more|, t);
    } else if e.Rearm? {
      assert s.submitted + more == s.submitted;
      assert CameBack(s.submitted, |s.submitted|, t);
    } else {
      NewTaskWasAsked(es, e, t);
    }
  }

  lemma {:induction false} SubmittedOriginates(es: seq<Event>, s: State, e: Event, more: seq<Submission>, k: nat)
    requires Enabled(s, e) && Originates(es, s) && Step(s, e).submitted == s.submitted + more
    requires k < |s.submitted + more|
    ensures HasOrigin(es + [e], s.submitted + more, k, (s.submitted + more)[k].task)
  {
    OriginStays(es, e, s.submitted, more, k, k, (s.submitted + more)[k].task);
  }

  lemma {:induction false} OnlyAppends(s: State, e: Event)
    requires Enabled(s, e)
    ensures |s.submitted| <= |Step(s, e).submitted|
    ensures Step(s, e).submitted == s.submitted + Step(s, e).submitted[|s.submitted|..]
  {
  }

  lemma {:induction false} StepOriginates(es: seq<Event>, s: State, e: Event)
    requires Enabled(s, e) && Originates(es, s)
    ensures Originates(es + [e], Step(s, e))
  {
    OnlyAppends(s, e);
    var s', more := Step(s, e), Step(s, e).submitted[|s.submitted|..];
    forall t | t in s'.heap
      ensures HasOrigin(es + [e], s'.submitted, |s'.submitted|, t)
    {
      QueuedOriginates(es, s, e, more, t);
    }
    forall k | 0 <= k < |s'.submitted|
      ensures HasOrigin(es + [e], s'.submitted, k, s'.submitted[k].task)
    {
      SubmittedOriginates(es, s, e, more, k);
    }
    if s'.hand.Popped? {
      OriginStays(es, e, s.submitted, more, |s.submitted|, |s'.submitted|, s'.hand.task);
    }
  }

  /** In every run, every task queued, in hand or submitted was asked for by a call, with its time, or was
    * put back by an earlier submission with a positive interval: then it is due that interval after the
    * clock reading of the submission, has the same function, and has no interval of its own. */
  lemma {:induction false} TasksHaveOrigins(es: seq<Event>)
    requires IsRun(es)
    ensures Originates(es, Run(es))
  {
    if es != [] {
      var n := |es| - 1;
      TasksHaveOrigins(es[..n]);
      StepOriginates(es[..n], Run(es[..n]), es[n]);
      assert es[..n] + [es[n]] == es;
    }
  }
}
