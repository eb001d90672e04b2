/** The timer thread of `Scheduler`: a heap of timed tasks, submitted to the pool when due, periodic
  * ones re-armed through `ScheduleAt`.  Clock readings are parameters.
  */
module TimerLoop {

  /** Identity of a function object. */
  type Fn = nat

  /** A point on the steady clock; intervals may be zero or negative. */
  type Time = int

  datatype Task = Task(runAt: Time, fn: Fn, interval: int)

  /** `timer_queue`; a heap gives up one of its earliest tasks, whichever. */
  type Heap = multiset<Task>

  /** What was handed to the pool, and the clock reading that made it due. */
  datatype Submission = Submission(task: Task, at: Time)

  /** The timer thread: under its lock, about to submit, about to re-arm. */
  datatype Hand = Waiting | Popped(task: Task, at: Time) | Rearming(task: Task, at: Time)

  datatype State = State(heap: Heap, hand: Hand, submitted: seq<Submission>)

  datatype Event =
    | ScheduleAt(runAt: Time, fn: Fn)
    | ScheduleEvery(interval: int, fn: Fn, now: Time)
    | Turn(top: Task, now: Time)
    | Submit
    | Rearm

  predicate IsTop(heap: Heap, t: Task) {
    t in heap && forall u | u in heap :: t.runAt <= u.runAt
  }

  /** `ScheduleAt` stores a zero interval. */
  function Scheduled(runAt: Time, fn: Fn): Task {
    Task(runAt, fn, 0)
  }

  predicate Enabled(s: State, e: Event) {
    match e
    case Turn(top, now) => s.hand.Waiting? && IsTop(s.heap, top)
    case Submit => s.hand.Popped?
    case Rearm => s.hand.Rearming?
    case _ => true
  }

  function Step(s: State, e: Event): State
    requires Enabled(s, e)
  {
    match e
    case ScheduleAt(runAt, fn) => s.(heap := s.heap + multiset{Scheduled(runAt, fn)})
    case ScheduleEvery(interval, fn, now) => s.(heap := s.heap + multiset{Task(now + interval, fn, interval)})
    case Turn(top, now) =>
      if now >= top.runAt then s.(heap := s.heap - multiset{top}, hand := Popped(top, now)) else s
    case Submit =>
      State(s.heap, if s.hand.task.interval > 0 then Rearming(s.hand.task, s.hand.at) else Waiting,
            s.submitted + [Submission(s.hand.task, s.hand.at)])
    case Rearm =>
      s.(heap := s.heap + multiset{Scheduled(s.hand.at + s.hand.task.interval, s.hand.task.fn)}, hand := Waiting)
  }

  function Init(): State {
    State(multiset{}, Waiting, [])
  }

  ghost predicate IsRun(es: seq<Event>)
    decreases |es|, 0
  {
    es != [] ==> IsRun(es[..|es| - 1]) && Enabled(Run(es[..|es| - 1]), es[|es| - 1])
  }

  ghost function Run(es: seq<Event>): State
    requires IsRun(es)
    decreases |es|, 1
  {
    if es == [] then Init() else Step(Run(es[..|es| - 1]), es[|es| - 1])
  }

  // ---------------------------------------------------------------- never early

  ghost predicate NotEarly(s: State) {
    && (s.hand.Popped? ==> s.hand.task.runAt <= s.hand.at)
    && (forall i | 0 <= i < |s.submitted| :: s.submitted[i].task.runAt <= s.submitted[i].at)
  }

  /** In every run, no task goes to the pool before its time. */
  lemma {:induction false} NeverEarly(es: seq<Event>)
    requires IsRun(es)
    ensures NotEarly(Run(es))
  {
    if es != [] {
      NeverEarly(es[..|es| - 1]);
    }
  }

  // ---------------------------------------------------------------- how often a function is run

  /** How many submissions a pending task still leads to. */
  function Worth(t: Task): nat {
    if t.interval > 0 then 2 else 1
  }

  /** The sum of `w` over the heap. */
  ghost function Sum(heap: Heap, w: Task -> nat): nat
    decreases |heap|
  {
    if heap == multiset{} then 0 else var t :| t in heap; Sum(heap - multiset{t}, w) + w(t)
  }

  lemma {:induction false} SumRemove(heap: Heap, t: Task, w: Task -> nat)
    requires t in heap
    ensures Sum(heap, w) == Sum(heap - multiset{t}, w) + w(t)
    decreases |heap|
  {
    var u :| u in heap && Sum(heap, w) == Sum(heap - multiset{u}, w) + w(u);
    if u != t {
      SumRemove(heap - multiset{u}, t, w);
      SumRemove(heap - multiset{t}, u, w);
      assert heap - multiset{u} - multiset{t} == heap - multiset{t} - multiset{u};
    }
  }

  lemma {:induction false} SumAdd(heap: Heap, t: Task, w: Task -> nat)
    ensures Sum(heap + multiset{t}, w) == Sum(heap, w) + w(t)
  {
    SumRemove(heap + multiset{t}, t, w);
    assert heap + multiset{t} - multiset{t} == heap;
  }

  function WorthFor(fn: Fn): Task -> nat {
    (t: Task) => if t.fn == fn then Worth(t) else 0
  }

  function InHand(hand: Hand, fn: Fn): nat {
    match hand
    case Waiting => 0
    case Popped(t, _) => WorthFor(fn)(t)
    case Rearming(t, _) => if t.fn == fn then 1 else 0
  }

  function TimesSubmitted(submitted: seq<Submission>, fn: Fn): nat {
    if submitted == [] then 0
    else
      var n := |submitted| - 1;
      TimesSubmitted(submitted[..n], fn) + if submitted[n].task.fn == fn then 1 else 0
  }

  /** Submissions of `fn` that a call asks for: one for a `ScheduleAt`, and for a `ScheduleEvery`
    * two if its interval is positive, otherwise one. */
  function AskedBy(e: Event, fn: Fn): nat {
    if e.ScheduleAt? && e.fn == fn then 1
    else if e.ScheduleEvery? && e.fn == fn then if e.interval > 0 then 2 else 1
    else 0
  }

  function Asked(es: seq<Event>, fn: Fn): nat {
    if es == [] then 0 else Asked(es[..|es| - 1], fn) + AskedBy(es[|es| - 1], fn)
  }

  /** Submissions of `fn` made or still to come. */
  ghost function Total(s: State, fn: Fn): nat {
    TimesSubmitted(s.submitted, fn) + InHand(s.hand, fn) + Sum(s.heap, WorthFor(fn))
  }

  lemma {:induction false} AddConserves(s: State, e: Event, t: Task, fn: Fn)
    requires Enabled(s, e) && Step(s, e) == s.(heap := s.heap + multiset{t})
    ensures Total(Step(s, e), fn) == Total(s, fn) + if t.fn == fn then Worth(t) else 0
  {
    SumAdd(s.heap, t, WorthFor(fn));
  }

  lemma {:induction false} TurnConserves(s: State, top: Task, now: Time, fn: Fn)
    requires Enabled(s, Turn(top, now))
    ensures Total(Step(s, Turn(top, now)), fn) == Total(s, fn)
  {
    SumRemove(s.heap, top, WorthFor(fn));
  }

  lemma {:induction false} SubmitConserves(s: State, fn: Fn)
    requires Enabled(s, Submit)
    ensures Total(Step(s, Submit), fn) == Total(s, fn)
  {
  }

  lemma {:induction false} RearmConserves(s: State, fn: Fn)
    requires Enabled(s, Rearm)
    ensures Total(Step(s, Rearm), fn) == Total(s, fn)
  {
    var t := Scheduled(s.hand.at + s.hand.task.interval, s.hand.task.fn);
    var s' := s.(heap := s.heap + multiset{t}, hand := Waiting);
    assert Step(s, Rearm) == s';
    SumAdd(s.heap, t, WorthFor(fn));
    assert WorthFor(fn)(t) == InHand(s.hand, fn);
  }

  lemma {:induction false} StepConserves(s: State, e: Event, fn: Fn)
    requires Enabled(s, e)
    ensures Total(Step(s, e), fn) == Total(s, fn) + AskedBy(e, fn)
  {
    match e
    case ScheduleAt(runAt, f) => AddConserves(s, e, Scheduled(runAt, f), fn);
    case ScheduleEvery(interval, f, now) => AddConserves(s, e, Task(now + interval, f, interval), fn);
    case Turn(top, now) => TurnConserves(s, top, now, fn);
    case Submit => SubmitConserves(s, fn);
    case Rearm => RearmConserves(s, fn);
  }

  /** Conservation: in every state of every run, what was asked for is what has been submitted and
    * what is still to come. */
  lemma {:induction false} SubmissionsAreConserved(es: seq<Event>, fn: Fn)
    requires IsRun(es)
    ensures Total(Run(es), fn) == Asked(es, fn)
  {
    if es != [] {
      var n := |es| - 1;
      SubmissionsAreConserved(es[..n], fn);
      StepConserves(Run(es[..n]), es[n], fn);
    }
  }

  /** Once nothing of `fn` is pending it has been submitted exactly as often as asked for: a single
    * `ScheduleEvery` with a positive interval has led to two submissions and will lead to no more. */
  lemma {:induction false} EveryMeansTwice(es: seq<Event>, fn: Fn)
    requires IsRun(es)
    ensures TimesSubmitted(Run(es).submitted, fn) <= Asked(es, fn)
    ensures (forall t | t in Run(es).heap :: t.fn != fn) && (Run(es).hand.Waiting? || Run(es).hand.task.fn != fn) ==>
      TimesSubmitted(Run(es).submitted, fn) == Asked(es, fn)
  {
    SubmissionsAreConserved(es, fn);
    if forall t | t in Run(es).heap :: t.fn != fn {
      NothingPending(Run(es).heap, WorthFor(fn));
    }
  }

  lemma {:induction false} NothingPending(heap: Heap, w: Task -> nat)
    requires forall t | t in heap :: w(t) == 0
    ensures Sum(heap, w) == 0
    decreases |heap|
  {
    if heap != multiset{} {
      var t :| t in heap && Sum(heap, w) == Sum(heap - multiset{t}, w) + w(t);
      NothingPending(heap - multiset{t}, w);
    }
  }

  // ---------------------------------------------------------------- the drain at a fixed clock

  /** The timer thread's own steps while its clock reads `now` and something is due. */
  predicate Drains(s: State, e: Event, now: Time) {
    && Enabled(s, e)
    && (s.hand.Waiting? || s.hand.at == now)
    && match e
       case Turn(top, at) => at == now && top.runAt <= now
       case Submit => true
       case Rearm => true
       case _ => false
  }

  function DueAt(now: Time): Task -> nat {
    (t: Task) => if t.runAt <= now then 1 else 0
  }

  /** Steps left: three for each due task, fewer for the one in hand. */
  ghost function StepsLeft(s: State, now: Time): nat {
    3 * Sum(s.heap, DueAt(now)) + match s.hand case Waiting => 0 case Popped(_, _) => 2 case Rearming(_, _) => 1
  }

  /** Re-arming needs a positive interval, so what is re-armed is not due. */
  ghost predicate HandOk(s: State) {
    s.hand.Rearming? ==> s.hand.task.interval > 0
  }

  lemma {:induction false} RunKeepsHand(es: seq<Event>)
    requires IsRun(es)
    ensures HandOk(Run(es))
  {
    if es != [] {
      RunKeepsHand(es[..|es| - 1]);
    }
  }

  lemma {:induction false} DrainShrinks(s: State, e: Event, now: Time)
    requires HandOk(s) && Drains(s, e, now)
    ensures StepsLeft(Step(s, e), now) < StepsLeft(s, now) && HandOk(Step(s, e))
    ensures Step(s, e).hand.Waiting? || Step(s, e).hand.at == now
  {
    match e
    case Turn(top, at) => SumRemove(s.heap, top, DueAt(now));
    case Submit =>
    case Rearm => SumAdd(s.heap, Scheduled(s.hand.at + s.hand.task.interval, s.hand.task.fn), DueAt(now));
  }

  ghost predicate IsDrain(s: State, es: seq<Event>, now: Time)
    decreases |es|
  {
    es != [] ==> Drains(s, es[0], now) && IsDrain(Step(s, es[0]), es[1..], now)
  }

  /** With the clock standing still and nobody scheduling, the drain ends: it has no more steps
    * than three for each due task and two for the one in hand. */
  lemma {:induction false} DrainTerminates(s: State, es: seq<Event>, now: Time)
    requires HandOk(s) && IsDrain(s, es, now)
    ensures |es| <= StepsLeft(s, now)
    decreases |es|
  {
    if es != [] {
      DrainShrinks(s, es[0], now);
      DrainTerminates(Step(s, es[0]), es[1..], now);
    }
  }

  lemma {:induction false} TopExists(heap: Heap) returns (t: Task)
    requires heap != multiset{}
    ensures IsTop(heap, t)
    decreases |heap|
  {
    t :| t in heap;
    var rest := heap - multiset{t};
    assert forall v | v in heap :: v == t || v in rest;
    if rest != multiset{} {
      var u := TopExists(rest);
      if u.runAt < t.runAt {
        t := u;
      }
    }
  }

  /** It does not end early: while a task is due or in hand there is a next step. */
  lemma {:induction false} DrainGoesOn(s: State, now: Time)
    requires s.hand.Waiting? || s.hand.at == now
    ensures (exists e :: Drains(s, e, now)) <==> !s.hand.Waiting? || exists t :: t in s.heap && t.runAt <= now
  {
    if s.hand.Popped? {
      assert Drains(s, Submit, now);
    } else if s.hand.Rearming? {
      assert Drains(s, Rearm, now);
    } else if t :| t in s.heap && t.runAt <= now {
      var top := TopExists(s.heap);
      assert Drains(s, Turn(top, now), now);
    }
  }

  // ---------------------------------------------------------------- the object

  function Again(t: Task, now: Time): Heap {
    if t.interval > 0 then multiset{Scheduled(now + t.interval, t.fn)} else multiset{}
  }

  /** What the re-arming of the submitted tasks puts back; `clock(i)` is the reading of turn `i`. */
  function Rearmed(tasks: seq<Task>, clock: nat -> Time): Heap {
    if tasks == [] then multiset{}
    else Rearmed(tasks[..|tasks| - 1], clock) + Again(tasks[|tasks| - 1], clock(|tasks| - 1))
  }

  lemma {:induction false} RearmedIsLater(tasks: seq<Task>, clock: nat -> Time, now: Time)
    requires forall i :: clock(i) == now
    ensures forall t | t in Rearmed(tasks, clock) :: t.runAt > now && t.interval == 0
  {
    if tasks != [] {
      RearmedIsLater(tasks[..|tasks| - 1], clock, now);
    }
  }

  predicate InOrder(tasks: seq<Task>) {
    forall i, j | 0 <= i < j < |tasks| :: tasks[i].runAt <= tasks[j].runAt
  }

  predicate WhenDue(tasks: seq<Task>, clock: nat -> Time) {
    forall i | 0 <= i < |tasks| :: tasks[i].runAt <= clock(i)
  }

  /** `before` has been split into what was submitted, each task when it was due and earliest first, and
    * what is left in `heap` together with the re-armed tasks. */
  ghost predicate Split(before: Heap, heap: Heap, submitted: seq<Task>, clock: nat -> Time) {
    && before + Rearmed(submitted, clock) == heap + multiset(submitted)
    && InOrder(submitted) && WhenDue(submitted, clock)
  }

  /** One element moves from `heap` to `taken`, and `extra` is added on both sides. */
  lemma {:induction false} MoveOne(left: Heap, heap: Heap, taken: Heap, next: Task, extra: Heap)
    requires left == heap + taken && next in heap
    ensures left + extra == (heap - multiset{next} + extra) + (taken + multiset{next})
  {
  }

  function WorthOf(): Task -> nat {
    (t: Task) => Worth(t)
  }

  /** A task is re-armed once at most, so the loop comes to a wait whatever the clock does. */
  lemma {:induction false} WorthShrinks(heap: Heap, next: Task, now: Time)
    requires next in heap
    ensures Sum(heap - multiset{next} + Again(next, now), WorthOf()) < Sum(heap, WorthOf())
  {
    var rest, again := heap - multiset{next}, Again(next, now);
    SumRemove(heap, next, WorthOf());
    if next.interval > 0 {
      assert again == multiset{Scheduled(now + next.interval, next.fn)};
      SumAdd(rest, Scheduled(now + next.interval, next.fn), WorthOf());
    } else {
      assert rest + again == rest;
    }
  }

  lemma {:induction false} RearmedSnoc(tasks: seq<Task>, clock: nat -> Time, next: Task)
    ensures Rearmed(tasks + [next], clock) == Rearmed(tasks, clock) + Again(next, clock(|tasks|))
  {
    assert (tasks + [next])[..|tasks|] == tasks;
  }

  lemma {:induction false} BalanceOne(before: Heap, heap: Heap, tasks: seq<Task>, rearmed: Heap,
                                      next: Task, again: Heap)
    requires before + rearmed == heap + multiset(tasks) && next in heap
    ensures before + (rearmed + again) == (heap - multiset{next} + again) + multiset(tasks + [next])
  {
    MoveOne(before + rearmed, heap, multiset(tasks), next, again);
    assert before + (rearmed + again) == before + rearmed + again;
    assert multiset(tasks + [next]) == multiset(tasks) + multiset{next};
  }

  lemma {:induction false} OrderOne(tasks: seq<Task>, clock: nat -> Time, next: Task)
    requires InOrder(tasks) && WhenDue(tasks, clock) && next.runAt <= clock(|tasks|)
    requires forall t | t in tasks :: t.runAt <= next.runAt
    ensures InOrder(tasks + [next]) && WhenDue(tasks + [next], clock)
  {
  }

  lemma {:induction false} SplitOne(before: Heap, heap: Heap, submitted: seq<Task>, clock: nat -> Time, next: Task)
    requires Split(before, heap, submitted, clock) && next in heap && next.runAt <= clock(|submitted|)
    requires forall t | t in submitted :: t.runAt <= next.runAt
    ensures Split(before, heap - multiset{next} + Again(next, clock(|submitted|)), submitted + [next], clock)
  {
    OrderOne(submitted, clock, next);
    RearmedSnoc(submitted, clock, next);
    BalanceOne(before, heap, submitted, Rearmed(submitted, clock), next, Again(next, clock(|submitted|)));
  }

  ghost predicate Precede(submitted: seq<Task>, heap: Heap) {
    forall t, u | t in submitted && u in heap :: t.runAt <= u.runAt
  }

  lemma {:induction false} PrecedeOne(submitted: seq<Task>, heap: Heap, next: Task, now: Time)
    requires Precede(submitted, heap) && IsTop(heap, next) && next.runAt <= now
    ensures Precede(submitted + [next], heap - multiset{next} + Again(next, now))
  {
  }

  /** At a clock that stands still every due task of `before` was submitted, as often as it was queued,
    * nothing else was, and only re-armed tasks have come back. */
  ghost predicate Drained(before: Heap, heap: Heap, submitted: seq<Task>, clock: nat -> Time, now: Time) {
    forall t ::
      && multiset(submitted)[t] == (if t.runAt <= now then before[t] else 0)
      && heap[t] == (if t.runAt <= now then 0 else before[t]) + Rearmed(submitted, clock)[t]
  }

  /** How often each task is submitted by a drain that has run to its end, and how often it is left. */
  lemma {:induction false} SplitDone(before: Heap, heap: Heap, submitted: seq<Task>, clock: nat -> Time,
                                     now: Time, t: Task)
    requires Split(before, heap, submitted, clock) && forall u | u in heap :: u.runAt > now
    requires forall i :: clock(i) == now
    ensures multiset(submitted)[t] == if t.runAt <= now then before[t] else 0
    ensures heap[t] == (if t.runAt <= now then 0 else before[t]) + Rearmed(submitted, clock)[t]
  {
    RearmedIsLater(submitted, clock, now);
    assert (before + Rearmed(submitted, clock))[t] == (heap + multiset(submitted))[t];
    assert t in Rearmed(submitted, clock) ==> t.runAt > now;
    assert t in multiset(submitted) <==> t in submitted;
  }

  lemma {:induction false} SplitIsDrained(before: Heap, heap: Heap, submitted: seq<Task>, clock: nat -> Time, now: Time)
    requires Split(before, heap, submitted, clock) && forall u | u in heap :: u.runAt > now
    requires forall i :: clock(i) == now
    ensures Drained(before, heap, submitted, clock, now)
  {
    forall t
      ensures multiset(submitted)[t] == (if t.runAt <= now then before[t] else 0)
      ensures heap[t] == (if t.runAt <= now then 0 else before[t]) + Rearmed(submitted, clock)[t]
    {
      SplitDone(before, heap, submitted, clock, now, t);
    }
  }

  /** The turns that put `t` back: those that submitted a task with a positive interval, which comes back an
    * interval after the clock reading of its turn, with the same function and no interval. */
  function TurnsPuttingBack(submitted: seq<Task>, clock: nat -> Time, t: Task): set<nat> {
    set i: nat | 0 <= i < |submitted| && submitted[i].interval > 0
      && t == Task(clock(i) + submitted[i].interval, submitted[i].fn, 0)
  }

  lemma {:induction false} TurnsPuttingBackMore(submitted: seq<Task>, clock: nat -> Time, t: Task, n: nat)
    requires n == |submitted| - 1
    ensures TurnsPuttingBack(submitted, clock, t) == TurnsPuttingBack(submitted[..n], clock, t)
      + (if t in Again(submitted[n], clock(n)) then {n} else {})
  {
    var before, now := TurnsPuttingBack(submitted[..n], clock, t), TurnsPuttingBack(submitted, clock, t);
    forall i: nat
      ensures i in now <==> i in before || (i == n && t in Again(submitted[n], clock(n)))
    {
      if i < n {
        assert submitted[..n][i] == submitted[i];
      }
    }
  }

  lemma {:induction false} AddTurn(turns: set<nat>, n: nat, back: bool)
    requires n !in turns
    ensures |turns + if back then {n} else {}| == |turns| + if back then 1 else 0
  {
    assert turns + {} == turns;
  }

  /** What is re-armed is exactly that. */
  lemma {:induction false} RearmedExactly(submitted: seq<Task>, clock: nat -> Time, t: Task)
    ensures Rearmed(submitted, clock)[t] == |TurnsPuttingBack(submitted, clock, t)|
  {
    if submitted == [] {
      assert TurnsPuttingBack(submitted, clock, t) == {};
    } else {
      var n := |submitted| - 1;
      RearmedExactly(submitted[..n], clock, t);
      TurnsPuttingBackMore(submitted, clock, t, n);
      AddTurn(TurnsPuttingBack(submitted[..n], clock, t), n, t in Again(submitted[n], clock(n)));
    }
  }

  /** Of every task, what was queued and what was put back is what was submitted and what is left. */
  ghost predicate PutsBackExactly(before: Heap, heap: Heap, submitted: seq<Task>, clock: nat -> Time) {
    forall t :: before[t] + |TurnsPuttingBack(submitted, clock, t)| == heap[t] + multiset(submitted)[t]
  }

  lemma {:induction false} SplitPutsBack(before: Heap, heap: Heap, submitted: seq<Task>, clock: nat -> Time)
    requires Split(before, heap, submitted, clock)
    ensures PutsBackExactly(before, heap, submitted, clock)
  {
    forall t
      ensures before[t] + |TurnsPuttingBack(submitted, clock, t)| == heap[t] + multiset(submitted)[t]
    {
      RearmedExactly(submitted, clock, t);
      assert (before + Rearmed(submitted, clock))[t] == (heap + multiset(submitted))[t];
    }
  }

  class Scheduler {
    var timerQueue: Heap

    constructor ()
      ensures timerQueue == multiset{}
    {
      timerQueue := multiset{};
    }

    method ScheduleAt(runAt: Time, fn: Fn)
      modifies this
      ensures timerQueue == old(timerQueue) + multiset{Task(runAt, fn, 0)}
    {
      timerQueue := timerQueue + multiset{Scheduled(runAt, fn)};
    }

    method ScheduleEvery(interval: int, fn: Fn, now: Time)
      modifies this
      ensures timerQueue == old(timerQueue) + multiset{Task(now + interval, fn, interval)}
    {
      var firstRun := now + interval;
      timerQueue := timerQueue + multiset{Task(firstRun, fn, interval)};
    }

    method Top() returns (t: Task)
      requires timerQueue != multiset{}
      ensures IsTop(timerQueue, t)
    {
      var seen, left := multiset{}, timerQueue;
      t :| t in left;
      while left != multiset{}
        invariant t in timerQueue && left + seen == timerQueue
        invariant forall u | u in seen :: t.runAt <= u.runAt
        decreases |left|
      {
        var u :| u in left;
        left, seen := left - multiset{u}, seen + multiset{u};
        if u.runAt < t.runAt {
          t := u;
        }
      }
    }

    /** One due task: popped, submitted, re-armed if periodic. */
    method RunTask(next: Task, now: Time)
      requires next in timerQueue
      modifies this
      ensures timerQueue == old(timerQueue) - multiset{next} + Again(next, now)
    {
      timerQueue := timerQueue - multiset{next};
      if next.interval > 0 {
        ScheduleAt(now + next.interval, next.fn);
      }
    }

    /** The turns of the timer loop up to its next wait; turn `i` reads the clock as `clock(i)`.  Tasks are
      * submitted when they are due, earliest first, and what is left is not due at the last reading. */
    method ScheduleTimers(clock: nat -> Time) returns (submitted: seq<Task>)
      modifies this
      ensures Split(old(timerQueue), timerQueue, submitted, clock)
      ensures PutsBackExactly(old(timerQueue), timerQueue, submitted, clock)
      ensures forall u | u in timerQueue :: u.runAt > clock(|submitted|)
    {
      submitted := [];
      while timerQueue != multiset{}
        invariant Split(old(timerQueue), timerQueue, submitted, clock) && Precede(submitted, timerQueue)
        decreases Sum(timerQueue, WorthOf())
      {
        var now := clock(|submitted|);
        var next := Top();
        if now < next.runAt {
          break;
        }
        SplitOne(old(timerQueue), timerQueue, submitted, clock, next);
        WorthShrinks(timerQueue, next, now);
        PrecedeOne(submitted, timerQueue, next, now);
        RunTask(next, now);
        submitted := submitted + [next];
      }
      SplitPutsBack(old(timerQueue), timerQueue, submitted, clock);
    }
  }
}
