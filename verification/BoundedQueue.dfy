/** `BoundedThreadsafeQueue`: one mutex, two condition variables, four overflow policies.
  * A step is one critical section; the threads parked on the condition variables are part
  * of the state.  The thread that `notify_one` picks is chosen by the scheduler and is a
  * parameter of the step.
  */
module BoundedQueue {
  import opened Base

  datatype OverflowPolicy = Block | DropNewest | DropOldest | Compact

  /** A thread parked on a condition variable is blocked and not notified, or notified but not
    * yet back in the critical section, or unblocked of its own accord (deadline or spurious). */
  datatype Signal = Waiting | Notified | Awake

  datatype Cond = Cond(signal: map<Tid, Signal>) {
    function Threads(): set<Tid> { signal.Keys }

    function Sleepers(): set<Tid> { set t | t in signal && signal[t].Waiting? }

    function Notified(): set<Tid> { set t | t in signal && signal[t].Notified? }

    predicate CanPick(pick: Tid) { Sleepers() != {} ==> pick in Sleepers() }

    predicate CanResume(t: Tid) { t in signal && !signal[t].Waiting? }

    function Leave(t: Tid): Cond { Cond(signal - {t}) }

    function Wait(t: Tid): Cond { Cond(signal[t := Signal.Waiting]) }

    function Unblock(t: Tid): Cond { Cond(signal[t := Awake]) }

    function NotifyOne(pick: Tid): Cond {
      if Sleepers() == {} then this else Cond(signal[pick := Signal.Notified])
    }

    function NotifyAll(): Cond {
      Cond(map t | t in signal :: if signal[t].Waiting? then Signal.Notified else signal[t])
    }
  }

  const NOBODY := Cond(map[])

  /** `pending` holds the value of every producer parked inside `Push`. */
  datatype State<T> = State(
    maxSize: nat, policy: OverflowPolicy, queue: seq<T>, size: int, stopped: bool,
    dataCond: Cond, spaceCond: Cond, pending: map<Tid, T>)

  /** What a step does for its caller.  `Undefined` is `pop_front` on an empty deque, to which the C++
    * standard gives no meaning: nothing that a run does after it says anything about the code. */
  datatype Outcome<T> = Accepted | Discarded | Sleeping | Got(value: T) | Empty | Undefined

  datatype Event<T> =
    | Push(t: Tid, v: T, pick: Tid)
    | ResumePush(t: Tid, pick: Tid)
    | Pop(t: Tid, blocking: bool, pick: Tid)
    | ResumePop(t: Tid, deadline: bool, pick: Tid)
    | Unblock(t: Tid)
    | Stop

  function Init<T>(maxSize: nat, policy: OverflowPolicy): State<T> {
    State(maxSize, policy, [], 0, false, NOBODY, NOBODY, map[])
  }

  predicate Idle<T>(s: State<T>, t: Tid) {
    t !in s.dataCond.Threads() && t !in s.spaceCond.Threads()
  }

  // ---------------------------------------------------------------- critical sections

  function Drop<T>(q: seq<T>, n: nat): seq<T> {
    if n <= |q| then q[n..] else []
  }

  /** How many elements a push that finds the queue full evicts. */
  function Evicted<T>(s: State<T>): nat {
    if |s.queue| < s.maxSize then 0
    else match s.policy
      case DropOldest => 1
      case Compact => |s.queue| - s.maxSize + 1
      case _ => 0
  }

  /** A push that finds the queue full goes on evicting when there is nothing left to evict. */
  predicate EvictsFromEmpty<T>(s: State<T>) {
    |s.queue| >= s.maxSize && ((s.policy.DropOldest? && s.queue == []) || (s.policy.Compact? && s.maxSize == 0))
  }

  function Enqueue<T>(s: State<T>, v: T, pick: Tid): State<T> {
    s.(queue := Drop(s.queue, Evicted(s)) + [v], size := s.size - Evicted(s) + 1,
       dataCond := s.dataCond.NotifyOne(pick))
  }

  function Dequeue<T>(s: State<T>, pick: Tid): State<T>
    requires s.queue != []
  {
    s.(queue := s.queue[1..], size := s.size - 1, spaceCond := s.spaceCond.NotifyOne(pick))
  }

  function PushStep<T>(s: State<T>, t: Tid, v: T, pick: Tid): (State<T>, Outcome<T>) {
    if s.stopped then (s, Discarded)
    else if |s.queue| >= s.maxSize && s.policy.Block? then
      (s.(spaceCond := s.spaceCond.Wait(t), pending := s.pending[t := v]), Sleeping)
    else if |s.queue| >= s.maxSize && s.policy.DropNewest? then (s, Discarded)
    else if EvictsFromEmpty(s) then (s.(queue := [], size := s.size - |s.queue|), Undefined)
    else (Enqueue(s, v, pick), Accepted)
  }

  /** The part of a blocked `Push` that runs after the wait has returned the mutex. */
  function ResumePushStep<T>(s: State<T>, t: Tid, pick: Tid): (State<T>, Outcome<T>)
    requires t in s.pending
  {
    var gone := s.(spaceCond := s.spaceCond.Leave(t), pending := s.pending - {t});
    if s.stopped then (gone, Discarded)
    else if |s.queue| >= s.maxSize then (s.(spaceCond := s.spaceCond.Wait(t)), Sleeping)
    else (Enqueue(gone, s.pending[t], pick), Accepted)
  }

  function PopStep<T>(s: State<T>, t: Tid, blocking: bool, pick: Tid): (State<T>, Outcome<T>) {
    if s.queue != [] then (Dequeue(s, pick), Got(s.queue[0]))
    else if s.stopped || !blocking then (s, Empty)
    else (s.(dataCond := s.dataCond.Wait(t)), Sleeping)
  }

  function ResumePopStep<T>(s: State<T>, t: Tid, deadline: bool, pick: Tid): (State<T>, Outcome<T>) {
    var gone := s.(dataCond := s.dataCond.Leave(t));
    if s.queue != [] then (Dequeue(gone, pick), Got(s.queue[0]))
    else if s.stopped || deadline then (gone, Empty)
    else (s.(dataCond := s.dataCond.Wait(t)), Sleeping)
  }

  function StopStep<T>(s: State<T>): State<T> {
    s.(stopped := true, dataCond := s.dataCond.NotifyAll(), spaceCond := s.spaceCond.NotifyAll())
  }

  predicate Enabled<T>(s: State<T>, e: Event<T>) {
    match e
    case Push(t, _, pick) => Idle(s, t) && s.dataCond.CanPick(pick)
    case ResumePush(t, pick) => s.spaceCond.CanResume(t) && t in s.pending && s.dataCond.CanPick(pick)
    case Pop(t, _, pick) => Idle(s, t) && s.spaceCond.CanPick(pick)
    case ResumePop(t, _, pick) => s.dataCond.CanResume(t) && s.spaceCond.CanPick(pick)
    case Unblock(t) => t in s.dataCond.Sleepers() || t in s.spaceCond.Sleepers()
    case Stop => true
  }

  function Step<T>(s: State<T>, e: Event<T>): (State<T>, Outcome<T>)
    requires Enabled(s, e)
  {
    match e
    case Push(t, v, pick) => PushStep(s, t, v, pick)
    case ResumePush(t, pick) => ResumePushStep(s, t, pick)
    case Pop(t, blocking, pick) => PopStep(s, t, blocking, pick)
    case ResumePop(t, deadline, pick) => ResumePopStep(s, t, deadline, pick)
    case Unblock(t) =>
      (if t in s.dataCond.Sleepers() then s.(dataCond := s.dataCond.Unblock(t))
       else s.(spaceCond := s.spaceCond.Unblock(t)), Sleeping)
    case Stop => (StopStep(s), Empty)
  }

  // ---------------------------------------------------------------- runs

  predicate IsRun<T>(s: State<T>, es: seq<Event<T>>)
    decreases |es|
  {
    es != [] ==> Enabled(s, es[0]) && IsRun(Step(s, es[0]).0, es[1..])
  }

  function Run<T>(s: State<T>, es: seq<Event<T>>): State<T>
    requires IsRun(s, es)
    decreases |es|
  {
    if es == [] then s else Run(Step(s, es[0]).0, es[1..])
  }

  /** The value a step takes into the queue. */
  function StepIn<T>(s: State<T>, e: Event<T>): seq<T>
    requires Enabled(s, e)
  {
    if !Step(s, e).1.Accepted? then []
    else match e
      case Push(_, v, _) => [v]
      case ResumePush(t, _) => [s.pending[t]]
      case _ => []
  }

  /** The value a step hands to its caller. */
  function StepOut<T>(s: State<T>, e: Event<T>): seq<T>
    requires Enabled(s, e)
  {
    var o := Step(s, e).1;
    if o.Got? then [o.value] else []
  }

  /** The values the queue took in, in order. */
  function AcceptedValues<T>(s: State<T>, es: seq<Event<T>>): seq<T>
    requires IsRun(s, es)
    decreases |es|
  {
    if es == [] then [] else StepIn(s, es[0]) + AcceptedValues(Step(s, es[0]).0, es[1..])
  }

  /** The values callers received, in order. */
  function Delivered<T>(s: State<T>, es: seq<Event<T>>): seq<T>
    requires IsRun(s, es)
    decreases |es|
  {
    if es == [] then [] else StepOut(s, es[0]) + Delivered(Step(s, es[0]).0, es[1..])
  }

  // ---------------------------------------------------------------- what every step keeps

  /** While a thread sleeps un-notified, at least `k` others have been notified. */
  predicate Served(c: Cond, k: int) {
    c.Sleepers() != {} ==> k <= |c.Notified()|
  }

  predicate Bounded<T>(s: State<T>) {
    s.size == |s.queue| <= s.maxSize
  }

  predicate Shape<T>(s: State<T>) {
    && Bounded(s)
    && s.dataCond.Threads() !! s.spaceCond.Threads()
    && s.spaceCond.Threads() == s.pending.Keys
    && (!s.policy.Block? ==> s.spaceCond == NOBODY)
  }

  /** Every element is matched by a notified consumer while an un-notified one sleeps, and
    * every free slot by a notified producer. */
  predicate NoWakeupLost<T>(s: State<T>) {
    Served(s.dataCond, |s.queue|) && Served(s.spaceCond, s.maxSize - |s.queue|)
  }

  predicate Inv<T>(s: State<T>) {
    Shape(s) && (!s.stopped ==> NoWakeupLost(s))
  }

  lemma {:induction false} NotifyOneServes(c: Cond, pick: Tid, k: int)
    requires c.CanPick(pick)
    ensures c.NotifyOne(pick).Threads() == c.Threads()
    ensures Served(c, k) ==> Served(c.NotifyOne(pick), k + 1)
  {
    if c.Sleepers() != {} {
      assert c.NotifyOne(pick).Notified() == c.Notified() + {pick};
    }
  }

  lemma {:induction false} LeaveServes(c: Cond, t: Tid, k: int)
    ensures Served(c, k) ==> Served(c.Leave(t), k - 1)
  {
    assert c.Leave(t).Notified() == c.Notified() - {t};
    assert forall u | u in c.Leave(t).Sleepers() :: u in c.Sleepers();
  }

  lemma {:induction false} UnblockServes(c: Cond, t: Tid, k: int)
    requires t in c.Sleepers()
    ensures c.Unblock(t).Threads() == c.Threads() && (Served(c, k) ==> Served(c.Unblock(t), k))
  {
    assert c.Unblock(t).Notified() == c.Notified();
  }

  lemma {:induction false} EnqueueKeepsInv<T>(s: State<T>, v: T, pick: Tid)
    requires Shape(s) && s.dataCond.CanPick(pick) && Served(s.dataCond, |s.queue|)
    requires |s.queue| < s.maxSize || (s.queue != [] && (s.policy.DropOldest? || s.policy.Compact?))
    requires Served(s.spaceCond, s.maxSize - |s.queue| - 1)
    ensures Shape(Enqueue(s, v, pick)) && NoWakeupLost(Enqueue(s, v, pick))
  {
    NotifyOneServes(s.dataCond, pick, |s.queue|);
  }

  lemma {:induction false} DequeueKeepsInv<T>(s: State<T>, pick: Tid)
    requires Shape(s) && s.spaceCond.CanPick(pick) && s.queue != []
    ensures Shape(Dequeue(s, pick))
    ensures Served(s.spaceCond, s.maxSize - |s.queue|) && Served(s.dataCond, |s.queue| - 1)
      ==> NoWakeupLost(Dequeue(s, pick))
  {
    NotifyOneServes(s.spaceCond, pick, s.maxSize - |s.queue|);
  }

  lemma {:induction false} ParkProducerKeepsInv<T>(s: State<T>, t: Tid, v: T)
    requires Inv(s) && t !in s.dataCond.Threads() && s.policy.Block? && |s.queue| >= s.maxSize
    ensures Inv(s.(spaceCond := s.spaceCond.Wait(t), pending := s.pending[t := v]))
  {
  }

  lemma {:induction false} PushKeepsInv<T>(s: State<T>, t: Tid, v: T, pick: Tid)
    requires Inv(s) && Enabled(s, Push(t, v, pick))
    ensures Inv(PushStep(s, t, v, pick).0)
  {
    var o := PushStep(s, t, v, pick).1;
    if o == Accepted {
      EnqueueKeepsInv(s, v, pick);
    } else if o == Sleeping {
      ParkProducerKeepsInv(s, t, v);
    }
  }

  lemma {:induction false} ResumePushKeepsInv<T>(s: State<T>, t: Tid, pick: Tid)
    requires Inv(s) && Enabled(s, ResumePush(t, pick))
    ensures Inv(ResumePushStep(s, t, pick).0)
  {
    LeaveServes(s.spaceCond, t, s.maxSize - |s.queue|);
    var gone := s.(spaceCond := s.spaceCond.Leave(t), pending := s.pending - {t});
    assert Shape(gone);
    if ResumePushStep(s, t, pick).1 == Accepted {
      EnqueueKeepsInv(gone, s.pending[t], pick);
    }
  }

  lemma {:induction false} PopKeepsInv<T>(s: State<T>, t: Tid, blocking: bool, pick: Tid)
    requires Inv(s) && Enabled(s, Pop(t, blocking, pick))
    ensures Inv(PopStep(s, t, blocking, pick).0)
  {
    if s.queue != [] {
      DequeueKeepsInv(s, pick);
    }
  }

  lemma {:induction false} ResumePopKeepsInv<T>(s: State<T>, t: Tid, deadline: bool, pick: Tid)
    requires Inv(s) && Enabled(s, ResumePop(t, deadline, pick))
    ensures Inv(ResumePopStep(s, t, deadline, pick).0)
  {
    LeaveServes(s.dataCond, t, |s.queue|);
    var gone := s.(dataCond := s.dataCond.Leave(t));
    assert Shape(gone);
    if s.queue != [] {
      DequeueKeepsInv(gone, pick);
    }
  }

  lemma {:induction false} ParkedMoveKeepsInv<T>(s: State<T>, e: Event<T>)
    requires Inv(s) && Enabled(s, e) && (e.Unblock? || e.Stop?)
    ensures Inv(Step(s, e).0)
  {
    if e.Unblock? {
      if e.t in s.dataCond.Sleepers() {
        UnblockServes(s.dataCond, e.t, |s.queue|);
      } else {
        UnblockServes(s.spaceCond, e.t, s.maxSize - |s.queue|);
      }
    }
  }

  lemma {:induction false} StepKeepsInv<T>(s: State<T>, e: Event<T>)
    requires Inv(s) && Enabled(s, e)
    ensures Inv(Step(s, e).0)
  {
    match e
    case Push(t, v, pick) => PushKeepsInv(s, t, v, pick);
    case ResumePush(t, pick) => ResumePushKeepsInv(s, t, pick);
    case Pop(t, blocking, pick) => PopKeepsInv(s, t, blocking, pick);
    case ResumePop(t, deadline, pick) => ResumePopKeepsInv(s, t, deadline, pick);
    case _ => ParkedMoveKeepsInv(s, e);
  }

  lemma {:induction false} StepKeepsConfig<T>(s: State<T>, e: Event<T>)
    requires Enabled(s, e)
    ensures Step(s, e).0.maxSize == s.maxSize && Step(s, e).0.policy == s.policy
    ensures Step(s, e).0.stopped == (s.stopped || e.Stop?)
  {
  }

  lemma {:induction false} RunKeepsInv<T>(s: State<T>, es: seq<Event<T>>)
    requires Inv(s) && IsRun(s, es)
    ensures Inv(Run(s, es))
    ensures Run(s, es).maxSize == s.maxSize && Run(s, es).policy == s.policy
    decreases |es|
  {
    if es != [] {
      StepKeepsInv(s, es[0]);
      StepKeepsConfig(s, es[0]);
      RunKeepsInv(Step(s, es[0]).0, es[1..]);
    }
  }

  // ---------------------------------------------------------------- no lost wake-up, no stuck state

  lemma {:induction false} InitInv<T>(maxSize: nat, policy: OverflowPolicy)
    ensures Inv<T>(Init(maxSize, policy))
  {
  }

  /** In every state reached before `Stop`: with a consumer asleep there are at least as many notified
    * consumers as elements, and the next step of each receives the front element; with a producer
    * asleep there are at least as many notified producers as free slots, and the next step of each is
    * accepted. */
  lemma {:induction false} NoLostWakeup<T>(maxSize: nat, policy: OverflowPolicy, es: seq<Event<T>>)
    requires IsRun(Init(maxSize, policy), es) && !Run(Init(maxSize, policy), es).stopped
    ensures var s := Run(Init(maxSize, policy), es);
      s.queue != [] && s.dataCond.Sleepers() != {} ==>
        |s.queue| <= |s.dataCond.Notified()|
        && forall t, deadline, pick | t in s.dataCond.Notified() && s.spaceCond.CanPick(pick) ::
             Enabled(s, ResumePop(t, deadline, pick))
             && Step(s, ResumePop(t, deadline, pick)).1 == Got(s.queue[0])
    ensures var s := Run(Init(maxSize, policy), es);
      |s.queue| < maxSize && s.spaceCond.Sleepers() != {} ==>
        maxSize - |s.queue| <= |s.spaceCond.Notified()|
        && forall t, pick | t in s.spaceCond.Notified() && s.dataCond.CanPick(pick) ::
             Enabled(s, ResumePush(t, pick)) && Step(s, ResumePush(t, pick)).1 == Accepted
  {
    InitInv<T>(maxSize, policy);
    RunKeepsInv(Init(maxSize, policy), es);
  }

  /** Consumers and producers are all asleep and nobody is on the way to wake them. */
  predicate Stuck<T>(s: State<T>) {
    && s.dataCond.Sleepers() != {} && s.spaceCond.Sleepers() != {}
    && s.dataCond.Notified() == {} && s.spaceCond.Notified() == {}
  }

  lemma {:induction false} NeverStuck<T>(maxSize: nat, policy: OverflowPolicy, es: seq<Event<T>>)
    requires maxSize >= 1 || !policy.Block?
    requires IsRun(Init(maxSize, policy), es) && !Run(Init(maxSize, policy), es).stopped
    ensures !Stuck(Run(Init(maxSize, policy), es))
  {
    InitInv<T>(maxSize, policy);
    RunKeepsInv(Init(maxSize, policy), es);
  }

  /** No run without `Stop` gets stuck. */
  ghost predicate NeverGetsStuck<T(!new)>(s: State<T>) {
    forall es: seq<Event<T>> :: IsRun(s, es) && !Run(s, es).stopped ==> !Stuck(Run(s, es))
  }

  /** A queue is free of stuck states exactly when it does not block or has room for an element. */
  lemma {:induction false} NeverStuckExactlyWithRoom<T(!new)>(maxSize: nat, policy: OverflowPolicy, v: T)
    ensures NeverGetsStuck<T>(Init(maxSize, policy)) <==> !policy.Block? || maxSize >= 1
  {
    var s0: State<T> := Init(maxSize, policy);
    if !policy.Block? || maxSize >= 1 {
      forall es: seq<Event<T>> | IsRun(s0, es) && !Run(s0, es).stopped
        ensures !Stuck(Run(s0, es))
      {
        NeverStuck(maxSize, policy, es);
      }
    } else {
      var e1, e2: Event<T> := Push(0, v, 0), Pop(1, true, 0);
      var s1 := Step(s0, e1).0;
      var s2 := Step(s1, e2).0;
      TwoSteps(s0, e1, e2);
      assert 1 in s2.dataCond.Sleepers() && 0 in s2.spaceCond.Sleepers();
      assert Stuck(s2);
    }
  }

  lemma {:induction false} TwoSteps<T>(s: State<T>, e1: Event<T>, e2: Event<T>)
    requires Enabled(s, e1) && Enabled(Step(s, e1).0, e2)
    ensures IsRun(s, [e1, e2]) && Run(s, [e1, e2]) == Step(Step(s, e1).0, e2).0
  {
    var s1 := Step(s, e1).0;
    var s2 := Step(s1, e2).0;
    assert IsRun(s2, []) && Run(s2, []) == s2;
    assert [e2][1..] == [] && [e1, e2][1..] == [e2];
    assert IsRun(s1, [e2]) && Run(s1, [e2]) == s2;
  }

  // ---------------------------------------------------------------- conservation and order

  /** `part` occurs in `whole`, in order. */
  predicate Subsequence<T(==)>(part: seq<T>, whole: seq<T>)
    decreases |whole|
  {
    if part == [] then true
    else if whole == [] then false
    else (part[0] == whole[0] && Subsequence(part[1..], whole[1..])) || Subsequence(part, whole[1..])
  }

  function StepEvicted<T>(s: State<T>, e: Event<T>): seq<T>
    requires Enabled(s, e) && Bounded(s)
  {
    if StepIn(s, e) != [] then s.queue[..Evicted(s)] else []
  }

  lemma {:induction false} StepConserves<T>(s: State<T>, e: Event<T>)
    requires Enabled(s, e) && Bounded(s)
    ensures s.queue + StepIn(s, e) == StepOut(s, e) + StepEvicted(s, e) + Step(s, e).0.queue
    ensures s.policy.Block? || s.policy.DropNewest? ==> StepEvicted(s, e) == []
  {
    var (s', o) := Step(s, e);
    match e
    case Push(t, v, pick) =>
      assert o == Accepted ==> s'.queue == s.queue[Evicted(s)..] + [v];
    case ResumePush(t, pick) =>
      assert o == Accepted ==> s'.queue == s.queue[Evicted(s)..] + [s.pending[t]];
    case Pop(_, _, _) =>
      assert o.Got? ==> s.queue == [o.value] + s'.queue;
    case ResumePop(_, _, _) =>
      assert o.Got? ==> s.queue == [o.value] + s'.queue;
    case _ =>
  }

  /** Everything that has left the queue, in order: what callers received and what was evicted. */
  function Gone<T>(s: State<T>, es: seq<Event<T>>): seq<T>
    requires IsRun(s, es) && Inv(s)
    decreases |es|
  {
    if es == [] then []
    else
      StepKeepsInv(s, es[0]);
      StepOut(s, es[0]) + StepEvicted(s, es[0]) + Gone(Step(s, es[0]).0, es[1..])
  }

  lemma {:induction false} RunConserves<T>(s: State<T>, es: seq<Event<T>>)
    requires IsRun(s, es) && Inv(s)
    ensures s.queue + AcceptedValues(s, es) == Gone(s, es) + Run(s, es).queue
    decreases |es|
  {
    if es != [] {
      var e, s', rest := es[0], Step(s, es[0]).0, es[1..];
      StepKeepsInv(s, e);
      StepConserves(s, e);
      RunConserves(s', rest);
      RegroupConserved(s.queue, StepIn(s, e), StepOut(s, e) + StepEvicted(s, e), s'.queue,
                       AcceptedValues(s', rest), Gone(s', rest), Run(s', rest).queue);
    }
  }

  lemma {:induction false} RunDelivers<T>(s: State<T>, es: seq<Event<T>>)
    requires IsRun(s, es) && Inv(s)
    ensures Subsequence(Delivered(s, es), Gone(s, es))
    ensures s.policy.Block? || s.policy.DropNewest? ==> Delivered(s, es) == Gone(s, es)
    decreases |es|
  {
    if es != [] {
      var e, s', rest := es[0], Step(s, es[0]).0, es[1..];
      StepKeepsInv(s, e);
      StepKeepsConfig(s, e);
      StepConserves(s, e);
      RunDelivers(s', rest);
      SubsequenceExtends(StepOut(s, e), StepEvicted(s, e), Delivered(s', rest), Gone(s', rest));
    }
  }

  lemma {:induction false} RegroupConserved<T>(q: seq<T>, taken: seq<T>, gone: seq<T>, q': seq<T>,
                                               later: seq<T>, laterGone: seq<T>, last: seq<T>)
    requires q + taken == gone + q' && q' + later == laterGone + last
    ensures q + (taken + later) == (gone + laterGone) + last
  {
    calc {
      q + (taken + later);
      (q + taken) + later;
      gone + (q' + later);
      (gone + laterGone) + last;
    }
  }

  lemma {:induction false} SubsequenceExtends<T>(out: seq<T>, evicted: seq<T>, part: seq<T>, whole: seq<T>)
    requires |out| <= 1 && Subsequence(part, whole)
    ensures Subsequence(out + part, out + evicted + whole)
    ensures evicted == [] && part == whole ==> out + part == out + evicted + whole
  {
    SubsequenceSkip(part, evicted, whole);
    assert out + evicted + whole == out + (evicted + whole);
    if out == [] {
      assert out + part == part && out + (evicted + whole) == evicted + whole;
    } else {
      assert (out + part)[1..] == part && (out + (evicted + whole))[1..] == evicted + whole;
    }
  }

  lemma {:induction false} SubsequenceSkip<T>(part: seq<T>, skipped: seq<T>, whole: seq<T>)
    requires Subsequence(part, whole)
    ensures Subsequence(part, skipped + whole)
    decreases |skipped|
  {
    if skipped == [] {
      assert skipped + whole == whole;
    } else {
      SubsequenceSkip(part, skipped[1..], whole);
      assert (skipped + whole)[1..] == skipped[1..] + whole;
    }
  }

  /** Blocking and rejecting queues are FIFO: what was received followed by what is still
    * queued is what was accepted. */
  lemma {:induction false} FifoConservation<T>(maxSize: nat, policy: OverflowPolicy, es: seq<Event<T>>)
    requires policy.Block? || policy.DropNewest?
    requires IsRun(Init(maxSize, policy), es)
    ensures Delivered(Init(maxSize, policy), es) + Run(Init(maxSize, policy), es).queue
      == AcceptedValues(Init(maxSize, policy), es)
    ensures |Run(Init(maxSize, policy), es).queue| <= maxSize
  {
    var s0 := Init<T>(maxSize, policy);
    InitInv<T>(maxSize, policy);
    RunConserves(s0, es);
    RunDelivers(s0, es);
    RunKeepsInv(s0, es);
    assert s0.queue + AcceptedValues(s0, es) == AcceptedValues(s0, es);
  }

  /** Evicting queues hold the newest accepted values, at most `maxSize` of them, and what
    * was received is an in-order part of the older ones. */
  lemma {:induction false} EvictingConservation<T>(maxSize: nat, policy: OverflowPolicy, es: seq<Event<T>>)
    requires policy.DropOldest? || policy.Compact?
    requires IsRun(Init(maxSize, policy), es)
    ensures var s0 := Init(maxSize, policy);
      var accepted, queue := AcceptedValues(s0, es), Run(s0, es).queue;
      && |queue| <= maxSize && |queue| <= |accepted|
      && queue == accepted[|accepted| - |queue|..]
      && Subsequence(Delivered(s0, es), accepted[..|accepted| - |queue|])
  {
    var s0 := Init<T>(maxSize, policy);
    InitInv<T>(maxSize, policy);
    RunConserves(s0, es);
    RunDelivers(s0, es);
    RunKeepsInv(s0, es);
    var accepted, queue := AcceptedValues(s0, es), Run(s0, es).queue;
    assert s0.queue + accepted == accepted == Gone(s0, es) + queue;
    assert accepted[..|accepted| - |queue|] == Gone(s0, es);
  }

  /** `Compact` and `DropOldest` cannot be told apart: from every state the invariant allows they have
    * the same runs, with the same results. */
  lemma {:induction false} CompactIsDropOldest<T>(s: State<T>, es: seq<Event<T>>)
    requires Inv(s) && s.policy.DropOldest?
    ensures var c := s.(policy := Compact);
      && (IsRun(c, es) <==> IsRun(s, es))
      && (IsRun(s, es) ==>
            Run(c, es) == Run(s, es).(policy := Compact)
            && Delivered(c, es) == Delivered(s, es) && AcceptedValues(c, es) == AcceptedValues(s, es))
    decreases |es|
  {
    var c := s.(policy := Compact);
    if es != [] {
      SameChoices(s, es[0]);
      if Enabled(s, es[0]) {
        StepKeepsInv(s, es[0]);
        StepKeepsConfig(s, es[0]);
        CompactStepIsDropOldestStep(s, es[0]);
        CompactIsDropOldest(Step(s, es[0]).0, es[1..]);
      }
    }
  }

  lemma {:induction false} SameChoices<T>(s: State<T>, e: Event<T>)
    ensures Enabled(s.(policy := Compact), e) <==> Enabled(s, e)
  {
  }

  lemma {:induction false} CompactStepIsDropOldestStep<T>(s: State<T>, e: Event<T>)
    requires Bounded(s) && s.policy.DropOldest? && Enabled(s, e)
    ensures var c := s.(policy := Compact);
      Enabled(c, e) && Step(c, e) == (Step(s, e).0.(policy := Compact), Step(s, e).1)
      && StepIn(c, e) == StepIn(s, e) && StepOut(c, e) == StepOut(s, e)
  {
  }

  /** Some run comes to `pop_front` on an empty deque. */
  ghost predicate ComesToUndefined<T(!new)>(s: State<T>) {
    exists es: seq<Event<T>>, e :: IsRun(s, es) && Enabled(Run(s, es), e) && Step(Run(s, es), e).1.Undefined?
  }

  lemma {:induction false} UndefinedNeedsNoRoom<T>(maxSize: nat, policy: OverflowPolicy, es: seq<Event<T>>, e: Event<T>)
    requires IsRun(Init(maxSize, policy), es) && Enabled(Run(Init(maxSize, policy), es), e)
    requires Step(Run(Init(maxSize, policy), es), e).1.Undefined?
    ensures (policy.DropOldest? || policy.Compact?) && maxSize == 0
  {
    InitInv<T>(maxSize, policy);
    RunKeepsInv(Init(maxSize, policy), es);
  }

  /** A push can evict from an empty queue if and only if the policy evicts and the capacity is 0. */
  lemma {:induction false} UndefinedExactlyWithoutRoom<T(!new)>(maxSize: nat, policy: OverflowPolicy, v: T)
    ensures ComesToUndefined<T>(Init(maxSize, policy)) <==> (policy.DropOldest? || policy.Compact?) && maxSize == 0
  {
    var s0: State<T> := Init(maxSize, policy);
    if (policy.DropOldest? || policy.Compact?) && maxSize == 0 {
      var push: Event<T> := Push(0, v, 0);
      assert IsRun(s0, []) && Run(s0, []) == s0;
      assert Enabled(s0, push) && Step(s0, push).1.Undefined?;
    } else {
      forall es: seq<Event<T>>, e | IsRun(s0, es) && Enabled(Run(s0, es), e)
        ensures !Step(Run(s0, es), e).1.Undefined?
      {
        if Step(Run(s0, es), e).1.Undefined? {
          UndefinedNeedsNoRoom(maxSize, policy, es, e);
        }
      }
    }
  }

  // ---------------------------------------------------------------- the queue object

  class BoundedThreadsafeQueue<T> {
    const maxSize: nat
    const policy: OverflowPolicy
    var queue: seq<T>
    var size: int
    var stopped: bool
    var dataCond: Cond
    var spaceCond: Cond
    var pending: map<Tid, T>

    ghost function Snap(): State<T>
      reads this
    {
      State(maxSize, policy, queue, size, stopped, dataCond, spaceCond, pending)
    }

    constructor (maxSize: nat, policy: OverflowPolicy)
      ensures Snap() == Init(maxSize, policy)
    {
      this.maxSize := maxSize;
      this.policy := policy;
      queue, size, stopped := [], 0, false;
      dataCond, spaceCond, pending := NOBODY, NOBODY, map[];
    }

    /** The loop of `Compact`; with a capacity of 0 it comes to `pop_front` on an empty deque. */
    method MakeRoom() returns (fits: bool)
      requires |queue| >= maxSize
      modifies this`queue, this`size
      ensures fits <==> maxSize > 0
      ensures if fits then queue == old(queue)[|old(queue)| - maxSize + 1..] else queue == []
      ensures size == old(size) - (|old(queue)| - |queue|)
    {
      var i := 0;
      while |queue| >= maxSize
        invariant i <= |old(queue)| && queue == old(queue)[i..] && size == old(size) - i
        invariant maxSize > 0 ==> i <= |old(queue)| - maxSize + 1
        decreases |queue|
      {
        if queue == [] {
          return false;
        }
        queue := queue[1..];
        size := size - 1;
        i := i + 1;
      }
      return true;
    }

    /** `Push`, up to the wait of a blocked producer. */
    method DoPush(t: Tid, v: T, pick: Tid) returns (o: Outcome<T>)
      requires Enabled(Snap(), Push(t, v, pick))
      modifies this
      ensures (Snap(), o) == Step(old(Snap()), Push(t, v, pick))
    {
      if stopped {
        return Discarded;
      }
      if |queue| >= maxSize {
        match policy
        case Block =>
          spaceCond := spaceCond.Wait(t);
          pending := pending[t := v];
          return Sleeping;
        case DropNewest =>
          return Discarded;
        case DropOldest =>
          if queue == [] {
            return Undefined;
          }
          queue := queue[1..];
          size := size - 1;
        case Compact =>
          var fits := MakeRoom();
          if !fits {
            return Undefined;
          }
      }
      queue := queue + [v];
      size := size + 1;
      dataCond := dataCond.NotifyOne(pick);
      return Accepted;
    }

    /** `Push` of a blocked producer that has the mutex again. */
    method FinishPush(t: Tid, pick: Tid) returns (o: Outcome<T>)
      requires Enabled(Snap(), ResumePush(t, pick))
      modifies this
      ensures (Snap(), o) == Step(old(Snap()), ResumePush(t, pick))
    {
      if !stopped && |queue| >= maxSize {
        spaceCond := spaceCond.Wait(t);
        return Sleeping;
      }
      var v := pending[t];
      spaceCond := spaceCond.Leave(t);
      pending := pending - {t};
      if stopped {
        return Discarded;
      }
      queue := queue + [v];
      size := size + 1;
      dataCond := dataCond.NotifyOne(pick);
      return Accepted;
    }

    /** `WaitAndPop` up to its wait, and `TryPop`. */
    method DoPop(t: Tid, blocking: bool, pick: Tid) returns (o: Outcome<T>)
      requires Enabled(Snap(), Pop(t, blocking, pick))
      modifies this
      ensures (Snap(), o) == Step(old(Snap()), Pop(t, blocking, pick))
    {
      if queue == [] {
        if stopped || !blocking {
          return Empty;
        }
        dataCond := dataCond.Wait(t);
        return Sleeping;
      }
      o := Got(queue[0]);
      queue := queue[1..];
      size := size - 1;
      spaceCond := spaceCond.NotifyOne(pick);
    }

    /** `WaitAndPop` of a parked consumer that has the mutex again. */
    method FinishPop(t: Tid, deadline: bool, pick: Tid) returns (o: Outcome<T>)
      requires Enabled(Snap(), ResumePop(t, deadline, pick))
      modifies this
      ensures (Snap(), o) == Step(old(Snap()), ResumePop(t, deadline, pick))
    {
      if !stopped && queue == [] && !deadline {
        dataCond := dataCond.Wait(t);
        return Sleeping;
      }
      dataCond := dataCond.Leave(t);
      if queue == [] {
        return Empty;
      }
      o := Got(queue[0]);
      queue := queue[1..];
      size := size - 1;
      spaceCond := spaceCond.NotifyOne(pick);
    }

    method DoStop()
      modifies this
      ensures Snap() == Step(old(Snap()), Stop).0
    {
      stopped := true;
      dataCond := dataCond.NotifyAll();
      spaceCond := spaceCond.NotifyAll();
    }
  }
}
