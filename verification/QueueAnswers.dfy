/** What every call on the queue answers, read off the calls made before it. */
module QueueAnswers {
  import opened Base
  import opened BoundedQueue

  /** `Stop` has been called. */
  predicate HasStopped<T(==)>(es: seq<Event<T>>) {
    Event<T>.Stop in es
  }

  lemma {:induction false} StoppedExactly<T>(s: State<T>, es: seq<Event<T>>)
    requires IsRun(s, es)
    ensures Run(s, es).stopped <==> s.stopped || HasStopped(es)
    decreases |es|
  {
    if es != [] {
      StoppedExactly(Step(s, es[0]).0, es[1..]);
      assert HasStopped(es) <==> es[0] == Event<T>.Stop || HasStopped(es[1..]);
    }
  }

  lemma {:induction false} ConfigStays<T>(s: State<T>, es: seq<Event<T>>)
    requires IsRun(s, es)
    ensures Run(s, es).maxSize == s.maxSize && Run(s, es).policy == s.policy
    decreases |es|
  {
    if es != [] {
      StepKeepsConfig(s, es[0]);
      ConfigStays(Step(s, es[0]).0, es[1..]);
    }
  }

  /** The queue holds the newest values it has taken in, whatever the policy. */
  lemma {:induction false} HoldsNewest<T>(maxSize: nat, policy: OverflowPolicy, es: seq<Event<T>>)
    requires IsRun(Init(maxSize, policy), es)
    ensures var queue, accepted := Run(Init(maxSize, policy), es).queue, AcceptedValues(Init(maxSize, policy), es);
      |queue| <= |accepted| && queue == accepted[|accepted| - |queue|..]
  {
    if policy.Block? || policy.DropNewest? {
      FifoConservation(maxSize, policy, es);
    } else {
      EvictingConservation(maxSize, policy, es);
    }
  }

  /** Whoever is not waiting can call, and whoever has been woken can go on. */
  lemma {:induction false} CallsAreEnabled<T>(s: State<T>, t: Tid, v: T, blocking: bool, deadline: bool)
    ensures t !in s.dataCond.Threads() && t !in s.spaceCond.Threads() ==>
      (exists pick :: Enabled(s, Push(t, v, pick))) && (exists pick :: Enabled(s, Pop(t, blocking, pick)))
    ensures s.dataCond.CanResume(t) ==> exists pick :: Enabled(s, ResumePop(t, deadline, pick))
    ensures s.spaceCond.CanResume(t) && t in s.pending ==> exists pick :: Enabled(s, ResumePush(t, pick))
  {
    var p, q := SomePick(s.dataCond), SomePick(s.spaceCond);
    if t !in s.dataCond.Threads() && t !in s.spaceCond.Threads() {
      assert Enabled(s, Push(t, v, p)) && Enabled(s, Pop(t, blocking, q));
    }
    if s.dataCond.CanResume(t) {
      assert Enabled(s, ResumePop(t, deadline, q));
    }
    if s.spaceCond.CanResume(t) && t in s.pending {
      assert Enabled(s, ResumePush(t, p));
    }
  }

  ghost function SomePick(c: Cond): (pick: Tid)
    ensures c.CanPick(pick)
  {
    if c.Sleepers() == {} then 0 else var t :| t in c.Sleepers(); t
  }

  // ---------------------------------------------------------------- taking out

  /** The answer of a pop that finds `queue`, with `accepted` taken in so far. */
  predicate PopAnswer<T(==)>(s: State<T>, accepted: seq<T>, o: Outcome<T>, waits: bool) {
    && |s.queue| <= |accepted|
    && if s.queue != [] then o == Got(accepted[|accepted| - |s.queue|])
       else if waits then o == Sleeping else o == Empty
  }

  /** `WaitAndPop` and `TryPop`: the oldest value in the queue if there is one, stopped or not; with none
    * a call that may wait goes to sleep unless the queue has been stopped, and `TryPop` returns empty. */
  lemma {:induction false} PopAnswers<T>(maxSize: nat, policy: OverflowPolicy, es: seq<Event<T>>, t: Tid,
                                         blocking: bool, pick: Tid)
    requires IsRun(Init(maxSize, policy), es)
    requires Enabled(Run(Init(maxSize, policy), es), Pop(t, blocking, pick))
    ensures var s := Run(Init(maxSize, policy), es);
      var (s', o) := Step(s, Pop(t, blocking, pick));
      && PopAnswer(s, AcceptedValues(Init(maxSize, policy), es), o, blocking && !HasStopped(es))
      && s'.queue == (if s.queue == [] then [] else s.queue[1..])
      && (t in s'.dataCond.Sleepers() <==> s.queue == [] && blocking && !HasStopped(es))
  {
    HoldsNewest(maxSize, policy, es);
    StoppedExactly(Init(maxSize, policy), es);
  }

  /** The same for a pop that comes back from its wait: it sleeps on only if there is nothing, the queue
    * has not been stopped and its deadline has not passed. */
  lemma {:induction false} ResumePopAnswers<T>(maxSize: nat, policy: OverflowPolicy, es: seq<Event<T>>, t: Tid,
                                               deadline: bool, pick: Tid)
    requires IsRun(Init(maxSize, policy), es)
    requires Enabled(Run(Init(maxSize, policy), es), ResumePop(t, deadline, pick))
    ensures var s := Run(Init(maxSize, policy), es);
      var (s', o) := Step(s, ResumePop(t, deadline, pick));
      && PopAnswer(s, AcceptedValues(Init(maxSize, policy), es), o, !deadline && !HasStopped(es))
      && s'.queue == (if s.queue == [] then [] else s.queue[1..])
      && (t in s'.dataCond.Threads() <==> s.queue == [] && !deadline && !HasStopped(es))
  {
    HoldsNewest(maxSize, policy, es);
    StoppedExactly(Init(maxSize, policy), es);
  }

  // ---------------------------------------------------------------- putting in

  /** `Push`: refused once stopped; with room the value goes to the back; without, the policy decides
    * between waiting, refusing, and pushing the oldest value out, for which there must be one. */
  lemma {:induction false} PushAnswers<T>(maxSize: nat, policy: OverflowPolicy, es: seq<Event<T>>, t: Tid, v: T,
                                          pick: Tid)
    requires IsRun(Init(maxSize, policy), es) && Enabled(Run(Init(maxSize, policy), es), Push(t, v, pick))
    ensures var queue := Run(Init(maxSize, policy), es).queue;
      var (s', o) := Step(Run(Init(maxSize, policy), es), Push(t, v, pick));
      && |queue| <= maxSize
      && o == (if HasStopped(es) then Discarded
               else if |queue| < maxSize then Accepted
               else match policy
                 case Block => Sleeping
                 case DropNewest => Discarded
                 case _ => if maxSize == 0 then Undefined else Accepted)
      && s'.queue == (if !o.Accepted? then queue else if |queue| < maxSize then queue + [v] else queue[1..] + [v])
      && (t in s'.spaceCond.Sleepers() <==> o.Sleeping?)
  {
    InitInv<T>(maxSize, policy);
    RunKeepsInv(Init(maxSize, policy), es);
    ConfigStays(Init(maxSize, policy), es);
    StoppedExactly(Init(maxSize, policy), es);
  }

  /** The value of the last push thread `t` has called. */
  function LastPush<T>(es: seq<Event<T>>, t: Tid): Option<T> {
    if es == [] then None
    else
      var later := LastPush(es[1..], t);
      if later.Some? then later
      else if es[0].Push? && es[0].t == t then Some(es[0].v) else None
  }

  lemma {:induction false} PendingStep<T>(s: State<T>, e: Event<T>, t: Tid)
    requires Inv(s) && Enabled(s, e) && t in Step(s, e).0.pending
    ensures if e.Push? && e.t == t then Step(s, e).0.pending[t] == e.v
      else t in s.pending && Step(s, e).0.pending[t] == s.pending[t]
  {
  }

  lemma {:induction false} PendingIsLastPush<T>(s: State<T>, es: seq<Event<T>>, t: Tid)
    requires Inv(s) && IsRun(s, es) && t in Run(s, es).pending
    ensures match LastPush(es, t)
      case Some(v) => Run(s, es).pending[t] == v
      case None => t in s.pending && Run(s, es).pending[t] == s.pending[t]
    decreases |es|
  {
    if es != [] {
      StepKeepsInv(s, es[0]);
      PendingIsLastPush(Step(s, es[0]).0, es[1..], t);
      if LastPush(es[1..], t).None? {
        PendingStep(s, es[0], t);
      }
    }
  }

  /** A push that comes back from its wait: refused if the queue has been stopped; with room the value its
    * thread called `Push` with goes to the back; otherwise it sleeps on. */
  lemma {:induction false} ResumePushAnswers<T>(maxSize: nat, policy: OverflowPolicy, es: seq<Event<T>>, t: Tid,
                                                pick: Tid)
    requires IsRun(Init(maxSize, policy), es) && Enabled(Run(Init(maxSize, policy), es), ResumePush(t, pick))
    ensures var queue := Run(Init(maxSize, policy), es).queue;
      var (s', o) := Step(Run(Init(maxSize, policy), es), ResumePush(t, pick));
      && LastPush(es, t).Some? && |queue| <= maxSize
      && o == (if HasStopped(es) then Discarded else if |queue| < maxSize then Accepted else Sleeping)
      && s'.queue == (if o.Accepted? then queue + [LastPush(es, t).value] else queue)
      && (t in s'.spaceCond.Threads() <==> o.Sleeping?)
  {
    InitInv<T>(maxSize, policy);
    RunKeepsInv(Init(maxSize, policy), es);
    ConfigStays(Init(maxSize, policy), es);
    StoppedExactly(Init(maxSize, policy), es);
    PendingIsLastPush(Init(maxSize, policy), es, t);
  }

  // ---------------------------------------------------------------- after Stop

  predicate NobodyAsleep<T>(s: State<T>) {
    s.stopped ==> s.dataCond.Sleepers() == {} && s.spaceCond.Sleepers() == {}
  }

  lemma {:induction false} StepWakes<T>(s: State<T>, e: Event<T>)
    requires NobodyAsleep(s) && Enabled(s, e)
    ensures NobodyAsleep(Step(s, e).0)
  {
  }

  lemma {:induction false} RunWakes<T>(s: State<T>, es: seq<Event<T>>)
    requires NobodyAsleep(s) && IsRun(s, es)
    ensures NobodyAsleep(Run(s, es))
    decreases |es|
  {
    if es != [] {
      StepWakes(s, es[0]);
      RunWakes(Step(s, es[0]).0, es[1..]);
    }
  }

  /** `Stop` wakes everybody, and from then on nobody goes to sleep again. */
  lemma {:induction false} NobodySleepsAfterStop<T>(maxSize: nat, policy: OverflowPolicy, es: seq<Event<T>>)
    requires IsRun(Init(maxSize, policy), es) && HasStopped(es)
    ensures Run(Init(maxSize, policy), es).dataCond.Sleepers() == {}
    ensures Run(Init(maxSize, policy), es).spaceCond.Sleepers() == {}
  {
    StoppedExactly(Init(maxSize, policy), es);
    RunWakes(Init(maxSize, policy), es);
  }
}
