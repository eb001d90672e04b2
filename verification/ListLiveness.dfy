/** Every call on the lock-coupled list ends: with no new calls, every schedule is finite, and by
  * `NeverDeadlocked` it can only stop when all calls have returned.
  */
module ListLiveness {
  import opened Base
  import opened Chain
  import opened LockedList
  import opened ListRuns
  import opened ListTheorems

  // ---------------------------------------------------------------- sums over threads

  ghost function Total(work: map<Tid, nat>): nat
    decreases |work|
  {
    if work == map[] then 0 else var t :| t in work; work[t] + Total(work - {t})
  }

  lemma {:induction false} TotalRemove(work: map<Tid, nat>, t: Tid)
    requires t in work
    ensures Total(work) == work[t] + Total(work - {t})
    decreases |work|
  {
    var u :| u in work && Total(work) == work[u] + Total(work - {u});
    if u != t {
      TotalRemove(work - {u}, t);
      TotalRemove(work - {t}, u);
      assert work - {u} - {t} == work - {t} - {u};
    }
  }

  lemma {:induction false} TotalMonotone(a: map<Tid, nat>, b: map<Tid, nat>)
    requires a.Keys == b.Keys && forall t | t in a :: a[t] <= b[t]
    ensures Total(a) <= Total(b)
    decreases |a|
  {
    if a != map[] {
      var t :| t in a;
      TotalRemove(a, t);
      TotalRemove(b, t);
      TotalMonotone(a - {t}, b - {t});
    }
  }

  lemma {:induction false} TotalShrinks(a: map<Tid, nat>, b: map<Tid, nat>, t: Tid)
    requires t in b && b.Keys - {t} <= a.Keys <= b.Keys
    requires forall u | u in a && u != t :: a[u] <= b[u]
    requires if t in a then a[t] < b[t] else b[t] > 0
    ensures Total(a) < Total(b)
  {
    TotalRemove(b, t);
    if t in a {
      TotalRemove(a, t);
    }
    assert t !in a ==> a - {t} == a;
    TotalMonotone(a - {t}, b - {t});
  }

  // ---------------------------------------------------------------- work left

  /** The calls of `push_front` that have not linked their node yet. */
  function Linking<T>(s: State<T>): set<Tid> {
    set t | t in s.threads && s.threads[t].op.Push? && (s.threads[t].WantHead? || s.threads[t].PushReady?)
  }

  /** The length the chain can still reach. */
  function Span<T>(s: State<T>, h: History): nat {
    |h.chain| + |Linking(s)|
  }

  function Rank<T>(pc: Pc<T>): nat {
    match pc
    case WantHead(_) => 6
    case PushReady(_) => 5
    case AtNode(_, _) => 4
    case WantNext(_, _, _) => 3
    case HasBoth(_, _, _) => 2
    case Visiting(_, _) => 5
    case Unlinked(_, _, _) => 7
    case Unlocked(_, _, _) => 6
    case Finishing(_, _, _) => 1
  }

  /** A bound on the steps a thread has left: six for each node it can still come to. */
  function StepsFrom<T>(span: nat, chain: seq<Id>, pc: Pc<T>): nat
    requires |chain| <= span
  {
    PosBound(chain, RearNode(pc));
    6 * (span - Pos(chain, RearNode(pc))) + Rank(pc)
  }

  lemma {:induction false} PosBound(chain: seq<Id>, n: Id)
    ensures Pos(chain, n) <= |chain|
  {
  }

  function Work<T>(s: State<T>, h: History): map<Tid, nat> {
    map t | t in s.threads :: StepsFrom(Span(s, h), h.chain, s.threads[t])
  }

  lemma {:induction false} LinkingAfter<T>(s: State<T>, t: Tid)
    requires Ready(s, Go(t)) && Safe(s, Go(t)) && (s.threads[t].PushReady? ==> s.threads[t].op.Push?)
    ensures var was, now := Linking(s), Linking(Step(s, Go(t)));
      if s.threads[t].PushReady? then t in was && now == was - {t} else now == was
  {
    var was, now := Linking(s), Linking(Step(s, Go(t)));
    forall u | u != t
      ensures u in was <==> u in now
    {
      OthersStay(s, Go(t), u);
    }
  }

  /** Whether the step takes a node out of the chain. */
  predicate Cuts<T>(s: State<T>, t: Tid)
    requires Ready(s, Go(t)) && Safe(s, Go(t))
  {
    s.threads[t].HasBoth? && !IsQuiet(s, Go(t))
  }

  lemma {:induction false} SpanAfter<T>(s: State<T>, h: History, t: Tid)
    requires HeapInv(s, h.chain) && Ready(s, Go(t)) && Safe(s, Go(t))
    ensures Span(Step(s, Go(t)), Remember(s, h, Go(t))) == Span(s, h) - (if Cuts(s, t) then 1 else 0)
  {
    assert PcOk(s, h.chain, s.threads[t]);
    LinkingAfter(s, t);
    ChainEffect(s, h, Go(t));
  }

  // ---------------------------------------------------------------- a step uses up work

  lemma {:induction false} OtherHasNoMore<T>(s: State<T>, h: History, t: Tid, u: Tid)
    requires HeapInv(s, h.chain) && Ready(s, Go(t)) && Safe(s, Go(t)) && u in s.threads && u != t
    ensures SamePc(s, Step(s, Go(t)), u)
    ensures var pc, chain, chain' := s.threads[u], h.chain, Remember(s, h, Go(t)).chain;
      Pos(chain', RearNode(pc)) >= Pos(chain, RearNode(pc)) - (if Cuts(s, t) then 1 else 0)
  {
    OthersStay(s, Go(t), u);
    ChainEffect(s, h, Go(t));
    var pc := s.threads[u];
    if pc.WantHead? {
      assert h.chain[0] == HEAD;
    } else {
      Stands(s, h.chain, u);
      if s.threads[t].PushReady? {
        InsertPos(h.chain, s.unused, RearNode(pc));
      } else if Cuts(s, t) {
        CutPos(h.chain, Pos(h.chain, s.threads[t].nxt), RearNode(pc));
      }
    }
  }

  lemma {:induction false} SameNode<T>(s: State<T>, t: Tid)
    requires Ready(s, Go(t)) && Safe(s, Go(t)) && t in Step(s, Go(t)).threads
    requires !s.threads[t].HasBoth? && (s.threads[t].PushReady? ==> s.threads[t].op.Push?)
    ensures var pc, pc' := s.threads[t], Step(s, Go(t)).threads[t];
      RearNode(pc') == RearNode(pc) && Rank(pc') < Rank(pc)
  {
    match s.threads[t]
    case WantHead(op) => assert Step(s, Go(t)).threads[t] == if op.Push? then PushReady(op) else AtNode(op, HEAD);
    case _ =>
  }

  /** A thread that does not hold two mutexes stays at its node and is one step further. */
  lemma {:induction false} SelfStaysPut<T>(s: State<T>, h: History, t: Tid)
    requires HeapInv(s, h.chain) && Ready(s, Go(t)) && Safe(s, Go(t)) && t in Step(s, Go(t)).threads
    requires !s.threads[t].HasBoth?
    ensures var pc, pc', chain, chain' := s.threads[t], Step(s, Go(t)).threads[t], h.chain, Remember(s, h, Go(t)).chain;
      Pos(chain', RearNode(pc')) == Pos(chain, RearNode(pc)) && Rank(pc') < Rank(pc)
  {
    assert PcOk(s, h.chain, s.threads[t]);
    SameNode(s, t);
    ChainEffect(s, h, Go(t));
    if s.threads[t].PushReady? {
      assert Remember(s, h, Go(t)).chain[0] == h.chain[0] == HEAD;
    }
  }

  lemma {:induction false} NextNode<T>(s: State<T>, t: Tid, op: Op<T>, cur: Id, nxt: Id)
    requires Ready(s, Go(t)) && Safe(s, Go(t)) && s.threads[t] == HasBoth(op, cur, nxt)
    ensures t in Step(s, Go(t)).threads
    ensures var pc' := Step(s, Go(t)).threads[t];
      if Cuts(s, t) then pc' == Unlinked(op, cur, nxt) else pc' == Visiting(op, nxt) || pc' == AtNode(op, nxt)
  {
  }

  lemma {:induction false} ChainWithBoth<T>(s: State<T>, h: History, t: Tid, op: Op<T>, cur: Id, nxt: Id)
    requires HeapInv(s, h.chain) && Ready(s, Go(t)) && Safe(s, Go(t)) && s.threads[t] == HasBoth(op, cur, nxt)
    ensures Pos(h.chain, nxt) == Pos(h.chain, cur) + 1 < |h.chain|
    ensures var chain' := Remember(s, h, Go(t)).chain;
      if Cuts(s, t) then Pos(chain', cur) == Pos(h.chain, cur) else chain' == h.chain
  {
    assert PcOk(s, h.chain, s.threads[t]);
    NextIsLinked(s, h.chain, cur, nxt);
    ChainEffect(s, h, Go(t));
    if Cuts(s, t) {
      CutPos(h.chain, Pos(h.chain, nxt), cur);
    }
  }

  lemma {:induction false} PassOrCut<T>(cuts: bool, op: Op<T>, cur: Id, nxt: Id, pc': Pc<T>, chain: seq<Id>,
                                        chain': seq<Id>)
    requires Pos(chain, nxt) == Pos(chain, cur) + 1
    requires if cuts then pc' == Unlinked(op, cur, nxt) else pc' == Visiting(op, nxt) || pc' == AtNode(op, nxt)
    requires if cuts then Pos(chain', cur) == Pos(chain, cur) else chain' == chain
    ensures if cuts then Rank(pc') == 7 && Pos(chain', RearNode(pc')) == Pos(chain, cur)
      else Rank(pc') <= 5 && Pos(chain', RearNode(pc')) == Pos(chain, cur) + 1
  {
  }

  /** With both mutexes a thread gets past a node, or takes it out of the chain. */
  lemma {:induction false} SelfPassesNode<T>(s: State<T>, h: History, t: Tid, op: Op<T>, cur: Id, nxt: Id)
    requires HeapInv(s, h.chain) && Ready(s, Go(t)) && Safe(s, Go(t)) && s.threads[t] == HasBoth(op, cur, nxt)
    ensures t in Step(s, Go(t)).threads
    ensures var pc', chain' := Step(s, Go(t)).threads[t], Remember(s, h, Go(t)).chain;
      if Cuts(s, t) then Rank(pc') == 7 && Pos(chain', RearNode(pc')) == Pos(h.chain, cur)
      else Rank(pc') <= 5 && Pos(chain', RearNode(pc')) == Pos(h.chain, cur) + 1
  {
    NextNode(s, t, op, cur, nxt);
    ChainWithBoth(s, h, t, op, cur, nxt);
    PassOrCut(Cuts(s, t), op, cur, nxt, Step(s, Go(t)).threads[t], h.chain, Remember(s, h, Go(t)).chain);
  }

  lemma {:induction false} SelfIsCloser<T>(s: State<T>, h: History, t: Tid)
    requires HeapInv(s, h.chain) && Ready(s, Go(t)) && Safe(s, Go(t)) && t in Step(s, Go(t)).threads
    ensures var pc, pc', chain, chain' := s.threads[t], Step(s, Go(t)).threads[t], h.chain, Remember(s, h, Go(t)).chain;
      6 * (if Cuts(s, t) then 1 else 0) + 6 * (Pos(chain', RearNode(pc')) - Pos(chain, RearNode(pc))) + Rank(pc)
        > Rank(pc')
  {
    match s.threads[t]
    case HasBoth(op, cur, nxt) => SelfPassesNode(s, h, t, op, cur, nxt);
    case _ => SelfStaysPut(s, h, t);
  }

  lemma {:induction false} OtherStepsFrom<T>(s: State<T>, h: History, t: Tid, u: Tid)
    requires HeapInv(s, h.chain) && Ready(s, Go(t)) && Safe(s, Go(t)) && u in s.threads && u != t
    ensures u in Step(s, Go(t)).threads && Work(Step(s, Go(t)), Remember(s, h, Go(t)))[u] <= Work(s, h)[u]
  {
    SpanAfter(s, h, t);
    OtherHasNoMore(s, h, t, u);
  }

  lemma {:induction false} SelfStepsFrom<T>(s: State<T>, h: History, t: Tid)
    requires HeapInv(s, h.chain) && Ready(s, Go(t)) && Safe(s, Go(t)) && t in Step(s, Go(t)).threads
    ensures Work(Step(s, Go(t)), Remember(s, h, Go(t)))[t] < Work(s, h)[t]
  {
    SpanAfter(s, h, t);
    SelfIsCloser(s, h, t);
  }

  lemma {:induction false} NobodyArrives<T>(s: State<T>, t: Tid)
    requires Ready(s, Go(t)) && Safe(s, Go(t))
    ensures Step(s, Go(t)).threads.Keys <= s.threads.Keys
  {
  }

  lemma {:induction false} StepUsesWork<T>(s: State<T>, h: History, t: Tid)
    requires HeapInv(s, h.chain) && Ready(s, Go(t)) && Safe(s, Go(t))
    ensures Total(Work(Step(s, Go(t)), Remember(s, h, Go(t)))) < Total(Work(s, h))
  {
    var a, b := Work(Step(s, Go(t)), Remember(s, h, Go(t))), Work(s, h);
    NobodyArrives(s, t);
    forall u | u in s.threads && u != t
      ensures u in a && a[u] <= b[u]
    {
      OtherStepsFrom(s, h, t, u);
    }
    if t in a {
      SelfStepsFrom(s, h, t);
    }
    TotalShrinks(a, b, t);
  }

  lemma {:induction false} ConfigUsesWork<T>(cs: seq<Config<T>>, es: seq<Event<T>>, i: nat)
    requires IsRun(cs, es) && i < |es| && es[i].Go?
    ensures Total(Work(cs[i + 1].s, cs[i + 1].h)) < Total(Work(cs[i].s, cs[i].h))
  {
    RunStep(cs, es, i);
    StepUsesWork(cs[i].s, cs[i].h, es[i].t);
  }

  /** From any moment of any run on, if no further call begins, at most so many steps follow, whatever
    * the schedule. */
  lemma {:induction false} EveryCallEnds<T>(cs: seq<Config<T>>, es: seq<Event<T>>, i: nat)
    requires IsRun(cs, es) && i <= |es| && forall k | i <= k < |es| :: es[k].Go?
    ensures |es| - i <= Total(Work(cs[i].s, cs[i].h))
    decreases |es| - i
  {
    if i < |es| {
      EveryCallEnds(cs, es, i + 1);
      ConfigUsesWork(cs, es, i);
    }
  }

  // ---------------------------------------------------------------- one call among any number of others

  /** The steps a call inside the list has left, whoever else comes and goes. */
  function OwnWork<T>(s: State<T>, h: History, t: Tid): nat {
    if t !in s.threads then 0
    else StepsFrom(|h.chain| + (if s.threads[t].PushReady? then 1 else 0), h.chain, s.threads[t])
  }

  /** A push lands behind every call inside the list, and a removal brings its end nearer. */
  lemma {:induction false} OthersDoNotDelay<T>(s: State<T>, h: History, e: Event<T>, t: Tid)
    requires HeapInv(s, h.chain) && Ready(s, e) && Safe(s, e) && Inside(s, t) && e.t != t
    ensures t in Step(s, e).threads && OwnWork(Step(s, e), Remember(s, h, e), t) <= OwnWork(s, h, t)
  {
    var pc := s.threads[t];
    OthersStay(s, e, t);
    ChainEffect(s, h, e);
    Stands(s, h.chain, t);
    if e.Go? && s.threads[e.t].PushReady? {
      InsertPos(h.chain, s.unused, RearNode(pc));
      assert RearNode(pc) != HEAD;
    } else if !IsQuiet(s, e) && s.threads[e.t].HasBoth? {
      CutPos(h.chain, Pos(h.chain, s.threads[e.t].nxt), RearNode(pc));
    }
  }

  lemma {:induction false} OwnStepCounts<T>(s: State<T>, h: History, t: Tid)
    requires HeapInv(s, h.chain) && Ready(s, Go(t)) && Safe(s, Go(t)) && Inside(s, t)
    requires t in Step(s, Go(t)).threads
    ensures OwnWork(Step(s, Go(t)), Remember(s, h, Go(t)), t) < OwnWork(s, h, t)
  {
    assert PcOk(s, h.chain, s.threads[t]);
    ChainEffect(s, h, Go(t));
    SelfIsCloser(s, h, t);
    NotBackToPush(s, t);
  }

  lemma {:induction false} NotBackToPush<T>(s: State<T>, t: Tid)
    requires Ready(s, Go(t)) && Safe(s, Go(t)) && Inside(s, t) && t in Step(s, Go(t)).threads
    requires s.threads[t].PushReady? ==> s.threads[t].op.Push?
    ensures !Step(s, Go(t)).threads[t].PushReady?
  {
  }

  function OwnStep<T>(e: Event<T>, t: Tid): nat {
    if e.Go? && e.t == t then 1 else 0
  }

  /** The steps of `t` from the `i`th to before the `j`th. */
  function OwnSteps<T>(es: seq<Event<T>>, t: Tid, i: nat, j: nat): nat
    requires i <= j <= |es|
  {
    if i == j then 0 else OwnSteps(es, t, i, j - 1) + OwnStep(es[j - 1], t)
  }

  lemma {:induction false} NextOwnWork<T>(cs: seq<Config<T>>, es: seq<Event<T>>, i: nat, t: Tid)
    requires IsRun(cs, es) && i < |es| && Inside(cs[i].s, t) && Inside(cs[i + 1].s, t)
    ensures OwnWork(cs[i + 1].s, cs[i + 1].h, t) + OwnStep(es[i], t) <= OwnWork(cs[i].s, cs[i].h, t)
  {
    RunStep(cs, es, i);
    if es[i].t == t {
      OwnStepCounts(cs[i].s, cs[i].h, t);
    } else {
      OthersDoNotDelay(cs[i].s, cs[i].h, es[i], t);
    }
  }

  lemma {:induction false} Descend<T>(left: seq<nat>, es: seq<Event<T>>, t: Tid, i: nat, j: nat)
    requires i <= j <= |es| < |left|
    requires forall k {:trigger es[k]} | i <= k < j :: left[k + 1] + OwnStep(es[k], t) <= left[k]
    ensures OwnSteps(es, t, i, j) + left[j] <= left[i]
  {
    if i < j {
      Descend(left, es, t, i, j - 1);
      assert left[j] + OwnStep(es[j - 1], t) <= left[j - 1];
    }
  }

  lemma {:induction false} OwnStepsAreBounded<T>(cs: seq<Config<T>>, es: seq<Event<T>>, i: nat, j: nat, t: Tid)
    requires IsRun(cs, es) && i <= j <= |es| && StaysInside(cs, t, i, j)
    ensures OwnSteps(es, t, i, j) <= OwnWork(cs[i].s, cs[i].h, t)
  {
    var left := seq(|cs|, k requires 0 <= k < |cs| => OwnWork(cs[k].s, cs[k].h, t));
    forall k {:trigger es[k]} | i <= k < j
      ensures left[k + 1] + OwnStep(es[k], t) <= left[k]
    {
      NextOwnWork(cs, es, k, t);
    }
    Descend(left, es, t, i, j);
  }

  /** No call is chased for ever: from the step `i` in which it takes the head's mutex, the steps it
    * takes itself are bounded by the length of the chain it found, whatever other calls begin. */
  lemma {:induction false} CallIsBoundedByItsStart<T>(cs: seq<Config<T>>, es: seq<Event<T>>, i: nat, j: nat, t: Tid)
    requires IsRun(cs, es) && i < j <= |es| && es[i] == Go(t)
    requires t in cs[i].s.threads && cs[i].s.threads[t].WantHead? && StaysInside(cs, t, i + 1, j)
    ensures OwnSteps(es, t, i + 1, j) <= 6 * |cs[i].h.chain| + 11
  {
    RunStep(cs, es, i);
    OwnStepsAreBounded(cs, es, i + 1, j, t);
  }
}
