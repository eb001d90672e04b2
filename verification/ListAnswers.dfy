/** What the calls on the lock-coupled list answer, for any number of threads and any schedule. */
module ListAnswers {
  import opened Base
  import opened Chain
  import opened LockedList
  import opened ListRuns
  import opened ListTheorems

  /** In step `i` thread `t` takes the head's mutex, and it is inside the list from then up to `j`. */
  ghost predicate DuringCall<T>(cs: seq<Config<T>>, es: seq<Event<T>>, i: nat, j: nat, t: Tid, op: Op<T>) {
    && IsRun(cs, es) && i < j <= |es| && es[i] == Go(t)
    && t in cs[i].s.threads && cs[i].s.threads[t] == WantHead(op) && StaysInside(cs, t, i + 1, j)
  }

  lemma {:induction false} EarlierInCall<T>(cs: seq<Config<T>>, es: seq<Event<T>>, i: nat, j: nat, t: Tid, op: Op<T>)
    requires DuringCall(cs, es, i, j, t, op) && i + 1 < j
    ensures DuringCall(cs, es, i, j - 1, t, op)
  {
  }

  // ---------------------------------------------------------------- one step of the call

  lemma {:induction false} EntersList<T>(s: State<T>, t: Tid, op: Op<T>)
    requires Ready(s, Go(t)) && Safe(s, Go(t)) && s.threads[t] == WantHead(op)
    ensures var s' := Step(s, Go(t));
      t in s'.threads && s'.threads[t] == if op.Push? then PushReady(op) else AtNode(op, HEAD)
  {
  }

  lemma {:induction false} SameCall<T>(s: State<T>, t: Tid)
    requires Ready(s, Go(t)) && Safe(s, Go(t)) && Inside(s, t) && t in Step(s, Go(t)).threads
    ensures Step(s, Go(t)).threads[t].op == s.threads[t].op
  {
  }

  /** Another thread's step leaves the call where it is. */
  lemma {:induction false} OtherStep<T>(cs: seq<Config<T>>, es: seq<Event<T>>, k: nat, t: Tid)
    requires IsRun(cs, es) && k < |es| && t in cs[k].s.threads && es[k] != Go(t)
    ensures t in cs[k + 1].s.threads && cs[k + 1].s.threads[t] == cs[k].s.threads[t]
  {
    RunStep(cs, es, k);
    assert es[k].t != t;
    OthersStay(cs[k].s, es[k], t);
  }

  lemma {:induction false} OpStays<T>(cs: seq<Config<T>>, es: seq<Event<T>>, i: nat, j: nat, t: Tid, op: Op<T>)
    requires DuringCall(cs, es, i, j, t, op)
    ensures Inside(cs[j].s, t) && cs[j].s.threads[t].op == op
  {
    RunStep(cs, es, j - 1);
    if i + 1 == j {
      EntersList(cs[i].s, t, op);
    } else {
      EarlierInCall(cs, es, i, j, t, op);
      OpStays(cs, es, i, j - 1, t, op);
      if es[j - 1] == Go(t) {
        SameCall(cs[j - 1].s, t);
      } else {
        OtherStep(cs, es, j - 1, t);
      }
    }
  }

  // ---------------------------------------------------------------- remove_first_if: what true means

  /** Step `k` is one of `t` that makes the list shorter. */
  ghost predicate Unlinks<T>(cs: seq<Config<T>>, es: seq<Event<T>>, k: nat, t: Tid)
    requires |cs| == |es| + 1
  {
    k < |es| && es[k] == Go(t) && |cs[k + 1].h.chain| < |cs[k].h.chain|
  }

  /** The call has a victim, or is about to return true. */
  predicate HasTaken<T>(pc: Pc<T>) {
    pc.Unlinked? || pc.Unlocked? || (pc.Finishing? && pc.found)
  }

  lemma {:induction false} ShrinksExactly<T>(s: State<T>, h: History, t: Tid)
    requires HeapInv(s, h.chain) && Ready(s, Go(t)) && Safe(s, Go(t))
    ensures |Remember(s, h, Go(t)).chain| < |h.chain| <==> s.threads[t].HasBoth? && !IsQuiet(s, Go(t))
  {
    ChainEffect(s, h, Go(t));
  }

  lemma {:induction false} TakesExactly<T>(s: State<T>, t: Tid)
    requires Ready(s, Go(t)) && Safe(s, Go(t)) && Inside(s, t) && t in Step(s, Go(t)).threads
    requires s.threads[t].op.Remove? && !s.threads[t].op.all && !s.threads[t].Visiting?
    ensures HasTaken(Step(s, Go(t)).threads[t]) <==>
      HasTaken(s.threads[t]) || (s.threads[t].HasBoth? && !IsQuiet(s, Go(t)))
  {
  }

  lemma {:induction false} OwnStepTakes<T>(s: State<T>, h: History, t: Tid)
    requires HeapInv(s, h.chain) && Ready(s, Go(t)) && Safe(s, Go(t)) && Inside(s, t) && t in Step(s, Go(t)).threads
    requires s.threads[t].op.Remove? && !s.threads[t].op.all
    ensures var shorter := |Remember(s, h, Go(t)).chain| < |h.chain|;
      && (HasTaken(Step(s, Go(t)).threads[t]) <==> HasTaken(s.threads[t]) || shorter)
      && !(HasTaken(s.threads[t]) && shorter)
  {
    assert PcOk(s, h.chain, s.threads[t]);
    ShrinksExactly(s, h, t);
    TakesExactly(s, t);
  }

  lemma {:induction false} NextTaken<T>(cs: seq<Config<T>>, es: seq<Event<T>>, k: nat, t: Tid)
    requires IsRun(cs, es) && k < |es| && Inside(cs[k].s, t) && t in cs[k + 1].s.threads
    requires cs[k].s.threads[t].op.Remove? && !cs[k].s.threads[t].op.all
    ensures HasTaken(cs[k + 1].s.threads[t]) <==> HasTaken(cs[k].s.threads[t]) || Unlinks(cs, es, k, t)
    ensures !(HasTaken(cs[k].s.threads[t]) && Unlinks(cs, es, k, t))
  {
    RunStep(cs, es, k);
    if es[k] == Go(t) {
      OwnStepTakes(cs[k].s, cs[k].h, t);
    } else {
      OtherStep(cs, es, k, t);
    }
  }

  lemma {:induction false} BeginsEmptyHanded<T>(cs: seq<Config<T>>, es: seq<Event<T>>, i: nat, t: Tid, op: Op<T>)
    requires DuringCall(cs, es, i, i + 1, t, op)
    ensures t in cs[i + 1].s.threads && !HasTaken(cs[i + 1].s.threads[t]) && !cs[i + 1].s.threads[t].Finishing?
  {
    RunStep(cs, es, i);
    EntersList(cs[i].s, t, op);
  }

  /** `taken` says whether a step between `i` and `j` has unlinked a node; no two of them have. */
  ghost predicate TakenOnce<T>(cs: seq<Config<T>>, es: seq<Event<T>>, i: nat, j: nat, t: Tid, taken: bool)
    requires |cs| == |es| + 1
  {
    && (taken <==> exists k: nat :: i < k < j && Unlinks(cs, es, k, t))
    && (forall k: nat, l: nat | i < k < j && i < l < j && Unlinks(cs, es, k, t) && Unlinks(cs, es, l, t) :: k == l)
  }

  lemma {:induction false} TakenOnceMore<T>(cs: seq<Config<T>>, es: seq<Event<T>>, i: nat, j: nat, t: Tid, before: bool,
                                            after: bool)
    requires |cs| == |es| + 1 && i < j && TakenOnce(cs, es, i, j, t, before)
    requires (after <==> before || Unlinks(cs, es, j, t)) && !(before && Unlinks(cs, es, j, t))
    ensures TakenOnce(cs, es, i, j + 1, t, after)
  {
  }

  lemma {:induction false} TakenSoFar<T>(cs: seq<Config<T>>, es: seq<Event<T>>, i: nat, j: nat, t: Tid, op: Op<T>)
    requires DuringCall(cs, es, i, j, t, op) && op.Remove? && !op.all
    ensures t in cs[j].s.threads && TakenOnce(cs, es, i, j, t, HasTaken(cs[j].s.threads[t]))
  {
    if i + 1 == j {
      BeginsEmptyHanded(cs, es, i, t, op);
    } else {
      EarlierInCall(cs, es, i, j, t, op);
      TakenSoFar(cs, es, i, j - 1, t, op);
      OpStays(cs, es, i, j - 1, t, op);
      OpStays(cs, es, i, j, t, op);
      NextTaken(cs, es, j - 1, t);
      TakenOnceMore(cs, es, i, j - 1, t, HasTaken(cs[j - 1].s.threads[t]), HasTaken(cs[j].s.threads[t]));
    }
  }

  // ---------------------------------------------------------------- what an empty-handed return means

  /** It returns what it has found. */
  predicate Decided<T>(pc: Pc<T>) {
    pc.Finishing? && pc.found && (pc.op.Find? || (pc.op.Remove? && !pc.op.all))
  }

  lemma {:induction false} EndsAtEnd<T>(s: State<T>, chain: seq<Id>, t: Tid)
    requires HeapInv(s, chain) && Ready(s, Go(t)) && Safe(s, Go(t)) && Inside(s, t) && t in Step(s, Go(t)).threads
    requires !s.threads[t].op.Push? && Step(s, Go(t)).threads[t].Finishing? && !Decided(Step(s, Go(t)).threads[t])
    ensures AtEnd(s, t)
  {
    assert PcOk(s, chain, s.threads[t]);
  }

  lemma {:induction false} ReturnsEmptyHanded<T>(cs: seq<Config<T>>, es: seq<Event<T>>, k: nat, t: Tid)
    requires IsRun(cs, es) && k < |es| && Inside(cs[k].s, t) && !cs[k].s.threads[t].op.Push? && t in cs[k + 1].s.threads
    requires cs[k + 1].s.threads[t].Finishing? && !Decided(cs[k + 1].s.threads[t])
    ensures if es[k] == Go(t) then AtEnd(cs[k].s, t) else cs[k].s.threads[t] == cs[k + 1].s.threads[t]
  {
    RunStep(cs, es, k);
    if es[k] == Go(t) {
      EndsAtEnd(cs[k].s, cs[k].h.chain, t);
    } else {
      OtherStep(cs, es, k, t);
    }
  }

  lemma {:induction false} SawEnd<T>(cs: seq<Config<T>>, es: seq<Event<T>>, i: nat, j: nat, t: Tid, op: Op<T>)
    returns (k: nat)
    requires DuringCall(cs, es, i, j, t, op) && !op.Push? && t in cs[j].s.threads
    requires cs[j].s.threads[t].Finishing? && !Decided(cs[j].s.threads[t])
    ensures i < k < j && es[k] == Go(t) && AtEnd(cs[k].s, t)
  {
    k := j - 1;
    if i == k {
      BeginsEmptyHanded(cs, es, i, t, op);
      assert false;
    }
    EarlierInCall(cs, es, i, j, t, op);
    OpStays(cs, es, i, k, t, op);
    ReturnsEmptyHanded(cs, es, k, t);
    if es[k] != Go(t) {
      k := SawEnd(cs, es, i, k, t, op);
    }
  }

  /** None of the nodes linked at both moments matches. */
  ghost predicate NoMatchIn<T>(c: Config<T>, start: seq<Id>, op: Op<T>) {
    op.Find? || op.Remove? ==>
      forall n | n in start && n in c.h.chain && n != HEAD :: n in c.s.data && !op.p(c.s.data[n])
  }

  /** At step `k` the call sees the end of the list: every node linked then and when the call took the
    * head's mutex in step `i` has been visited, once and in order, and none of them matches. */
  ghost predicate SeesAll<T>(cs: seq<Config<T>>, es: seq<Event<T>>, i: nat, k: nat, t: Tid, op: Op<T>) {
    && i < k < |es| < |cs| && es[k] == Go(t) && AtEnd(cs[k].s, t)
    && VisitedAll(cs[i].h.chain, VisitedBy(cs[k].h, t), cs[k].h.chain)
    && NoMatchIn(cs[k], cs[i].h.chain, op)
  }

  lemma {:induction false} StaysToEarlier<T>(cs: seq<Config<T>>, es: seq<Event<T>>, i: nat, k: nat, j: nat, t: Tid,
                                             op: Op<T>)
    requires DuringCall(cs, es, i, j, t, op) && i < k < j
    ensures DuringCall(cs, es, i, k, t, op)
  {
  }

  lemma {:induction false} SeesAllAtEnd<T>(cs: seq<Config<T>>, es: seq<Event<T>>, i: nat, k: nat, t: Tid, op: Op<T>)
    requires DuringCall(cs, es, i, k, t, op) && k < |es| && es[k] == Go(t) && AtEnd(cs[k].s, t)
    ensures SeesAll(cs, es, i, k, t, op)
  {
    OpStays(cs, es, i, k, t, op);
    StartIsChain(cs, es, i, k, t);
    TraversalIsComplete(cs, es, k, t);
  }

  /** A call of any kind but `push_front` that is about to return without having found anything has seen
    * the end of the list: `for_each` and `remove_if` always, a search and a single removal when their
    * answer is no. */
  lemma {:induction false} EmptyHandedSawAll<T>(cs: seq<Config<T>>, es: seq<Event<T>>, i: nat, j: nat, t: Tid,
                                                op: Op<T>) returns (k: nat)
    requires DuringCall(cs, es, i, j, t, op) && !op.Push?
    requires cs[j].s.threads[t].Finishing? && !Decided(cs[j].s.threads[t])
    ensures k < j && SeesAll(cs, es, i, k, t, op)
  {
    k := SawEnd(cs, es, i, j, t, op);
    StaysToEarlier(cs, es, i, k, j, t, op);
    SeesAllAtEnd(cs, es, i, k, t, op);
  }

  // ---------------------------------------------------------------- the answers

  /** `remove_first_if` answers true if and only if one of its own steps has taken a node out of the list,
    * and there is never more than one such step; when it answers false it has seen the end of the list,
    * and none of the nodes linked then and at its start matched. */
  lemma {:induction false} RemovalAnswer<T>(cs: seq<Config<T>>, es: seq<Event<T>>, i: nat, j: nat, t: Tid, op: Op<T>)
    requires DuringCall(cs, es, i, j, t, op) && op.Remove? && !op.all && cs[j].s.threads[t].Finishing?
    ensures cs[j].s.threads[t].found <==> exists k: nat :: i < k < j && Unlinks(cs, es, k, t)
    ensures forall k: nat, l: nat | i < k < j && i < l < j && Unlinks(cs, es, k, t) && Unlinks(cs, es, l, t) :: k == l
    ensures !cs[j].s.threads[t].found ==> exists k: nat :: k < j && SeesAll(cs, es, i, k, t, op)
  {
    TakenSoFar(cs, es, i, j, t, op);
    if !cs[j].s.threads[t].found {
      var k := EmptyHandedSawAll(cs, es, i, j, t, op);
    }
  }

  /** `find_first_if` answers with the first match among the nodes linked when it began; when it finds
    * nothing it has seen the end of the list, and none of them matched. */
  lemma {:induction false} SearchAnswer<T>(cs: seq<Config<T>>, es: seq<Event<T>>, i: nat, j: nat, t: Tid, op: Op<T>)
    requires DuringCall(cs, es, i, j, t, op) && op.Find? && cs[j].s.threads[t].Finishing?
    ensures cs[j].s.threads[t].op == op
    ensures if cs[j].s.threads[t].found then
        FirstOfOld(cs[j].s, cs[j].h, t, cs[j].s.threads[t].cur) && StartOf(cs[j].h, t) == cs[i].h.chain
      else exists k: nat :: k < j && SeesAll(cs, es, i, k, t, op)
  {
    OpStays(cs, es, i, j, t, op);
    if cs[j].s.threads[t].found {
      SearchFindsFirst(cs, es, j, t);
      StartIsChain(cs, es, i, j, t);
    } else {
      var k := EmptyHandedSawAll(cs, es, i, j, t, op);
    }
  }
}
