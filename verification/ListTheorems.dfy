/** The theorems about the lock-coupled list, for any number of threads and any schedule. */
module ListTheorems {
  import opened Base
  import opened Chain
  import opened LockedList
  import opened ListRuns

  // ---------------------------------------------------------------- runs

  datatype Config<!T> = Config(s: State<T>, h: History)

  /** One scheduled step.  A step that touches freed memory could lead anywhere. */
  ghost predicate Follows<T>(c: Config<T>, e: Event<T>, c': Config<T>) {
    && Ready(c.s, e)
    && (Safe(c.s, e) && c.h.chain != [] ==> c' == Config(Step(c.s, e), Remember(c.s, c.h, e)))
  }

  ghost predicate FollowsAt<T>(cs: seq<Config<T>>, es: seq<Event<T>>, i: nat)
    requires |cs| == |es| + 1 && i < |es|
  {
    Follows(cs[i], es[i], cs[i + 1])
  }

  ghost predicate IsRun<T>(cs: seq<Config<T>>, es: seq<Event<T>>) {
    && |cs| == |es| + 1 && cs[0] == Config(Init(), NO_HISTORY)
    && (forall i | 0 <= i < |es| :: FollowsAt(cs, es, i))
  }

  /** A configuration of a run, for any number of threads and any schedule. */
  ghost predicate Consistent<T>(c: Config<T>) {
    Inv(c.s, c.h)
  }

  lemma {:induction false} StepKeepsConsistent<T>(c: Config<T>, e: Event<T>)
    requires Consistent(c) && Ready(c.s, e)
    ensures Safe(c.s, e) && c.h.chain != [] && Consistent(Config(Step(c.s, e), Remember(c.s, c.h, e)))
  {
    ReadyIsSafe(c.s, c.h.chain, e);
    StepKeepsInv(c.s, c.h, e);
  }

  lemma {:induction false} StartIsConsistent<T>(cs: seq<Config<T>>, es: seq<Event<T>>, i: nat)
    requires IsRun(cs, es) && i == 0
    ensures Consistent(cs[i])
  {
  }

  lemma {:induction false} NextIsConsistent<T>(cs: seq<Config<T>>, es: seq<Event<T>>, i: nat)
    requires IsRun(cs, es) && i < |es| && Consistent(cs[i])
    ensures Consistent(cs[i + 1])
  {
    assert FollowsAt(cs, es, i);
    StepKeepsConsistent(cs[i], es[i]);
  }

  lemma {:induction false} RunKeepsInv<T>(cs: seq<Config<T>>, es: seq<Event<T>>, i: nat)
    requires IsRun(cs, es) && i <= |es|
    ensures Consistent(cs[i])
  {
    if i == 0 {
      StartIsConsistent(cs, es, i);
    } else {
      RunKeepsInv(cs, es, i - 1);
      NextIsConsistent(cs, es, i - 1);
    }
  }

  lemma {:induction false} RunStep<T>(cs: seq<Config<T>>, es: seq<Event<T>>, i: nat)
    requires IsRun(cs, es) && i < |es|
    ensures var c := cs[i];
      Consistent(c) && Ready(c.s, es[i]) && Safe(c.s, es[i]) && c.h.chain != []
      && cs[i + 1] == Config(Step(c.s, es[i]), Remember(c.s, c.h, es[i]))
  {
    RunKeepsInv(cs, es, i);
    assert FollowsAt(cs, es, i);
    StepKeepsConsistent(cs[i], es[i]);
  }

  // ---------------------------------------------------------------- safe reclamation

  /** No step of any run touches freed memory. */
  lemma {:induction false} MemorySafety<T>(cs: seq<Config<T>>, es: seq<Event<T>>, i: nat)
    requires IsRun(cs, es) && i < |es|
    ensures Safe(cs[i].s, es[i])
  {
    RunStep(cs, es, i);
  }

  /** Whatever a thread holds, waits for or points at is allocated, and linked unless it is the
    * thread's own victim; a victim is out of everybody else's reach, so freeing it is safe. */
  ghost predicate Reclaimable<T>(s: State<T>, chain: seq<Id>) {
    && (forall t, n | t in s.threads && n in Touches(s.threads[t]) ::
          n in s.next && (n in chain || HasVictim(s, t, n)))
    && (forall t, u, n | HasVictim(s, t, n) && u in s.threads && u != t ::
          n !in Touches(s.threads[u]) && n !in Holds(s.threads[u]) && n !in Wants(s.threads[u]))
  }

  lemma {:induction false} TouchedIsLinked<T>(s: State<T>, chain: seq<Id>, t: Tid, n: Id)
    requires HeapInv(s, chain) && t in s.threads && n in Touches(s.threads[t])
    ensures n in s.next && (n in chain || HasVictim(s, t, n))
  {
    var pc := s.threads[t];
    assert PcOk(s, chain, pc);
    assert chain[0] in chain;
    if pc.WantNext? || pc.HasBoth? {
      NextIsLinked(s, chain, pc.cur, pc.nxt);
    }
  }

  lemma {:induction false} TouchesAll<T>(pc: Pc<T>)
    ensures Holds(pc) <= Touches(pc) && Wants(pc) <= Touches(pc)
  {
  }

  lemma {:induction false} VictimIsOutOfReach<T>(s: State<T>, chain: seq<Id>, t: Tid, u: Tid, n: Id)
    requires HeapInv(s, chain) && HasVictim(s, t, n) && u in s.threads && u != t
    ensures n !in Touches(s.threads[u]) && n !in Holds(s.threads[u]) && n !in Wants(s.threads[u])
  {
    VictimsAreUnlinked(s, chain);
    TouchesAll(s.threads[u]);
    if n in Touches(s.threads[u]) {
      TouchedIsLinked(s, chain, u, n);
    }
  }

  lemma {:induction false} HeapIsReclaimable<T>(s: State<T>, chain: seq<Id>)
    requires HeapInv(s, chain)
    ensures Reclaimable(s, chain)
  {
    forall t, n | t in s.threads && n in Touches(s.threads[t])
      ensures n in s.next && (n in chain || HasVictim(s, t, n))
    {
      TouchedIsLinked(s, chain, t, n);
    }
    forall t, u, n | HasVictim(s, t, n) && u in s.threads && u != t
      ensures n !in Touches(s.threads[u]) && n !in Holds(s.threads[u]) && n !in Wants(s.threads[u])
    {
      VictimIsOutOfReach(s, chain, t, u, n);
    }
  }

  /** A removal has both mutexes while it looks at a node and while it unlinks it. */
  ghost predicate HoldsBothToRemove<T>(s: State<T>) {
    forall t | t in s.threads ::
      && (s.threads[t].HasBoth? ==> Owns(s, t, s.threads[t].cur) && Owns(s, t, s.threads[t].nxt))
      && (s.threads[t].Unlinked? ==> Owns(s, t, s.threads[t].cur) && Owns(s, t, s.threads[t].victim))
  }

  lemma {:induction false} OwnersHoldBoth<T>(s: State<T>)
    requires Owned(s)
    ensures HoldsBothToRemove(s)
  {
    forall t | t in s.threads
      ensures s.threads[t].HasBoth? ==> Owns(s, t, s.threads[t].cur) && Owns(s, t, s.threads[t].nxt)
      ensures s.threads[t].Unlinked? ==> Owns(s, t, s.threads[t].cur) && Owns(s, t, s.threads[t].victim)
    {
      var pc := s.threads[t];
      if pc.HasBoth? {
        assert Locks(s, t, pc.cur) && Locks(s, t, pc.nxt);
      } else if pc.Unlinked? {
        assert Locks(s, t, pc.cur) && Locks(s, t, pc.victim);
      }
    }
  }

  lemma {:induction false} SafeReclamation<T>(cs: seq<Config<T>>, es: seq<Event<T>>, i: nat)
    requires IsRun(cs, es) && i <= |es|
    ensures LinkedBy(cs[i].s, cs[i].h.chain) && Reclaimable(cs[i].s, cs[i].h.chain)
    ensures Owned(cs[i].s) && HoldsBothToRemove(cs[i].s)
  {
    RunKeepsInv(cs, es, i);
    OwnersHoldBoth(cs[i].s);
    HeapIsReclaimable(cs[i].s, cs[i].h.chain);
  }

  // ---------------------------------------------------------------- what a traversal visits

  /** `t` has reached the end of the list. */
  predicate AtEnd<T>(s: State<T>, t: Tid) {
    t in s.threads && s.threads[t].AtNode? && s.threads[t].cur in s.next && s.next[s.threads[t].cur] == Null
  }

  /** `visited` follows list order without repetition, and nothing linked was missed. */
  ghost predicate VisitedAll(start: seq<Id>, visited: seq<Id>, chain: seq<Id>) {
    && Distinct(visited) && InOrder(visited, start)
    && (forall n | n in start && n in chain && n != HEAD :: n in visited)
  }

  /** What `t` has seen when it has reached the end. */
  ghost predicate Complete<T>(s: State<T>, h: History, t: Tid)
    requires t in s.threads
  {
    var start, visited, op := StartOf(h, t), VisitedBy(h, t), s.threads[t].op;
    && VisitedAll(start, visited, h.chain)
    && (op.Find? || op.Remove? ==>
          forall n | n in start && n in h.chain && n != HEAD :: n in s.data && !op.p(s.data[n]))
  }

  lemma {:induction false} EndIsComplete<T>(s: State<T>, h: History, t: Tid)
    requires Inv(s, h) && AtEnd(s, t)
    ensures Complete(s, h, t)
  {
    var pc, visited := s.threads[t], VisitedBy(h, t);
    assert PcOk(s, h.chain, pc) && VisitInv(s, h, t) && RejectInv(s, h, t);
    assert s.next[h.chain[Pos(h.chain, pc.cur)]] == Successor(h.chain, Pos(h.chain, pc.cur));
    forall n | n in StartOf(h, t) && n in h.chain && n != HEAD
      ensures n in visited && n in s.data
    {
      assert h.chain[Pos(h.chain, n)] == n && h.chain[0] == HEAD;
      assert n in s.next;
    }
  }

  /** A traversal that has run to the end has visited every node that was there when it began
    * and is still there, exactly once and in list order, and no node that was linked later;
    * what a search or removal leaves behind of them does not match. */
  lemma {:induction false} TraversalIsComplete<T>(cs: seq<Config<T>>, es: seq<Event<T>>, i: nat, t: Tid)
    requires IsRun(cs, es) && i <= |es| && AtEnd(cs[i].s, t)
    ensures Complete(cs[i].s, cs[i].h, t)
  {
    RunKeepsInv(cs, es, i);
    EndIsComplete(cs[i].s, cs[i].h, t);
  }

  /** `n` matches, and nothing in front of it does that was linked when `t` began. */
  ghost predicate FirstOfOld<T>(s: State<T>, h: History, t: Tid, n: Id)
    requires t in s.threads && (s.threads[t].op.Find? || s.threads[t].op.Remove?)
  {
    var op := s.threads[t].op;
    && n in s.data && op.p(s.data[n])
    && (forall x | x in h.chain && x in StartOf(h, t) && x != HEAD && Pos(h.chain, x) < Pos(h.chain, n) ::
          x in s.data && !op.p(s.data[x]))
  }

  lemma {:induction false} PassedWasVisited<T>(s: State<T>, h: History, t: Tid, x: Id)
    requires Inv(s, h) && Inside(s, t) && !s.threads[t].op.Push?
    requires x in h.chain && x in StartOf(h, t) && x != HEAD && Pos(h.chain, x) <= Done(h.chain, s.threads[t])
    ensures x in VisitedBy(h, t) && x in s.data
  {
    assert VisitInv(s, h, t);
    assert h.chain[Pos(h.chain, x)] == x && h.chain[0] == HEAD && x in s.next;
  }

  lemma {:induction false} FoundIsFirst<T>(s: State<T>, h: History, t: Tid)
    requires Inv(s, h) && t in s.threads && s.threads[t].op.Find? && Finds(s.threads[t], RearNode(s.threads[t]))
    ensures FirstOfOld(s, h, t, s.threads[t].cur)
  {
    var pc := s.threads[t];
    assert PcOk(s, h.chain, pc) && RejectInv(s, h, t) && pc.cur in s.next;
    forall x | x in h.chain && x in StartOf(h, t) && x != HEAD && Pos(h.chain, x) < Pos(h.chain, pc.cur)
      ensures x in s.data && !pc.op.p(s.data[x])
    {
      PassedWasVisited(s, h, t, x);
    }
  }

  lemma {:induction false} RemovedIsFirst<T>(s: State<T>, h: History, t: Tid)
    requires Inv(s, h) && Ready(s, Go(t)) && Safe(s, Go(t)) && s.threads[t].HasBoth? && !IsQuiet(s, Go(t))
    ensures FirstOfOld(s, h, t, s.threads[t].nxt)
  {
    var pc := s.threads[t];
    assert PcOk(s, h.chain, pc) && RejectInv(s, h, t);
    NextIsLinked(s, h.chain, pc.cur, pc.nxt);
    forall x | x in h.chain && x in StartOf(h, t) && x != HEAD && Pos(h.chain, x) < Pos(h.chain, pc.nxt)
      ensures x in s.data && !pc.op.p(s.data[x])
    {
      PassedWasVisited(s, h, t, x);
    }
  }

  /** What `find_first_if` returns is, when it has decided, the first match among the nodes that
    * were linked when it began. */
  lemma {:induction false} SearchFindsFirst<T>(cs: seq<Config<T>>, es: seq<Event<T>>, i: nat, t: Tid)
    requires IsRun(cs, es) && i <= |es| && t in cs[i].s.threads
    requires var pc := cs[i].s.threads[t]; pc.Finishing? && pc.op.Find? && pc.found
    ensures FirstOfOld(cs[i].s, cs[i].h, t, cs[i].s.threads[t].cur)
  {
    RunKeepsInv(cs, es, i);
    FoundIsFirst(cs[i].s, cs[i].h, t);
  }

  /** What a removal unlinks is, at that moment, the first match among those nodes. */
  lemma {:induction false} RemovalTakesFirst<T>(cs: seq<Config<T>>, es: seq<Event<T>>, i: nat)
    requires IsRun(cs, es) && i < |es| && es[i].Go? && es[i].t in cs[i].s.threads
    requires cs[i].s.threads[es[i].t].HasBoth? && Ready(cs[i].s, es[i]) && Safe(cs[i].s, es[i])
    requires !IsQuiet(cs[i].s, es[i])
    ensures FirstOfOld(cs[i].s, cs[i].h, es[i].t, cs[i].s.threads[es[i].t].nxt)
  {
    RunKeepsInv(cs, es, i);
    RemovedIsFirst(cs[i].s, cs[i].h, es[i].t);
  }

  /** `t` is inside the list all the while. */
  ghost predicate StaysInside<T>(cs: seq<Config<T>>, t: Tid, i: nat, j: nat) {
    i <= j < |cs| && forall k {:trigger cs[k]} | i <= k <= j :: Inside(cs[k].s, t)
  }

  lemma {:induction false} StartStays<T>(c: Config<T>, e: Event<T>, t: Tid)
    requires Ready(c.s, e) && Safe(c.s, e) && c.h.chain != [] && Inside(c.s, t)
    ensures StartOf(Remember(c.s, c.h, e), t) == StartOf(c.h, t)
  {
  }

  lemma {:induction false} NextStart<T>(cs: seq<Config<T>>, es: seq<Event<T>>, i: nat, t: Tid)
    requires IsRun(cs, es) && i < |es| && Inside(cs[i].s, t)
    ensures StartOf(cs[i + 1].h, t) == StartOf(cs[i].h, t)
  {
    RunStep(cs, es, i);
    StartStays(cs[i], es[i], t);
  }

  lemma {:induction false} FirstStart<T>(cs: seq<Config<T>>, es: seq<Event<T>>, i: nat, t: Tid)
    requires IsRun(cs, es) && i < |es| && es[i] == Go(t)
    requires t in cs[i].s.threads && cs[i].s.threads[t].WantHead?
    ensures StartOf(cs[i + 1].h, t) == cs[i].h.chain
  {
    RunStep(cs, es, i);
  }

  /** The chain a traversal is measured against is, for the whole of the call, the chain at the step
    * `i` in which it took the head's mutex. */
  lemma {:induction false} StartIsChain<T>(cs: seq<Config<T>>, es: seq<Event<T>>, i: nat, j: nat, t: Tid)
    requires IsRun(cs, es) && i < j <= |es| && es[i] == Go(t)
    requires t in cs[i].s.threads && cs[i].s.threads[t].WantHead? && StaysInside(cs, t, i + 1, j)
    ensures StartOf(cs[j].h, t) == cs[i].h.chain
  {
    if i + 1 == j {
      FirstStart(cs, es, i, t);
    } else {
      StartIsChain(cs, es, i, j - 1, t);
      NextStart(cs, es, j - 1, t);
    }
  }

  /** A whole traversal, from the step `i` that takes the head's mutex to a state `j` at the end of the
    * list: it has visited every node linked at both moments, once and in the order of the start. */
  lemma {:induction false} WholeTraversal<T>(cs: seq<Config<T>>, es: seq<Event<T>>, i: nat, j: nat, t: Tid)
    requires IsRun(cs, es) && i < j <= |es| && es[i] == Go(t)
    requires t in cs[i].s.threads && cs[i].s.threads[t].WantHead? && StaysInside(cs, t, i + 1, j)
    requires AtEnd(cs[j].s, t)
    ensures VisitedAll(cs[i].h.chain, VisitedBy(cs[j].h, t), cs[j].h.chain)
  {
    StartIsChain(cs, es, i, j, t);
    TraversalIsComplete(cs, es, j, t);
  }

  ghost predicate Older<T>(c: Config<T>, c': Config<T>) { c.s.unused <= c'.s.unused }

  lemma {:induction false} StepAges<T>(c: Config<T>, e: Event<T>, c': Config<T>)
    requires Ready(c.s, e) && Safe(c.s, e) && c'.s == Step(c.s, e)
    ensures Older(c, c')
  {
  }

  lemma {:induction false} RunStepAges<T>(cs: seq<Config<T>>, es: seq<Event<T>>, i: nat)
    requires IsRun(cs, es) && i < |es|
    ensures Older(cs[i], cs[i + 1])
  {
    RunStep(cs, es, i);
    StepAges(cs[i], es[i], cs[i + 1]);
  }

  lemma {:induction false} RunAges<T>(cs: seq<Config<T>>, es: seq<Event<T>>, i: nat, j: nat)
    requires IsRun(cs, es) && i <= j <= |es|
    ensures Older(cs[i], cs[j])
  {
    if i < j {
      RunAges(cs, es, i, j - 1);
      RunStepAges(cs, es, j - 1);
    }
  }

  lemma {:induction false} LinkedIsOld<T>(s: State<T>, h: History, n: Id)
    requires Inv(s, h) && n in h.chain
    ensures n < s.unused
  {
  }

  lemma {:induction false} LinkedBefore<T>(c: Config<T>, e: Event<T>, n: Id)
    requires Consistent(c) && Ready(c.s, e) && Safe(c.s, e)
    requires c.h.chain != [] && n in Remember(c.s, c.h, e).chain && n != c.s.unused
    ensures n in c.h.chain
  {
    ChainShrinksTo(c.s, c.h, e, n);
  }

  /** Nodes are never linked again: what is linked early and late is linked all the while. */
  lemma {:induction false} LinkedThroughout<T>(cs: seq<Config<T>>, es: seq<Event<T>>, i: nat, k: nat, j: nat, n: Id)
    requires IsRun(cs, es) && i <= k <= j <= |es| && n in cs[i].h.chain && n in cs[j].h.chain
    ensures n in cs[k].h.chain
    decreases j - k
  {
    if k < j {
      LinkedThroughout(cs, es, i, k + 1, j, n);
      RunKeepsInv(cs, es, i);
      LinkedIsOld(cs[i].s, cs[i].h, n);
      RunAges(cs, es, i, k);
      RunStep(cs, es, k);
      LinkedBefore(cs[k], es[k], n);
    }
  }

  // ---------------------------------------------------------------- no overtaking

  /** Two threads that are inside the list, at two moments of the same two calls. */
  predicate SameCalls<T>(c: Config<T>, c': Config<T>, t: Tid, u: Tid) {
    && Inside(c.s, t) && Inside(c.s, u) && Inside(c'.s, t) && Inside(c'.s, u)
    && t in c.h.ticket && t in c'.h.ticket && c.h.ticket[t] == c'.h.ticket[t]
    && u in c.h.ticket && u in c'.h.ticket && c.h.ticket[u] == c'.h.ticket[u]
  }

  lemma {:induction false} PositionsFollowTickets<T>(c: Config<T>, t: Tid, u: Tid)
    requires Consistent(c) && Inside(c.s, t) && Inside(c.s, u) && t != u
    ensures Rear(c.s, c.h.chain, t) > Front(c.s, c.h.chain, u) <==> Before(c.h, t, u)
  {
    Stands(c.s, c.h.chain, t);
    Stands(c.s, c.h.chain, u);
    assert OrderInv(c.s, c.h);
    assert Before(c.h, t, u) || Before(c.h, u, t);
  }

  /** Whoever is ahead stays ahead, strictly, whatever is pushed and removed meanwhile. */
  lemma {:induction false} NoOvertaking<T>(cs: seq<Config<T>>, es: seq<Event<T>>, i: nat, j: nat, t: Tid, u: Tid)
    requires IsRun(cs, es) && i <= |es| && j <= |es| && t != u && SameCalls(cs[i], cs[j], t, u)
    requires Rear(cs[i].s, cs[i].h.chain, t) > Front(cs[i].s, cs[i].h.chain, u)
    ensures Rear(cs[j].s, cs[j].h.chain, t) > Front(cs[j].s, cs[j].h.chain, u)
  {
    RunKeepsInv(cs, es, i);
    RunKeepsInv(cs, es, j);
    PositionsFollowTickets(cs[i], t, u);
    PositionsFollowTickets(cs[j], t, u);
  }

  // ---------------------------------------------------------------- progress

  /** The thread that entered first. */
  lemma {:induction false} Foremost(ticket: map<Tid, nat>, among: set<Tid>) returns (t: Tid)
    requires among != {} && among <= ticket.Keys
    ensures t in among && forall u | u in among :: ticket[t] <= ticket[u]
    decreases |among|
  {
    t :| t in among;
    if among != {t} {
      var v := Foremost(ticket, among - {t});
      if ticket[v] < ticket[t] {
        t := v;
      }
    }
  }

  lemma {:induction false} LockedIsStoodOn<T>(s: State<T>, chain: seq<Id>, u: Tid, n: Id)
    requires HeapInv(s, chain) && Owns(s, u, n) && n in chain
    ensures Inside(s, u) && (n == RearNode(s.threads[u]) || n == FrontNode(s.threads[u]))
  {
  }

  lemma {:induction false} BlockerIsAhead<T>(s: State<T>, h: History, t: Tid, u: Tid)
    requires HeapInv(s, h.chain) && Inside(s, t) && s.threads[t].WantNext? && Owns(s, u, s.threads[t].nxt)
    ensures Inside(s, u) && u != t && Front(s, h.chain, u) > Rear(s, h.chain, t)
  {
    var pc := s.threads[t];
    assert PcOk(s, h.chain, pc);
    NextIsLinked(s, h.chain, pc.cur, pc.nxt);
    LockedIsStoodOn(s, h.chain, u, pc.nxt);
    Stands(s, h.chain, u);
  }

  lemma {:induction false} ForemostIsReady<T>(c: Config<T>, t: Tid)
    requires Consistent(c) && Inside(c.s, t) && forall u | Inside(c.s, u) && u != t :: Before(c.h, t, u)
    ensures Ready(c.s, Go(t))
  {
    var pc := c.s.threads[t];
    if pc.WantNext? && pc.nxt in c.s.owner {
      var u := c.s.owner[pc.nxt];
      BlockerIsAhead(c.s, c.h, t, u);
      PositionsFollowTickets(c, t, u);
    }
  }

  lemma {:induction false} OwnerIsInside<T>(s: State<T>, n: Id)
    requires Owned(s) && n in s.owner
    ensures Inside(s, s.owner[n])
  {
    assert Owns(s, s.owner[n], n) && Locks(s, s.owner[n], n);
  }

  lemma {:induction false} OutsiderIsReady<T>(c: Config<T>, t: Tid)
    requires Consistent(c) && t in c.s.threads && forall u :: !Inside(c.s, u)
    ensures Ready(c.s, Go(t))
  {
    assert !Inside(c.s, t);
    if !Ready(c.s, Go(t)) {
      OwnerIsInside(c.s, HEAD);
      assert false;
    }
  }

  lemma {:induction false} InsideHasTicket<T>(c: Config<T>, t: Tid, u: Tid)
    requires Consistent(c) && Inside(c.s, t) && Inside(c.s, u) && u != t
    requires t in c.h.ticket && u in c.h.ticket ==> c.h.ticket[t] <= c.h.ticket[u]
    ensures Before(c.h, t, u)
  {
    assert OrderInv(c.s, c.h);
  }

  lemma {:induction false} TicketOf<T>(c: Config<T>, t: Tid)
    requires Consistent(c) && Inside(c.s, t)
    ensures t in c.h.ticket
  {
    assert OrderInv(c.s, c.h);
  }

  lemma {:induction false} ForemostInside<T>(c: Config<T>, inside: set<Tid>) returns (t: Tid)
    requires Consistent(c) && inside != {} && forall u :: u in inside <==> Inside(c.s, u)
    ensures t in inside && Ready(c.s, Go(t))
  {
    forall u | u in inside
      ensures u in c.h.ticket
    {
      TicketOf(c, u);
    }
    t := Foremost(c.h.ticket, inside);
    forall u | Inside(c.s, u) && u != t
      ensures Before(c.h, t, u)
    {
      InsideHasTicket(c, t, u);
    }
    ForemostIsReady(c, t);
  }

  lemma {:induction false} SomebodyIsReady<T>(c: Config<T>) returns (t: Tid)
    requires Consistent(c) && c.s.threads.Keys != {}
    ensures t in c.s.threads && Ready(c.s, Go(t))
  {
    var inside := set u | u in c.s.threads && Inside(c.s, u);
    if inside == {} {
      t :| t in c.s.threads.Keys;
      assert forall u :: Inside(c.s, u) ==> u in inside;
      OutsiderIsReady(c, t);
    } else {
      t := ForemostInside(c, inside);
    }
  }

  /** Deadlock freedom: while any call is unfinished, some thread can take its next step. */
  lemma {:induction false} NeverDeadlocked<T>(cs: seq<Config<T>>, es: seq<Event<T>>, i: nat)
    requires IsRun(cs, es) && i <= |es| && cs[i].s.threads.Keys != {}
    ensures exists t :: t in cs[i].s.threads && Ready(cs[i].s, Go(t))
  {
    RunKeepsInv(cs, es, i);
    var t := SomebodyIsReady(cs[i]);
  }

  // ---------------------------------------------------------------- contents

  /** The values in the list, front first. */
  function Contents<T>(data: map<Id, T>, chain: seq<Id>): seq<T>
    requires forall n | n in chain :: n in data
  {
    if chain == [] then [] else [data[chain[0]]] + Contents(data, chain[1..])
  }

  lemma {:induction false} ContentsAt<T>(data: map<Id, T>, chain: seq<Id>)
    requires forall n | n in chain :: n in data
    ensures |Contents(data, chain)| == |chain|
    ensures forall i | 0 <= i < |chain| :: Contents(data, chain)[i] == data[chain[i]]
  {
    if chain != [] {
      ContentsAt(data, chain[1..]);
    }
  }

  ghost predicate Holding<T>(s: State<T>, h: History, values: seq<T>) {
    |h.chain| > 0 && (forall n | n in h.chain[1..] :: n in s.data) && values == Contents(s.data, h.chain[1..])
  }

  lemma {:induction false} HasContents<T>(s: State<T>, h: History)
    requires HeapInv(s, h.chain)
    ensures Holding(s, h, Contents(s.data, h.chain[1..]))
  {
  }

  lemma {:induction false} ContentsPush<T>(data: map<Id, T>, data': map<Id, T>, chain: seq<Id>, n: Id, v: T)
    requires |chain| > 0 && n !in chain && (forall x | x in chain[1..] :: x in data) && data' == data[n := v]
    ensures Insert(chain, n)[1..] == [n] + chain[1..]
    ensures forall x | x in [n] + chain[1..] :: x in data'
    ensures Contents(data', [n] + chain[1..]) == [v] + Contents(data, chain[1..])
  {
    ContentsAt(data, chain[1..]);
    ContentsAt(data', [n] + chain[1..]);
    assert forall x | x in chain[1..] :: x in chain;
  }

  lemma {:induction false} ContentsCut<T>(data: map<Id, T>, chain: seq<Id>, k: nat)
    requires 0 < k < |chain| && (forall x | x in chain[1..] :: x in data)
    ensures Cut(chain, k)[1..] == Cut(chain[1..], k - 1)
    ensures forall x | x in Cut(chain[1..], k - 1) :: x in data
    ensures var values := Contents(data, chain[1..]);
      |values| == |chain| - 1 && values[k - 1] == data[chain[k]]
      && Contents(data, Cut(chain[1..], k - 1)) == values[..k - 1] + values[k..]
  {
    var rest := chain[1..];
    assert forall x | x in Cut(rest, k - 1) :: x in rest;
    ContentsAt(data, rest);
    ContentsAt(data, Cut(rest, k - 1));
  }

  lemma {:induction false} ContentsSame<T>(data: map<Id, T>, data': map<Id, T>, chain: seq<Id>)
    requires forall x | x in chain :: x in data && x in data' && data'[x] == data[x]
    ensures Contents(data', chain) == Contents(data, chain)
  {
    if chain != [] {
      ContentsSame(data, data', chain[1..]);
    }
  }

  /** What one step does to the list as a sequence of values: `push_front` puts its value in
    * front, a removal takes out one value that matches, and no other step changes anything. */
  ghost predicate AtomicEffect<T>(s: State<T>, e: Event<T>, values: seq<T>, values': seq<T>)
    requires Ready(s, e) && Safe(s, e)
  {
    if e.Go? && s.threads[e.t].PushReady? then s.threads[e.t].op.Push? && values' == [s.threads[e.t].op.value] + values
    else if !IsQuiet(s, e) && s.threads[e.t].HasBoth? then
      exists k :: 0 <= k < |values| && values' == values[..k] + values[k + 1..] && s.threads[e.t].op.p(values[k])
    else values' == values
  }

  lemma {:induction false} StepIsAtomic<T>(s: State<T>, h: History, e: Event<T>, values: seq<T>)
    requires HeapInv(s, h.chain) && Ready(s, e) && Safe(s, e) && Holding(s, h, values)
    requires e.Go? && s.threads[e.t].PushReady? ==> s.threads[e.t].op.Push?
    ensures exists values' :: Holding(Step(s, e), Remember(s, h, e), values') && AtomicEffect(s, e, values, values')
  {
    var s', h' := Step(s, e), Remember(s, h, e);
    StepKeepsHeap(s, h, e);
    HasContents(s', h');
    ChainEffect(s, h, e);
    var values' := Contents(s'.data, h'.chain[1..]);
    assert AtomicEffect(s, e, values, values') by {
      if e.Go? && s.threads[e.t].PushReady? {
        ContentsPush(s.data, s'.data, h.chain, s.unused, s.threads[e.t].op.value);
      } else if !IsQuiet(s, e) && s.threads[e.t].HasBoth? {
        var k := Pos(h.chain, s.threads[e.t].nxt);
        ContentsCut(s.data, h.chain, k);
        assert values' == values[..k - 1] + values[k - 1 + 1..] && s.threads[e.t].op.p(values[k - 1]);
      } else {
        ContentsSame(s.data, s'.data, h.chain[1..]);
      }
    }
  }

  /** In every run the list is a sequence that changes atomically, by pushes to the front and
    * removals of matching values; `size_` is its length plus the removals not yet counted. */
  lemma {:induction false} RunIsAtomic<T>(cs: seq<Config<T>>, es: seq<Event<T>>, i: nat)
    requires IsRun(cs, es) && i < |es|
    ensures Ready(cs[i].s, es[i]) && Safe(cs[i].s, es[i])
    ensures exists values, values' ::
      Holding(cs[i].s, cs[i].h, values) && Holding(cs[i + 1].s, cs[i + 1].h, values')
      && AtomicEffect(cs[i].s, es[i], values, values')
      && cs[i].s.size == |values| + |RemovingThreads(cs[i].s)|
  {
    RunStep(cs, es, i);
    var s, h, e := cs[i].s, cs[i].h, es[i];
    HasContents(s, h);
    var values := Contents(s.data, h.chain[1..]);
    ContentsAt(s.data, h.chain[1..]);
    if e.Go? {
      assert PcOk(s, h.chain, s.threads[e.t]);
    }
    StepIsAtomic(s, h, e, values);
  }
}
