/** The history half of the invariant of the lock-coupled list: the order of the traversals along
  * the chain, what they have visited and rejected, and the size counter.
  */
module ListRuns {
  import opened Base
  import opened Chain
  import opened LockedList

  // ---------------------------------------------------------------- positions of threads

  /** The rear and the front node whose mutex a thread inside the list holds. */
  function RearNode<T>(pc: Pc<T>): Id {
    match pc
    case WantHead(_) => HEAD
    case PushReady(_) => HEAD
    case AtNode(_, cur) => cur
    case WantNext(_, cur, _) => cur
    case HasBoth(_, cur, _) => cur
    case Visiting(_, nxt) => nxt
    case Unlinked(_, cur, _) => cur
    case Unlocked(_, cur, _) => cur
    case Finishing(_, cur, _) => cur
  }

  function FrontNode<T>(pc: Pc<T>): Id {
    if pc.HasBoth? then pc.nxt else RearNode(pc)
  }

  predicate Inside<T>(s: State<T>, t: Tid) {
    t in s.threads && !s.threads[t].WantHead?
  }

  function Rear<T>(s: State<T>, chain: seq<Id>, t: Tid): nat
    requires t in s.threads
  {
    Pos(chain, RearNode(s.threads[t]))
  }

  function Front<T>(s: State<T>, chain: seq<Id>, t: Tid): nat
    requires t in s.threads
  {
    Pos(chain, FrontNode(s.threads[t]))
  }

  /** `t` took `head.m` before `u`. */
  predicate Before(h: History, t: Tid, u: Tid) {
    t in h.ticket && u in h.ticket && h.ticket[t] < h.ticket[u]
  }

  /** The threads inside the list stand along the chain in the order they took `head.m`. */
  ghost predicate OrderInv<T>(s: State<T>, h: History) {
    && (forall t | Inside(s, t) :: t in h.ticket && h.ticket[t] < h.clock)
    && (forall t, u | Inside(s, t) && Inside(s, u) && t != u :: h.ticket[t] != h.ticket[u])
    && (forall t, u | Inside(s, t) && Inside(s, u) && Before(h, t, u) :: Rear(s, h.chain, t) > Front(s, h.chain, u))
  }

  /** How many nodes behind the head a traversal has dealt with. */
  function Done<T>(chain: seq<Id>, pc: Pc<T>): int {
    Pos(chain, RearNode(pc)) - (if pc.Visiting? then 1 else 0)
  }

  ghost predicate VisitInv<T>(s: State<T>, h: History, t: Tid)
    requires t in s.threads
  {
    VisitsOf(s.threads[t], h.chain, StartOf(h, t), VisitedBy(h, t), s.unused)
  }

  ghost predicate VisitsOf<T>(pc: Pc<T>, chain: seq<Id>, start: seq<Id>, visited: seq<Id>, unused: Id) {
    !pc.WantHead? && !pc.op.Push? ==>
      VisitOk(chain, Done(chain, pc), start, visited) && (forall n | n in start :: n < unused)
  }

  /** What a search has passed and is still linked does not match; what it returns does. */
  ghost predicate RejectInv<T>(s: State<T>, h: History, t: Tid)
    requires t in s.threads
  {
    RejectsOf(s.threads[t], h.chain, VisitedBy(h, t), s.data)
  }

  ghost predicate RejectsOf<T>(pc: Pc<T>, chain: seq<Id>, visited: seq<Id>, data: map<Id, T>) {
    !pc.WantHead? && (pc.op.Find? || pc.op.Remove?) ==>
      && (forall n | n in visited && n in chain && n in data && !Finds(pc, n) :: !pc.op.p(data[n]))
      && (forall n | n in data && Finds(pc, n) :: pc.op.p(data[n]))
  }

  /** A search that is about to return `n`. */
  predicate Finds<T>(pc: Pc<T>, n: Id) {
    pc.Finishing? && pc.found && pc.op.Find? && pc.cur == n
  }

  /** The removals whose victim has not been counted out yet. */
  function RemovingThreads<T>(s: State<T>): set<Tid> {
    set t | t in s.threads && (s.threads[t].Unlinked? || s.threads[t].Unlocked?)
  }

  /** `size_` counts the linked nodes and the victims not yet counted out. */
  ghost predicate SizeInv<T>(s: State<T>, h: History) {
    s.size == |h.chain| - 1 + |RemovingThreads(s)|
  }

  ghost predicate Inv<T>(s: State<T>, h: History) {
    && HeapInv(s, h.chain) && OrderInv(s, h) && SizeInv(s, h)
    && (forall t | t in s.threads :: VisitInv(s, h, t) && RejectInv(s, h, t))
  }

  // ---------------------------------------------------------------- order is kept

  /** The node a thread stands on is locked by it and linked. */
  lemma {:induction false} Stands<T>(s: State<T>, chain: seq<Id>, t: Tid)
    requires HeapInv(s, chain) && Inside(s, t)
    ensures Owns(s, t, RearNode(s.threads[t])) && Owns(s, t, FrontNode(s.threads[t]))
    ensures RearNode(s.threads[t]) in chain && FrontNode(s.threads[t]) in chain
    ensures Rear(s, chain, t) <= Front(s, chain, t) <= Rear(s, chain, t) + 1
  {
    var pc := s.threads[t];
    assert PcOk(s, chain, pc);
    assert Locks(s, t, RearNode(pc)) && Locks(s, t, FrontNode(pc));
    if pc.HasBoth? {
      NextIsLinked(s, chain, pc.cur, pc.nxt);
    }
    if pc.PushReady? {
      assert chain[0] in chain;
    }
  }

  /** `t` neither falls back nor reaches a thread ahead of it. */
  ghost predicate KeepsItsPlace<T>(s: State<T>, s': State<T>, h: History, t: Tid) {
    Inside(s', t) ==>
      && Inside(s, t) && Rear(s', h.chain, t) >= Rear(s, h.chain, t)
      && (forall u | Inside(s, u) && Before(h, u, t) :: Rear(s, h.chain, u) > Front(s', h.chain, t))
  }

  lemma {:induction false} PairStays<T>(s: State<T>, s': State<T>, h: History, t: Tid, u: Tid, v: Tid)
    requires KeepsItsPlace(s, s', h, t) && u != v
    requires (u == t || SamePc(s, s', u)) && (v == t || SamePc(s, s', v))
    requires Inside(s', u) && Inside(s', v) && Before(h, u, v)
    requires Inside(s, u) && Inside(s, v) ==> Rear(s, h.chain, u) > Front(s, h.chain, v)
    ensures Rear(s', h.chain, u) > Front(s', h.chain, v)
  {
    assert Inside(s, u) && Inside(s, v);
  }

  lemma {:induction false} InsideBefore<T>(s: State<T>, s': State<T>, h: History, t: Tid, u: Tid)
    requires OnlyMoves(s, s', t) && KeepsItsPlace(s, s', h, t)
    ensures u == t || SamePc(s, s', u)
    ensures Inside(s', u) ==> Inside(s, u)
  {
  }

  /** The chain stays, and `t` keeps its place. */
  lemma {:induction false} OrderStays<T>(s: State<T>, s': State<T>, h: History, h': History, t: Tid)
    requires OrderInv(s, h) && OnlyMoves(s, s', t)
    requires h'.chain == h.chain && h'.clock == h.clock && h'.ticket == h.ticket
    requires KeepsItsPlace(s, s', h, t)
    ensures OrderInv(s', h')
  {
    forall u
      ensures Inside(s', u) ==> Inside(s, u)
    {
      InsideBefore(s, s', h, t, u);
    }
    forall u, v | Inside(s', u) && Inside(s', v) && Before(h', u, v)
      ensures Rear(s', h'.chain, u) > Front(s', h'.chain, v)
    {
      InsideBefore(s, s', h, t, u);
      InsideBefore(s, s', h, t, v);
      PairStays(s, s', h, t, u, v);
    }
  }

  lemma {:induction false} StandsStill<T>(s: State<T>, e: Event<T>)
    requires Ready(s, e) && Safe(s, e) && Inside(Step(s, e), e.t)
    requires e.Go? ==> var pc := s.threads[e.t];
      !pc.WantHead? && !pc.WantNext? && !pc.HasBoth? && !pc.PushReady?
    ensures Inside(s, e.t)
    ensures var pc, pc' := s.threads[e.t], Step(s, e).threads[e.t];
      RearNode(pc') == RearNode(pc) == FrontNode(pc') == FrontNode(pc)
  {
  }

  lemma {:induction false} StandsInPlace<T>(s: State<T>, s': State<T>, h: History, t: Tid)
    requires OrderInv(s, h)
    requires Inside(s', t) ==>
      && Inside(s, t)
      && RearNode(s'.threads[t]) == RearNode(s.threads[t]) == FrontNode(s'.threads[t]) == FrontNode(s.threads[t])
    ensures KeepsItsPlace(s, s', h, t)
  {
  }

  lemma {:induction false} MovesOnly<T>(s: State<T>, e: Event<T>)
    requires Ready(s, e) && Safe(s, e)
    ensures OnlyMoves(s, Step(s, e), e.t)
  {
    forall u | u != e.t
      ensures SamePc(s, Step(s, e), u)
    {
      OthersStay(s, e, u);
    }
  }

  lemma {:induction false} KeepsHistory<T>(s: State<T>, h: History, e: Event<T>)
    requires h.chain != [] && Ready(s, e) && Safe(s, e)
    requires e.Go? ==> !s.threads[e.t].WantHead? && !s.threads[e.t].HasBoth? && !s.threads[e.t].PushReady?
    ensures var h' := Remember(s, h, e);
      h'.chain == h.chain && h'.clock == h.clock && h'.ticket == h.ticket
  {
  }

  /** Steps that move no thread along the chain, or out of the list. */
  lemma {:induction false} StillKeepsOrder<T>(s: State<T>, h: History, e: Event<T>)
    requires h.chain != [] && OrderInv(s, h) && Ready(s, e) && Safe(s, e)
    requires e.Go? ==> var pc := s.threads[e.t];
      !pc.WantHead? && !pc.WantNext? && !pc.HasBoth? && !pc.PushReady?
    ensures OrderInv(Step(s, e), Remember(s, h, e))
  {
    var s', t := Step(s, e), e.t;
    MovesOnly(s, e);
    KeepsHistory(s, h, e);
    if Inside(s', t) {
      StandsStill(s, e);
    }
    StandsInPlace(s, s', h, t);
    OrderStays(s, s', h, Remember(s, h, e), t);
  }

  lemma {:induction false} OthersLeftHead<T>(s: State<T>, h: History, t: Tid, u: Tid)
    requires HeapInv(s, h.chain) && Ready(s, Go(t)) && Safe(s, Go(t)) && s.threads[t].WantHead?
    requires u != t && Inside(Step(s, Go(t)), u)
    ensures Inside(s, u) && Step(s, Go(t)).threads[u] == s.threads[u] && Rear(s, h.chain, u) > 0
  {
    assert SamePc(s, Step(s, Go(t)), u);
    Stands(s, h.chain, u);
  }

  lemma {:induction false} EntersLast<T>(s: State<T>, s': State<T>, h: History, h': History, t: Tid)
    requires OrderInv(s, h) && h'.chain == h.chain && h'.clock == h.clock + 1 && h'.ticket == h.ticket[t := h.clock]
    requires Inside(s', t) && Rear(s', h.chain, t) == Front(s', h.chain, t) == 0
    requires forall u | u != t && Inside(s', u) ::
      Inside(s, u) && s'.threads[u] == s.threads[u] && Rear(s', h.chain, u) > 0
    ensures OrderInv(s', h')
  {
    forall u, v | Inside(s', u) && Inside(s', v) && Before(h', u, v)
      ensures Rear(s', h'.chain, u) > Front(s', h'.chain, v)
    {
      assert u != t;
      assert v != t ==> Before(h, u, v);
    }
  }

  /** Taking `head.m`: every thread inside has left the head behind. */
  lemma {:induction false} EnterKeepsOrder<T>(s: State<T>, h: History, t: Tid)
    requires HeapInv(s, h.chain) && OrderInv(s, h) && Ready(s, Go(t)) && Safe(s, Go(t)) && s.threads[t].WantHead?
    ensures OrderInv(Step(s, Go(t)), Remember(s, h, Go(t)))
  {
    var s' := Step(s, Go(t));
    assert h.chain[0] == HEAD;
    forall u | u != t && Inside(s', u)
      ensures Inside(s, u) && s'.threads[u] == s.threads[u] && Rear(s', h.chain, u) > 0
    {
      OthersLeftHead(s, h, t, u);
    }
    EntersLast(s, s', h, Remember(s, h, Go(t)), t);
  }

  lemma {:induction false} NotOnFreeNode<T>(s: State<T>, chain: seq<Id>, u: Tid, rear: Id, nxt: Id)
    requires Owns(s, u, rear) && nxt !in s.owner && rear in chain && nxt in chain
    ensures Pos(chain, rear) != Pos(chain, nxt)
  {
    assert chain[Pos(chain, rear)] == rear && chain[Pos(chain, nxt)] == nxt;
  }

  lemma {:induction false} AheadOfFreeNode<T>(s: State<T>, h: History, t: Tid, u: Tid)
    requires HeapInv(s, h.chain) && OrderInv(s, h) && Ready(s, Go(t)) && Inside(s, t) && s.threads[t].WantNext?
    requires Inside(s, u) && Before(h, u, t)
    ensures Rear(s, h.chain, u) > Pos(h.chain, s.threads[t].nxt)
  {
    var pc := s.threads[t];
    assert PcOk(s, h.chain, pc);
    NextIsLinked(s, h.chain, pc.cur, pc.nxt);
    Stands(s, h.chain, u);
    NotOnFreeNode(s, h.chain, u, RearNode(s.threads[u]), pc.nxt);
    assert Rear(s, h.chain, u) > Front(s, h.chain, t) == Pos(h.chain, pc.cur);
  }

  /** Taking the next mutex: it is free, so the threads ahead are beyond it. */
  lemma {:induction false} AdvanceKeepsOrder<T>(s: State<T>, h: History, t: Tid)
    requires HeapInv(s, h.chain) && OrderInv(s, h) && Ready(s, Go(t)) && Safe(s, Go(t)) && s.threads[t].WantNext?
    ensures OrderInv(Step(s, Go(t)), Remember(s, h, Go(t)))
  {
    var s' := Step(s, Go(t));
    forall u | Inside(s, u) && Before(h, u, t)
      ensures Rear(s, h.chain, u) > Front(s', h.chain, t)
    {
      AheadOfFreeNode(s, h, t, u);
    }
    OrderStays(s, s', h, Remember(s, h, Go(t)), t);
  }

  /** Giving the rear mutex back. */
  lemma {:induction false} PassKeepsOrder<T>(s: State<T>, h: History, t: Tid)
    requires h.chain != [] && OrderInv(s, h) && Ready(s, Go(t)) && Safe(s, Go(t))
    requires s.threads[t].HasBoth? && IsQuiet(s, Go(t)) && Rear(s, h.chain, t) <= Front(s, h.chain, t)
    ensures OrderInv(Step(s, Go(t)), Remember(s, h, Go(t)))
  {
    OrderStays(s, Step(s, Go(t)), h, Remember(s, h, Go(t)), t);
  }

  /** The chain changes, and nobody overtakes anybody. */
  lemma {:induction false} OrderMoves<T>(s: State<T>, s': State<T>, h: History, h': History)
    requires OrderInv(s, h) && h'.clock == h.clock && h'.ticket == h.ticket
    requires forall u | Inside(s', u) :: Inside(s, u)
    requires forall u, v | Inside(s', u) && Inside(s', v) && Rear(s, h.chain, u) > Front(s, h.chain, v) ::
      Rear(s', h'.chain, u) > Front(s', h'.chain, v)
    ensures OrderInv(s', h')
  {
  }

  lemma {:induction false} LinkShifts<T>(s: State<T>, h: History, t: Tid, u: Tid)
    requires HeapInv(s, h.chain) && Ready(s, Go(t)) && Safe(s, Go(t)) && s.threads[t].PushReady?
    requires s.unused !in h.chain && Inside(Step(s, Go(t)), u)
    ensures var s', chain' := Step(s, Go(t)), Insert(h.chain, s.unused);
      && Inside(s, u)
      && Rear(s', chain', u) == Rear(s, h.chain, u) + (if u == t then 0 else 1)
      && Front(s', chain', u) == Front(s, h.chain, u) + (if u == t then 0 else 1)
      && (u == t ==> Rear(s, h.chain, u) == 0)
  {
    InsertFacts(h.chain, s.unused);
    assert PcOk(s, h.chain, s.threads[t]);
    Stands(s, h.chain, t);
    if u != t {
      assert SamePc(s, Step(s, Go(t)), u);
      Stands(s, h.chain, u);
      InsertPos(h.chain, s.unused, RearNode(s.threads[u]));
      InsertPos(h.chain, s.unused, FrontNode(s.threads[u]));
    }
  }

  lemma {:induction false} LinkKeepsOrder<T>(s: State<T>, h: History, t: Tid)
    requires HeapInv(s, h.chain) && OrderInv(s, h) && Ready(s, Go(t)) && Safe(s, Go(t)) && s.threads[t].PushReady?
    requires s.unused !in h.chain
    ensures OrderInv(Step(s, Go(t)), Remember(s, h, Go(t)))
  {
    var s', h' := Step(s, Go(t)), Remember(s, h, Go(t));
    forall u | Inside(s', u)
      ensures Inside(s, u)
    {
      LinkShifts(s, h, t, u);
    }
    forall u, v | Inside(s', u) && Inside(s', v) && Rear(s, h.chain, u) > Front(s, h.chain, v)
      ensures Rear(s', h'.chain, u) > Front(s', h'.chain, v)
    {
      LinkShifts(s, h, t, u);
      LinkShifts(s, h, t, v);
    }
    OrderMoves(s, s', h, h');
  }

  lemma {:induction false} UnlinkShiftsSelf<T>(s: State<T>, h: History, t: Tid)
    requires HeapInv(s, h.chain) && Ready(s, Go(t)) && Safe(s, Go(t))
    requires s.threads[t].HasBoth? && !IsQuiet(s, Go(t))
    ensures var s', k := Step(s, Go(t)), Pos(h.chain, s.threads[t].nxt);
      && 0 < k < |h.chain| && Inside(s, t)
      && Rear(s, h.chain, t) == k - 1 && Front(s, h.chain, t) == k
      && Rear(s', Cut(h.chain, k), t) == Front(s', Cut(h.chain, k), t) == k - 1
  {
    var pc := s.threads[t];
    assert PcOk(s, h.chain, pc);
    NextIsLinked(s, h.chain, pc.cur, pc.nxt);
    CutPos(h.chain, Pos(h.chain, pc.nxt), pc.cur);
  }

  lemma {:induction false} UnlinkShiftsOther<T>(s: State<T>, h: History, t: Tid, u: Tid, k: nat)
    requires HeapInv(s, h.chain) && Inside(s, u) && Inside(s, t) && u != t && s.threads[t].HasBoth?
    requires k == Pos(h.chain, s.threads[t].nxt) < |h.chain|
    ensures var pc := s.threads[u];
      && Rear(s, h.chain, u) != k && Front(s, h.chain, u) != k
      && Pos(Cut(h.chain, k), RearNode(pc)) == AfterCut(Rear(s, h.chain, u), k)
      && Pos(Cut(h.chain, k), FrontNode(pc)) == AfterCut(Front(s, h.chain, u), k)
  {
    Stands(s, h.chain, t);
    Stands(s, h.chain, u);
    CutPos(h.chain, k, RearNode(s.threads[u]));
    CutPos(h.chain, k, FrontNode(s.threads[u]));
  }

  lemma {:induction false} UnlinkShifts<T>(s: State<T>, h: History, t: Tid, u: Tid)
    requires HeapInv(s, h.chain) && Ready(s, Go(t)) && Safe(s, Go(t))
    requires s.threads[t].HasBoth? && !IsQuiet(s, Go(t)) && Inside(Step(s, Go(t)), u)
    ensures var s', k := Step(s, Go(t)), Pos(h.chain, s.threads[t].nxt);
      && 0 < k < |h.chain| && Inside(s, u)
      && (u != t ==> Rear(s, h.chain, u) != k && Front(s, h.chain, u) != k)
      && Rear(s', Cut(h.chain, k), u) == AfterCut(Rear(s, h.chain, u), k)
      && Front(s', Cut(h.chain, k), u) == AfterCut(Front(s, h.chain, u), k)
      && (u == t ==> Rear(s, h.chain, u) == k - 1 && Front(s, h.chain, u) == k)
  {
    UnlinkShiftsSelf(s, h, t);
    if u != t {
      assert SamePc(s, Step(s, Go(t)), u);
      UnlinkShiftsOther(s, h, t, u, Pos(h.chain, s.threads[t].nxt));
    }
  }

  lemma {:induction false} UnlinkKeepsOrder<T>(s: State<T>, h: History, t: Tid)
    requires HeapInv(s, h.chain) && OrderInv(s, h) && Ready(s, Go(t)) && Safe(s, Go(t))
    requires s.threads[t].HasBoth? && !IsQuiet(s, Go(t))
    ensures OrderInv(Step(s, Go(t)), Remember(s, h, Go(t)))
  {
    var s', h' := Step(s, Go(t)), Remember(s, h, Go(t));
    forall u | Inside(s', u)
      ensures Inside(s, u)
    {
      UnlinkShifts(s, h, t, u);
    }
    UnlinkShifts(s, h, t, t);
    forall u, v | Inside(s', u) && Inside(s', v) && Rear(s, h.chain, u) > Front(s, h.chain, v)
      ensures Rear(s', h'.chain, u) > Front(s', h'.chain, v)
    {
      UnlinkShifts(s, h, t, u);
      UnlinkShifts(s, h, t, v);
    }
    OrderMoves(s, s', h, h');
  }

  function AfterCut(i: nat, k: nat): int { if i < k then i else i - 1 }

  lemma {:induction false} StepKeepsOrder<T>(s: State<T>, h: History, e: Event<T>)
    requires HeapInv(s, h.chain) && OrderInv(s, h) && Ready(s, e) && Safe(s, e)
    ensures OrderInv(Step(s, e), Remember(s, h, e))
  {
    if e.Start? || s.threads[e.t].AtNode? || s.threads[e.t].Visiting? {
      StillKeepsOrder(s, h, e);
    } else {
      match s.threads[e.t]
      case WantHead(_) => EnterKeepsOrder(s, h, e.t);
      case PushReady(_) =>
        assert forall n | n in h.chain :: n in s.next;
        LinkKeepsOrder(s, h, e.t);
      case WantNext(_, _, _) => AdvanceKeepsOrder(s, h, e.t);
      case HasBoth(_, _, _) =>
        if IsQuiet(s, e) {
          Stands(s, h.chain, e.t);
          PassKeepsOrder(s, h, e.t);
        } else {
          UnlinkKeepsOrder(s, h, e.t);
        }
      case _ => StillKeepsOrder(s, h, e);
    }
  }

  // ---------------------------------------------------------------- visits are kept

  lemma {:induction false} VisitsInsert<T>(pc: Pc<T>, chain: seq<Id>, start: seq<Id>, visited: seq<Id>, n: Id)
    requires VisitsOf(pc, chain, start, visited, n) && chain != [] && Distinct(chain) && n !in chain
    requires RearNode(pc) in chain && RearNode(pc) != chain[0]
    ensures VisitsOf(pc, Insert(chain, n), start, visited, n + 1)
  {
    if !pc.WantHead? && !pc.op.Push? {
      InsertPos(chain, n, RearNode(pc));
      VisitInsert(chain, Done(chain, pc), start, visited, n);
    }
  }

  lemma {:induction false} DoneCut<T>(pc: Pc<T>, chain: seq<Id>, k: nat)
    requires Distinct(chain) && 0 < k < |chain| && RearNode(pc) in chain && RearNode(pc) != chain[k]
    ensures var done := Done(chain, pc);
      Done(Cut(chain, k), pc) == if k <= done then done - 1 else done
  {
  }

  lemma {:induction false} VisitsCut<T>(pc: Pc<T>, chain: seq<Id>, start: seq<Id>, visited: seq<Id>, unused: Id, k: nat)
    requires VisitsOf(pc, chain, start, visited, unused) && Distinct(chain) && 0 < k < |chain|
    requires RearNode(pc) in chain && RearNode(pc) != chain[k]
    ensures VisitsOf(pc, Cut(chain, k), start, visited, unused)
  {
    if !pc.WantHead? && !pc.op.Push? {
      DoneCut(pc, chain, k);
      VisitCut(chain, Done(chain, pc), start, visited, k);
    }
  }

  lemma {:induction false} OthersRemembered<T>(s: State<T>, h: History, e: Event<T>, u: Tid)
    requires Ready(s, e) && Safe(s, e) && h.chain != [] && u != e.t
    ensures var h' := Remember(s, h, e);
      StartOf(h', u) == StartOf(h, u) && VisitedBy(h', u) == VisitedBy(h, u)
  {
  }

  lemma {:induction false} OthersStay<T>(s: State<T>, e: Event<T>, u: Tid)
    requires Ready(s, e) && Safe(s, e) && u != e.t
    ensures SamePc(s, Step(s, e), u) && Step(s, e).unused >= s.unused
  {
  }

  /** What a step of another thread leaves as it is. */
  lemma {:induction false} OtherUntouched<T>(s: State<T>, h: History, e: Event<T>, u: Tid)
    requires Ready(s, e) && Safe(s, e) && h.chain != [] && u != e.t
    ensures var s', h' := Step(s, e), Remember(s, h, e);
      && SamePc(s, s', u) && StartOf(h', u) == StartOf(h, u) && VisitedBy(h', u) == VisitedBy(h, u)
      && s'.unused >= s.unused
  {
    OthersRemembered(s, h, e, u);
    OthersStay(s, e, u);
  }

  /** How a step changes the chain. */
  lemma {:induction false} ChainEffect<T>(s: State<T>, h: History, e: Event<T>)
    requires HeapInv(s, h.chain) && Ready(s, e) && Safe(s, e)
    ensures var s', h' := Step(s, e), Remember(s, h, e);
      if e.Go? && s.threads[e.t].PushReady? then
        s.unused !in h.chain && h'.chain == Insert(h.chain, s.unused) && s'.unused == s.unused + 1
        && Owns(s, e.t, HEAD) && s'.data == s.data[s.unused := s.threads[e.t].op.value]
      else if !IsQuiet(s, e) && s.threads[e.t].HasBoth? then
        var nxt := s.threads[e.t].nxt;
        var k := Pos(h.chain, nxt);
        0 < k < |h.chain| && h.chain[k] == nxt && h'.chain == Cut(h.chain, k) && s'.unused == s.unused
        && Owns(s, e.t, nxt) && s'.data == s.data
      else
        h'.chain == h.chain && s'.unused == s.unused
        && (forall n | n in s'.data :: n in s.data && s'.data[n] == s.data[n])
  {
    if e.Go? {
      var pc := s.threads[e.t];
      assert PcOk(s, h.chain, pc);
      if pc.PushReady? {
        assert forall n | n in h.chain :: n in s.next;
        assert Locks(s, e.t, HEAD);
      } else if pc.HasBoth? && !IsQuiet(s, e) {
        NextIsLinked(s, h.chain, pc.cur, pc.nxt);
        assert Locks(s, e.t, pc.nxt);
      }
    }
  }

  /** A step of another thread, seen by a traversal. */
  lemma {:induction false} OtherKeepsVisits<T>(s: State<T>, h: History, e: Event<T>, u: Tid)
    requires HeapInv(s, h.chain) && Ready(s, e) && Safe(s, e) && u != e.t
    requires u in s.threads && VisitInv(s, h, u)
    ensures u in Step(s, e).threads && VisitInv(Step(s, e), Remember(s, h, e), u)
  {
    OtherUntouched(s, h, e, u);
    ChainEffect(s, h, e);
    var pc, start, visited := s.threads[u], StartOf(h, u), VisitedBy(h, u);
    if !pc.WantHead? {
      assert RearNode(pc) in h.chain && Owns(s, u, RearNode(pc)) by {
        Stands(s, h.chain, u);
      }
      if e.Go? && s.threads[e.t].PushReady? {
        VisitsInsert(pc, h.chain, start, visited, s.unused);
      } else if !IsQuiet(s, e) && s.threads[e.t].HasBoth? {
        VisitsCut(pc, h.chain, start, visited, s.unused, Pos(h.chain, s.threads[e.t].nxt));
      }
    }
  }

  /** Moving on from `nxt`, the first node not yet dealt with. */
  lemma {:induction false} VisitsNext<T>(pc: Pc<T>, pc': Pc<T>, chain: seq<Id>, start: seq<Id>, visited: seq<Id>,
                                         unused: Id, nxt: Id)
    requires VisitsOf(pc, chain, start, visited, unused) && !pc.WantHead? && !pc.op.Push?
    requires Done(chain, pc) + 1 == Pos(chain, nxt) < |chain| && nxt != HEAD
    requires RearNode(pc') == nxt && !pc'.Visiting?
    ensures VisitsOf(pc', chain, start, visited + [nxt], unused)
  {
    VisitNext(chain, Done(chain, pc), start, visited);
  }

  /** Examining and unlinking it. */
  lemma {:induction false} VisitsUnlink<T>(pc: Pc<T>, pc': Pc<T>, chain: seq<Id>, start: seq<Id>, visited: seq<Id>,
                                           unused: Id, nxt: Id)
    requires VisitsOf(pc, chain, start, visited, unused) && !pc.WantHead? && !pc.op.Push? && Distinct(chain)
    requires Done(chain, pc) + 1 == Pos(chain, nxt) < |chain| && nxt != HEAD
    requires RearNode(pc') == RearNode(pc) && !pc'.Visiting? && !pc.Visiting? && RearNode(pc) in chain
    ensures VisitsOf(pc', Cut(chain, Pos(chain, nxt)), start, visited + [nxt], unused)
  {
    var k := Pos(chain, nxt);
    VisitNext(chain, Done(chain, pc), start, visited);
    VisitCut(chain, k, start, visited + [nxt], k);
    CutPos(chain, k, RearNode(pc));
  }

  /** Steps in which a traversal neither enters, nor passes a node, nor leaves. */
  lemma {:induction false} SelfStands<T>(s: State<T>, h: History, t: Tid)
    requires h.chain != [] && Ready(s, Go(t)) && Safe(s, Go(t)) && VisitInv(s, h, t)
    requires !s.threads[t].WantHead? && !s.threads[t].HasBoth? && !s.threads[t].Visiting?
    requires !s.threads[t].PushReady? && !s.threads[t].Finishing?
    ensures t in Step(s, Go(t)).threads && VisitInv(Step(s, Go(t)), Remember(s, h, Go(t)), t)
  {
    var s', h', pc := Step(s, Go(t)), Remember(s, h, Go(t)), s.threads[t];
    assert h' == h && s'.unused == s.unused;
    assert RearNode(s'.threads[t]) == RearNode(pc) && !s'.threads[t].Visiting? && s'.threads[t].op == pc.op;
    assert Done(h.chain, s'.threads[t]) == Done(h.chain, pc);
  }

  lemma {:induction false} SelfEnters<T>(s: State<T>, h: History, t: Tid)
    requires HeapInv(s, h.chain) && Ready(s, Go(t)) && Safe(s, Go(t)) && s.threads[t].WantHead?
    ensures VisitInv(Step(s, Go(t)), Remember(s, h, Go(t)), t)
  {
    VisitStart(h.chain);
    assert forall n | n in h.chain :: n in s.next;
  }

  lemma {:induction false} SelfVisits<T>(s: State<T>, h: History, t: Tid, op: Op<T>, nxt: Id)
    requires HeapInv(s, h.chain) && Ready(s, Go(t)) && Safe(s, Go(t)) && VisitInv(s, h, t)
    requires s.threads[t] == Visiting(op, nxt)
    ensures VisitInv(Step(s, Go(t)), Remember(s, h, Go(t)), t)
  {
    assert PcOk(s, h.chain, s.threads[t]);
    VisitsNext(s.threads[t], Step(s, Go(t)).threads[t], h.chain, StartOf(h, t), VisitedBy(h, t), s.unused, nxt);
  }

  lemma {:induction false} AfterExamining<T>(s: State<T>, h: History, t: Tid, op: Op<T>, cur: Id, nxt: Id)
    requires h.chain != [] && Ready(s, Go(t)) && Safe(s, Go(t)) && s.threads[t] == HasBoth(op, cur, nxt) && op.Remove?
    requires Pos(h.chain, nxt) < |h.chain|
    ensures var s', h' := Step(s, Go(t)), Remember(s, h, Go(t));
      && t in s'.threads && s'.unused == s.unused
      && StartOf(h', t) == StartOf(h, t) && VisitedBy(h', t) == VisitedBy(h, t) + [nxt]
      && if op.p(s.data[nxt]) then
           s'.threads[t] == Unlinked(op, cur, nxt) && h'.chain == Cut(h.chain, Pos(h.chain, nxt))
         else s'.threads[t] == AtNode(op, nxt) && h'.chain == h.chain
  {
  }

  lemma {:induction false} VisitInvIs<T>(s': State<T>, h': History, t: Tid, pc': Pc<T>, visited: seq<Id>)
    requires t in s'.threads && s'.threads[t] == pc' && VisitedBy(h', t) == visited
    requires VisitsOf(pc', h'.chain, StartOf(h', t), visited, s'.unused)
    ensures VisitInv(s', h', t)
  {
  }

  /** Where a thread with two mutexes stands. */
  lemma {:induction false} BothAreNeighbours<T>(s: State<T>, chain: seq<Id>, t: Tid, op: Op<T>, cur: Id, nxt: Id)
    requires HeapInv(s, chain) && t in s.threads && s.threads[t] == HasBoth(op, cur, nxt)
    ensures !op.Push? && cur in chain && Distinct(chain)
    ensures Pos(chain, cur) + 1 == Pos(chain, nxt) < |chain| && nxt != HEAD
  {
    assert PcOk(s, chain, s.threads[t]);
    NextIsLinked(s, chain, cur, nxt);
  }

  lemma {:induction false} ExaminesNeighbour<T>(s: State<T>, h: History, t: Tid, op: Op<T>, cur: Id, nxt: Id)
    requires h.chain != [] && Ready(s, Go(t)) && Safe(s, Go(t)) && VisitInv(s, h, t)
    requires s.threads[t] == HasBoth(op, cur, nxt) && op.Remove? && cur in h.chain && Distinct(h.chain)
    requires Pos(h.chain, cur) + 1 == Pos(h.chain, nxt) < |h.chain| && nxt != HEAD
    ensures t in Step(s, Go(t)).threads && VisitInv(Step(s, Go(t)), Remember(s, h, Go(t)), t)
  {
    var pc, start, visited := s.threads[t], StartOf(h, t), VisitedBy(h, t);
    AfterExamining(s, h, t, op, cur, nxt);
    var pc' := if op.p(s.data[nxt]) then Unlinked(op, cur, nxt) else AtNode(op, nxt);
    if op.p(s.data[nxt]) {
      VisitsUnlink(pc, pc', h.chain, start, visited, s.unused, nxt);
    } else {
      VisitsNext(pc, pc', h.chain, start, visited, s.unused, nxt);
    }
    VisitInvIs(Step(s, Go(t)), Remember(s, h, Go(t)), t, pc', visited + [nxt]);
  }

  lemma {:induction false} SelfExamines<T>(s: State<T>, h: History, t: Tid, op: Op<T>, cur: Id, nxt: Id)
    requires HeapInv(s, h.chain) && Ready(s, Go(t)) && Safe(s, Go(t)) && VisitInv(s, h, t)
    requires s.threads[t] == HasBoth(op, cur, nxt) && op.Remove?
    ensures t in Step(s, Go(t)).threads && VisitInv(Step(s, Go(t)), Remember(s, h, Go(t)), t)
  {
    BothAreNeighbours(s, h.chain, t, op, cur, nxt);
    ExaminesNeighbour(s, h, t, op, cur, nxt);
  }

  lemma {:induction false} VisitsSame<T>(pc: Pc<T>, pc': Pc<T>, chain: seq<Id>, start: seq<Id>, visited: seq<Id>,
                                         unused: Id)
    requires VisitsOf(pc, chain, start, visited, unused) && !pc.WantHead? && !pc.op.Push?
    requires Done(chain, pc') == Done(chain, pc)
    ensures VisitsOf(pc', chain, start, visited, unused)
  {
  }

  lemma {:induction false} AfterLeaving<T>(s: State<T>, h: History, t: Tid, op: Op<T>, cur: Id, nxt: Id)
    requires h.chain != [] && Ready(s, Go(t)) && Safe(s, Go(t)) && s.threads[t] == HasBoth(op, cur, nxt) && !op.Remove?
    ensures var s' := Step(s, Go(t));
      t in s'.threads && s'.threads[t] == Visiting(op, nxt) && s'.unused == s.unused && Remember(s, h, Go(t)) == h
  {
  }

  lemma {:induction false} DoneAfterLeaving<T>(s: State<T>, chain: seq<Id>, t: Tid, op: Op<T>, cur: Id, nxt: Id)
    requires HeapInv(s, chain) && t in s.threads && s.threads[t] == HasBoth(op, cur, nxt)
    ensures Done(chain, Visiting(op, nxt)) == Done(chain, s.threads[t]) && !op.Push?
  {
    assert PcOk(s, chain, s.threads[t]);
    NextIsLinked(s, chain, cur, nxt);
  }

  lemma {:induction false} SelfLeaves<T>(s: State<T>, h: History, t: Tid, op: Op<T>, cur: Id, nxt: Id)
    requires HeapInv(s, h.chain) && Ready(s, Go(t)) && Safe(s, Go(t)) && VisitInv(s, h, t)
    requires s.threads[t] == HasBoth(op, cur, nxt) && !op.Remove?
    ensures VisitInv(Step(s, Go(t)), Remember(s, h, Go(t)), t)
  {
    AfterLeaving(s, h, t, op, cur, nxt);
    DoneAfterLeaving(s, h.chain, t, op, cur, nxt);
    VisitsSame(s.threads[t], Visiting(op, nxt), h.chain, StartOf(h, t), VisitedBy(h, t), s.unused);
  }

  lemma {:induction false} SelfPasses<T>(s: State<T>, h: History, t: Tid)
    requires HeapInv(s, h.chain) && Ready(s, Go(t)) && Safe(s, Go(t)) && VisitInv(s, h, t)
    requires s.threads[t].HasBoth? || s.threads[t].Visiting?
    ensures VisitInv(Step(s, Go(t)), Remember(s, h, Go(t)), t)
  {
    match s.threads[t]
    case Visiting(op, nxt) => SelfVisits(s, h, t, op, nxt);
    case HasBoth(op, cur, nxt) =>
      if op.Remove? {
        SelfExamines(s, h, t, op, cur, nxt);
      } else {
        SelfLeaves(s, h, t, op, cur, nxt);
      }
  }

  lemma {:induction false} SelfKeepsVisits<T>(s: State<T>, h: History, t: Tid)
    requires HeapInv(s, h.chain) && Ready(s, Go(t)) && Safe(s, Go(t)) && t in Step(s, Go(t)).threads
    requires VisitInv(s, h, t)
    ensures VisitInv(Step(s, Go(t)), Remember(s, h, Go(t)), t)
  {
    var pc := s.threads[t];
    if pc.WantHead? {
      SelfEnters(s, h, t);
    } else if pc.HasBoth? || pc.Visiting? {
      SelfPasses(s, h, t);
    } else if !pc.PushReady? {
      SelfStands(s, h, t);
    }
  }

  // ---------------------------------------------------------------- rejected nodes stay rejected

  lemma {:induction false} ChainShrinksTo<T>(s: State<T>, h: History, e: Event<T>, n: Id)
    requires HeapInv(s, h.chain) && Ready(s, e) && Safe(s, e) && n in Remember(s, h, e).chain && n != s.unused
    ensures n in h.chain
  {
    ChainEffect(s, h, e);
    if e.Go? && s.threads[e.t].PushReady? {
      InsertFacts(h.chain, s.unused);
    } else if !IsQuiet(s, e) && s.threads[e.t].HasBoth? {
      CutFacts(h.chain, Pos(h.chain, s.threads[e.t].nxt));
    }
  }

  lemma {:induction false} OtherKeepsRejects<T>(s: State<T>, h: History, e: Event<T>, u: Tid)
    requires HeapInv(s, h.chain) && Ready(s, e) && Safe(s, e) && u != e.t
    requires u in s.threads && VisitInv(s, h, u) && RejectInv(s, h, u)
    ensures u in Step(s, e).threads && RejectInv(Step(s, e), Remember(s, h, e), u)
  {
    OtherUntouched(s, h, e, u);
    ChainEffect(s, h, e);
    forall n | n in Remember(s, h, e).chain && n != s.unused
      ensures n in h.chain
    {
      ChainShrinksTo(s, h, e, n);
    }
  }

  lemma {:induction false} SelfUnlinks<T>(s: State<T>, h: History, t: Tid)
    requires HeapInv(s, h.chain) && Ready(s, Go(t)) && Safe(s, Go(t)) && RejectInv(s, h, t)
    requires s.threads[t].HasBoth? && !IsQuiet(s, Go(t))
    ensures RejectInv(Step(s, Go(t)), Remember(s, h, Go(t)), t)
  {
    ChainEffect(s, h, Go(t));
    CutFacts(h.chain, Pos(h.chain, s.threads[t].nxt));
  }

  lemma {:induction false} SelfFrees<T>(s: State<T>, h: History, t: Tid)
    requires HeapInv(s, h.chain) && Ready(s, Go(t)) && Safe(s, Go(t)) && RejectInv(s, h, t)
    requires s.threads[t].Unlocked? && t in Step(s, Go(t)).threads
    ensures RejectInv(Step(s, Go(t)), Remember(s, h, Go(t)), t)
  {
  }

  lemma {:induction false} SelfLooks<T>(s: State<T>, h: History, t: Tid)
    requires HeapInv(s, h.chain) && Ready(s, Go(t)) && Safe(s, Go(t)) && RejectInv(s, h, t)
    requires (s.threads[t].HasBoth? || s.threads[t].Visiting?) && IsQuiet(s, Go(t))
    ensures t in Step(s, Go(t)).threads && RejectInv(Step(s, Go(t)), Remember(s, h, Go(t)), t)
  {
    assert PcOk(s, h.chain, s.threads[t]);
  }

  lemma {:induction false} SelfIdles<T>(s: State<T>, h: History, t: Tid)
    requires h.chain != [] && Ready(s, Go(t)) && Safe(s, Go(t)) && RejectInv(s, h, t)
    requires IsQuiet(s, Go(t)) && !s.threads[t].HasBoth? && !s.threads[t].Visiting? && t in Step(s, Go(t)).threads
    ensures RejectInv(Step(s, Go(t)), Remember(s, h, Go(t)), t)
  {
  }

  lemma {:induction false} SelfKeepsRejects<T>(s: State<T>, h: History, t: Tid)
    requires HeapInv(s, h.chain) && Ready(s, Go(t)) && Safe(s, Go(t)) && t in Step(s, Go(t)).threads
    requires RejectInv(s, h, t)
    ensures RejectInv(Step(s, Go(t)), Remember(s, h, Go(t)), t)
  {
    var pc := s.threads[t];
    if pc.PushReady? {
      assert PcOk(s, h.chain, pc);
    } else if pc.HasBoth? && !IsQuiet(s, Go(t)) {
      SelfUnlinks(s, h, t);
    } else if pc.Unlocked? {
      SelfFrees(s, h, t);
    } else if pc.HasBoth? || pc.Visiting? {
      SelfLooks(s, h, t);
    } else {
      SelfIdles(s, h, t);
    }
  }

  // ---------------------------------------------------------------- the size counter

  lemma {:induction false} SelfRemoving<T>(s: State<T>, e: Event<T>)
    requires Ready(s, e) && Safe(s, e)
    ensures var was, now := e.t in RemovingThreads(s), e.t in RemovingThreads(Step(s, e));
      if IsQuiet(s, e) || s.threads[e.t].PushReady? then now == was
      else if s.threads[e.t].HasBoth? then now && !was
      else !now && was
  {
  }

  lemma {:induction false} RemovingAfter<T>(s: State<T>, e: Event<T>)
    requires Ready(s, e) && Safe(s, e)
    ensures var was, now := RemovingThreads(s), RemovingThreads(Step(s, e));
      if IsQuiet(s, e) || s.threads[e.t].PushReady? then now == was
      else if s.threads[e.t].HasBoth? then now == was + {e.t} && e.t !in was
      else now == was - {e.t} && e.t in was
  {
    var was, now := RemovingThreads(s), RemovingThreads(Step(s, e));
    SelfRemoving(s, e);
    forall u | u != e.t
      ensures u in was <==> u in now
    {
      OthersStay(s, e, u);
    }
  }

  lemma {:induction false} StepKeepsSize<T>(s: State<T>, h: History, e: Event<T>)
    requires HeapInv(s, h.chain) && SizeInv(s, h) && Ready(s, e) && Safe(s, e)
    ensures SizeInv(Step(s, e), Remember(s, h, e))
  {
    RemovingAfter(s, e);
    ChainEffect(s, h, e);
    if e.Go? {
      assert PcOk(s, h.chain, s.threads[e.t]);
    }
  }

  // ---------------------------------------------------------------- the invariant over runs

  lemma {:induction false} ThreadsKeepVisits<T>(s: State<T>, h: History, e: Event<T>, u: Tid)
    requires Inv(s, h) && Ready(s, e) && Safe(s, e) && u in Step(s, e).threads
    ensures VisitInv(Step(s, e), Remember(s, h, e), u) && RejectInv(Step(s, e), Remember(s, h, e), u)
  {
    if u != e.t {
      OtherUntouched(s, h, e, u);
      OtherKeepsVisits(s, h, e, u);
      OtherKeepsRejects(s, h, e, u);
    } else if e.Go? {
      SelfKeepsVisits(s, h, u);
      SelfKeepsRejects(s, h, u);
    }
  }

  lemma {:induction false} StepKeepsInv<T>(s: State<T>, h: History, e: Event<T>)
    requires Inv(s, h) && Ready(s, e) && Safe(s, e)
    ensures Inv(Step(s, e), Remember(s, h, e))
  {
    StepKeepsHeap(s, h, e);
    StepKeepsOrder(s, h, e);
    StepKeepsSize(s, h, e);
    forall u | u in Step(s, e).threads
      ensures VisitInv(Step(s, e), Remember(s, h, e), u) && RejectInv(Step(s, e), Remember(s, h, e), u)
    {
      ThreadsKeepVisits(s, h, e, u);
    }
  }
}
