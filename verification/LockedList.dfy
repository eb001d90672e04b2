/** `ThreadSafeList` under concurrency: nodes linked by `next`, a mutex per node, traversals that
  * take the next mutex before they give up the current one.  Any number of threads; a step
  * is what one thread does between two points where another can be scheduled.
  */
module LockedList {
  import opened Base
  import opened Chain

  /** A `next` pointer. */
  datatype Link = Null | To(node: Id)

  datatype Op<!T> =
    | Push(value: T)
    | ForEach
    | Find(p: T -> bool)
    | Remove(p: T -> bool, all: bool)

  /** Program counter of a thread inside a list operation, with its local pointers. */
  datatype Pc<!T> =
    | WantHead(op: Op<T>)                              // about to lock head.m
    | PushReady(op: Op<T>)                             // holds head.m
    | AtNode(op: Op<T>, cur: Id)                       // holds cur; about to read cur->next
    | WantNext(op: Op<T>, cur: Id, nxt: Id)            // holds cur; about to lock nxt->m
    | HasBoth(op: Op<T>, cur: Id, nxt: Id)             // holds both
    | Visiting(op: Op<T>, nxt: Id)                     // holds nxt; about to call the callback
    | Unlinked(op: Op<T>, cur: Id, victim: Id)         // holds both; the victim is out of the chain
    | Unlocked(op: Op<T>, cur: Id, victim: Id)         // holds cur; about to count and free the victim
    | Finishing(op: Op<T>, cur: Id, found: bool)       // holds cur; about to release it and return

  /** The memory and the threads.  A node is allocated while it has a `next` field; a mutex is
    * free while it has no owner. */
  datatype State<!T> = State(
    next: map<Id, Link>, data: map<Id, T>, owner: map<Id, Tid>, size: int, unused: Id,
    threads: map<Tid, Pc<T>>)

  datatype Event<!T> = Start(t: Tid, op: Op<T>) | Go(t: Tid)

  function Init<T>(): State<T> {
    State(map[HEAD := Null], map[], map[], 0, HEAD + 1, map[])
  }

  /** The nodes whose fields or mutex the next step of a thread touches. */
  function Touches<T>(pc: Pc<T>): set<Id> {
    match pc
    case WantHead(_) => {HEAD}
    case PushReady(_) => {HEAD}
    case AtNode(_, cur) => {cur}
    case WantNext(_, cur, nxt) => {cur, nxt}
    case HasBoth(_, cur, nxt) => {cur, nxt}
    case Visiting(_, nxt) => {nxt}
    case Unlinked(_, cur, victim) => {cur, victim}
    case Unlocked(_, cur, victim) => {cur, victim}
    case Finishing(_, cur, _) => {cur}
  }

  /** The mutexes a thread holds. */
  function Holds<T>(pc: Pc<T>): set<Id> {
    match pc
    case WantHead(_) => {}
    case WantNext(_, cur, _) => {cur}
    case Unlocked(_, cur, _) => {cur}
    case _ => Touches(pc)
  }

  /** The mutex a thread waits for. */
  function Wants<T>(pc: Pc<T>): set<Id> {
    match pc
    case WantHead(_) => {HEAD}
    case WantNext(_, _, nxt) => {nxt}
    case _ => {}
  }

  /** The scheduler can run the event: the mutex it locks, if any, is free. */
  predicate Ready<T>(s: State<T>, e: Event<T>) {
    match e
    case Start(t, _) => t !in s.threads
    case Go(t) => t in s.threads && forall n | n in Wants(s.threads[t]) :: n !in s.owner
  }

  /** The step touches only allocated nodes. */
  predicate Safe<T>(s: State<T>, e: Event<T>) {
    e.Go? && e.t in s.threads ==>
      && Touches(s.threads[e.t]) <= s.next.Keys
      && (forall n | n in Touches(s.threads[e.t]) && n != HEAD :: n in s.data)
      && ((s.threads[e.t].HasBoth? || s.threads[e.t].Visiting?) ==> s.threads[e.t].nxt != HEAD)
  }

  // ---------------------------------------------------------------- steps

  function Goto<T>(s: State<T>, t: Tid, pc: Pc<T>): State<T> {
    s.(threads := s.threads[t := pc])
  }

  /** `push_front` under `head.m`. */
  function LinkFront<T>(s: State<T>, t: Tid, op: Op<T>): State<T>
    requires op.Push? && HEAD in s.next
  {
    Goto(s.(next := s.next[s.unused := s.next[HEAD]][HEAD := To(s.unused)],
            data := s.data[s.unused := op.value], size := s.size + 1, unused := s.unused + 1),
         t, Finishing(op, HEAD, false))
  }

  /** A removal with both mutexes in hand: unlink on a match, otherwise move on. */
  function Examine<T>(s: State<T>, t: Tid, op: Op<T>, cur: Id, nxt: Id): State<T>
    requires op.Remove? && nxt in s.data && cur in s.next && nxt in s.next
  {
    if op.p(s.data[nxt]) then
      Goto(s.(next := s.next[cur := s.next[nxt]][nxt := Null]), t, Unlinked(op, cur, nxt))
    else
      Goto(s.(owner := s.owner - {cur}), t, AtNode(op, nxt))
  }

  function GoStep<T>(s: State<T>, t: Tid): State<T>
    requires Ready(s, Go(t)) && Safe(s, Go(t))
  {
    match s.threads[t]
    case WantHead(op) =>
      Goto(s.(owner := s.owner[HEAD := t]), t, if op.Push? then PushReady(op) else AtNode(op, HEAD))
    case PushReady(op) => if op.Push? then LinkFront(s, t, op) else s
    case AtNode(op, cur) =>
      Goto(s, t, if s.next[cur].To? then WantNext(op, cur, s.next[cur].node) else Finishing(op, cur, false))
    case WantNext(op, cur, nxt) => Goto(s.(owner := s.owner[nxt := t]), t, HasBoth(op, cur, nxt))
    case HasBoth(op, cur, nxt) =>
      if op.Remove? then Examine(s, t, op, cur, nxt)
      else Goto(s.(owner := s.owner - {cur}), t, Visiting(op, nxt))
    case Visiting(op, nxt) =>
      Goto(s, t, if op.Find? && op.p(s.data[nxt]) then Finishing(op, nxt, true) else AtNode(op, nxt))
    case Unlinked(op, cur, victim) => Goto(s.(owner := s.owner - {victim}), t, Unlocked(op, cur, victim))
    case Unlocked(op, cur, victim) =>
      Goto(s.(next := s.next - {victim}, data := s.data - {victim}, size := s.size - 1), t,
           if op.Remove? && op.all then AtNode(op, cur) else Finishing(op, cur, true))
    case Finishing(op, cur, _) => s.(owner := s.owner - {cur}, threads := s.threads - {t})
  }

  function Step<T>(s: State<T>, e: Event<T>): State<T>
    requires Ready(s, e) && Safe(s, e)
  {
    match e
    case Start(t, op) => Goto(s, t, WantHead(op))
    case Go(t) => GoStep(s, t)
  }

  // ---------------------------------------------------------------- history

  /** What the proofs remember of a run: the present chain, the number under which each thread
    * took `head.m`, the chain it found there and the nodes it has visited since. */
  datatype History = History(
    chain: seq<Id>, clock: nat, ticket: map<Tid, nat>, start: map<Tid, seq<Id>>, visited: map<Tid, seq<Id>>)

  const NO_HISTORY := History([HEAD], 0, map[], map[], map[])

  function VisitedBy(h: History, t: Tid): seq<Id> {
    if t in h.visited then h.visited[t] else []
  }

  function StartOf(h: History, t: Tid): seq<Id> {
    if t in h.start then h.start[t] else []
  }

  function Remember<T>(s: State<T>, h: History, e: Event<T>): History
    requires Ready(s, e) && Safe(s, e) && h.chain != []
  {
    if e.Start? then h
    else
      var t := e.t;
      match s.threads[t]
      case WantHead(_) =>
        h.(clock := h.clock + 1, ticket := h.ticket[t := h.clock],
           start := h.start[t := h.chain], visited := h.visited[t := []])
      case PushReady(_) => h.(chain := Insert(h.chain, s.unused))
      case HasBoth(op, _, nxt) =>
        if !op.Remove? then h
        else
          var k := Pos(h.chain, nxt);
          h.(visited := h.visited[t := VisitedBy(h, t) + [nxt]],
             chain := if op.p(s.data[nxt]) && k < |h.chain| then Cut(h.chain, k) else h.chain)
      case Visiting(_, nxt) => h.(visited := h.visited[t := VisitedBy(h, t) + [nxt]])
      case _ => h
  }

  // ---------------------------------------------------------------- invariants

  function Successor(chain: seq<Id>, i: nat): Link {
    if i + 1 < |chain| then To(chain[i + 1]) else Null
  }

  /** Following `next` from the head gives exactly the chain: no cycle, no sharing. */
  ghost predicate LinkedBy<T>(s: State<T>, chain: seq<Id>) {
    && |chain| > 0 && chain[0] == HEAD && Distinct(chain)
    && (forall n | n in chain :: n in s.next)
    && (forall i {:trigger Successor(chain, i)} | 0 <= i < |chain| :: s.next[chain[i]] == Successor(chain, i))
  }

  /** Allocated nodes are older than the next fresh one, and all but the head carry data. */
  ghost predicate Allocated<T>(s: State<T>) {
    && (forall n | n in s.next :: n < s.unused)
    && s.data.Keys == s.next.Keys - {HEAD}
  }

  predicate Locks<T>(s: State<T>, t: Tid, n: Id) {
    t in s.threads && n in Holds(s.threads[t])
  }

  predicate Owns<T>(s: State<T>, t: Tid, n: Id) {
    n in s.owner && s.owner[n] == t
  }

  /** Mutexes and program counters agree. */
  ghost predicate Owned<T>(s: State<T>) {
    forall t, n :: Owns(s, t, n) <==> Locks(s, t, n)
  }

  /** Local pointers: `cur` is linked, `nxt` follows it, a victim is allocated but unlinked. */
  ghost predicate PcOk<T>(s: State<T>, chain: seq<Id>, pc: Pc<T>) {
    match pc
    case WantHead(_) => true
    case PushReady(op) => op.Push?
    case AtNode(op, cur) => !op.Push? && cur in chain
    case WantNext(op, cur, nxt) => !op.Push? && cur in chain && cur in s.next && s.next[cur] == To(nxt)
    case HasBoth(op, cur, nxt) => !op.Push? && cur in chain && cur in s.next && s.next[cur] == To(nxt)
    case Visiting(op, nxt) => (op.ForEach? || op.Find?) && nxt in chain && nxt != HEAD
    case Unlinked(op, cur, victim) => op.Remove? && cur in chain && victim !in chain && victim in s.next
    case Unlocked(op, cur, victim) => op.Remove? && cur in chain && victim !in chain && victim in s.next
    case Finishing(op, cur, found) => cur in chain && (op.Find? && found ==> cur != HEAD)
  }

  /** The node a removing thread has taken out of the chain and not yet freed. */
  predicate HasVictim<T>(s: State<T>, t: Tid, n: Id) {
    t in s.threads && (s.threads[t].Unlinked? || s.threads[t].Unlocked?) && s.threads[t].victim == n
  }

  /** Every allocated node is linked or is the victim of exactly one thread. */
  ghost predicate VictimsOk<T>(s: State<T>, chain: seq<Id>) {
    && (forall t, u, n | HasVictim(s, t, n) && HasVictim(s, u, n) :: t == u)
    && (forall n | n in s.next && n !in chain :: exists t :: HasVictim(s, t, n))
  }

  ghost predicate Wired<T>(s: State<T>, chain: seq<Id>)
    requires LinkedBy(s, chain)
  {
    && Allocated(s) && Owned(s) && VictimsOk(s, chain)
    && (forall t | t in s.threads :: PcOk(s, chain, s.threads[t]))
  }

  /** The heap half of the invariant. */
  ghost predicate HeapInv<T>(s: State<T>, chain: seq<Id>) {
    LinkedBy(s, chain) && Wired(s, chain)
  }

  // ---------------------------------------------------------------- memory safety

  /** In a consistent state every step that can be scheduled touches allocated nodes only. */
  lemma {:induction false} ReadyIsSafe<T>(s: State<T>, chain: seq<Id>, e: Event<T>)
    requires HeapInv(s, chain) && Ready(s, e)
    ensures Safe(s, e)
  {
    if e.Go? {
      var pc := s.threads[e.t];
      assert PcOk(s, chain, pc);
      if pc.WantNext? || pc.HasBoth? {
        NextIsLinked(s, chain, pc.cur, pc.nxt);
      }
    }
  }

  lemma {:induction false} NextIsLinked<T>(s: State<T>, chain: seq<Id>, cur: Id, nxt: Id)
    requires LinkedBy(s, chain) && cur in chain && cur in s.next && s.next[cur] == To(nxt)
    ensures Pos(chain, cur) + 1 < |chain| && chain[Pos(chain, cur) + 1] == nxt && nxt in chain
    ensures nxt != HEAD && Pos(chain, nxt) == Pos(chain, cur) + 1
  {
    var i := Pos(chain, cur);
    assert s.next[chain[i]] == Successor(chain, i);
    PosAt(chain, i + 1);
  }

  // ---------------------------------------------------------------- the heap invariant is kept

  /** Only `t` moves. */
  ghost predicate OnlyMoves<T>(s: State<T>, s': State<T>, t: Tid) {
    forall u | u != t :: SamePc(s, s', u)
  }

  ghost predicate SamePc<T>(s: State<T>, s': State<T>, u: Tid) {
    (u in s'.threads <==> u in s.threads) && (u in s.threads ==> s'.threads[u] == s.threads[u])
  }

  lemma {:induction false} OwnedStays<T>(s: State<T>, s': State<T>, t: Tid)
    requires Owned(s) && OnlyMoves(s, s', t)
    requires forall u, n | u != t :: Owns(s', u, n) <==> Owns(s, u, n)
    requires forall n :: Owns(s', t, n) <==> Locks(s', t, n)
    ensures Owned(s')
  {
    forall u, n
      ensures Owns(s', u, n) <==> Locks(s', u, n)
    {
      if u != t {
        assert SamePc(s, s', u);
        assert Locks(s', u, n) <==> Locks(s, u, n);
      }
    }
  }

  /** The mutexes stay as they are, and `t` needs the same ones. */
  lemma {:induction false} OwnedSame<T>(s: State<T>, s': State<T>, t: Tid)
    requires Owned(s) && OnlyMoves(s, s', t) && s'.owner == s.owner
    requires t in s.threads && t in s'.threads && Holds(s'.threads[t]) == Holds(s.threads[t])
    ensures Owned(s')
  {
    forall u, n
      ensures Owns(s', u, n) <==> Locks(s', u, n)
    {
      assert u == t || SamePc(s, s', u);
      assert Owns(s, u, n) <==> Locks(s, u, n);
    }
  }

  /** Witnesses for the unlinked nodes carry over when no removal begins or ends. */
  lemma {:induction false} VictimsStay<T>(s: State<T>, s': State<T>, chain: seq<Id>, t: Tid)
    requires VictimsOk(s, chain) && s'.next.Keys == s.next.Keys && OnlyMoves(s, s', t)
    requires forall n :: HasVictim(s', t, n) <==> HasVictim(s, t, n)
    ensures VictimsOk(s', chain)
  {
    forall u, n
      ensures HasVictim(s', u, n) <==> HasVictim(s, u, n)
    {
      assert SamePc(s, s', u) || u == t;
    }
    forall n | n in s'.next && n !in chain
      ensures exists u :: HasVictim(s', u, n)
    {
      var u :| HasVictim(s, u, n);
      assert HasVictim(s', u, n);
    }
  }

  lemma {:induction false} PcsStay<T>(s: State<T>, s': State<T>, chain: seq<Id>, t: Tid)
    requires s'.next == s.next && OnlyMoves(s, s', t)
    requires forall u | u in s.threads :: PcOk(s, chain, s.threads[u])
    requires t in s'.threads ==> PcOk(s', chain, s'.threads[t])
    ensures forall u | u in s'.threads :: PcOk(s', chain, s'.threads[u])
  {
    forall u | u in s'.threads && u != t
      ensures PcOk(s', chain, s'.threads[u])
    {
      assert SamePc(s, s', u) && PcOk(s, chain, s.threads[u]);
    }
  }

  /** Steps that leave every link alone and begin or end no removal. */
  lemma {:induction false} QuietStepKeepsHeap<T>(s: State<T>, s': State<T>, chain: seq<Id>, t: Tid)
    requires HeapInv(s, chain) && OnlyMoves(s, s', t)
    requires s'.next == s.next && s'.data == s.data && s'.unused == s.unused
    requires t in s'.threads ==> PcOk(s', chain, s'.threads[t])
    requires forall n :: HasVictim(s', t, n) <==> HasVictim(s, t, n)
    requires forall u, n | u != t :: Owns(s', u, n) <==> Owns(s, u, n)
    requires forall n :: Owns(s', t, n) <==> Locks(s', t, n)
    ensures HeapInv(s', chain)
  {
    OwnedStays(s, s', t);
    VictimsStay(s, s', chain, t);
    PcsStay(s, s', chain, t);
  }

  /** The events that change no link. */
  predicate IsQuiet<T>(s: State<T>, e: Event<T>)
    requires Ready(s, e) && Safe(s, e)
  {
    e.Start? ||
    (match s.threads[e.t]
     case PushReady(_) => false
     case HasBoth(op, _, nxt) => !(op.Remove? && op.p(s.data[nxt]))
     case Unlocked(_, _, _) => false
     case _ => true)
  }

  /** Steps that touch no mutex. */
  lemma {:induction false} LocalKeepsHeap<T>(s: State<T>, chain: seq<Id>, e: Event<T>)
    requires HeapInv(s, chain) && Ready(s, e) && Safe(s, e)
    requires e.Start? || s.threads[e.t].AtNode? || s.threads[e.t].Visiting?
    ensures HeapInv(Step(s, e), chain)
  {
    var s', t := Step(s, e), e.t;
    assert forall n :: Owns(s, t, n) <==> Locks(s, t, n);
    if e.Go? {
      assert PcOk(s, chain, s.threads[t]);
      assert Holds(s'.threads[t]) == Holds(s.threads[t]);
    }
    assert forall n :: Locks(s', t, n) <==> Locks(s, t, n);
    QuietStepKeepsHeap(s, s', chain, t);
  }

  /** Steps that take a free mutex. */
  lemma {:induction false} LockKeepsHeap<T>(s: State<T>, chain: seq<Id>, t: Tid)
    requires HeapInv(s, chain) && Ready(s, Go(t)) && Safe(s, Go(t))
    requires s.threads[t].WantHead? || s.threads[t].WantNext?
    ensures HeapInv(Step(s, Go(t)), chain)
  {
    var s', pc := Step(s, Go(t)), s.threads[t];
    assert forall n :: Owns(s, t, n) <==> Locks(s, t, n);
    assert PcOk(s, chain, pc);
    var lock := if pc.WantHead? then HEAD else pc.nxt;
    assert Holds(s'.threads[t]) == Holds(pc) + {lock};
    assert forall n :: Locks(s', t, n) <==> Locks(s, t, n) || n == lock;
    QuietStepKeepsHeap(s, s', chain, t);
  }

  predicate SameVictim<T>(pc: Pc<T>, pc': Pc<T>) {
    var removing, removing' := pc.Unlinked? || pc.Unlocked?, pc'.Unlinked? || pc'.Unlocked?;
    removing == removing' && (removing ==> pc.victim == pc'.victim)
  }

  /** Giving a mutex back and moving on. */
  lemma {:induction false} ReleaseKeepsHeap<T>(s: State<T>, chain: seq<Id>, t: Tid, lock: Id, pc': Pc<T>)
    requires HeapInv(s, chain) && t in s.threads && lock in Holds(s.threads[t])
    requires PcOk(s, chain, pc') && Holds(pc') == Holds(s.threads[t]) - {lock} && SameVictim(s.threads[t], pc')
    ensures HeapInv(Goto(s.(owner := s.owner - {lock}), t, pc'), chain)
  {
    var s' := Goto(s.(owner := s.owner - {lock}), t, pc');
    assert Locks(s, t, lock) && Owns(s, t, lock);
    assert forall n :: Owns(s, t, n) <==> Locks(s, t, n);
    assert forall n :: Locks(s', t, n) <==> Locks(s, t, n) && n != lock;
    QuietStepKeepsHeap(s, s', chain, t);
  }

  /** Giving the last mutex back and returning. */
  lemma {:induction false} ReturnKeepsHeap<T>(s: State<T>, chain: seq<Id>, t: Tid, lock: Id)
    requires HeapInv(s, chain) && t in s.threads && Holds(s.threads[t]) == {lock} && s.threads[t].Finishing?
    ensures HeapInv(s.(owner := s.owner - {lock}, threads := s.threads - {t}), chain)
  {
    var s' := s.(owner := s.owner - {lock}, threads := s.threads - {t});
    assert Locks(s, t, lock) && Owns(s, t, lock);
    forall n ensures Owns(s', t, n) <==> Locks(s', t, n) {
      assert Owns(s, t, n) <==> Locks(s, t, n);
    }
    QuietStepKeepsHeap(s, s', chain, t);
  }

  lemma {:induction false} UnlockKeepsHeap<T>(s: State<T>, chain: seq<Id>, t: Tid)
    requires HeapInv(s, chain) && Ready(s, Go(t)) && Safe(s, Go(t)) && IsQuiet(s, Go(t))
    requires s.threads[t].HasBoth? || s.threads[t].Unlinked? || s.threads[t].Finishing?
    ensures HeapInv(Step(s, Go(t)), chain)
  {
    var pc := s.threads[t];
    assert PcOk(s, chain, pc);
    match pc
    case HasBoth(op, cur, nxt) =>
      NextIsLinked(s, chain, cur, nxt);
      ReleaseKeepsHeap(s, chain, t, cur, if op.Remove? then AtNode(op, nxt) else Visiting(op, nxt));
    case Unlinked(op, cur, victim) => ReleaseKeepsHeap(s, chain, t, victim, Unlocked(op, cur, victim));
    case Finishing(_, cur, _) => ReturnKeepsHeap(s, chain, t, cur);
  }

  lemma {:induction false} QuietKeepsHeap<T>(s: State<T>, chain: seq<Id>, e: Event<T>)
    requires HeapInv(s, chain) && Ready(s, e) && Safe(s, e) && IsQuiet(s, e)
    ensures HeapInv(Step(s, e), chain)
  {
    if e.Start? || s.threads[e.t].AtNode? || s.threads[e.t].Visiting? {
      LocalKeepsHeap(s, chain, e);
    } else if s.threads[e.t].WantHead? || s.threads[e.t].WantNext? {
      LockKeepsHeap(s, chain, e.t);
    } else {
      UnlockKeepsHeap(s, chain, e.t);
    }
  }

  lemma {:induction false} LinkKeepsPcs<T>(s: State<T>, s': State<T>, chain: seq<Id>, t: Tid)
    requires LinkedBy(s, chain) && Owned(s) && Owns(s, t, HEAD) && s.unused !in chain && s.unused !in s.next
    requires forall u | u in s.threads :: PcOk(s, chain, s.threads[u])
    requires OnlyMoves(s, s', t) && s'.next == s.next[s.unused := s.next[HEAD]][HEAD := To(s.unused)]
    requires forall u, n | HasVictim(s, u, n) :: n in s.next
    ensures forall u | u in s'.threads && u != t :: PcOk(s', Insert(chain, s.unused), s'.threads[u])
  {
    InsertFacts(chain, s.unused);
    forall u | u in s'.threads && u != t
      ensures PcOk(s', Insert(chain, s.unused), s'.threads[u])
    {
      assert SamePc(s, s', u) && PcOk(s, chain, s.threads[u]);
      assert !Owns(s, u, HEAD) && (Owns(s, u, HEAD) <==> Locks(s, u, HEAD));
    }
  }

  lemma {:induction false} FreshIsUnlinked<T>(s: State<T>, chain: seq<Id>)
    requires HeapInv(s, chain)
    ensures s.unused !in chain && s.unused !in s.next && s.unused != HEAD
  {
    assert chain[0] in chain;
  }

  lemma {:induction false} LinkKeepsOwners<T>(s: State<T>, chain: seq<Id>, t: Tid, op: Op<T>)
    requires HeapInv(s, chain) && t in s.threads && s.threads[t] == PushReady(op) && op.Push? && HEAD in s.next
    requires s.unused !in chain
    ensures var s' := LinkFront(s, t, op);
      Allocated(s') && Owned(s') && VictimsOk(s', Insert(chain, s.unused))
  {
    var s' := LinkFront(s, t, op);
    OwnedSame(s, s', t);
    LinkKeepsVictims(s, s', chain, t);
  }

  /** `push_front`: the fresh node goes in right behind the head. */
  lemma {:induction false} LinkKeepsHeap<T>(s: State<T>, chain: seq<Id>, t: Tid, op: Op<T>)
    requires HeapInv(s, chain) && t in s.threads && s.threads[t] == PushReady(op) && op.Push? && HEAD in s.next
    ensures s.unused !in chain && HeapInv(LinkFront(s, t, op), Insert(chain, s.unused))
  {
    var s' := LinkFront(s, t, op);
    FreshIsUnlinked(s, chain);
    InsertKeepsLinks(s, s', chain);
    LinkKeepsOwners(s, chain, t, op);
    assert Locks(s, t, HEAD) && Owns(s, t, HEAD);
    VictimsAreUnlinked(s, chain);
    LinkKeepsPcs(s, s', chain, t);
    assert Insert(chain, s.unused)[0] == HEAD;
  }

  lemma {:induction false} InsertKeepsLinks<T>(s: State<T>, s': State<T>, chain: seq<Id>)
    requires LinkedBy(s, chain) && s.unused !in chain && s.unused != HEAD
    requires s'.next == s.next[s.unused := s.next[HEAD]][HEAD := To(s.unused)]
    ensures LinkedBy(s', Insert(chain, s.unused))
  {
    var chain' := Insert(chain, s.unused);
    InsertFacts(chain, s.unused);
    forall i | 0 <= i < |chain'|
      ensures chain'[i] in s'.next && s'.next[chain'[i]] == Successor(chain', i)
    {
      if i >= 1 {
        assert chain[i - 1] in s.next && s.next[chain[i - 1]] == Successor(chain, i - 1);
      }
    }
  }

  lemma {:induction false} LinkKeepsVictims<T>(s: State<T>, s': State<T>, chain: seq<Id>, t: Tid)
    requires VictimsOk(s, chain) && |chain| > 0 && OnlyMoves(s, s', t) && Distinct(chain) && s.unused !in chain
    requires forall n :: HasVictim(s', t, n) <==> HasVictim(s, t, n)
    requires s'.next.Keys == s.next.Keys + {s.unused}
    ensures VictimsOk(s', Insert(chain, s.unused))
  {
    InsertFacts(chain, s.unused);
    forall u, n
      ensures HasVictim(s', u, n) <==> HasVictim(s, u, n)
    {
      assert SamePc(s, s', u) || u == t;
    }
    forall n | n in s'.next && n !in Insert(chain, s.unused)
      ensures exists u :: HasVictim(s', u, n)
    {
      var u :| HasVictim(s, u, n);
      assert HasVictim(s', u, n);
    }
  }

  /** A removal takes the node behind `cur` out of the chain. */
  lemma {:induction false} CutKeepsLinks<T>(s: State<T>, s': State<T>, chain: seq<Id>, cur: Id, nxt: Id)
    requires LinkedBy(s, chain) && cur in chain && cur in s.next && s.next[cur] == To(nxt)
    requires nxt in s.next && s'.next == s.next[cur := s.next[nxt]][nxt := Null]
    ensures Pos(chain, nxt) < |chain| && LinkedBy(s', Cut(chain, Pos(chain, nxt)))
  {
    NextIsLinked(s, chain, cur, nxt);
    var k := Pos(chain, nxt);
    var chain' := Cut(chain, k);
    CutFacts(chain, k);
    forall i | 0 <= i < |chain'|
      ensures chain'[i] in s'.next && s'.next[chain'[i]] == Successor(chain', i)
    {
      var j := if i < k then i else i + 1;
      assert chain'[i] == chain[j] && s.next[chain[j]] == Successor(chain, j);
      assert s.next[chain[k]] == Successor(chain, k);
    }
  }

  lemma {:induction false} UnlinkMakesVictim<T>(s: State<T>, chain: seq<Id>, t: Tid, op: Op<T>, cur: Id, nxt: Id)
    requires HeapInv(s, chain) && t in s.threads && s.threads[t] == HasBoth(op, cur, nxt) && op.Remove?
    requires cur in s.next && nxt in s.data && nxt in s.next && op.p(s.data[nxt]) && Pos(chain, nxt) < |chain|
    ensures Owned(Examine(s, t, op, cur, nxt)) && VictimsOk(Examine(s, t, op, cur, nxt), Cut(chain, Pos(chain, nxt)))
  {
    var s' := Examine(s, t, op, cur, nxt);
    OwnedSame(s, s', t);
    VictimsAreUnlinked(s, chain);
    UnlinkKeepsVictims(s, s', chain, t, Pos(chain, nxt));
  }

  lemma {:induction false} UnlinkKeepsHeap<T>(s: State<T>, chain: seq<Id>, t: Tid, op: Op<T>, cur: Id, nxt: Id)
    requires HeapInv(s, chain) && t in s.threads && s.threads[t] == HasBoth(op, cur, nxt) && op.Remove?
    requires nxt in s.data && nxt in s.next && op.p(s.data[nxt])
    ensures Pos(chain, nxt) < |chain|
    ensures HeapInv(Examine(s, t, op, cur, nxt), Cut(chain, Pos(chain, nxt)))
  {
    var s', k := Examine(s, t, op, cur, nxt), Pos(chain, nxt);
    assert PcOk(s, chain, s.threads[t]);
    NextIsLinked(s, chain, cur, nxt);
    CutKeepsLinks(s, s', chain, cur, nxt);
    UnlinkMakesVictim(s, chain, t, op, cur, nxt);
    assert Locks(s, t, cur) && Locks(s, t, nxt);
    OthersAvoid(s, s', chain, t, cur, nxt);
    assert PcOk(s', Cut(chain, k), s'.threads[t]) by {
      CutFacts(chain, k);
    }
  }

  lemma {:induction false} VictimsAreUnlinked<T>(s: State<T>, chain: seq<Id>)
    requires HeapInv(s, chain)
    ensures forall u, n | HasVictim(s, u, n) :: n !in chain && n in s.next
  {
  }

  /** No other thread points at or waits for the node being unlinked. */
  lemma {:induction false} OthersAvoid<T>(s: State<T>, s': State<T>, chain: seq<Id>, t: Tid, cur: Id, nxt: Id)
    requires LinkedBy(s, chain) && Owned(s) && Owns(s, t, cur) && Owns(s, t, nxt) && OnlyMoves(s, s', t)
    requires forall u | u in s.threads :: PcOk(s, chain, s.threads[u])
    requires Pos(chain, nxt) == Pos(chain, cur) + 1 < |chain| && cur in chain
    requires cur in s.next && nxt in s.next && s.next[cur] == To(nxt)
    requires s'.next == s.next[cur := s.next[nxt]][nxt := Null]
    ensures forall u | u in s'.threads && u != t :: PcOk(s', Cut(chain, Pos(chain, nxt)), s'.threads[u])
  {
    CutFacts(chain, Pos(chain, nxt));
    forall u | u in s'.threads && u != t
      ensures PcOk(s', Cut(chain, Pos(chain, nxt)), s'.threads[u])
    {
      assert SamePc(s, s', u) && PcOk(s, chain, s.threads[u]);
      assert !Owns(s, u, cur) && (Owns(s, u, cur) <==> Locks(s, u, cur));
      assert !Owns(s, u, nxt) && (Owns(s, u, nxt) <==> Locks(s, u, nxt));
    }
  }

  lemma {:induction false} UnlinkKeepsVictims<T>(s: State<T>, s': State<T>, chain: seq<Id>, t: Tid, k: nat)
    requires VictimsOk(s, chain) && OnlyMoves(s, s', t) && Distinct(chain) && k < |chain|
    requires forall u, n | HasVictim(s, u, n) :: n !in chain
    requires forall n :: HasVictim(s', t, n) <==> n == chain[k]
    requires forall n :: !HasVictim(s, t, n)
    requires s'.next.Keys == s.next.Keys
    ensures VictimsOk(s', Cut(chain, k))
  {
    CutFacts(chain, k);
    forall u, n | u != t
      ensures HasVictim(s', u, n) <==> HasVictim(s, u, n)
    {
      assert SamePc(s, s', u);
    }
    forall n | n in s'.next && n !in Cut(chain, k)
      ensures exists u :: HasVictim(s', u, n)
    {
      if n == chain[k] {
        assert HasVictim(s', t, n);
      } else {
        var u :| HasVictim(s, u, n);
        assert HasVictim(s', u, n);
      }
    }
    assert chain[k] in chain;
  }

  /** The state after counting and freeing a victim. */
  function Free<T>(s: State<T>, t: Tid, victim: Id, pc: Pc<T>): State<T> {
    Goto(s.(next := s.next - {victim}, data := s.data - {victim}, size := s.size - 1), t, pc)
  }

  lemma {:induction false} FreeKeepsPcs<T>(s: State<T>, s': State<T>, chain: seq<Id>, t: Tid, victim: Id)
    requires LinkedBy(s, chain) && VictimsOk(s, chain) && HasVictim(s, t, victim) && victim !in chain
    requires forall u | u in s.threads :: PcOk(s, chain, s.threads[u])
    requires OnlyMoves(s, s', t) && s'.next == s.next - {victim}
    ensures LinkedBy(s', chain)
    ensures forall u | u in s'.threads && u != t :: PcOk(s', chain, s'.threads[u])
  {
    assert forall i | 0 <= i < |chain| :: chain[i] in s.next && s.next[chain[i]] == Successor(chain, i);
    forall u | u in s'.threads && u != t
      ensures PcOk(s', chain, s'.threads[u])
    {
      assert SamePc(s, s', u) && PcOk(s, chain, s.threads[u]);
      assert !HasVictim(s, u, victim);
    }
  }

  lemma {:induction false} FreeKeepsHeap<T>(s: State<T>, chain: seq<Id>, t: Tid, op: Op<T>, cur: Id, victim: Id,
                                            pc': Pc<T>)
    requires HeapInv(s, chain) && t in s.threads && s.threads[t] == Unlocked(op, cur, victim)
    requires pc' == AtNode(op, cur) || pc' == Finishing(op, cur, true)
    ensures HeapInv(Free(s, t, victim, pc'), chain)
  {
    var s' := Free(s, t, victim, pc');
    assert PcOk(s, chain, s.threads[t]);
    assert HasVictim(s, t, victim);
    OwnedSame(s, s', t);
    FreeKeepsPcs(s, s', chain, t, victim);
    FreeKeepsVictims(s, s', chain, t, victim);
  }

  lemma {:induction false} FreeKeepsVictims<T>(s: State<T>, s': State<T>, chain: seq<Id>, t: Tid, victim: Id)
    requires VictimsOk(s, chain) && OnlyMoves(s, s', t) && HasVictim(s, t, victim)
    requires forall n :: !HasVictim(s', t, n)
    requires s'.next.Keys == s.next.Keys - {victim}
    ensures VictimsOk(s', chain)
  {
    forall u, n | u != t
      ensures HasVictim(s', u, n) <==> HasVictim(s, u, n)
    {
      assert SamePc(s, s', u);
    }
    forall n | n in s'.next && n !in chain
      ensures exists u :: HasVictim(s', u, n)
    {
      var u :| HasVictim(s, u, n);
      assert HasVictim(s', u, n);
    }
  }

  lemma {:induction false} StepKeepsHeap<T>(s: State<T>, h: History, e: Event<T>)
    requires HeapInv(s, h.chain) && Ready(s, e) && Safe(s, e)
    ensures HeapInv(Step(s, e), Remember(s, h, e).chain)
  {
    if IsQuiet(s, e) {
      QuietKeepsHeap(s, h.chain, e);
    } else {
      match s.threads[e.t]
      case PushReady(_) => LinkKeepsHeap(s, h.chain, e.t, s.threads[e.t].op);
      case HasBoth(op, cur, nxt) => UnlinkKeepsHeap(s, h.chain, e.t, op, cur, nxt);
      case Unlocked(op, cur, victim) =>
        var pc' := if op.Remove? && op.all then AtNode(op, cur) else Finishing(op, cur, true);
        FreeKeepsHeap(s, h.chain, e.t, op, cur, victim, pc');
    }
  }
}
