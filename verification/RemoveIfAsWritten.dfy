/** `remove_if` exactly as it is written, in the machine of `LockedList`.  After a match the loop falls
  * through to `lk.unlock(); current = next; lk = std::move(next_lk);`, and by then `next` has been freed
  * and `next_lk` holds nothing.
  */
module RemoveIfAsWritten {
  import opened Base
  import opened Chain
  import opened LockedList
  import opened ListRuns
  import opened ListTheorems
  import S = StoreSpec

  /** The step in which a `remove_if` that has matched frees the node. */
  predicate FreesForAll<T>(s: State<T>, e: Event<T>) {
    e.Go? && e.t in s.threads && s.threads[e.t].Unlocked? && s.threads[e.t].op.Remove? && s.threads[e.t].op.all
  }

  /** It counts and frees, gives up the mutex of `current`, and goes on from the freed node. */
  function FreeAndGoOn<T>(s: State<T>, t: Tid, op: Op<T>, cur: Id, victim: Id): State<T> {
    Goto(s.(next := s.next - {victim}, data := s.data - {victim}, size := s.size - 1, owner := s.owner - {cur}),
         t, AtNode(op, victim))
  }

  function StepAsWritten<T>(s: State<T>, e: Event<T>): State<T>
    requires Ready(s, e) && Safe(s, e)
  {
    if FreesForAll(s, e) then FreeAndGoOn(s, e.t, s.threads[e.t].op, s.threads[e.t].cur, s.threads[e.t].victim)
    else Step(s, e)
  }

  /** A step that touches freed memory could lead anywhere. */
  ghost predicate Follows<T>(c: Config<T>, e: Event<T>, c': Config<T>) {
    && Ready(c.s, e)
    && (Safe(c.s, e) && c.h.chain != [] ==> c' == Config(StepAsWritten(c.s, e), Remember(c.s, c.h, e)))
  }

  ghost predicate FollowsAt<T>(cs: seq<Config<T>>, es: seq<Event<T>>, i: nat)
    requires |cs| == |es| + 1 && i < |es|
  {
    Follows(cs[i], es[i], cs[i + 1])
  }

  ghost predicate IsRun<T>(cs: seq<Config<T>>, es: seq<Event<T>>) {
    && |cs| == |es| + 1 && cs[0] == Config(Init(), NO_HISTORY)
    && (forall i | 0 <= i < |es| :: FollowsAt(cs, es, i))
  }

  /** No thread that can take its next step would touch freed memory with it. */
  ghost predicate AllSafe<T>(s: State<T>) {
    forall t | t in s.threads && Ready(s, Go(t)) :: Safe(s, Go(t))
  }

  ghost predicate SafeThroughout<T>(cs: seq<Config<T>>) {
    forall c | c in cs :: AllSafe(c.s)
  }

  // ---------------------------------------------------------------- the freed node is read

  /** Once a `remove_if` has freed its node, its next step reads that node's `next`. */
  lemma {:induction false} ReadsFreedNode<T>(s: State<T>, chain: seq<Id>, e: Event<T>)
    requires HeapInv(s, chain) && FreesForAll(s, e)
    ensures Ready(s, e) && Safe(s, e)
    ensures Ready(StepAsWritten(s, e), Go(e.t)) && !Safe(StepAsWritten(s, e), Go(e.t))
  {
    ReadyIsSafe(s, chain, e);
  }

  lemma {:induction false} NextIsPlain<T>(cs: seq<Config<T>>, es: seq<Event<T>>, i: nat)
    requires IsRun(cs, es) && i < |es| && Consistent(cs[i]) && !FreesForAll(cs[i].s, es[i])
    ensures Ready(cs[i].s, es[i]) && Safe(cs[i].s, es[i]) && cs[i + 1].s == Step(cs[i].s, es[i])
  {
    assert FollowsAt(cs, es, i);
    StepKeepsConsistent(cs[i], es[i]);
  }

  ghost predicate NoneFreed<T>(cs: seq<Config<T>>, es: seq<Event<T>>, i: nat)
    requires |cs| == |es| + 1 && i <= |es|
  {
    forall k | 0 <= k < i :: !FreesForAll(cs[k].s, es[k])
  }

  /** Up to there the run is one of the machine with the intended loop. */
  lemma {:induction false} IntendedUntilFreed<T>(cs: seq<Config<T>>, es: seq<Event<T>>, i: nat)
    requires IsRun(cs, es) && i <= |es| && NoneFreed(cs, es, i)
    ensures ListTheorems.IsRun(cs[..i + 1], es[..i])
  {
    var ds, fs := cs[..i + 1], es[..i];
    forall k | 0 <= k < i
      ensures ListTheorems.FollowsAt(ds, fs, k)
    {
      assert FollowsAt(cs, es, k) && !FreesForAll(cs[k].s, es[k]);
    }
  }

  lemma {:induction false} ConsistentUntilFreed<T>(cs: seq<Config<T>>, es: seq<Event<T>>, i: nat)
    requires IsRun(cs, es) && i <= |es| && NoneFreed(cs, es, i)
    ensures Consistent(cs[i])
  {
    IntendedUntilFreed(cs, es, i);
    RunKeepsInv(cs[..i + 1], es[..i], i);
  }

  lemma {:induction false} ConsistentIsSafe<T>(c: Config<T>)
    requires Consistent(c)
    ensures AllSafe(c.s)
  {
    forall t | t in c.s.threads && Ready(c.s, Go(t))
      ensures Safe(c.s, Go(t))
    {
      ReadyIsSafe(c.s, c.h.chain, Go(t));
    }
  }

  lemma {:induction false} UnsafeAfterFreeing<T>(cs: seq<Config<T>>, es: seq<Event<T>>, i: nat)
    requires IsRun(cs, es) && i < |es| && Consistent(cs[i]) && FreesForAll(cs[i].s, es[i])
    ensures !AllSafe(cs[i + 1].s)
  {
    assert FollowsAt(cs, es, i);
    ReadsFreedNode(cs[i].s, cs[i].h.chain, es[i]);
    assert es[i].t in cs[i + 1].s.threads;
  }

  lemma {:induction false} FirstFreed<T>(cs: seq<Config<T>>, es: seq<Event<T>>, i: nat) returns (k: nat)
    requires |cs| == |es| + 1 && i <= |es| && !NoneFreed(cs, es, i)
    ensures k < i && FreesForAll(cs[k].s, es[k]) && NoneFreed(cs, es, k)
  {
    k := 0;
    while !FreesForAll(cs[k].s, es[k])
      invariant k <= i && NoneFreed(cs, es, k) && k < i
      decreases i - k
    {
      k := k + 1;
    }
  }

  /** A run is safe throughout if and only if no `remove_if` gets as far as freeing a node. */
  lemma {:induction false} SafeExactlyUnlessFreed<T>(cs: seq<Config<T>>, es: seq<Event<T>>)
    requires IsRun(cs, es)
    ensures SafeThroughout(cs) <==> NoneFreed(cs, es, |es|)
  {
    if NoneFreed(cs, es, |es|) {
      forall c | c in cs
        ensures AllSafe(c.s)
      {
        var i :| 0 <= i < |cs| && cs[i] == c;
        ConsistentUntilFreed(cs, es, i);
        ConsistentIsSafe(c);
      }
    } else {
      var k := FirstFreed(cs, es, |es|);
      ConsistentUntilFreed(cs, es, k);
      UnsafeAfterFreeing(cs, es, k);
      assert cs[k + 1] in cs;
    }
  }

  // ---------------------------------------------------------------- in terms of the values

  /** A `remove_if` looks at a value that matches. */
  predicate Matches<T>(s: State<T>, e: Event<T>) {
    e.Go? && e.t in s.threads
    && match s.threads[e.t]
       case HasBoth(op, _, nxt) => op.Remove? && op.all && nxt in s.data && op.p(s.data[nxt])
       case _ => false
  }

  /** A `remove_if` has matched and has not freed the node yet. */
  predicate HoldsVictim<T>(s: State<T>, t: Tid) {
    t in s.threads && (s.threads[t].Unlinked? || s.threads[t].Unlocked?)
    && s.threads[t].op.Remove? && s.threads[t].op.all
  }

  ghost predicate NoMatch<T>(cs: seq<Config<T>>, es: seq<Event<T>>, i: nat)
    requires |cs| == |es| + 1 && i <= |es|
  {
    forall k | 0 <= k < i :: !Matches(cs[k].s, es[k])
  }

  /** How one step of the machine changes who holds a victim. */
  lemma {:induction false} VictimsAfter<T>(s: State<T>, e: Event<T>, t: Tid)
    requires Ready(s, e) && Safe(s, e) && !FreesForAll(s, e)
    ensures HoldsVictim(Step(s, e), t) <==> HoldsVictim(s, t) || (e.Go? && e.t == t && Matches(s, e))
  {
    if e.t != t {
      OthersStay(s, e, t);
    }
  }

  lemma {:induction false} NextVictims<T>(cs: seq<Config<T>>, es: seq<Event<T>>, i: nat, t: Tid)
    requires IsRun(cs, es) && i < |es| && NoneFreed(cs, es, i + 1)
    ensures HoldsVictim(cs[i + 1].s, t) <==>
      HoldsVictim(cs[i].s, t) || (es[i].Go? && es[i].t == t && Matches(cs[i].s, es[i]))
  {
    ConsistentUntilFreed(cs, es, i);
    NextIsPlain(cs, es, i);
    VictimsAfter(cs[i].s, es[i], t);
  }

  lemma {:induction false} NoVictimWithoutMatch<T>(cs: seq<Config<T>>, es: seq<Event<T>>, i: nat, t: Tid)
    requires IsRun(cs, es) && i <= |es| && NoMatch(cs, es, i) && NoneFreed(cs, es, i)
    ensures !HoldsVictim(cs[i].s, t)
  {
    if i > 0 {
      NoVictimWithoutMatch(cs, es, i - 1, t);
      NextVictims(cs, es, i - 1, t);
    }
  }

  lemma {:induction false} NothingFreedWithoutMatch<T>(cs: seq<Config<T>>, es: seq<Event<T>>, i: nat)
    requires IsRun(cs, es) && i <= |es| && NoMatch(cs, es, i)
    ensures NoneFreed(cs, es, i)
  {
    if i > 0 {
      NothingFreedWithoutMatch(cs, es, i - 1);
      NoVictimWithoutMatch(cs, es, i - 1, es[i - 1].t);
    }
  }

  lemma {:induction false} VictimStays<T>(cs: seq<Config<T>>, es: seq<Event<T>>, i: nat, j: nat)
    requires IsRun(cs, es) && i < j <= |es| && NoneFreed(cs, es, |es|) && Matches(cs[i].s, es[i])
    ensures HoldsVictim(cs[j].s, es[i].t)
  {
    if i + 1 < j {
      VictimStays(cs, es, i, j - 1);
    }
    NextVictims(cs, es, j - 1, es[i].t);
  }

  /** For any number of threads and any schedule: a run in which every matching `remove_if` has come to
    * free its node is safe throughout if and only if no `remove_if` has come to a value that matches. */
  lemma {:induction false} SafeExactlyWithoutMatch<T>(cs: seq<Config<T>>, es: seq<Event<T>>)
    requires IsRun(cs, es) && forall t :: !HoldsVictim(cs[|es|].s, t)
    ensures SafeThroughout(cs) <==> NoMatch(cs, es, |es|)
  {
    SafeExactlyUnlessFreed(cs, es);
    if NoMatch(cs, es, |es|) {
      NothingFreedWithoutMatch(cs, es, |es|);
    } else if NoneFreed(cs, es, |es|) {
      var i :| 0 <= i < |es| && Matches(cs[i].s, es[i]);
      VictimStays(cs, es, i, |es|);
      assert false;
    }
  }

  // ---------------------------------------------------------------- one call alone

  /** The first `n` nodes behind the head do not match. */
  ghost predicate RejectedUpTo<T>(data: map<Id, T>, chain: seq<Id>, p: T -> bool, n: nat) {
    n < |chain| && forall i | 0 < i <= n :: chain[i] in data && !p(data[chain[i]])
  }

  ghost predicate SomeMatch<T>(data: map<Id, T>, chain: seq<Id>, p: T -> bool) {
    exists i :: 0 < i < |chain| && chain[i] in data && p(data[chain[i]])
  }

  /** The call has found no match in what it has passed of the list it began with, or it has returned. */
  ghost predicate Searching<T>(c: Config<T>, t: Tid, op: Op<T>, data: map<Id, T>, chain: seq<Id>)
    requires op.Remove?
  {
    && c.s.threads.Keys <= {t} && c.s.data == data && c.h.chain == chain && |chain| > 0
    && if t !in c.s.threads then RejectedUpTo(data, chain, op.p, |chain| - 1)
       else
         var pc := c.s.threads[t];
         && pc.op == op && (pc.WantHead? || pc.AtNode? || pc.WantNext? || pc.HasBoth? || pc.Finishing?)
         && RejectedUpTo(data, chain, op.p, if pc.Finishing? then |chain| - 1 else Pos(chain, RearNode(pc)))
  }

  /** It has found one and not freed its node yet. */
  ghost predicate Matched<T>(c: Config<T>, t: Tid, op: Op<T>, data: map<Id, T>, chain: seq<Id>)
    requires op.Remove?
  {
    HoldsVictim(c.s, t) && SomeMatch(data, chain, op.p)
  }

  lemma {:induction false} RejectOneMore<T>(data: map<Id, T>, chain: seq<Id>, p: T -> bool, n: nat)
    requires RejectedUpTo(data, chain, p, n) && n + 1 < |chain|
    requires chain[n + 1] in data && !p(data[chain[n + 1]])
    ensures RejectedUpTo(data, chain, p, n + 1)
  {
  }

  lemma {:induction false} ExamineAlone<T>(c: Config<T>, t: Tid, op: Op<T>, data: map<Id, T>, chain: seq<Id>, k: nat)
    requires op.Remove? && op.all && Searching(c, t, op, data, chain)
    requires Ready(c.s, Go(t)) && Safe(c.s, Go(t)) && c.s.threads[t].HasBoth?
    requires Pos(chain, c.s.threads[t].cur) == k && k + 1 < |chain| && chain[k + 1] == c.s.threads[t].nxt
    requires Pos(chain, chain[k + 1]) == k + 1
    ensures var c' := Config(Step(c.s, Go(t)), Remember(c.s, c.h, Go(t)));
      Searching(c', t, op, data, chain) || Matched(c', t, op, data, chain)
  {
    if op.p(data[chain[k + 1]]) {
      assert SomeMatch(data, chain, op.p);
    } else {
      RejectOneMore(data, chain, op.p, k);
    }
  }

  lemma {:induction false} WalkAlone<T>(c: Config<T>, t: Tid, op: Op<T>, data: map<Id, T>, chain: seq<Id>)
    requires op.Remove? && op.all && Searching(c, t, op, data, chain)
    requires Ready(c.s, Go(t)) && Safe(c.s, Go(t)) && !c.s.threads[t].HasBoth?
    requires c.s.threads[t].AtNode? ==>
      c.s.next[c.s.threads[t].cur] == Successor(chain, Pos(chain, c.s.threads[t].cur))
    ensures Searching(Config(Step(c.s, Go(t)), Remember(c.s, c.h, Go(t))), t, op, data, chain)
  {
  }

  /** Where the call stands in the list. */
  lemma {:induction false} StandsInList<T>(s: State<T>, chain: seq<Id>, t: Tid)
    requires HeapInv(s, chain) && t in s.threads
    ensures s.threads[t].AtNode? ==>
      s.threads[t].cur in s.next && s.next[s.threads[t].cur] == Successor(chain, Pos(chain, s.threads[t].cur))
    ensures s.threads[t].HasBoth? ==> var k := Pos(chain, s.threads[t].cur);
      k + 1 < |chain| && chain[k + 1] == s.threads[t].nxt && Pos(chain, chain[k + 1]) == k + 1
  {
    var pc := s.threads[t];
    assert PcOk(s, chain, pc);
    if pc.HasBoth? {
      NextIsLinked(s, chain, pc.cur, pc.nxt);
    } else if pc.AtNode? {
      var k := Pos(chain, pc.cur);
      assert s.next[chain[k]] == Successor(chain, k);
    }
  }

  ghost predicate Alone<T>(c: Config<T>, t: Tid, op: Op<T>, data: map<Id, T>, chain: seq<Id>)
    requires op.Remove?
  {
    Searching(c, t, op, data, chain) || Matched(c, t, op, data, chain)
  }

  lemma {:induction false} StepAlone<T>(c: Config<T>, t: Tid, op: Op<T>, data: map<Id, T>, chain: seq<Id>)
    requires HeapInv(c.s, c.h.chain) && Ready(c.s, Go(t)) && Safe(c.s, Go(t)) && !FreesForAll(c.s, Go(t))
    requires op.Remove? && op.all && Alone(c, t, op, data, chain)
    ensures Alone(Config(Step(c.s, Go(t)), Remember(c.s, c.h, Go(t))), t, op, data, chain)
  {
    if Matched(c, t, op, data, chain) {
      VictimsAfter(c.s, Go(t), t);
      return;
    }
    StandsInList(c.s, chain, t);
    if c.s.threads[t].HasBoth? {
      ExamineAlone(c, t, op, data, chain, Pos(chain, c.s.threads[t].cur));
    } else {
      WalkAlone(c, t, op, data, chain);
    }
  }

  lemma {:induction false} NextAlone<T>(c: Config<T>, c': Config<T>, t: Tid, op: Op<T>, data: map<Id, T>,
                                        chain: seq<Id>)
    requires Consistent(c) && Follows(c, Go(t), c') && !FreesForAll(c.s, Go(t))
    requires op.Remove? && op.all && Alone(c, t, op, data, chain)
    ensures Alone(c', t, op, data, chain)
  {
    ReadyIsSafe(c.s, c.h.chain, Go(t));
    StepAlone(c, t, op, data, chain);
  }

  lemma {:induction false} BeginAlone<T>(c: Config<T>, c': Config<T>, t: Tid, op: Op<T>)
    requires Consistent(c) && Follows(c, Start(t, op), c') && op.Remove? && c.s.threads == map[]
    ensures Alone(c', t, op, c.s.data, c.h.chain)
  {
    assert c.h.chain[0] == HEAD;
  }

  lemma {:induction false} EndAlone<T>(c: Config<T>, t: Tid, op: Op<T>, data: map<Id, T>, chain: seq<Id>)
    requires Consistent(c) && op.Remove? && Alone(c, t, op, data, chain)
    requires t !in c.s.threads || (Ready(c.s, Go(t)) && !Safe(c.s, Go(t)))
    ensures t !in c.s.threads && !SomeMatch(data, chain, op.p)
  {
    if t in c.s.threads {
      ReadyIsSafe(c.s, c.h.chain, Go(t));
    }
  }

  lemma {:induction false} FreedAlone<T>(c: Config<T>, c': Config<T>, t: Tid)
    requires Consistent(c) && Follows(c, Go(t), c') && FreesForAll(c.s, Go(t))
    ensures t in c'.s.threads && !Safe(c'.s, Go(t))
  {
    ReadsFreedNode(c.s, c.h.chain, Go(t));
  }

  /** Everything after step `b` is done by `t`, and touches nothing that has been freed. */
  ghost predicate AloneAfter<T>(cs: seq<Config<T>>, es: seq<Event<T>>, b: nat, t: Tid)
    requires |cs| == |es| + 1
  {
    forall k | b < k < |es| :: es[k] == Go(t) && Safe(cs[k].s, Go(t))
  }

  /** Step `b` begins a `remove_if` of `t`, with nobody else in the list. */
  ghost predicate BeginsAlone<T>(cs: seq<Config<T>>, es: seq<Event<T>>, b: nat, t: Tid, op: Op<T>) {
    && IsRun(cs, es) && b < |es| && es[b] == Start(t, op) && op.Remove? && op.all
    && cs[b].s.threads == map[] && NoneFreed(cs, es, b) && AloneAfter(cs, es, b, t)
  }

  lemma {:induction false} FreeingIsLast<T>(cs: seq<Config<T>>, es: seq<Event<T>>, b: nat, t: Tid, k: nat)
    requires |cs| == |es| + 1 && b < k < |es| && AloneAfter(cs, es, b, t)
    requires Consistent(cs[k]) && Follows(cs[k], Go(t), cs[k + 1]) && FreesForAll(cs[k].s, Go(t))
    ensures k + 1 == |es|
  {
    FreedAlone(cs[k], cs[k + 1], t);
  }

  lemma {:induction false} FirstFreedIsLast<T>(cs: seq<Config<T>>, es: seq<Event<T>>, b: nat, t: Tid, op: Op<T>, k: nat)
    requires BeginsAlone(cs, es, b, t, op) && k < |es| && FreesForAll(cs[k].s, es[k]) && NoneFreed(cs, es, k)
    ensures k + 1 == |es|
  {
    ConsistentUntilFreed(cs, es, k);
    assert b < k && es[k] == Go(t) && FollowsAt(cs, es, k);
    FreeingIsLast(cs, es, b, t, k);
  }

  lemma {:induction false} FreesOnlyLast<T>(cs: seq<Config<T>>, es: seq<Event<T>>, b: nat, t: Tid, op: Op<T>)
    requires BeginsAlone(cs, es, b, t, op)
    ensures NoneFreed(cs, es, |es| - 1)
  {
    if !NoneFreed(cs, es, |es| - 1) {
      var k := FirstFreed(cs, es, |es| - 1);
      FirstFreedIsLast(cs, es, b, t, op, k);
      assert false;
    }
  }

  lemma {:induction false} AloneUntilFreed<T>(cs: seq<Config<T>>, es: seq<Event<T>>, b: nat, t: Tid, op: Op<T>, k: nat)
    requires BeginsAlone(cs, es, b, t, op) && b < k <= |es| && NoneFreed(cs, es, k)
    ensures Alone(cs[k], t, op, cs[b].s.data, cs[b].h.chain)
  {
    ConsistentUntilFreed(cs, es, k - 1);
    assert FollowsAt(cs, es, k - 1);
    if k == b + 1 {
      BeginAlone(cs[b], cs[k], t, op);
    } else {
      AloneUntilFreed(cs, es, b, t, op, k - 1);
      NextAlone(cs[k - 1], cs[k], t, op, cs[b].s.data, cs[b].h.chain);
    }
  }

  lemma {:induction false} FreeingHasMatched<T>(c: Config<T>, t: Tid, op: Op<T>, data: map<Id, T>, chain: seq<Id>)
    requires op.Remove? && Alone(c, t, op, data, chain) && FreesForAll(c.s, Go(t))
    ensures SomeMatch(data, chain, op.p)
  {
  }

  lemma {:induction false} EndsByFreeing<T>(cs: seq<Config<T>>, es: seq<Event<T>>, b: nat, t: Tid, op: Op<T>, n: nat)
    requires BeginsAlone(cs, es, b, t, op) && n + 1 == |es| && NoneFreed(cs, es, n) && FreesForAll(cs[n].s, es[n])
    ensures t in cs[n + 1].s.threads && SomeMatch(cs[b].s.data, cs[b].h.chain, op.p)
  {
    assert es[n] == Go(t) && FollowsAt(cs, es, n);
    AloneUntilFreed(cs, es, b, t, op, n);
    FreeingHasMatched(cs[n], t, op, cs[b].s.data, cs[b].h.chain);
    ConsistentUntilFreed(cs, es, n);
    FreedAlone(cs[n], cs[n + 1], t);
  }

  lemma {:induction false} EndsBySearching<T>(cs: seq<Config<T>>, es: seq<Event<T>>, b: nat, t: Tid, op: Op<T>, n: nat)
    requires BeginsAlone(cs, es, b, t, op) && n == |es| && NoneFreed(cs, es, n)
    requires t !in cs[n].s.threads || (Ready(cs[n].s, Go(t)) && !Safe(cs[n].s, Go(t)))
    ensures t !in cs[n].s.threads && !SomeMatch(cs[b].s.data, cs[b].h.chain, op.p)
  {
    AloneUntilFreed(cs, es, b, t, op, n);
    ConsistentUntilFreed(cs, es, n);
    EndAlone(cs[n], t, op, cs[b].s.data, cs[b].h.chain);
  }

  /** A `remove_if` that runs alone: when it has returned or is about to touch freed memory, it is the
    * latter if and only if some value in the list it began with matches. */
  lemma {:induction false} RemoveIfAlone<T>(cs: seq<Config<T>>, es: seq<Event<T>>, b: nat, t: Tid, op: Op<T>)
    requires BeginsAlone(cs, es, b, t, op)
    requires t !in cs[|es|].s.threads || (Ready(cs[|es|].s, Go(t)) && !Safe(cs[|es|].s, Go(t)))
    ensures t in cs[|es|].s.threads <==> SomeMatch(cs[b].s.data, cs[b].h.chain, op.p)
  {
    var n := |es| - 1;
    FreesOnlyLast(cs, es, b, t, op);
    if FreesForAll(cs[n].s, es[n]) {
      EndsByFreeing(cs, es, b, t, op, n);
    } else {
      EndsBySearching(cs, es, b, t, op, n + 1);
    }
  }

  // ---------------------------------------------------------------- what that means for cleanup

  /** What `cleanup_expired` asks of a pair in the TTL index: the slot is absent or has expired. */
  predicate Stale(st: S.Store, slot: Slot, now: S.Time) {
    slot !in st.entries || S.Expired(st.entries[slot], now)
  }

  /** `cleanup_expired` hands this to `remove_if`. */
  function Sweep(st: S.Store, now: S.Time): Op<Slot> {
    Op.Remove((slot: Slot) => Stale(st, slot, now), true)
  }

  lemma {:induction false} MatchIsInContents(st: S.Store, now: S.Time, s: State<Slot>, h: History)
    requires Holding(s, h, st.ttlIndex)
    ensures SomeMatch(s.data, h.chain, Sweep(st, now).p) <==> exists slot :: slot in st.ttlIndex && Stale(st, slot, now)
  {
    var p, rest := Sweep(st, now).p, h.chain[1..];
    ContentsAt(s.data, rest);
    if SomeMatch(s.data, h.chain, p) {
      var i :| 0 < i < |h.chain| && h.chain[i] in s.data && p(s.data[h.chain[i]]);
      assert rest[i - 1] == h.chain[i] && st.ttlIndex[i - 1] in st.ttlIndex;
    }
    if exists slot :: slot in st.ttlIndex && Stale(st, slot, now) {
      var slot :| slot in st.ttlIndex && Stale(st, slot, now);
      var i :| 0 <= i < |st.ttlIndex| && st.ttlIndex[i] == slot;
      assert h.chain[i + 1] == rest[i] && rest[i] in rest && p(s.data[h.chain[i + 1]]);
    }
  }

  /** A cleanup as it is written, in any reachable state of the store and with nobody else at the index:
    * when it has returned or is about to touch freed memory, it is the latter if and only if some entry
    * has expired or some pair of the index names an absent slot. */
  lemma {:induction false} CleanupAsWritten(cs: seq<Config<Slot>>, es: seq<Event<Slot>>, b: nat, t: Tid,
                                            ops: seq<S.Op>, now: S.Time)
    requires var st := S.Run(S.EMPTY_STORE, ops);
      BeginsAlone(cs, es, b, t, Sweep(st, now)) && Holding(cs[b].s, cs[b].h, st.ttlIndex)
    requires t !in cs[|es|].s.threads || (Ready(cs[|es|].s, Go(t)) && !Safe(cs[|es|].s, Go(t)))
    ensures var st := S.Run(S.EMPTY_STORE, ops);
      t in cs[|es|].s.threads <==>
        || (exists slot :: slot in st.entries && S.Expired(st.entries[slot], now))
        || (exists slot :: slot in st.ttlIndex && slot !in st.entries)
  {
    var st := S.Run(S.EMPTY_STORE, ops);
    RemoveIfAlone(cs, es, b, t, Sweep(st, now));
    MatchIsInContents(st, now, cs[b].s, cs[b].h);
    S.AlwaysCovered(ops);
  }
}
