/** `notify` as it is written: it looks the list up with the map's mutex held, gives the mutex up, and only
  * then uses the list.  Lists have identities here, and an `unsubscribe` that empties one frees it.
  */
module NotifyRace {
  import opened Base
  import opened ThreadSafeLists
  import opened PubSub

  type ListId = nat

  /** `lists` is the map of the system, `heap` the lists that are allocated, `held` what a thread in the
    * middle of a `notify` has found. */
  datatype World<C> = World(heap: map<ListId, SubList<C>>, lists: map<Bytes, ListId>, next: ListId,
                            held: map<Tid, ListId>)

  /** A whole call under the mutex, or one of the two halves of a `notify`. */
  datatype Step<C> = Call(op: Op<C>) | Find(t: Tid, actor: Bytes) | Use(t: Tid)

  function Nothing<C>(): World<C> {
    World(map[], map[], 0, map[])
  }

  function SubscribeIn<C>(w: World<C>, actor: Bytes, callback: Option<C>): World<C> {
    if actor in w.lists && w.lists[actor] in w.heap then
      w.(heap := w.heap[w.lists[actor] := Added(w.heap[w.lists[actor]], callback)])
    else
      w.(heap := w.heap[w.next := Added(SubList(FIRST_ID, []), callback)],
         lists := w.lists[actor := w.next], next := w.next + 1)
  }

  function UnsubscribeIn<C>(w: World<C>, actor: Bytes, id: U64): World<C> {
    if actor in w.lists && w.lists[actor] in w.heap then
      var list, l := w.heap[w.lists[actor]], w.lists[actor];
      var left := RemoveFirst(list.subs, HasId(id));
      if FirstMatch(list.subs, HasId(id)) < |list.subs| && left == [] then
        w.(heap := w.heap - {l}, lists := w.lists - {actor})
      else w.(heap := w.heap[l := list.(subs := left)])
    else w
  }

  /** `Use` reads the list and changes nothing. */
  function Next<C>(w: World<C>, step: Step<C>): World<C> {
    match step
    case Call(Subscribe(a, callback)) => SubscribeIn(w, a, callback)
    case Call(Unsubscribe(a, id)) => UnsubscribeIn(w, a, id)
    case Call(_) => w
    case Find(t, a) => if a in w.lists then w.(held := w.held[t := w.lists[a]]) else w.(held := w.held - {t})
    case Use(t) => w
  }

  function RunAll<C>(steps: seq<Step<C>>): World<C> {
    if steps == [] then Nothing() else Next(RunAll(steps[..|steps| - 1]), steps[|steps| - 1])
  }

  /** The list a thread would go through now has been freed. */
  predicate Dangling<C>(w: World<C>, t: Tid) {
    t in w.held && w.held[t] !in w.heap
  }

  // ---------------------------------------------------------------- the same calls without identities

  /** The whole calls among the steps. */
  function Calls<C>(steps: seq<Step<C>>): (ops: seq<Op<C>>)
    ensures |ops| <= |steps|
  {
    if steps == [] then []
    else
      var n := |steps| - 1;
      Calls(steps[..n]) + if steps[n].Call? then [steps[n].op] else []
  }

  ghost predicate Inv<C>(w: World<C>) {
    && (forall a | a in w.lists :: w.lists[a] in w.heap)
    && (forall a, b | a in w.lists && b in w.lists && a != b :: w.lists[a] != w.lists[b])
    && (forall l | l in w.heap :: l < w.next)
    && (forall t | t in w.held :: w.held[t] < w.next)
  }

  function Seen<C>(w: World<C>): Topics<C> {
    map a | a in w.lists && w.lists[a] in w.heap :: w.heap[w.lists[a]]
  }

  lemma {:induction false} SubscribeKeepsInv<C>(w: World<C>, actor: Bytes, callback: Option<C>)
    requires Inv(w)
    ensures Inv(SubscribeIn(w, actor, callback))
  {
  }

  lemma {:induction false} SubscribeRefines<C>(w: World<C>, actor: Bytes, callback: Option<C>)
    requires Inv(w)
    ensures Seen(SubscribeIn(w, actor, callback)) == Apply(Seen(w), Op.Subscribe(actor, callback)).0
  {
  }

  lemma {:induction false} UnsubscribeKeepsInv<C>(w: World<C>, actor: Bytes, id: U64)
    requires Inv(w)
    ensures Inv(UnsubscribeIn(w, actor, id))
  {
  }

  lemma {:induction false} UnsubscribeRefines<C>(w: World<C>, actor: Bytes, id: U64)
    requires Inv(w)
    ensures Seen(UnsubscribeIn(w, actor, id)) == Apply(Seen(w), Op.Unsubscribe(actor, id)).0
  {
    if actor in w.lists {
      UnsubscribeIs(Seen(w), actor, id);
    }
  }

  lemma {:induction false} NextRefines<C>(w: World<C>, step: Step<C>)
    requires Inv(w)
    ensures Inv(Next(w, step))
    ensures Seen(Next(w, step)) == if step.Call? then Apply(Seen(w), step.op).0 else Seen(w)
  {
    match step
    case Call(Subscribe(a, callback)) =>
      SubscribeKeepsInv(w, a, callback);
      SubscribeRefines(w, a, callback);
    case Call(Unsubscribe(a, id)) =>
      UnsubscribeKeepsInv(w, a, id);
      UnsubscribeRefines(w, a, id);
    case _ =>
  }

  /** Looking up and using a list change nothing: the map of lists is what the whole calls make of it. */
  lemma {:induction false} RunAllRefines<C>(steps: seq<Step<C>>)
    ensures Inv(RunAll(steps)) && Seen(RunAll(steps)) == Run(Calls(steps))
  {
    if steps != [] {
      var n := |steps| - 1;
      RunAllRefines(steps[..n]);
      NextRefines(RunAll(steps[..n]), steps[n]);
      var before := Calls(steps[..n]);
      if steps[n].Call? {
        assert Calls(steps)[..|before|] == before;
      } else {
        assert before + [] == before;
      }
    }
  }

  // ---------------------------------------------------------------- whether the list is still there

  /** A list stays allocated while it is its actor's, and once freed it does not come back. */
  lemma {:induction false} ListStays<C>(w: World<C>, step: Step<C>, actor: Bytes, l: ListId)
    requires Inv(w) && l < w.next
    ensures l < Next(w, step).next && (l !in w.heap ==> l !in Next(w, step).heap)
    ensures actor in w.lists && w.lists[actor] == l ==>
      if actor in Next(w, step).lists then Next(w, step).lists[actor] == l else l !in Next(w, step).heap
  {
  }

  lemma {:induction false} ListedExactly<C>(steps: seq<Step<C>>, actor: Bytes)
    requires |steps| + 1 < TWO64
    ensures actor in RunAll(steps).lists <==> Live(Calls(steps), actor) != []
    ensures actor in RunAll(steps).lists ==>
      RunAll(steps).lists[actor] in RunAll(steps).heap
      && RunAll(steps).heap[RunAll(steps).lists[actor]].subs == Live(Calls(steps), actor)
  {
    RunAllRefines(steps);
    RunKeepsOk(Calls(steps));
    RunRefines(Calls(steps), actor);
    assert actor in RunAll(steps).lists <==> actor in Seen(RunAll(steps));
  }

  /** The actor has had subscribers at every moment since step `i`. */
  predicate NeverEmptied<C>(steps: seq<Step<C>>, i: nat, actor: Bytes)
    requires i < |steps|
  {
    forall k | i < k <= |steps| :: Live(Calls(steps[..k]), actor) != []
  }

  /** What has become of the list `l` that step `i` found for thread `t`. */
  ghost predicate Tracks<C>(steps: seq<Step<C>>, i: nat, t: Tid, actor: Bytes, l: ListId)
    requires i < |steps|
  {
    var w := RunAll(steps);
    && t in w.held && w.held[t] == l && l < w.next
    && if NeverEmptied(steps, i, actor) then actor in w.lists && w.lists[actor] == l else l !in w.heap
  }

  lemma {:induction false} NeverEmptiedMore<C>(steps: seq<Step<C>>, i: nat, n: nat, actor: Bytes)
    requires i < n == |steps| - 1
    ensures NeverEmptied(steps, i, actor) <==> NeverEmptied(steps[..n], i, actor) && Live(Calls(steps), actor) != []
  {
    assert steps[..n + 1] == steps;
    assert forall k | i < k <= n :: steps[..n][..k] == steps[..k];
  }

  lemma {:induction false} HeldStays<C>(w: World<C>, step: Step<C>, t: Tid)
    requires t in w.held && !(step.Find? && step.t == t)
    ensures t in Next(w, step).held && Next(w, step).held[t] == w.held[t]
  {
  }

  lemma {:induction false} TracksMore<C>(steps: seq<Step<C>>, i: nat, n: nat, t: Tid, actor: Bytes, l: ListId)
    requires i < n == |steps| - 1 && |steps| + 1 < TWO64
    requires Tracks(steps[..n], i, t, actor, l) && !(steps[n].Find? && steps[n].t == t)
    ensures Tracks(steps, i, t, actor, l)
  {
    RunAllRefines(steps[..n]);
    HeldStays(RunAll(steps[..n]), steps[n], t);
    ListStays(RunAll(steps[..n]), steps[n], actor, l);
    ListedExactly(steps, actor);
    NeverEmptiedMore(steps, i, n, actor);
  }

  lemma {:induction false} FindFinds<C>(w: World<C>, t: Tid, actor: Bytes)
    requires Inv(w) && actor in w.lists
    ensures var w' := Next(w, Find(t, actor));
      && t in w'.held && w'.held[t] == w.lists[actor] < w'.next
      && actor in w'.lists && w'.lists[actor] == w.lists[actor]
  {
  }

  lemma {:induction false} NotEmptiedYet<C>(steps: seq<Step<C>>, n: nat, t: Tid, actor: Bytes)
    requires n == |steps| - 1 && steps[n] == Find(t, actor) && Live(Calls(steps[..n]), actor) != []
    ensures NeverEmptied(steps, n, actor)
  {
    assert Calls(steps) == Calls(steps[..n]) + [] == Calls(steps[..n]);
    assert steps[..n + 1] == steps;
  }

  lemma {:induction false} JustFound<C>(steps: seq<Step<C>>, n: nat, t: Tid, actor: Bytes)
    requires n == |steps| - 1 && |steps| + 1 < TWO64
    requires steps[n] == Find(t, actor) && Live(Calls(steps[..n]), actor) != []
    ensures actor in RunAll(steps[..n]).lists && Tracks(steps, n, t, actor, RunAll(steps[..n]).lists[actor])
  {
    ListedExactly(steps[..n], actor);
    RunAllRefines(steps[..n]);
    FindFinds(RunAll(steps[..n]), t, actor);
    NotEmptiedYet(steps, n, t, actor);
  }

  lemma {:induction false} FoundIsTracked<C>(steps: seq<Step<C>>, i: nat, t: Tid, actor: Bytes)
    requires i < |steps| && |steps| + 1 < TWO64
    requires steps[i] == Find(t, actor) && Live(Calls(steps[..i]), actor) != []
    requires forall k | i < k < |steps| :: !(steps[k].Find? && steps[k].t == t)
    ensures actor in RunAll(steps[..i]).lists && Tracks(steps, i, t, actor, RunAll(steps[..i]).lists[actor])
  {
    var n := |steps| - 1;
    if i == n {
      JustFound(steps, n, t, actor);
    } else {
      assert steps[..n][..i] == steps[..i];
      FoundIsTracked(steps[..n], i, t, actor);
      TracksMore(steps, i, n, t, actor, RunAll(steps[..i]).lists[actor]);
    }
  }

  /** The list a `notify` has looked up is freed under it if and only if its actor has been without
    * subscribers at some moment since; otherwise what it goes through are the live subscriptions. */
  lemma {:induction false} ListIsFreedExactly<C>(steps: seq<Step<C>>, i: nat, t: Tid, actor: Bytes)
    requires i < |steps| && |steps| + 1 < TWO64
    requires steps[i] == Find(t, actor) && Live(Calls(steps[..i]), actor) != []
    requires forall k | i < k < |steps| :: !(steps[k].Find? && steps[k].t == t)
    ensures Dangling(RunAll(steps), t) <==> exists k :: i < k <= |steps| && Live(Calls(steps[..k]), actor) == []
    ensures !Dangling(RunAll(steps), t) ==>
      t in RunAll(steps).held && RunAll(steps).heap[RunAll(steps).held[t]].subs == Live(Calls(steps), actor)
  {
    FoundIsTracked(steps, i, t, actor);
    ListedExactly(steps, actor);
  }

  /** After any run that leaves an actor one subscription, a cancellation of it frees the list that a
    * `notify` has just looked up. */
  lemma {:induction false} CancelFreesUnderNotify<C>(steps: seq<Step<C>>, t: Tid, actor: Bytes, s: Sub<C>)
    requires |steps| + 3 < TWO64 && Live(Calls(steps), actor) == [s]
    ensures Dangling(RunAll(steps + [Find(t, actor), Call(Op.Unsubscribe(actor, s.id))]), t)
  {
    var found := steps + [Find(t, actor)];
    var all := steps + [Find(t, actor), Call(Op.Unsubscribe(actor, s.id))];
    var n := |steps|;
    assert all[..n] == steps && all[..n + 1] == found && found[..n] == steps && all[..n + 2] == all;
    assert Calls(found) == Calls(steps) + [];
    var ops := Calls(all);
    assert ops == Calls(steps) + [Op.Unsubscribe(actor, s.id)];
    assert ops[..|ops| - 1] == Calls(steps);
    assert Live(ops, actor) == Keep([s], HasId(s.id)) == [];
    ListIsFreedExactly(all, n, t, actor);
  }

  /** Without subscribers there is nothing to look up: a `notify` then uses no list. */
  lemma {:induction false} FindsNothing<C>(steps: seq<Step<C>>, t: Tid, actor: Bytes)
    requires |steps| + 1 < TWO64
    ensures t in RunAll(steps + [Find(t, actor)]).held <==> Live(Calls(steps), actor) != []
  {
    assert (steps + [Find(t, actor)])[..|steps|] == steps;
    ListedExactly(steps, actor);
  }
}
