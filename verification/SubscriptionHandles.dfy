/** The life of a subscription handle: how long it stays good, which id is handed out next, and what
  * happens when a handle is used again after its subscription has been cancelled.
  */
module SubscriptionHandles {
  import opened Base
  import opened ThreadSafeLists
  import opened PubSub

  // ---------------------------------------------------------------- from subscribing to cancelling

  lemma {:induction false} KeepMember<C>(subs: seq<Sub<C>>, id: U64, s: Sub<C>)
    ensures s in Keep(subs, HasId(id)) <==> s in subs && s.id != id
  {
    KeepCounts(subs, HasId(id), s);
    assert s in Keep(subs, HasId(id)) <==> multiset(Keep(subs, HasId(id)))[s] > 0;
    assert s in subs <==> multiset(subs)[s] > 0;
  }

  lemma {:induction false} LastsWhileNotCancelled<C>(ops: seq<Op<C>>, i: nat, j: nat)
    requires i < j <= |ops| < TWO64 && ops[i].Subscribe?
    requires forall k | i < k < j && ops[k].Unsubscribe? && ops[k].actor == ops[i].actor ::
      AnswerAt(ops, i) != Id(ops[k].id)
    ensures AnswerAt(ops, i).Id? && Sub(AnswerAt(ops, i).id, ops[i].callback) in Live(ops[..j], ops[i].actor)
  {
    assert ops[..j][..j - 1] == ops[..j - 1];
    if i + 1 < j {
      LastsWhileNotCancelled(ops, i, j - 1);
      var s := Sub(AnswerAt(ops, i).id, ops[i].callback);
      if ops[j - 1].Unsubscribe? {
        KeepMember(Live(ops[..j - 1], ops[i].actor), ops[j - 1].id, s);
      }
    }
  }

  /** A subscription stays in its actor's list until it is cancelled by its own id. */
  lemma {:induction false} SubscriptionLasts<C>(ops: seq<Op<C>>, i: nat, j: nat)
    requires i < j <= |ops| < TWO64 && ops[i].Subscribe?
    requires forall k | i < k < j && ops[k].Unsubscribe? && ops[k].actor == ops[i].actor ::
      AnswerAt(ops, i) != Id(ops[k].id)
    ensures AnswerAt(ops, i).Id?
    ensures Sub(AnswerAt(ops, i).id, ops[i].callback) in ListOf(Run(ops[..j]), ops[i].actor).subs
  {
    LastsWhileNotCancelled(ops, i, j);
    RunRefines(ops[..j], ops[i].actor);
  }

  /** A cancellation takes out of the list all that has its id, and nothing else. */
  lemma {:induction false} CancelledIsGone<C>(ops: seq<Op<C>>, k: nat, s: Sub<C>)
    requires k < |ops| < TWO64 && ops[k].Unsubscribe?
    ensures s in ListOf(Run(ops[..k + 1]), ops[k].actor).subs
      <==> s in ListOf(Run(ops[..k]), ops[k].actor).subs && s.id != ops[k].id
  {
    assert ops[..k + 1][..k] == ops[..k];
    RunRefines(ops[..k], ops[k].actor);
    RunRefines(ops[..k + 1], ops[k].actor);
    KeepMember(Live(ops[..k], ops[k].actor), ops[k].id, s);
  }

  // ---------------------------------------------------------------- which id comes next

  /** How many subscriptions an actor has been given since its list was last empty. */
  function Handed<C>(ops: seq<Op<C>>, actor: Bytes): nat {
    if ops == [] || Live(ops, actor) == [] then 0
    else
      var n := |ops| - 1;
      Handed(ops[..n], actor) + if ops[n].Subscribe? && ops[n].actor == actor then 1 else 0
  }

  lemma {:induction false} CounterOnCancel<C>(m: Topics<C>, op: Op<C>, actor: Bytes)
    requires TopicsOk(m) && op.Unsubscribe?
    ensures var l, l' := ListOf(m, actor), ListOf(Apply(m, op).0, actor);
      l'.nextId == if l'.subs == [] then 1 else l.nextId
  {
    if op.actor == actor && actor in m {
      UnsubscribeIs(m, actor, op.id);
    }
  }

  lemma {:induction false} CounterStep<C>(m: Topics<C>, op: Op<C>, actor: Bytes, bound: nat)
    requires TopicsOk(m) && CountersBelow(m, bound) && 1 <= bound && bound + 1 < TWO64
    ensures var l, l' := ListOf(m, actor), ListOf(Apply(m, op).0, actor);
      l'.nextId == if l'.subs == [] then 1
        else if op.Subscribe? && op.actor == actor then l.nextId + 1 else l.nextId
  {
    if op.Unsubscribe? {
      CounterOnCancel(m, op, actor);
    }
  }

  lemma {:induction false} CounterCounts<C>(ops: seq<Op<C>>, actor: Bytes)
    requires |ops| + 1 < TWO64
    ensures ListOf(Run(ops), actor).nextId == Handed(ops, actor) + 1
  {
    if ops != [] {
      var n := |ops| - 1;
      CounterCounts(ops[..n], actor);
      RunKeepsOk(ops[..n]);
      CounterStep(Run(ops[..n]), ops[n], actor, n + 1);
      RunRefines(ops, actor);
    }
  }

  /** A subscriber is told how many the actor has been given since it was last without any. */
  lemma {:induction false} IdsAreCounted<C>(ops: seq<Op<C>>, i: nat)
    requires i < |ops| < TWO64 && ops[i].Subscribe?
    ensures AnswerAt(ops, i).Id? && AnswerAt(ops, i).id == Handed(ops[..i], ops[i].actor) + 1
  {
    CounterCounts(ops[..i], ops[i].actor);
  }

  lemma {:induction false} HandedWhileLive<C>(ops: seq<Op<C>>, actor: Bytes)
    ensures Handed(ops, actor) == 0 <==> Live(ops, actor) == []
  {
    if ops != [] {
      HandedWhileLive(ops[..|ops| - 1], actor);
    }
  }

  /** Ids start again exactly when the last subscriber has left. */
  lemma {:induction false} IdsRestartExactly<C>(ops: seq<Op<C>>, i: nat)
    requires i < |ops| < TWO64 && ops[i].Subscribe?
    ensures AnswerAt(ops, i) == Id(1) <==> Live(ops[..i], ops[i].actor) == []
  {
    IdsAreCounted(ops, i);
    HandedWhileLive(ops[..i], ops[i].actor);
  }

  lemma {:induction false} HandedGrows<C>(ops: seq<Op<C>>, i: nat, j: nat, actor: Bytes)
    requires i <= j <= |ops| && forall k | i < k <= j :: Live(ops[..k], actor) != []
    ensures Handed(ops[..i], actor) <= Handed(ops[..j], actor)
  {
    if i < j {
      HandedGrows(ops, i, j - 1, actor);
      assert ops[..j][..j - 1] == ops[..j - 1];
    }
  }

  /** While an actor has subscribers its ids only grow, so none is handed out twice. */
  lemma {:induction false} IdsAreNew<C>(ops: seq<Op<C>>, i: nat, j: nat)
    requires i < j < |ops| < TWO64 && ops[i].Subscribe? && ops[j].Subscribe? && ops[i].actor == ops[j].actor
    requires forall k | i < k <= j :: Live(ops[..k], ops[i].actor) != []
    ensures AnswerAt(ops, i).Id? && AnswerAt(ops, j).Id? && AnswerAt(ops, i).id < AnswerAt(ops, j).id
  {
    IdsAreCounted(ops, i);
    IdsAreCounted(ops, j);
    assert ops[..i + 1][..i] == ops[..i];
    HandedGrows(ops, i + 1, j, ops[i].actor);
  }

  // ---------------------------------------------------------------- a handle used again

  ghost predicate HasLive<C>(ops: seq<Op<C>>, actor: Bytes, id: U64) {
    exists s :: s in Live(ops, actor) && s.id == id
  }

  /** Call `k` gave the actor a subscription with this id. */
  predicate Gives<C>(ops: seq<Op<C>>, k: nat, actor: Bytes, id: U64)
    requires k < |ops|
  {
    ops[k].Subscribe? && ops[k].actor == actor && AnswerAt(ops, k) == Id(id)
  }

  lemma {:induction false} LiveStep<C>(ops: seq<Op<C>>, actor: Bytes, id: U64)
    requires ops != [] && ops[|ops| - 1] != Op.Unsubscribe(actor, id)
    ensures HasLive(ops, actor, id) <==> HasLive(ops[..|ops| - 1], actor, id) || Gives(ops, |ops| - 1, actor, id)
  {
    var n := |ops| - 1;
    var op, before := ops[n], Live(ops[..n], actor);
    if op.actor == actor && op.Subscribe? {
      var s := Sub(AnswerAt(ops, n).id, op.callback);
      assert Live(ops, actor) == [s] + before;
      assert s in Live(ops, actor);
      assert forall r | r in before :: r in Live(ops, actor);
    } else if op.actor == actor && op.Unsubscribe? {
      forall s
        ensures s in Keep(before, HasId(op.id)) <==> s in before && s.id != op.id
      {
        KeepMember(before, op.id, s);
      }
      assert Live(ops, actor) == Keep(before, HasId(op.id));
      if HasLive(ops[..n], actor, id) {
        var s :| s in before && s.id == id;
        assert s in Live(ops, actor);
      }
      if HasLive(ops, actor, id) {
        var s :| s in Live(ops, actor) && s.id == id;
        assert s in before;
      }
    }
  }

  lemma {:induction false} CancelledHasNone<C>(ops: seq<Op<C>>, m: nat)
    requires m < |ops| && ops[m].Unsubscribe?
    ensures !HasLive(ops[..m + 1], ops[m].actor, ops[m].id)
  {
    var before := Live(ops[..m], ops[m].actor);
    assert ops[..m + 1][..m] == ops[..m];
    forall s | s in Keep(before, HasId(ops[m].id))
      ensures s.id != ops[m].id
    {
      KeepMember(before, ops[m].id, s);
    }
  }

  /** After a cancellation the id is live again exactly when it has been handed out again. */
  lemma {:induction false} LiveAgain<C>(ops: seq<Op<C>>, m: nat, j: nat)
    requires m < j <= |ops| && ops[m].Unsubscribe? && forall k | m < k < j :: ops[k] != ops[m]
    ensures HasLive(ops[..j], ops[m].actor, ops[m].id)
      <==> exists k :: m < k < j && Gives(ops, k, ops[m].actor, ops[m].id)
  {
    if m + 1 == j {
      CancelledHasNone(ops, m);
    } else {
      LiveAgain(ops, m, j - 1);
      assert ops[..j][..j - 1] == ops[..j - 1];
      LiveStep(ops[..j], ops[m].actor, ops[m].id);
      assert Gives(ops[..j], j - 1, ops[m].actor, ops[m].id) == Gives(ops, j - 1, ops[m].actor, ops[m].id);
    }
  }

  lemma {:induction false} RemovedIfLive<C>(ops: seq<Op<C>>, j: nat)
    requires j < |ops| < TWO64 && ops[j].Unsubscribe?
    ensures AnswerAt(ops, j) == Removed(HasLive(ops[..j], ops[j].actor, ops[j].id))
  {
    RunRefines(ops[..j], ops[j].actor);
    var live, p := Live(ops[..j], ops[j].actor), HasId<C>(ops[j].id);
    var k := FirstMatch(live, p);
    if k < |live| {
      assert live[k] in live && live[k].id == ops[j].id;
    } else {
      assert forall s | s in live :: !p(s);
    }
  }

  /** A handle is used to cancel, and then used to cancel again.  The second time it cancels a
    * subscription if and only if its id has been handed out again in between, which is when a subscriber
    * came while the count of those since the list was last empty stood one below it. */
  lemma {:induction false} SecondCancelHitsExactly<C>(ops: seq<Op<C>>, m: nat, j: nat)
    requires m < j < |ops| < TWO64 && ops[m].Unsubscribe? && ops[j] == ops[m]
    requires forall k | m < k < j :: ops[k] != ops[m]
    ensures AnswerAt(ops, j) == Removed(true)
      <==> exists k :: m < k < j && ops[k].Subscribe? && ops[k].actor == ops[m].actor
                    && Handed(ops[..k], ops[m].actor) + 1 == ops[m].id
  {
    RemovedIfLive(ops, j);
    LiveAgain(ops, m, j);
    forall k | m < k < j
      ensures Gives(ops, k, ops[m].actor, ops[m].id)
        <==> ops[k].Subscribe? && ops[k].actor == ops[m].actor && Handed(ops[..k], ops[m].actor) + 1 == ops[m].id
    {
      if ops[k].Subscribe? {
        IdsAreCounted(ops, k);
      }
    }
  }

  lemma {:induction false} StaysCancelled<C>(ops: seq<Op<C>>, i: nat, m: nat, j: nat)
    requires i < m < j <= |ops| < TWO64 && ops[i].Subscribe? && ops[m].Unsubscribe? && ops[m].actor == ops[i].actor
    requires AnswerAt(ops, i) == Id(ops[m].id)
    requires forall k | i < k < j :: Live(ops[..k], ops[i].actor) != []
    ensures !HasLive(ops[..j], ops[m].actor, ops[m].id)
  {
    if m + 1 == j {
      CancelledHasNone(ops, m);
    } else if ops[j - 1] == ops[m] {
      CancelledHasNone(ops, j - 1);
    } else {
      StaysCancelled(ops, i, m, j - 1);
      assert ops[..j][..j - 1] == ops[..j - 1];
      LiveStep(ops[..j], ops[m].actor, ops[m].id);
      if ops[j - 1].Subscribe? && ops[j - 1].actor == ops[m].actor {
        IdsAreNew(ops, i, j - 1);
      }
    }
  }

  /** As long as its actor is never without subscribers, a handle once used to cancel cancels nothing more. */
  lemma {:induction false} SecondCancelMisses<C>(ops: seq<Op<C>>, i: nat, m: nat, j: nat)
    requires i < m < j < |ops| < TWO64 && ops[i].Subscribe? && ops[m].Unsubscribe? && ops[m].actor == ops[i].actor
    requires AnswerAt(ops, i) == Id(ops[m].id) && ops[j] == ops[m]
    requires forall k | i < k < j :: Live(ops[..k], ops[i].actor) != []
    ensures AnswerAt(ops, j) == Removed(false)
  {
    StaysCancelled(ops, i, m, j);
    RemovedIfLive(ops, j);
  }

  /** A handle kept after its cancellation can then cancel somebody else's subscription. */
  lemma {:induction false} StaleHandleHitsNewcomer<C>(actor: Bytes, f: C, g: C)
    ensures var cancel := Unsubscribe(actor, 1);
      var ops := [Subscribe(actor, Some(f)), cancel, Subscribe(actor, Some(g)), cancel];
      && AnswerAt(ops, 0) == Id(1) && AnswerAt(ops, 1) == Removed(true)
      && AnswerAt(ops, 3) == Removed(true) && Live(ops, actor) == []
  {
    var ops := [Subscribe(actor, Some(f)), Unsubscribe(actor, 1), Subscribe(actor, Some(g)), Unsubscribe(actor, 1)];
    assert ops[..0] == [] && ops[..1][..0] == [] && ops[..2][..1] == ops[..1];
    assert ops[..3][..2] == ops[..2] && ops[..4] == ops;
    assert Added(SubList(FIRST_ID, []), Some(f)) == SubList(2, [Sub(1, Some(f))]);
    assert Added(SubList(FIRST_ID, []), Some(g)) == SubList(2, [Sub(1, Some(g))]);
    assert Run(ops[..1]) == map[actor := SubList(2, [Sub(1, Some(f))])];
    assert RemoveFirst([Sub(1, Some(f))], HasId(1)) == [];
    assert Run(ops[..2]) == map[];
    var none: Topics<C> := map[];
    assert Apply(none, ops[2]).0 == map[actor := SubList(2, [Sub(1, Some(g))])];
    assert RemoveFirst([Sub(1, Some(g))], HasId(1)) == [];
    assert Run(ops) == map[];
    RunRefines(ops, actor);
  }
}
