/** `SubscriptionSystem`: per actor a list of subscriptions, newest first, with ids from a counter
  * that lives and dies with the list.
  */
module PubSub {
  import opened Base
  import opened ThreadSafeLists

  /** `CallbackWrapper`; a `std::function` may be empty. */
  datatype Sub<C> = Sub(id: U64, callback: Option<C>)

  /** The state of a `SubscriptionList`. */
  datatype SubList<C> = SubList(nextId: U64, subs: seq<Sub<C>>)

  type Topics<C> = map<Bytes, SubList<C>>

  datatype Op<C> =
    | Subscribe(actor: Bytes, callback: Option<C>)
    | Unsubscribe(actor: Bytes, id: U64)
    | Notify(actor: Bytes)
    | Count(actor: Bytes)

  datatype Answer<C> = Id(id: U64) | Removed(found: bool) | Called(callbacks: seq<C>) | Size(size: nat)

  // ---------------------------------------------------------------- operations

  function HasId<C>(id: U64): Sub<C> -> bool {
    (s: Sub<C>) => s.id == id
  }

  const FIRST_ID: U64 := 1

  function ListOf<C>(m: Topics<C>, actor: Bytes): SubList<C> {
    if actor in m then m[actor] else SubList(FIRST_ID, [])
  }

  function Added<C>(l: SubList<C>, callback: Option<C>): SubList<C> {
    SubList((l.nextId + 1) % TWO64, [Sub(l.nextId, callback)] + l.subs)
  }

  function DoUnsubscribe<C>(m: Topics<C>, actor: Bytes, id: U64): Topics<C> {
    if actor !in m then m
    else
      var left := RemoveFirst(m[actor].subs, HasId(id));
      if left == [] && m[actor].subs != [] then m - {actor} else m[actor := m[actor].(subs := left)]
  }

  /** The callbacks `invoke_all` hands to the handler. */
  function Callbacks<C>(subs: seq<Sub<C>>): seq<C> {
    if subs == [] then []
    else
      var n := |subs| - 1;
      Callbacks(subs[..n]) + if subs[n].callback.Some? then [subs[n].callback.value] else []
  }

  function Apply<C>(m: Topics<C>, op: Op<C>): (Topics<C>, Answer<C>) {
    match op
    case Subscribe(a, callback) => (m[a := Added(ListOf(m, a), callback)], Id(ListOf(m, a).nextId))
    case Unsubscribe(a, id) =>
      (DoUnsubscribe(m, a, id), Removed(FirstMatch(ListOf(m, a).subs, HasId(id)) < |ListOf(m, a).subs|))
    case Notify(a) => (m, Called(Callbacks(ListOf(m, a).subs)))
    case Count(a) => (m, Size(|ListOf(m, a).subs|))
  }

  function Run<C>(ops: seq<Op<C>>): Topics<C> {
    if ops == [] then map[] else Apply(Run(ops[..|ops| - 1]), ops[|ops| - 1]).0
  }

  function AnswerAt<C>(ops: seq<Op<C>>, i: nat): Answer<C>
    requires i < |ops|
  {
    Apply(Run(ops[..i]), ops[i]).1
  }

  // ---------------------------------------------------------------- what it should mean

  /** The live subscriptions of an actor, read off the calls and their answers alone. */
  function Live<C>(ops: seq<Op<C>>, actor: Bytes): seq<Sub<C>> {
    if ops == [] then []
    else
      var n := |ops| - 1;
      var before, op := Live(ops[..n], actor), ops[n];
      if op.actor != actor then before
      else match op
        case Subscribe(_, callback) =>
          (if AnswerAt(ops, n).Id? then [Sub(AnswerAt(ops, n).id, callback)] else []) + before
        case Unsubscribe(_, id) => Keep(before, HasId(id))
        case _ => before
  }

  // ---------------------------------------------------------------- invariant

  /** Live ids are distinct and below the counter. */
  ghost predicate IdsOk<C>(l: SubList<C>) {
    && (forall i | 0 <= i < |l.subs| :: 1 <= l.subs[i].id < l.nextId)
    && (forall i, j | 0 <= i < j < |l.subs| :: l.subs[i].id != l.subs[j].id)
  }

  /** No list is empty. */
  ghost predicate TopicsOk<C>(m: Topics<C>) {
    forall a | a in m :: m[a].subs != [] && IdsOk(m[a])
  }

  /** The counter wraps at 2^64; up to there, and no further, an `add` keeps ids distinct and in order. */
  lemma {:induction false} AddKeepsIdsExactly<C>(l: SubList<C>, callback: Option<C>)
    requires IdsOk(l) && 1 <= l.nextId
    ensures IdsOk(Added(l, callback)) <==> l.nextId + 1 < TWO64
  {
    var l' := Added(l, callback);
    if l.nextId + 1 < TWO64 {
      assert l'.nextId == l.nextId + 1;
      assert forall i | 1 <= i < |l'.subs| :: l'.subs[i] == l.subs[i - 1];
    } else {
      assert l'.nextId == 0;
      assert l'.subs[0].id == l.nextId;
    }
  }

  lemma {:induction false} NoOtherHasId<C>(subs: seq<Sub<C>>, k: nat, left: seq<Sub<C>>)
    requires forall i, j | 0 <= i < j < |subs| :: subs[i].id != subs[j].id
    requires k < |subs| && left == subs[..k] + subs[k + 1..]
    ensures forall i | 0 <= i < |left| :: left[i].id != subs[k].id
  {
    forall i | 0 <= i < |left|
      ensures left[i].id != subs[k].id
    {
      var j := if i < k then i else i + 1;
      assert left[i] == subs[j] && j != k;
    }
  }

  /** With distinct ids, removing the first match removes all there is. */
  lemma {:induction false} RemoveFirstIsKeep<C>(subs: seq<Sub<C>>, id: U64)
    requires forall i, j | 0 <= i < j < |subs| :: subs[i].id != subs[j].id
    ensures RemoveFirst(subs, HasId(id)) == Keep(subs, HasId(id))
  {
    var p := HasId<C>(id);
    var k, left := FirstMatch(subs, p), RemoveFirst(subs, p);
    KeepIsRepeatedRemoveFirst(subs, p);
    if k < |subs| {
      NoOtherHasId(subs, k, left);
      KeepAll(left, p);
    }
  }

  lemma {:induction false} RemoveKeepsIds<C>(l: SubList<C>, id: U64)
    requires IdsOk(l)
    ensures IdsOk(l.(subs := RemoveFirst(l.subs, HasId(id))))
    ensures l.subs != [] && RemoveFirst(l.subs, HasId(id)) == [] ==> |l.subs| == 1
  {
  }

  /** Counters stay within the number of calls made. */
  ghost predicate CountersBelow<C>(m: Topics<C>, bound: nat) {
    forall a | a in m :: 1 <= m[a].nextId <= bound
  }

  lemma {:induction false} SubscribeKeepsOk<C>(m: Topics<C>, actor: Bytes, callback: Option<C>, bound: nat)
    requires TopicsOk(m) && CountersBelow(m, bound) && 1 <= bound && bound + 1 < TWO64
    ensures var m' := m[actor := Added(ListOf(m, actor), callback)]; TopicsOk(m') && CountersBelow(m', bound + 1)
  {
    AddKeepsIdsExactly(ListOf(m, actor), callback);
  }

  lemma {:induction false} UnsubscribeKeepsOk<C>(m: Topics<C>, actor: Bytes, id: U64, bound: nat)
    requires TopicsOk(m) && CountersBelow(m, bound)
    ensures TopicsOk(DoUnsubscribe(m, actor, id)) && CountersBelow(DoUnsubscribe(m, actor, id), bound)
  {
    RemoveKeepsIds(ListOf(m, actor), id);
  }

  lemma {:induction false} ApplyKeepsOk<C>(m: Topics<C>, op: Op<C>, bound: nat)
    requires TopicsOk(m) && CountersBelow(m, bound) && 1 <= bound && bound + 1 < TWO64
    ensures TopicsOk(Apply(m, op).0) && CountersBelow(Apply(m, op).0, bound + 1)
  {
    match op
    case Subscribe(a, callback) => SubscribeKeepsOk(m, a, callback, bound);
    case Unsubscribe(a, id) => UnsubscribeKeepsOk(m, a, id, bound);
    case _ =>
  }

  lemma {:induction false} RunKeepsOk<C>(ops: seq<Op<C>>)
    requires |ops| + 1 < TWO64
    ensures TopicsOk(Run(ops)) && CountersBelow(Run(ops), |ops| + 1)
  {
    if ops != [] {
      var n := |ops| - 1;
      RunKeepsOk(ops[..n]);
      ApplyKeepsOk(Run(ops[..n]), ops[n], n + 1);
    }
  }

  // ---------------------------------------------------------------- refinement

  lemma {:induction false} ApplyRefines<C>(m: Topics<C>, op: Op<C>, actor: Bytes)
    requires TopicsOk(m)
    ensures var (m', answer) := Apply(m, op);
      ListOf(m', actor).subs ==
        if op.actor != actor then ListOf(m, actor).subs
        else if op.Subscribe? then [Sub(answer.id, op.callback)] + ListOf(m, actor).subs
        else if op.Unsubscribe? then Keep(ListOf(m, actor).subs, HasId(op.id))
        else ListOf(m, actor).subs
  {
    if op.Unsubscribe? && op.actor == actor {
      RemoveFirstIsKeep(ListOf(m, actor).subs, op.id);
    }
  }

  /** The map of lists is, for every actor, exactly what the calls and their answers say. */
  lemma {:induction false} RunRefines<C>(ops: seq<Op<C>>, actor: Bytes)
    requires |ops| < TWO64
    ensures ListOf(Run(ops), actor).subs == Live(ops, actor)
  {
    if ops != [] {
      var n := |ops| - 1;
      RunRefines(ops[..n], actor);
      RunKeepsOk(ops[..n]);
      ApplyRefines(Run(ops[..n]), ops[n], actor);
    }
  }

  /** Every answer, in terms of the live subscriptions at that moment. */
  lemma {:induction false} AnswersAreRight<C>(ops: seq<Op<C>>, i: nat)
    requires i < |ops| < TWO64
    ensures var live, answer := Live(ops[..i], ops[i].actor), AnswerAt(ops, i);
      match ops[i]
      case Subscribe(_, _) => answer.Id? && forall k | 0 <= k < |live| :: live[k].id < answer.id
      case Unsubscribe(_, id) => answer.Removed? && (answer.found <==> exists k :: 0 <= k < |live| && live[k].id == id)
      case Notify(_) => answer == Called(Callbacks(live))
      case Count(_) => answer == Size(|live|)
  {
    RunRefines(ops[..i], ops[i].actor);
    RunKeepsOk(ops[..i]);
    if ops[i].Unsubscribe? {
      var live, p := Live(ops[..i], ops[i].actor), HasId<C>(ops[i].id);
      var k := FirstMatch(live, p);
      assert k < |live| ==> live[k].id == ops[i].id;
      assert forall j | 0 <= j < |live| && live[j].id == ops[i].id :: p(live[j]);
    }
  }

  // ---------------------------------------------------------------- each callback once

  /** How many of the first `i` subscriptions have a callback. */
  function Rank<C>(subs: seq<Sub<C>>, i: nat): nat
    requires i <= |subs|
  {
    if i == 0 then 0 else Rank(subs, i - 1) + if subs[i - 1].callback.Some? then 1 else 0
  }

  lemma {:induction false} CallbacksUpTo<C>(subs: seq<Sub<C>>, n: nat)
    requires n <= |subs|
    ensures |Callbacks(subs[..n])| == Rank(subs, n)
    ensures forall i | 0 <= i < n && subs[i].callback.Some? ::
      Rank(subs, i) < Rank(subs, n) && Callbacks(subs[..n])[Rank(subs, i)] == subs[i].callback.value
  {
    if n > 0 {
      CallbacksUpTo(subs, n - 1);
      assert subs[..n][..n - 1] == subs[..n - 1];
    }
  }

  lemma {:induction false} RankGrows<C>(subs: seq<Sub<C>>, i: nat, j: nat)
    requires i < j <= |subs|
    ensures Rank(subs, i) + (if subs[i].callback.Some? then 1 else 0) <= Rank(subs, j)
  {
    if i + 1 < j {
      RankGrows(subs, i, j - 1);
    }
  }

  /** `notify` calls each live callback exactly once, in order: the positions of the non-empty
    * callbacks correspond one to one, increasingly, to the calls. */
  lemma {:induction false} NotifiedOnce<C>(subs: seq<Sub<C>>)
    ensures |Callbacks(subs)| == Rank(subs, |subs|)
    ensures forall i | 0 <= i < |subs| && subs[i].callback.Some? ::
      Rank(subs, i) < |Callbacks(subs)| && Callbacks(subs)[Rank(subs, i)] == subs[i].callback.value
    ensures forall i, j | 0 <= i < j < |subs| && subs[i].callback.Some? :: Rank(subs, i) < Rank(subs, j)
  {
    CallbacksUpTo(subs, |subs|);
    assert subs[..|subs|] == subs;
    forall i, j | 0 <= i < j < |subs| && subs[i].callback.Some?
      ensures Rank(subs, i) < Rank(subs, j)
    {
      RankGrows(subs, i, j);
    }
  }

  // ---------------------------------------------------------------- the objects

  class SubscriptionList<C> {
    const callbacks: ThreadSafeList<Sub<C>>
    var nextId: U64

    ghost var repr: set<object>
    ghost var state: SubList<C>

    ghost predicate Valid()
      reads this, repr
    {
      && {this, callbacks} <= repr && callbacks.nodes <= repr
      && callbacks.Valid() && state == SubList(nextId, callbacks.contents)
    }

    constructor ()
      ensures Valid() && fresh(repr) && state == SubList(FIRST_ID, [])
    {
      var list := new ThreadSafeList<Sub<C>>();
      callbacks, nextId := list, FIRST_ID;
      repr, state := {this, list} + list.nodes, SubList(FIRST_ID, []);
    }

    method Add(callback: Option<C>) returns (id: U64)
      requires Valid()
      modifies repr
      ensures Valid() && fresh(repr - old(repr))
      ensures id == old(state).nextId && state == Added(old(state), callback)
    {
      id := nextId;
      nextId := (nextId + 1) % TWO64;
      callbacks.PushFront(Sub(id, callback));
      repr, state := repr + callbacks.nodes, Added(state, callback);
    }

    method Remove(id: U64) returns (removed: bool)
      requires Valid()
      modifies repr
      ensures Valid() && repr == old(repr)
      ensures state == old(state).(subs := RemoveFirst(old(state).subs, HasId(id)))
      ensures removed == (FirstMatch(old(state).subs, HasId(id)) < |old(state).subs|)
    {
      removed := callbacks.RemoveFirstIf(HasId(id));
      state := state.(subs := callbacks.contents);
    }

    /** The callbacks the handler is called with, in order. */
    method InvokeAll() returns (called: seq<C>)
      requires Valid()
      modifies repr
      ensures Valid() && repr == old(repr) && state == old(state)
      ensures called == Callbacks(state.subs)
    {
      var visited := callbacks.ForEach();
      called := [];
      for i := 0 to |visited|
        invariant called == Callbacks(visited[..i])
      {
        assert visited[..i + 1][..i] == visited[..i];
        if visited[i].callback.Some? {
          called := called + [visited[i].callback.value];
        }
      }
      assert visited[..|visited|] == visited;
    }

    method Size() returns (n: nat)
      requires Valid()
      ensures n == |state.subs|
    {
      n := callbacks.size;
    }
  }

  lemma {:induction false} UnsubscribeIs<C>(m: Topics<C>, actor: Bytes, id: U64)
    requires actor in m
    ensures var subs := m[actor].subs;
      var left, found := RemoveFirst(subs, HasId(id)), FirstMatch(subs, HasId(id)) < |subs|;
      Apply(m, Op.Unsubscribe(actor, id)) ==
        (if found && left == [] then m - {actor} else m[actor := m[actor].(subs := left)], Removed(found))
  {
  }

  class SubscriptionSystem<C> {
    var subscriptions: map<Bytes, SubscriptionList<C>>

    ghost var area: set<object>

    /** The lists are valid and share nothing. */
    ghost predicate Valid()
      reads this, area
    {
      && this !in area
      && (forall a | a in subscriptions ::
            && subscriptions[a] in area && subscriptions[a] in subscriptions[a].repr
            && subscriptions[a].repr <= area && subscriptions[a].Valid())
      && (forall a, b | a in subscriptions && b in subscriptions && a != b ::
            subscriptions[a].repr !! subscriptions[b].repr)
    }

    /** What the lists hold. */
    ghost function Model(): Topics<C>
      reads this, subscriptions.Values
    {
      map a | a in subscriptions :: subscriptions[a].state
    }

    constructor ()
      ensures Valid() && area == {} && Model() == map[]
    {
      subscriptions, area := map[], {};
    }

    /** The list of an actor may have taken in new objects. */
    ghost method Widen(actor: Bytes)
      requires this !in area && actor in subscriptions
      requires forall a | a in subscriptions ::
        && this !in subscriptions[a].repr && subscriptions[a] in subscriptions[a].repr && subscriptions[a].Valid()
      requires forall a | a in subscriptions && a != actor :: subscriptions[a].repr <= area
      requires forall a, b | a in subscriptions && b in subscriptions && a != b ::
        subscriptions[a].repr !! subscriptions[b].repr
      modifies this`area
      ensures Valid() && area == old(area) + subscriptions[actor].repr
    {
      area := area + subscriptions[actor].repr;
    }

    ghost predicate Shows(m: Topics<C>)
      reads this, subscriptions.Values
    {
      m.Keys == subscriptions.Keys && forall a | a in m :: subscriptions[a].state == m[a]
    }

    lemma {:induction false} ModelIs(m: Topics<C>)
      requires Shows(m)
      ensures Model() == m
    {
    }

    lemma {:induction false} ModelWith(was: Topics<C>, actor: Bytes)
      requires Differs(was, actor) && actor in subscriptions
      ensures Model() == was[actor := subscriptions[actor].state]
    {
      var m := was[actor := subscriptions[actor].state];
      assert forall a :: a in m <==> a in subscriptions;
      ModelIs(m);
    }

    lemma {:induction false} ModelWithout(was: Topics<C>, actor: Bytes)
      requires Differs(was, actor) && actor !in subscriptions
      ensures Model() == was - {actor}
    {
      var m := was - {actor};
      assert forall a :: a in m <==> a in subscriptions;
      ModelIs(m);
    }

    /** Only the list of `actor` may differ from `was`. */
    ghost predicate Differs(was: Topics<C>, actor: Bytes)
      reads this, subscriptions.Values
    {
      && (forall a | a in was && a != actor :: a in subscriptions)
      && (forall a | a in subscriptions && a != actor :: a in was && subscriptions[a].state == was[a])
    }

    method Install(actor: Bytes, list: SubscriptionList<C>)
      requires Valid() && actor !in subscriptions && this !in list.repr && list in list.repr && list.Valid()
      requires list.repr !! area
      modifies this
      ensures Valid() && area == old(area) + list.repr
      ensures subscriptions == old(subscriptions)[actor := list]
    {
      subscriptions, area := subscriptions[actor := list], area + list.repr;
    }

    method Erase(actor: Bytes)
      requires Valid() && actor in subscriptions
      modifies this`subscriptions
      ensures Valid() && subscriptions == old(subscriptions) - {actor}
    {
      subscriptions := subscriptions - {actor};
    }

    method EraseFrom(actor: Bytes, ghost was: Topics<C>)
      requires Valid() && actor in subscriptions && Differs(was, actor)
      modifies this`subscriptions
      ensures Valid() && Differs(was, actor) && subscriptions == old(subscriptions) - {actor}
    {
      Erase(actor);
      forall a | a in subscriptions && a != actor
        ensures a in was && subscriptions[a].state == was[a]
      {
        assert a in old(subscriptions);
      }
    }

    /** `unsubscribe` after the removal. */
    method EraseIfEmpty(actor: Bytes, removed: bool, ghost was: Topics<C>)
      requires Valid() && actor in subscriptions && Differs(was, actor)
      modifies this`subscriptions
      ensures Valid() && Differs(was, actor)
      ensures subscriptions == if removed && old(subscriptions[actor].state.subs == [])
        then old(subscriptions) - {actor} else old(subscriptions)
    {
      var left := subscriptions[actor].Size();
      if removed && left == 0 {
        EraseFrom(actor, was);
      }
    }

    /** The missing list of an actor. */
    method Create(actor: Bytes, ghost was: Topics<C>)
      requires Valid() && actor !in subscriptions && Differs(was, actor)
      modifies this
      ensures Valid() && fresh(area - old(area)) && actor in subscriptions
      ensures Differs(was, actor) && subscriptions[actor].state == SubList(FIRST_ID, [])
    {
      var list := new SubscriptionList<C>();
      Install(actor, list);
    }

    method AddTo(actor: Bytes, callback: Option<C>, ghost was: Topics<C>) returns (id: U64)
      requires Valid() && actor in subscriptions && Differs(was, actor)
      modifies this`area, area
      ensures Valid() && fresh(area - old(area)) && Differs(was, actor) && actor in subscriptions
      ensures id == old(subscriptions[actor].state).nextId
      ensures subscriptions[actor].state == Added(old(subscriptions[actor].state), callback)
    {
      var list := subscriptions[actor];
      id := list.Add(callback);
      forall a | a in subscriptions && a != actor
        ensures a in was && subscriptions[a].Valid() && subscriptions[a].state == was[a]
        ensures subscriptions[a] in subscriptions[a].repr && subscriptions[a].repr <= area
        ensures subscriptions[a].repr !! list.repr
      {
        assert old(subscriptions[a].repr) !! old(list.repr);
      }
      assert old(list.repr) <= old(area);
      Widen(actor);
    }

    method RemoveFrom(actor: Bytes, id: U64, ghost was: Topics<C>) returns (removed: bool)
      requires Valid() && actor in subscriptions && Differs(was, actor)
      modifies area
      ensures Valid() && Differs(was, actor)
      ensures var l := old(subscriptions[actor].state);
        && subscriptions[actor].state == l.(subs := RemoveFirst(l.subs, HasId(id)))
        && removed == (FirstMatch(l.subs, HasId(id)) < |l.subs|)
    {
      var list := subscriptions[actor];
      removed := list.Remove(id);
      forall a | a in subscriptions && a != actor
        ensures a in was && subscriptions[a].Valid() && subscriptions[a].state == was[a]
        ensures subscriptions[a] in subscriptions[a].repr && subscriptions[a].repr <= area
        ensures subscriptions[a].repr !! list.repr
      {
        assert old(subscriptions[a].repr) !! old(list.repr);
      }
    }

    method Subscribe(actor: Bytes, callback: Option<C>) returns (id: U64)
      requires Valid()
      modifies this, area
      ensures Valid() && fresh(area - old(area))
      ensures (Model(), Id(id)) == Apply(old(Model()), Op.Subscribe(actor, callback))
    {
      ghost var was := Model();
      if actor !in subscriptions {
        Create(actor, was);
      }
      id := AddTo(actor, callback, was);
      ModelWith(was, actor);
    }

    method Unsubscribe(actor: Bytes, id: U64) returns (removed: bool)
      requires Valid()
      modifies this`subscriptions, area
      ensures Valid()
      ensures (Model(), Removed(removed)) == Apply(old(Model()), Op.Unsubscribe(actor, id))
    {
      ghost var was := Model();
      if actor !in subscriptions {
        return false;
      }
      UnsubscribeIs(was, actor, id);
      ghost var left := was[actor].(subs := RemoveFirst(was[actor].subs, HasId(id)));
      removed := RemoveFrom(actor, id, was);
      EraseIfEmpty(actor, removed, was);
      if actor in subscriptions {
        ModelWith(was, actor);
        assert Model() == was[actor := left] && !(removed && left.subs == []);
      } else {
        ModelWithout(was, actor);
        assert Model() == was - {actor} && removed && left.subs == [];
      }
    }

    method InvokeOn(actor: Bytes, ghost m: Topics<C>) returns (called: seq<C>)
      requires Valid() && actor in subscriptions && Shows(m)
      modifies area
      ensures Valid() && Shows(m) && called == Callbacks(m[actor].subs)
    {
      var list := subscriptions[actor];
      called := list.InvokeAll();
      forall a | a in subscriptions && a != actor
        ensures subscriptions[a].Valid() && subscriptions[a].state == m[a]
        ensures subscriptions[a] in subscriptions[a].repr && subscriptions[a].repr <= area
        ensures subscriptions[a].repr !! list.repr
      {
        assert old(subscriptions[a].repr) !! old(list.repr);
      }
    }

    method Notify(actor: Bytes) returns (called: seq<C>)
      requires Valid()
      modifies area
      ensures Valid() && (Model(), Called(called)) == Apply(old(Model()), Op.Notify(actor))
    {
      ghost var m := Model();
      if actor !in subscriptions {
        return [];
      }
      called := InvokeOn(actor, m);
      ModelIs(m);
    }

    method SubscriberCount(actor: Bytes) returns (n: nat)
      requires Valid()
      ensures Size(n) == Apply(Model(), Count(actor)).1
    {
      if actor !in subscriptions {
        return 0;
      }
      n := subscriptions[actor].Size();
    }
  }
}
