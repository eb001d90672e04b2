/** `ThreadSafeList` as an object: real nodes, real `next` pointers, relinked in place.  Each method
  * is run by one thread without interruption; module `LockedList` interleaves them.
  */
module ThreadSafeLists {
  import opened Base

  // ---------------------------------------------------------------- what the methods mean

  /** Index of the first match, or the length. */
  function FirstMatch<T>(s: seq<T>, p: T -> bool): (k: nat)
    ensures k <= |s| && (k < |s| ==> p(s[k]))
    ensures forall i | 0 <= i < k :: !p(s[i])
  {
    if s == [] || p(s[0]) then 0 else 1 + FirstMatch(s[1..], p)
  }

  function RemoveFirst<T>(s: seq<T>, p: T -> bool): seq<T> {
    var k := FirstMatch(s, p);
    if k < |s| then s[..k] + s[k + 1..] else s
  }

  /** What does not match, in order. */
  function Keep<T>(s: seq<T>, p: T -> bool): seq<T> {
    if s == [] then []
    else if p(s[|s| - 1]) then Keep(s[..|s| - 1], p)
    else Keep(s[..|s| - 1], p) + [s[|s| - 1]]
  }

  lemma {:induction false} KeepSnoc<T>(s: seq<T>, p: T -> bool, k: nat)
    requires k < |s|
    ensures Keep(s[..k + 1], p) == if p(s[k]) then Keep(s[..k], p) else Keep(s[..k], p) + [s[k]]
  {
    assert s[..k + 1][..k] == s[..k];
  }

  lemma {:induction false} KeepConcat<T>(a: seq<T>, b: seq<T>, p: T -> bool)
    ensures Keep(a + b, p) == Keep(a, p) + Keep(b, p)
  {
    if b == [] {
      assert a + b == a;
    } else {
      var n := |b| - 1;
      KeepConcat(a, b[..n], p);
      assert (a + b)[..|a + b| - 1] == a + b[..n];
    }
  }

  lemma {:induction false} KeepCons<T>(s: seq<T>, p: T -> bool)
    requires s != []
    ensures Keep(s, p) == (if p(s[0]) then [] else [s[0]]) + Keep(s[1..], p)
  {
    KeepConcat([s[0]], s[1..], p);
    assert s == [s[0]] + s[1..];
  }

  lemma {:induction false} KeepAll<T>(s: seq<T>, p: T -> bool)
    requires forall i | 0 <= i < |s| :: !p(s[i])
    ensures Keep(s, p) == s
  {
    if s != [] {
      KeepAll(s[..|s| - 1], p);
    }
  }

  /** `remove_if` is `remove_first_if` repeated until nothing matches. */
  lemma {:induction false} KeepIsRepeatedRemoveFirst<T>(s: seq<T>, p: T -> bool)
    ensures FirstMatch(s, p) == |s| ==> Keep(s, p) == s
    ensures FirstMatch(s, p) < |s| ==> Keep(RemoveFirst(s, p), p) == Keep(s, p)
  {
    var k := FirstMatch(s, p);
    if k == |s| {
      KeepAll(s, p);
    } else {
      KeepConcat(s[..k], s[k + 1..], p);
      KeepSnoc(s, p, k);
      KeepConcat(s[..k + 1], s[k + 1..], p);
      assert s == s[..k + 1] + s[k + 1..];
    }
  }

  /** Nothing that matches is left, and every other value keeps its number of copies. */
  lemma {:induction false} KeepCounts<T>(s: seq<T>, p: T -> bool, x: T)
    ensures multiset(Keep(s, p))[x] == if p(x) then 0 else multiset(s)[x]
  {
    if s != [] {
      KeepCounts(s[..|s| - 1], p, x);
      assert s == s[..|s| - 1] + [s[|s| - 1]];
    }
  }

  /** What `remove_if` will leave when it has examined `i` values and kept them. */
  function KeepFrom<T>(s: seq<T>, p: T -> bool, i: nat): seq<T>
    requires i <= |s|
  {
    s[..i] + Keep(s[i..], p)
  }

  lemma {:induction false} KeepFromOn<T>(s: seq<T>, p: T -> bool, i: nat)
    requires i < |s|
    ensures if p(s[i]) then KeepFrom(s[..i] + s[i + 1..], p, i) == KeepFrom(s, p, i)
      else KeepFrom(s, p, i + 1) == KeepFrom(s, p, i)
  {
    KeepCons(s[i..], p);
    assert s[i..][1..] == s[i + 1..];
    assert (s[..i] + s[i + 1..])[i..] == s[i + 1..];
  }

  /** A search that has found nothing before `i` looks at `i`. */
  lemma {:induction false} SearchOn<T>(s: seq<T>, p: T -> bool, i: nat)
    requires i < |s| && FirstMatch(s[..i], p) == i
    ensures if p(s[i]) then FirstMatch(s, p) == i else FirstMatch(s[..i + 1], p) == i + 1
  {
  }

  // ---------------------------------------------------------------- nodes

  class Node<T> {
    var data: Option<T>
    var next: Node?<T>
    var locked: bool

    constructor (data: Option<T>, next: Node?<T>)
      ensures this.data == data && this.next == next && !locked
    {
      this.data, this.next, locked := data, next, false;
    }

    /** `m.lock()` by a thread that does not hold `m`. */
    method Lock()
      requires !locked
      modifies this`locked
      ensures locked
    {
      locked := true;
    }

    method Unlock()
      requires locked
      modifies this`locked
      ensures !locked
    {
      locked := false;
    }
  }

  // ---------------------------------------------------------------- the list

  function After<T>(nodes: seq<Node<T>>, i: nat): Node?<T> {
    if i + 1 < |nodes| then nodes[i + 1] else null
  }

  predicate AllDistinct<T>(spine: seq<Node<T>>) {
    forall i, j | 0 <= i < j < |spine| :: spine[i] != spine[j]
  }

  function CutAfter<T>(s: seq<T>, i: nat): seq<T>
    requires i + 1 < |s|
  {
    s[..i + 1] + s[i + 2..]
  }

  lemma {:induction false} CutSpine<T>(spine: seq<Node<T>>, i: nat)
    requires i + 1 < |spine| && AllDistinct(spine)
    ensures var cut := CutAfter(spine, i);
      && AllDistinct(cut)
      && (forall k | 0 <= k < |cut| :: cut[k] == spine[if k <= i then k else k + 1] && cut[k] != spine[i + 1])
      && (forall k {:trigger After(cut, k)} | 0 <= k < |cut| ::
            After(cut, k) == After(spine, if k < i then k else k + 1))
  {
  }

  /** The spine runs through `nodes` from `head`, linked in order, and carries the contents. */
  ghost predicate Spine<T>(head: Node<T>, nodes: set<Node<T>>, spine: seq<Node<T>>, contents: seq<T>)
    reads nodes
  {
    && |spine| == |contents| + 1 && spine[0] == head && AllDistinct(spine)
    && (forall i | 0 <= i < |spine| :: spine[i] in nodes)
    && (forall i {:trigger After(spine, i)} | 0 <= i < |spine| :: spine[i].next == After(spine, i))
    && (forall i | 0 < i < |spine| :: spine[i].data == Some(contents[i - 1]))
  }

  lemma {:induction false} DataCut<T>(spine: seq<Node<T>>, contents: seq<T>, i: nat, k: nat)
    requires i + 1 < |spine| == |contents| + 1 && 0 < k < |spine| - 1
    requires spine[if k <= i then k else k + 1].data == Some(contents[(if k <= i then k else k + 1) - 1])
    ensures CutAfter(spine, i)[k].data == Some((contents[..i] + contents[i + 1..])[k - 1])
  {
  }

  /** What relinking around the node after `i` leaves. */
  lemma {:induction false} SpineCut<T>(head: Node<T>, nodes: set<Node<T>>, spine: seq<Node<T>>, contents: seq<T>,
                                       i: nat)
    requires |spine| == |contents| + 1 && spine[0] == head && AllDistinct(spine) && i + 1 < |spine|
    requires forall k | 0 <= k < |spine| :: spine[k] in nodes
    requires forall k | 0 < k < |spine| :: spine[k].data == Some(contents[k - 1])
    requires forall k {:trigger After(spine, k)} | 0 <= k < |spine| && k != i && k != i + 1 ::
      spine[k].next == After(spine, k)
    requires spine[i].next == After(spine, i + 1)
    ensures Spine(head, nodes - {spine[i + 1]}, CutAfter(spine, i), contents[..i] + contents[i + 1..])
  {
    var cut := CutAfter(spine, i);
    CutSpine(spine, i);
    forall k | 0 <= k < |cut|
      ensures cut[k].next == After(cut, k)
    {
      assert After(cut, k) == After(spine, if k < i then k else k + 1);
    }
    forall k | 0 < k < |cut|
      ensures cut[k].data == Some((contents[..i] + contents[i + 1..])[k - 1])
    {
      DataCut(spine, contents, i, k);
    }
  }

  class ThreadSafeList<T> {
    const head: Node<T>
    var size: nat

    ghost var nodes: set<Node<T>>
    ghost var spine: seq<Node<T>>
    ghost var contents: seq<T>

    ghost predicate Linked()
      reads this, nodes
    {
      size == |contents| && Spine(head, nodes, spine, contents)
    }

    /** Exactly the nodes in `held` are locked. */
    ghost predicate Locked(held: set<Node<T>>)
      reads this, nodes
    {
      forall n | n in nodes :: n.locked <==> n in held
    }

    ghost predicate Valid()
      reads this, nodes
    {
      Linked() && Locked({})
    }

    /** `std::unique_lock` taken on a node that is not held. */
    method Take(n: Node<T>, ghost held: set<Node<T>>)
      requires Linked() && Locked(held) && n in nodes && n !in held
      modifies n`locked
      ensures Linked() && Locked(held + {n}) && n.next == old(n.next) && n.data == old(n.data)
    {
      n.Lock();
    }

    method Release(n: Node<T>, ghost held: set<Node<T>>)
      requires Linked() && Locked(held) && n in nodes && n in held
      modifies n`locked
      ensures Linked() && Locked(held - {n})
    {
      n.Unlock();
    }

    constructor ()
      ensures Valid() && contents == [] && fresh(nodes)
    {
      var h := new Node<T>(None, null);
      head, size, nodes, spine, contents := h, 0, {h}, [h], [];
    }

    method PushFront(value: T)
      requires Valid()
      modifies this, head
      ensures Valid() && contents == [value] + old(contents)
      ensures fresh(nodes - old(nodes)) && old(nodes) <= nodes
    {
      var node := new Node<T>(Some(value), null);
      Take(head, {});
      LinkFront(node, value);
      Release(head, {head});
    }

    /** The pointer updates of `push_front`. */
    method LinkFront(node: Node<T>, value: T)
      requires Linked() && Locked({head}) && node !in nodes && !node.locked && node.data == Some(value)
      modifies this, head, node
      ensures Linked() && Locked({head})
      ensures nodes == old(nodes) + {node}
      ensures spine == [head, node] + old(spine[1..]) && contents == [value] + old(contents)
    {
      assert head.next == After(spine, 0);
      node.next := head.next;
      head.next := node;
      size := size + 1;
      nodes := nodes + {node};
      spine, contents := [head, node] + spine[1..], [value] + contents;
      forall i | 0 <= i < |spine|
        ensures spine[i].next == After(spine, i)
      {
        if i > 1 {
          assert old(spine)[i - 1].next == After(old(spine), i - 1);
        }
      }
    }

    /** `current` is the `i`th node, the only one locked. */
    ghost predicate At(current: Node<T>, i: nat)
      reads this, nodes
    {
      Linked() && Locked({current}) && i < |spine| && current == spine[i] && current.next == After(spine, i)
    }

    /** Hand over hand: `next` is locked before `current` is unlocked. */
    method Couple(current: Node<T>, ghost i: nat) returns (next: Node<T>)
      requires At(current, i) && current.next != null
      modifies spine[i + 1]
      ensures Linked() && Locked({current, next}) && i + 1 < |spine|
      ensures next == spine[i + 1] && next.data == Some(contents[i])
    {
      next := current.next;
      Take(next, {current});
      assert {current} + {next} == {current, next};
    }

    method Uncouple(current: Node<T>, next: Node<T>, ghost i: nat)
      requires Linked() && Locked({current, next}) && i + 1 < |spine| && current == spine[i] && next == spine[i + 1]
      modifies current`locked
      ensures At(next, i + 1)
    {
      Release(current, {current, next});
      assert {current, next} - {current} == {next};
      assert next.next == After(spine, i + 1);
    }

    /** One turn of a traversal that does not remove. */
    method Advance(current: Node<T>, ghost i: nat) returns (next: Node<T>)
      requires At(current, i) && current.next != null
      modifies spine[i], spine[i + 1]
      ensures At(next, i + 1) && next.data == Some(contents[i])
    {
      next := Couple(current, i);
      Uncouple(current, next, i);
    }

    method Start() returns (current: Node<T>)
      requires Valid()
      modifies head`locked
      ensures At(current, 0)
    {
      current := head;
      Take(current, {});
      assert current.next == After(spine, 0);
    }

    method Finish(current: Node<T>, ghost i: nat)
      requires At(current, i)
      modifies current`locked
      ensures Valid()
    {
      Release(current, {current});
    }

    /** The values handed to the callback, in order. */
    method ForEach() returns (visited: seq<T>)
      requires Valid()
      modifies nodes
      ensures Valid() && visited == contents
    {
      var current := Start();
      visited := [];
      while current.next != null
        invariant At(current, |visited|) && visited == contents[..|visited|]
        decreases |spine| - |visited|
      {
        current := Advance(current, |visited|);
        visited := visited + [current.data.value];
      }
      Finish(current, |visited|);
    }

    method FindFirstIf(p: T -> bool) returns (r: Option<T>)
      requires Valid()
      modifies nodes
      ensures Valid()
      ensures var k := FirstMatch(contents, p); r == if k < |contents| then Some(contents[k]) else None
    {
      var current := Start();
      ghost var i := 0;
      while current.next != null
        invariant At(current, i) && FirstMatch(contents[..i], p) == i
        decreases |spine| - i
      {
        SearchOn(contents, p, i);
        current := Advance(current, i);
        i := i + 1;
        if p(current.data.value) {
          Finish(current, i);
          return current.data;
        }
      }
      assert contents[..i] == contents;
      Finish(current, i);
      return None;
    }

    /** The pointer updates of a removal; both mutexes are held. */
    method Bypass(current: Node<T>, next: Node<T>, ghost i: nat)
      requires Linked() && i + 1 < |spine| && current == spine[i] && next == spine[i + 1]
      modifies this, current`next, next`next
      ensures Linked() && nodes == old(nodes) - {next} && current.next == After(spine, i)
      ensures spine == CutAfter(old(spine), i) && contents == old(contents[..i] + contents[i + 1..])
    {
      assert next.next == After(spine, i + 1);
      current.next := next.next;
      next.next := null;
      SpineCut(head, nodes, spine, contents, i);
      CutSpine(spine, i);
      size := size - 1;
      nodes, spine, contents := nodes - {next}, CutAfter(spine, i), contents[..i] + contents[i + 1..];
    }

    /** `next` leaves the list. */
    method Unlink(current: Node<T>, next: Node<T>, ghost i: nat)
      requires Linked() && Locked({current, next}) && i + 1 < |spine| && current == spine[i] && next == spine[i + 1]
      modifies this, current, next
      ensures At(current, i)
      ensures nodes == old(nodes) - {next}
      ensures spine == CutAfter(old(spine), i) && contents == old(contents[..i] + contents[i + 1..])
    {
      Bypass(current, next, i);
      next.Unlock();
    }

    /** The match of `remove_first_if`. */
    method RemoveHere(current: Node<T>, next: Node<T>, ghost i: nat)
      requires Linked() && Locked({current, next}) && i + 1 < |spine| && current == spine[i] && next == spine[i + 1]
      modifies this, current, next
      ensures Valid() && nodes == old(nodes) - {next}
      ensures contents == old(contents[..i] + contents[i + 1..])
    {
      Unlink(current, next, i);
      Finish(current, i);
    }

    method RemoveFirstIf(p: T -> bool) returns (removed: bool)
      requires Valid()
      modifies this, nodes
      ensures Valid() && nodes <= old(nodes)
      ensures contents == RemoveFirst(old(contents), p)
      ensures removed == (FirstMatch(old(contents), p) < |old(contents)|)
    {
      var current := Start();
      ghost var i := 0;
      while current.next != null
        invariant At(current, i) && FirstMatch(contents[..i], p) == i
        invariant nodes == old(nodes) && spine == old(spine) && contents == old(contents)
        decreases |spine| - i
      {
        SearchOn(contents, p, i);
        var next := Couple(current, i);
        if p(next.data.value) {
          RemoveHere(current, next, i);
          return true;
        }
        Uncouple(current, next, i);
        current, i := next, i + 1;
      }
      assert contents[..i] == contents;
      Finish(current, i);
      return false;
    }

    /** One turn of the intended loop: after a removal `current` stays where it is. */
    method KeepOrUnlink(current: Node<T>, p: T -> bool, ghost i: nat) returns (after: Node<T>, ghost j: nat)
      requires At(current, i) && current.next != null
      modifies this, nodes
      ensures At(after, j) && nodes <= old(nodes) && |contents| - j < |old(contents)| - i
      ensures KeepFrom(contents, p, j) == KeepFrom(old(contents), p, i)
    {
      KeepFromOn(contents, p, i);
      var next := Couple(current, i);
      if p(next.data.value) {
        Unlink(current, next, i);
        return current, i;
      }
      Uncouple(current, next, i);
      return next, i + 1;
    }

    /** The intended loop. */
    method RemoveIf(p: T -> bool)
      requires Valid()
      modifies this, nodes
      ensures Valid() && nodes <= old(nodes)
      ensures contents == Keep(old(contents), p)
    {
      var current := Start();
      ghost var i := 0;
      while current.next != null
        invariant At(current, i) && nodes <= old(nodes)
        invariant KeepFrom(contents, p, i) == Keep(old(contents), p)
        decreases |contents| - i
      {
        current, i := KeepOrUnlink(current, p, i);
      }
      Finish(current, i);
    }
  }
}
