/** Sequences of distinct node identities: positions, insertion after the head, removal. */
module Chain {
  type Id = nat

  const HEAD: Id := 0

  predicate Distinct(c: seq<Id>) {
    forall i, j | 0 <= i < j < |c| :: c[i] != c[j]
  }

  /** Position of `n`, or the length when it does not occur. */
  function Pos(c: seq<Id>, n: Id): (i: nat)
    ensures n in c ==> i < |c| && c[i] == n
    ensures n !in c ==> i == |c|
  {
    if c == [] || c[0] == n then 0 else 1 + Pos(c[1..], n)
  }

  lemma {:induction false} PosAt(c: seq<Id>, i: nat)
    requires Distinct(c) && i < |c|
    ensures Pos(c, c[i]) == i
  {
  }

  /** `n` linked right after the head. */
  function Insert(c: seq<Id>, n: Id): seq<Id>
    requires c != []
  {
    [c[0], n] + c[1..]
  }

  /** The element at `k` unlinked. */
  function Cut(c: seq<Id>, k: nat): seq<Id>
    requires k < |c|
  {
    c[..k] + c[k + 1..]
  }

  lemma {:induction false} InsertFacts(c: seq<Id>, n: Id)
    requires c != [] && Distinct(c) && n !in c
    ensures var c' := Insert(c, n);
      && Distinct(c') && |c'| == |c| + 1 && c'[0] == c[0] && c'[1] == n
      && (forall i | 2 <= i < |c'| :: c'[i] == c[i - 1])
      && (forall x :: x in c' <==> x in c || x == n)
  {
  }

  lemma {:induction false} InsertPos(c: seq<Id>, n: Id, x: Id)
    requires c != [] && Distinct(c) && n !in c && x in c
    ensures Pos(Insert(c, n), x) == if x == c[0] then 0 else Pos(c, x) + 1
  {
  }

  lemma {:induction false} CutFacts(c: seq<Id>, k: nat)
    requires Distinct(c) && k < |c|
    ensures var c' := Cut(c, k);
      && Distinct(c') && |c'| == |c| - 1
      && (forall i | 0 <= i < k :: c'[i] == c[i])
      && (forall i | k <= i < |c'| :: c'[i] == c[i + 1])
      && (forall x :: x in c' <==> x in c && x != c[k])
  {
  }

  lemma {:induction false} CutPos(c: seq<Id>, k: nat, x: Id)
    requires Distinct(c) && k < |c| && x in c && x != c[k]
    ensures Pos(Cut(c, k), x) == if Pos(c, x) < k then Pos(c, x) else Pos(c, x) - 1
  {
  }

  // ---------------------------------------------------------------- visiting a changing chain

  /** `xs` follows the order of `start`. */
  predicate InOrder(xs: seq<Id>, start: seq<Id>) {
    && (forall x | x in xs :: x in start)
    && (forall i, j | 0 <= i < j < |xs| :: Pos(start, xs[i]) < Pos(start, xs[j]))
  }

  /** A traversal that found the chain as `start` has visited `visited` and has passed the
    * first `done` nodes behind the head of the present `chain`. */
  predicate VisitOk(chain: seq<Id>, done: int, start: seq<Id>, visited: seq<Id>) {
    && 0 <= done < |chain|
    && InOrder(visited, start) && HEAD !in visited
    // what lies ahead was there at the start, in the same order, after everything visited
    && InOrder(chain[done + 1..], start)
    && (forall i, v | done < i < |chain| && v in visited :: Pos(start, v) < Pos(start, chain[i]))
    // what lies behind was visited, unless it is newer than the traversal
    && (forall i | 1 <= i <= done && chain[i] in start :: chain[i] in visited)
  }

  lemma {:induction false} VisitStart(chain: seq<Id>)
    requires chain != [] && Distinct(chain)
    ensures VisitOk(chain, 0, chain, [])
  {
  }

  lemma {:induction false} VisitNext(chain: seq<Id>, done: int, start: seq<Id>, visited: seq<Id>)
    requires VisitOk(chain, done, start, visited) && done + 1 < |chain|
    requires chain[done + 1] != HEAD
    ensures VisitOk(chain, done + 1, start, visited + [chain[done + 1]])
    ensures chain[done + 1] in start && chain[done + 1] !in visited
  {
  }

  lemma {:induction false} VisitInsert(chain: seq<Id>, done: int, start: seq<Id>, visited: seq<Id>, n: Id)
    requires VisitOk(chain, done, start, visited) && Distinct(chain) && n !in chain && n !in start
    ensures VisitOk(Insert(chain, n), done + 1, start, visited)
  {
  }

  lemma {:induction false} VisitCutAhead(chain: seq<Id>, done: int, start: seq<Id>, visited: seq<Id>, k: nat)
    requires VisitOk(chain, done, start, visited) && Distinct(chain) && done < k < |chain|
    ensures VisitOk(Cut(chain, k), done, start, visited)
  {
  }

  lemma {:induction false} VisitCut(chain: seq<Id>, done: int, start: seq<Id>, visited: seq<Id>, k: nat)
    requires VisitOk(chain, done, start, visited) && Distinct(chain) && 0 < k < |chain|
    ensures VisitOk(Cut(chain, k), if k <= done then done - 1 else done, start, visited)
  {
    if k <= done {
      CutFacts(chain, k);
      assert Cut(chain, k)[done..] == chain[done + 1..];
    } else {
      VisitCutAhead(chain, done, start, visited, k);
    }
  }
}
