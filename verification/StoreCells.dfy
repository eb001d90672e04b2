/** What a slot holds, read off the calls alone: its value, how often it has been written, and until when it
  * can be read.  Times are in nanoseconds, a ttl in seconds.
  */
module StoreCells {
  import opened Base
  import opened StoreSpec

  /** A slot by itself, without the map and the TTL index. */
  datatype Cell = Absent | Present(value: Bytes, version: nat, deadline: Option<Time>)

  /** Absent slots have version 0. */
  function VersionOf(c: Cell): nat {
    if c.Absent? then 0 else c.version
  }

  function DeadlineOf(c: Cell): Option<Time> {
    if c.Absent? then None else c.deadline
  }

  predicate Readable(c: Cell, t: Time) {
    c.Present? && (c.deadline.None? || t <= c.deadline.value)
  }

  /** What one call makes of the slot. */
  function CellAfter(c: Cell, op: Op, slot: Slot): Cell {
    match op
    case Set(s, value, ttl, now) =>
      if s != slot then c
      else Present(value, VersionOf(c) + 1,
                   if ttl.Some? then Some(now + ttl.value * 1_000_000_000) else DeadlineOf(c))
    case SetIfVersion(s, value, expected) =>
      if s != slot then c
      else if expected == VersionOf(c) then Present(value, expected + 1, DeadlineOf(c))
      else if c.Absent? then Present([], 0, None) else c
    case Del(s) => if s == slot then Absent else c
    case Get(_, _) => c
    case Cleanup(now) => if c.Present? && !Readable(c, now) then Absent else c
  }

  /** The slot after a run. */
  function CellOf(ops: seq<Op>, slot: Slot): Cell {
    if ops == [] then Absent else CellAfter(CellOf(ops[..|ops| - 1], slot), ops[|ops| - 1], slot)
  }

  // ---------------------------------------------------------------- the store is made of such cells

  function CellIn(st: Store, slot: Slot): Cell {
    if slot in st.entries then
      Present(st.entries[slot].value, st.entries[slot].version, st.entries[slot].expiresAt)
    else Absent
  }

  lemma {:induction false} ApplyIsCellAfter(st: Store, op: Op, slot: Slot)
    requires Covered(st)
    ensures CellIn(Apply(st, op), slot) == CellAfter(CellIn(st, slot), op, slot)
  {
  }

  /** In every run the map with its TTL index holds for each slot exactly the cell of the slot. */
  lemma {:induction false} StoreIsCells(ops: seq<Op>, slot: Slot)
    ensures CellIn(Run(EMPTY_STORE, ops), slot) == CellOf(ops, slot)
  {
    if ops != [] {
      var n := |ops| - 1;
      StoreIsCells(ops[..n], slot);
      AlwaysCovered(ops[..n]);
      ApplyIsCellAfter(Run(EMPTY_STORE, ops[..n]), ops[n], slot);
    }
  }

  /** Every answer of every run: `get` gives the value while the slot can be read, `set_if_version` writes
    * and logs exactly on the version of the slot, and `set` always does. */
  lemma {:induction false} AnswersFollowCells(ops: seq<Op>, slot: Slot, value: Bytes, ttl: Option<int>, expected: nat,
                                              t: Time)
    ensures var st, c := Run(EMPTY_STORE, ops), CellOf(ops, slot);
      && DoGet(st, slot, t) == (if Readable(c, t) then Some(c.value) else None)
      && (VersionMatches(st, slot, expected) <==> expected == VersionOf(c))
      && Logged(st, SetIfVersion(slot, value, expected))
           == (if expected == VersionOf(c) then [Record(slot, value)] else [])
      && Logged(st, Set(slot, value, ttl, t)) == [Record(slot, value)]
  {
    StoreIsCells(ops, slot);
  }

  // ---------------------------------------------------------------- what get returns after a write

  /** The expiry time the slot has been given since it was last removed, if any. */
  function Deadline(ops: seq<Op>, slot: Slot): Option<Time> {
    if ops == [] then None
    else
      var n := |ops| - 1;
      var before := Deadline(ops[..n], slot);
      match ops[n]
      case Set(s, _, Some(secs), now) => if s == slot then Some(now + secs * 1_000_000_000) else before
      case Del(s) => if s == slot then None else before
      case Cleanup(now) => if before.Some? && before.value < now then None else before
      case _ => before
  }

  lemma {:induction false} DeadlineIsCells(ops: seq<Op>, slot: Slot)
    ensures DeadlineOf(CellOf(ops, slot)) == Deadline(ops, slot)
  {
    if ops != [] {
      DeadlineIsCells(ops[..|ops| - 1], slot);
    }
  }

  /** Nothing among `between` writes to the slot or deletes it, and no cleanup is later than `t`. */
  predicate LeavesAlone(between: seq<Op>, slot: Slot, t: Time) {
    forall i | 0 <= i < |between| ::
      && !Touches(between[i], slot)
      && !(between[i].Del? && between[i].slot == slot)
      && (between[i].Cleanup? ==> between[i].now <= t)
  }

  /** Either the cell is still there, or it could not be read at `t` anyway. */
  predicate StillReads(c: Cell, now: Cell, t: Time) {
    now == c || (now == Absent && !Readable(c, t))
  }

  lemma {:induction false} LeftAlone(ops: seq<Op>, between: seq<Op>, slot: Slot, t: Time)
    requires LeavesAlone(between, slot, t)
    ensures StillReads(CellOf(ops, slot), CellOf(ops + between, slot), t)
  {
    if between == [] {
      assert ops + between == ops;
    } else {
      var n := |between| - 1;
      LeftAlone(ops, between[..n], slot, t);
      assert (ops + between)[..|ops| + n] == ops + between[..n];
    }
  }

  lemma {:induction false} GetAfter(ops: seq<Op>, between: seq<Op>, slot: Slot, t: Time)
    requires LeavesAlone(between, slot, t)
    ensures DoGet(Run(EMPTY_STORE, ops + between), slot, t)
      == if Readable(CellOf(ops, slot), t) then Some(CellOf(ops, slot).value) else None
  {
    LeftAlone(ops, between, slot, t);
    StoreIsCells(ops + between, slot);
  }

  /** Read your write: what `get` answers at `t` after a `set`, with anything in between that leaves the
    * slot alone.  With a ttl the value can be read up to that many seconds after the write; without one,
    * as long as the expiry time the slot had been given before allows, and for ever if there was none. */
  lemma {:induction false} GetAfterSet(ops: seq<Op>, slot: Slot, v: Bytes, ttl: Option<int>, now: Time,
                                       between: seq<Op>, t: Time)
    requires LeavesAlone(between, slot, t)
    ensures DoGet(Run(EMPTY_STORE, ops + [Set(slot, v, ttl, now)] + between), slot, t) == match ttl
      case Some(secs) => if t <= now + secs * 1_000_000_000 then Some(v) else None
      case None => if Deadline(ops, slot).None? || t <= Deadline(ops, slot).value then Some(v) else None
  {
    var written := ops + [Set(slot, v, ttl, now)];
    assert written[..|written| - 1] == ops;
    DeadlineIsCells(ops, slot);
    GetAfter(written, between, slot, t);
  }

  /** The same after a `set_if_version` on the version the slot has; the expiry time stays. */
  lemma {:induction false} GetAfterVersionedSet(ops: seq<Op>, slot: Slot, v: Bytes, between: seq<Op>, t: Time)
    requires LeavesAlone(between, slot, t)
    ensures var op := SetIfVersion(slot, v, WritesSinceRemoval(ops, slot));
      DoGet(Run(EMPTY_STORE, ops + [op] + between), slot, t)
        == if Deadline(ops, slot).None? || t <= Deadline(ops, slot).value then Some(v) else None
  {
    var written := ops + [SetIfVersion(slot, v, WritesSinceRemoval(ops, slot))];
    assert written[..|written| - 1] == ops;
    VersionCountsWrites(ops, slot);
    StoreIsCells(ops, slot);
    DeadlineIsCells(ops, slot);
    GetAfter(written, between, slot, t);
  }

  /** After a `del` there is nothing to read until the slot is written again. */
  lemma {:induction false} GetAfterDel(ops: seq<Op>, slot: Slot, between: seq<Op>, t: Time)
    requires forall i | 0 <= i < |between| :: !Touches(between[i], slot)
    ensures DoGet(Run(EMPTY_STORE, ops + [Del(slot)] + between), slot, t) == None
  {
    AbsentStays(ops + [Del(slot)], between, slot);
    StoreIsCells(ops + [Del(slot)] + between, slot);
  }

  lemma {:induction false} AbsentStays(ops: seq<Op>, between: seq<Op>, slot: Slot)
    requires ops != [] && ops[|ops| - 1] == Del(slot)
    requires forall i | 0 <= i < |between| :: !Touches(between[i], slot)
    ensures CellOf(ops + between, slot) == Absent
  {
    if between == [] {
      assert ops + between == ops;
    } else {
      var n := |between| - 1;
      AbsentStays(ops, between[..n], slot);
      assert (ops + between)[..|ops| + n] == ops + between[..n];
    }
  }
}
