/** What `MemStore` does to its map and its TTL index, one operation at a time.
  * A clock reading is a parameter of the operation that makes it.
  */
module StoreSpec {
  import opened Base

  /** Clock ticks (nanoseconds of `system_clock`). */
  type Time = int
  const TICKS_PER_SECOND := 1_000_000_000

  datatype Meta = Meta(value: Bytes, version: nat, createdAt: Time, expiresAt: Option<Time>)

  /** A default-constructed `ValueMetadata`. */
  const NEW_META := Meta([], 0, 0, None)

  datatype Store = Store(entries: map<Slot, Meta>, ttlIndex: seq<Slot>)

  const EMPTY_STORE := Store(map[], [])

  datatype Op =
    | Set(slot: Slot, value: Bytes, ttl: Option<int>, now: Time)
    | SetIfVersion(slot: Slot, value: Bytes, expected: nat)
    | Del(slot: Slot)
    | Get(slot: Slot, now: Time)
    | Cleanup(now: Time)

  /** `store_[actor_id][key]`, which creates a missing entry. */
  function EntryAt(st: Store, slot: Slot): Meta {
    if slot in st.entries then st.entries[slot] else NEW_META
  }

  predicate Expired(m: Meta, now: Time) {
    m.expiresAt.Some? && now > m.expiresAt.value
  }

  function DoSet(st: Store, slot: Slot, value: Bytes, ttl: Option<int>, now: Time): Store {
    var m := EntryAt(st, slot);
    var written := m.(value := value, version := m.version + 1, createdAt := now);
    match ttl
    case None => st.(entries := st.entries[slot := written])
    case Some(secs) =>
      Store(st.entries[slot := written.(expiresAt := Some(now + secs * TICKS_PER_SECOND))], [slot] + st.ttlIndex)
  }

  /** Whether `set_if_version` would write. */
  predicate VersionMatches(st: Store, slot: Slot, expected: nat) {
    EntryAt(st, slot).version == expected
  }

  function DoSetIfVersion(st: Store, slot: Slot, value: Bytes, expected: nat): Store {
    var m := EntryAt(st, slot);
    var m' := if VersionMatches(st, slot, expected) then m.(value := value, version := m.version + 1) else m;
    st.(entries := st.entries[slot := m'])
  }

  function DoGet(st: Store, slot: Slot, now: Time): Option<Bytes> {
    if slot in st.entries && !Expired(st.entries[slot], now) then Some(st.entries[slot].value) else None
  }

  function DoDel(st: Store, slot: Slot): Store {
    st.(entries := st.entries - {slot})
  }

  /** Keeps the index pairs that name a stored, unexpired slot, in order. */
  function KeptPairs(index: seq<Slot>, entries: map<Slot, Meta>, now: Time): (kept: seq<Slot>)
    ensures forall s :: s in kept <==> s in index && s in entries && !Expired(entries[s], now)
  {
    if index == [] then []
    else
      (if index[0] in entries && !Expired(entries[index[0]], now) then [index[0]] else [])
      + KeptPairs(index[1..], entries, now)
  }

  function DoCleanup(st: Store, now: Time): Store {
    Store(map s | s in st.entries && !(s in st.ttlIndex && Expired(st.entries[s], now)) :: st.entries[s],
          KeptPairs(st.ttlIndex, st.entries, now))
  }

  function Apply(st: Store, op: Op): Store {
    match op
    case Set(slot, value, ttl, now) => DoSet(st, slot, value, ttl, now)
    case SetIfVersion(slot, value, expected) => DoSetIfVersion(st, slot, value, expected)
    case Del(slot) => DoDel(st, slot)
    case Get(_, _) => st
    case Cleanup(now) => DoCleanup(st, now)
  }

  /** The record an operation logs: only successful writes log. */
  function Logged(st: Store, op: Op): seq<Record> {
    match op
    case Set(slot, value, _, _) => [Record(slot, value)]
    case SetIfVersion(slot, value, expected) =>
      if VersionMatches(st, slot, expected) then [Record(slot, value)] else []
    case _ => []
  }

  function Run(st: Store, ops: seq<Op>): Store {
    if ops == [] then st else Apply(Run(st, ops[..|ops| - 1]), ops[|ops| - 1])
  }

  function Log(st: Store, ops: seq<Op>): seq<Record> {
    if ops == [] then []
    else
      var n := |ops| - 1;
      Log(st, ops[..n]) + Logged(Run(st, ops[..n]), ops[n])
  }

  predicate Writes(st: Store, op: Op, slot: Slot) {
    Logged(st, op) != [] && Logged(st, op)[0].slot == slot
  }

  predicate Removes(st: Store, op: Op, slot: Slot) {
    slot in st.entries && slot !in Apply(st, op).entries
  }

  // ---------------------------------------------------------------- TTL index

  /** Every entry that can expire is reachable through the index. */
  predicate Covered(st: Store) {
    forall s | s in st.entries && st.entries[s].expiresAt.Some? :: s in st.ttlIndex
  }

  lemma {:induction false} ApplyKeepsCovered(st: Store, op: Op)
    requires Covered(st)
    ensures Covered(Apply(st, op))
  {
  }

  lemma {:induction false} AlwaysCovered(ops: seq<Op>)
    ensures Covered(Run(EMPTY_STORE, ops))
  {
    if ops != [] {
      AlwaysCovered(ops[..|ops| - 1]);
      ApplyKeepsCovered(Run(EMPTY_STORE, ops[..|ops| - 1]), ops[|ops| - 1]);
    }
  }

  /** In every reachable state a cleanup removes exactly the expired entries, and every pair
    * left in the index names a stored, unexpired slot. */
  lemma {:induction false} CleanupIsExact(ops: seq<Op>, now: Time)
    ensures var st := Run(EMPTY_STORE, ops);
      var st' := Apply(st, Cleanup(now));
      && (forall s :: s in st'.entries <==> s in st.entries && !Expired(st.entries[s], now))
      && (forall s | s in st'.entries :: st'.entries[s] == st.entries[s])
      && (forall s | s in st'.ttlIndex :: s in st'.entries && !Expired(st'.entries[s], now))
  {
    AlwaysCovered(ops);
  }

  // ---------------------------------------------------------------- agreement with the log

  /** Last writer wins. */
  function Fold(log: seq<Record>): map<Slot, Bytes> {
    if log == [] then map[]
    else Fold(log[..|log| - 1])[log[|log| - 1].slot := log[|log| - 1].value]
  }

  /** The part of the store that has been written at least once. */
  function Visible(st: Store): map<Slot, Bytes> {
    map s | s in st.entries && st.entries[s].version > 0 :: st.entries[s].value
  }

  /** The store holds nothing but what the log says last. */
  predicate AgreesWith(st: Store, log: seq<Record>) {
    forall s | s in Visible(st) :: s in Fold(log) && Visible(st)[s] == Fold(log)[s]
  }

  lemma {:induction false} FoldAppend(log: seq<Record>, r: Record)
    ensures Fold(log + [r]) == Fold(log)[r.slot := r.value]
  {
  }

  lemma {:induction false} ApplyKeepsAgreement(st: Store, log: seq<Record>, op: Op)
    requires AgreesWith(st, log)
    ensures AgreesWith(Apply(st, op), log + Logged(st, op))
  {
    if Logged(st, op) == [] {
      assert log + [] == log;
    } else {
      FoldAppend(log, Logged(st, op)[0]);
    }
  }

  /** Whatever the run, a written entry holds the value of the last record logged for it. */
  lemma {:induction false} StoreAgreesWithLog(ops: seq<Op>)
    ensures AgreesWith(Run(EMPTY_STORE, ops), Log(EMPTY_STORE, ops))
  {
    if ops != [] {
      var n := |ops| - 1;
      StoreAgreesWithLog(ops[..n]);
      ApplyKeepsAgreement(Run(EMPTY_STORE, ops[..n]), Log(EMPTY_STORE, ops[..n]), ops[n]);
    }
  }

  /** Whether an operation is about to take a written entry out of the store: the guard of `erase`. */
  predicate Forgets(st: Store, op: Op) {
    match op
    case Del(slot) => slot in st.entries && st.entries[slot].version > 0
    case Cleanup(now) =>
      exists s | s in st.entries && s in st.ttlIndex :: st.entries[s].version > 0 && Expired(st.entries[s], now)
    case _ => false
  }

  /** In reachable states the index does not matter: a cleanup forgets what has expired. */
  lemma {:induction false} CleanupForgetsExpired(ops: seq<Op>, now: Time)
    ensures var st := Run(EMPTY_STORE, ops);
      Forgets(st, Cleanup(now)) <==>
      (exists s | s in st.entries :: st.entries[s].version > 0 && Expired(st.entries[s], now))
  {
    AlwaysCovered(ops);
  }

  lemma {:induction false} VisibleUpdate(st: Store, st': Store, slot: Slot, m: Meta)
    requires st'.entries == st.entries[slot := m] && m.version > 0
    ensures Visible(st') == Visible(st)[slot := m.value]
  {
  }

  lemma {:induction false} VisibleAfterWrite(st: Store, op: Op)
    requires Logged(st, op) != []
    ensures var r := Logged(st, op)[0];
      Visible(Apply(st, op)) == Visible(st)[r.slot := r.value] && !Forgets(st, op)
  {
    var r := Logged(st, op)[0];
    var st' := Apply(st, op);
    assert st'.entries == st.entries[r.slot := st'.entries[r.slot]];
    VisibleUpdate(st, st', r.slot, st'.entries[r.slot]);
  }

  lemma {:induction false} VisibleWithoutWrite(st: Store, op: Op)
    requires Logged(st, op) == []
    ensures Visible(Apply(st, op)) == Visible(st) <==> !Forgets(st, op)
  {
    var st' := Apply(st, op);
    if Forgets(st, op) {
      var s :| s in st.entries && st.entries[s].version > 0 && s !in st'.entries;
      assert s in Visible(st) && s !in Visible(st');
    } else {
      assert forall s | s in st.entries && st.entries[s].version > 0 :: s in st'.entries;
    }
  }

  /** Removals are not logged: a step keeps the store equal to the fold of the log exactly
    * when it removes no written entry. */
  lemma {:induction false} FoldStaysExactIff(st: Store, log: seq<Record>, op: Op)
    requires Visible(st) == Fold(log)
    ensures Visible(Apply(st, op)) == Fold(log + Logged(st, op)) <==> !Forgets(st, op)
  {
    if Logged(st, op) != [] {
      VisibleAfterWrite(st, op);
      FoldAppend(log, Logged(st, op)[0]);
    } else {
      VisibleWithoutWrite(st, op);
      assert log + [] == log;
    }
  }

  predicate OnlyWrites(ops: seq<Op>) {
    forall i | 0 <= i < |ops| :: ops[i].Set? || ops[i].SetIfVersion? || ops[i].Get?
  }

  /** Without removals the written part of the store is the fold of the log. */
  lemma {:induction false} FoldIsExact(ops: seq<Op>)
    requires OnlyWrites(ops)
    ensures Visible(Run(EMPTY_STORE, ops)) == Fold(Log(EMPTY_STORE, ops))
  {
    if ops != [] {
      var n := |ops| - 1;
      FoldIsExact(ops[..n]);
      FoldStaysExactIff(Run(EMPTY_STORE, ops[..n]), Log(EMPTY_STORE, ops[..n]), ops[n]);
    }
  }

  // ---------------------------------------------------------------- versions

  /** How often a slot has been written since it was last removed. */
  function WritesSinceRemoval(ops: seq<Op>, slot: Slot): nat {
    if ops == [] then 0
    else
      var n := |ops| - 1;
      var st := Run(EMPTY_STORE, ops[..n]);
      if Removes(st, ops[n], slot) then 0
      else WritesSinceRemoval(ops[..n], slot) + (if Writes(st, ops[n], slot) then 1 else 0)
  }

  lemma {:induction false} VersionStep(st: Store, op: Op, slot: Slot)
    ensures EntryAt(Apply(st, op), slot).version ==
      if Removes(st, op, slot) then 0
      else EntryAt(st, slot).version + (if Writes(st, op, slot) then 1 else 0)
  {
  }

  /** The version of a slot counts the writes since its last removal. */
  lemma {:induction false} VersionCountsWrites(ops: seq<Op>, slot: Slot)
    ensures EntryAt(Run(EMPTY_STORE, ops), slot).version == WritesSinceRemoval(ops, slot)
  {
    if ops != [] {
      var n := |ops| - 1;
      VersionCountsWrites(ops[..n], slot);
      VersionStep(Run(EMPTY_STORE, ops[..n]), ops[n], slot);
    }
  }

  /** The state an operation of a run finds. */
  function Before(ops: seq<Op>, i: nat): Store
    requires i <= |ops|
  {
    Run(EMPTY_STORE, ops[..i])
  }

  lemma {:induction false} BeforeStep(ops: seq<Op>, i: nat)
    requires i < |ops|
    ensures Before(ops, i + 1) == Apply(Before(ops, i), ops[i])
  {
    assert ops[..i + 1][..i] == ops[..i];
  }

  predicate NotRemovedBetween(ops: seq<Op>, i: nat, j: nat, slot: Slot)
    requires i <= j <= |ops|
  {
    forall k | i <= k < j :: !Removes(Before(ops, k), ops[k], slot)
  }

  predicate Succeeds(ops: seq<Op>, i: nat, slot: Slot, expected: nat)
    requires i < |ops|
  {
    ops[i].SetIfVersion? && ops[i].slot == slot && ops[i].expected == expected
    && VersionMatches(Before(ops, i), slot, expected)
  }

  /** Between removals versions never decrease, and they stay put only while nobody writes. */
  lemma {:induction false} VersionsGrow(ops: seq<Op>, i: nat, j: nat, slot: Slot)
    requires i <= j <= |ops| && NotRemovedBetween(ops, i, j, slot)
    ensures var vi, vj := EntryAt(Before(ops, i), slot).version, EntryAt(Before(ops, j), slot).version;
      vi <= vj && (vi == vj ==> forall k | i <= k < j :: !Writes(Before(ops, k), ops[k], slot))
    decreases j
  {
    if i < j {
      VersionsGrow(ops, i, j - 1, slot);
      BeforeStep(ops, j - 1);
      VersionStep(Before(ops, j - 1), ops[j - 1], slot);
    }
  }

  /** For each expected version at most one `set_if_version` succeeds between removals. */
  lemma {:induction false} OneSuccessPerVersion(ops: seq<Op>, i: nat, j: nat, slot: Slot, expected: nat)
    requires i < j < |ops| && Succeeds(ops, i, slot, expected) && Succeeds(ops, j, slot, expected)
    ensures !NotRemovedBetween(ops, i + 1, j, slot)
  {
    BeforeStep(ops, i);
    VersionStep(Before(ops, i), ops[i], slot);
    if NotRemovedBetween(ops, i + 1, j, slot) {
      VersionsGrow(ops, i + 1, j, slot);
    }
  }

  /** A successful `set_if_version` proves that nobody has written the slot since its version
    * was the expected one. */
  lemma {:induction false} SuccessMeansNoInterference(ops: seq<Op>, i: nat, j: nat, slot: Slot, expected: nat)
    requires i <= j < |ops| && NotRemovedBetween(ops, i, j, slot)
    requires EntryAt(Before(ops, i), slot).version == expected
    ensures Succeeds(ops, j, slot, expected) <==>
      (ops[j].SetIfVersion? && ops[j].slot == slot && ops[j].expected == expected
       && forall k | i <= k < j :: !Writes(Before(ops, k), ops[k], slot))
  {
    VersionsGrow(ops, i, j, slot);
    NoWritesNoChange(ops, i, j, slot);
  }

  lemma {:induction false} NoWritesNoChange(ops: seq<Op>, i: nat, j: nat, slot: Slot)
    requires i <= j <= |ops| && NotRemovedBetween(ops, i, j, slot)
    ensures (forall k | i <= k < j :: !Writes(Before(ops, k), ops[k], slot)) ==>
      EntryAt(Before(ops, i), slot).version == EntryAt(Before(ops, j), slot).version
    decreases j
  {
    if i < j {
      NoWritesNoChange(ops, i, j - 1, slot);
      BeforeStep(ops, j - 1);
      VersionStep(Before(ops, j - 1), ops[j - 1], slot);
    }
  }

  /** The store is the fold of the log at exactly those moments when every slot ever logged has
    * been written since it was last removed. */
  lemma {:induction false} FoldIsExactIff(ops: seq<Op>)
    ensures var log := Log(EMPTY_STORE, ops);
      Visible(Run(EMPTY_STORE, ops)) == Fold(log) <==> forall s | s in Fold(log) :: WritesSinceRemoval(ops, s) > 0
  {
    var st, log := Run(EMPTY_STORE, ops), Log(EMPTY_STORE, ops);
    StoreAgreesWithLog(ops);
    forall s
      ensures s in Visible(st) <==> WritesSinceRemoval(ops, s) > 0
    {
      VersionCountsWrites(ops, s);
    }
    if forall s | s in Fold(log) :: WritesSinceRemoval(ops, s) > 0 {
      assert forall s | s in Fold(log) :: s in Visible(st);
    }
  }

  // ---------------------------------------------------------------- cleanup is invisible

  /** Whether an operation may create or change the entry of a slot; a refused
    * `set_if_version` creates a missing entry too. */
  predicate Touches(op: Op, slot: Slot) {
    (op.Set? || op.SetIfVersion?) && op.slot == slot
  }

  /** Whether it keeps an expiry time that a cleanup would have removed. */
  predicate KeepsExpiry(op: Op, slot: Slot) {
    Touches(op, slot) && !(op.Set? && op.ttl.Some?)
  }

  /** A run in which some steps are extra cleanups. */
  datatype Item = Item(op: Op, extra: bool)

  function AllOps(items: seq<Item>): seq<Op> {
    if items == [] then [] else AllOps(items[..|items| - 1]) + [items[|items| - 1].op]
  }

  /** The run without the extra cleanups. */
  function WithoutExtra(items: seq<Item>): seq<Op> {
    if items == [] then []
    else
      var last := items[|items| - 1];
      WithoutExtra(items[..|items| - 1]) + (if last.extra then [] else [last.op])
  }

  /** Clock readings do not go back, and only cleanups are marked extra. */
  predicate Monotone(items: seq<Item>, clock: Time) {
    items != [] ==>
      var last := items[|items| - 1];
      (last.extra ==> last.op.Cleanup?)
      && (if last.op.Set? || last.op.Get? || last.op.Cleanup? then
            last.op.now <= clock && Monotone(items[..|items| - 1], last.op.now)
          else Monotone(items[..|items| - 1], clock))
  }

  /** For readers of `slot`, `b` is `a` without an entry that has expired by `clock`. */
  predicate Cleaner(a: Store, b: Store, clock: Time, slot: Slot) {
    && (slot in b.entries ==>
          && slot in a.entries && a.entries[slot].value == b.entries[slot].value
          && a.entries[slot].expiresAt == b.entries[slot].expiresAt)
    && (slot in a.entries && slot !in b.entries ==> Expired(a.entries[slot], clock))
  }

  lemma {:induction false} CleanerLater(a: Store, b: Store, clock: Time, later: Time, slot: Slot)
    requires Cleaner(a, b, clock, slot) && clock <= later
    ensures Cleaner(a, b, later, slot)
    ensures DoGet(a, slot, later) == DoGet(b, slot, later)
  {
  }

  lemma {:induction false} CleanerStep(a: Store, b: Store, op: Op, clock: Time, slot: Slot)
    requires Cleaner(a, b, clock, slot) && !KeepsExpiry(op, slot) && Covered(a) && Covered(b)
    requires op.Cleanup? ==> op.now <= clock
    ensures Cleaner(Apply(a, op), Apply(b, op), clock, slot)
    ensures op.Cleanup? ==> Cleaner(a, Apply(b, op), clock, slot)
  {
  }

  lemma {:induction false} WithoutExtraTouches(items: seq<Item>, i: nat)
    requires i <= |items|
    ensures WithoutExtra(items[..i]) == AllOps(items[..i]) <== forall k | 0 <= k < i :: !items[k].extra
  {
    if i > 0 {
      assert items[..i][..i - 1] == items[..i - 1];
      WithoutExtraTouches(items, i - 1);
    }
  }

  /** Invariant of the two runs from the first extra cleanup on. */
  lemma {:induction false} ExtraCleanupsStayClean(items: seq<Item>, first: nat, clock: Time, slot: Slot)
    requires first <= |items| && Monotone(items, clock)
    requires forall k | 0 <= k < first :: !items[k].extra
    requires forall k | first <= k < |items| :: !KeepsExpiry(items[k].op, slot)
    ensures Cleaner(Run(EMPTY_STORE, WithoutExtra(items)), Run(EMPTY_STORE, AllOps(items)), clock, slot)
    decreases |items|
  {
    if |items| == first {
      WithoutExtraTouches(items, first);
      assert items[..first] == items;
    } else {
      var n := |items| - 1;
      var last, init := items[n], items[..n];
      var reading := if last.op.Set? || last.op.Get? || last.op.Cleanup? then last.op.now else clock;
      ExtraCleanupsStayClean(init, first, reading, slot);
      var a, b := Run(EMPTY_STORE, WithoutExtra(init)), Run(EMPTY_STORE, AllOps(init));
      CleanerLater(a, b, reading, clock, slot);
      AlwaysCovered(WithoutExtra(init));
      AlwaysCovered(AllOps(init));
      CleanerStep(a, b, last.op, clock, slot);
      RunSnoc(WithoutExtra(init), last.op);
      RunSnoc(AllOps(init), last.op);
    }
  }

  lemma {:induction false} RunSnoc(ops: seq<Op>, op: Op)
    ensures Run(EMPTY_STORE, ops + [op]) == Apply(Run(EMPTY_STORE, ops), op)
    ensures ops + [] == ops
  {
  }

  /** Extra cleanups do not change the answer of a later `get`, as long as no `set` without a ttl
    * and no `set_if_version`, successful or refused, has come to the slot since the first of them. */
  lemma {:induction false} CleanupIsInvisible(items: seq<Item>, first: nat, clock: Time, slot: Slot)
    requires first <= |items| && Monotone(items, clock)
    requires forall k | 0 <= k < first :: !items[k].extra
    requires forall k | first <= k < |items| :: !KeepsExpiry(items[k].op, slot)
    ensures DoGet(Run(EMPTY_STORE, AllOps(items)), slot, clock)
         == DoGet(Run(EMPTY_STORE, WithoutExtra(items)), slot, clock)
  {
    ExtraCleanupsStayClean(items, first, clock, slot);
  }

  /** For readers of `slot`, `b` is what a cleanup at `at` made of `a`. */
  predicate CleanedAt(a: Store, b: Store, at: Time, slot: Slot) {
    && (slot in b.entries <==> slot in a.entries && !Expired(a.entries[slot], at))
    && (slot in b.entries ==> b.entries[slot] == a.entries[slot])
  }

  lemma {:induction false} CleanedAtStays(a: Store, b: Store, at: Time, op: Op, slot: Slot)
    requires Covered(a) && Covered(b) && CleanedAt(a, b, at, slot) && !Touches(op, slot)
    ensures CleanedAt(Apply(a, op), Apply(b, op), at, slot)
  {
  }

  lemma {:induction false} CleanedAtAfter(ops: seq<Op>, at: Time, between: seq<Op>, slot: Slot)
    requires forall i | 0 <= i < |between| :: !Touches(between[i], slot)
    ensures CleanedAt(Run(EMPTY_STORE, ops + between), Run(EMPTY_STORE, ops + [Cleanup(at)] + between), at, slot)
  {
    if between == [] {
      AlwaysCovered(ops);
      RunSnoc(ops, Cleanup(at));
      RunSnoc(ops + [Cleanup(at)], Cleanup(at));
    } else {
      var n := |between| - 1;
      var a, b := ops + between[..n], ops + [Cleanup(at)] + between[..n];
      CleanedAtAfter(ops, at, between[..n], slot);
      AlwaysCovered(a);
      AlwaysCovered(b);
      CleanedAtStays(Run(EMPTY_STORE, a), Run(EMPTY_STORE, b), at, between[n], slot);
      RunSnoc(a, between[n]);
      RunSnoc(b, between[n]);
      assert ops + between == a + [between[n]] && ops + [Cleanup(at)] + between == b + [between[n]];
    }
  }

  lemma {:induction false} TouchShowsExactly(a: Store, b: Store, at: Time, op: Op, slot: Slot, later: Time)
    requires CleanedAt(a, b, at, slot) && Touches(op, slot) && at <= later
    ensures DoGet(Apply(b, op), slot, later) != DoGet(Apply(a, op), slot, later)
      <==> slot in a.entries && Expired(a.entries[slot], at) && KeepsExpiry(op, slot)
  {
  }

  /** When exactly a cleanup shows.  After it come any operations that do not write to the slot, and then
    * one that touches it: a later `get` can tell if and only if that operation keeps the expiry time it
    * finds and, without the cleanup, would have found an entry that had expired when the cleanup ran. */
  lemma {:induction false} CleanupShowsExactly(ops: seq<Op>, at: Time, between: seq<Op>, op: Op, slot: Slot,
                                               later: Time)
    requires forall i | 0 <= i < |between| :: !Touches(between[i], slot)
    requires Touches(op, slot) && at <= later
    ensures var st := Run(EMPTY_STORE, ops + between);
      DoGet(Run(EMPTY_STORE, ops + [Cleanup(at)] + between + [op]), slot, later)
        != DoGet(Run(EMPTY_STORE, ops + between + [op]), slot, later)
      <==> slot in st.entries && Expired(st.entries[slot], at) && KeepsExpiry(op, slot)
  {
    CleanedAtAfter(ops, at, between, slot);
    RunSnoc(ops + [Cleanup(at)] + between, op);
    RunSnoc(ops + between, op);
    TouchShowsExactly(Run(EMPTY_STORE, ops + between), Run(EMPTY_STORE, ops + [Cleanup(at)] + between), at, op, slot,
                      later);
  }

  /** A write that shows it: a plain `set` keeps the old expiry time, so a later `get` finds the
    * value only if a cleanup has removed the entry first. */
  lemma {:induction false} CleanupShowsAfterSet(slot: Slot, earlier: Bytes, later: Bytes)
    ensures var ops := [Set(slot, earlier, Some(0), 0)];
      var late := Set(slot, later, None, 2);
      DoGet(Run(EMPTY_STORE, ops + [late]), slot, 3) == None
      && DoGet(Run(EMPTY_STORE, ops + [Cleanup(1)] + [late]), slot, 3) == Some(later)
  {
  }

  /** And without any write: after the cleanup a refused `set_if_version` leaves an empty entry
    * behind, which `get` returns. */
  lemma {:induction false} CleanupShowsAfterRefusal(slot: Slot, earlier: Bytes, refused: Bytes)
    ensures var ops := [Set(slot, earlier, Some(0), 0)];
      var late := SetIfVersion(slot, refused, 7);
      var without, with := ops + [late], ops + [Cleanup(1)] + [late];
      && Log(EMPTY_STORE, without) == Log(EMPTY_STORE, with) == Log(EMPTY_STORE, ops)
      && DoGet(Run(EMPTY_STORE, without), slot, 3) == None
      && DoGet(Run(EMPTY_STORE, with), slot, 3) == Some([])
  {
    var ops := [Set(slot, earlier, Some(0), 0)];
    var late := SetIfVersion(slot, refused, 7);
    RunSnoc(ops, late);
    RunSnoc(ops, Cleanup(1));
    RunSnoc(ops + [Cleanup(1)], late);
    LogSnoc(ops, late);
    LogSnoc(ops, Cleanup(1));
    LogSnoc(ops + [Cleanup(1)], late);
  }

  lemma {:induction false} LogSnoc(ops: seq<Op>, op: Op)
    ensures Log(EMPTY_STORE, ops + [op]) == Log(EMPTY_STORE, ops) + Logged(Run(EMPTY_STORE, ops), op)
  {
    assert (ops + [op])[..|ops|] == ops;
  }
}
