/** The durable state engine as objects: `MemStore`, `WriteBehindWorker` and the log they share.
  * Every method is one critical section; `Snap` is the abstract state it moves.
  */
module Engine {
  import opened Base
  import opened StoreSpec
  import Q = BoundedQueue
  import W = Wal
  import P = Pipeline

  // ---------------------------------------------------------------- the worker object

  class WriteBehindWorker {
    const wal: W.WAL
    const dirtyQueue: Q.BoundedThreadsafeQueue<Record>
    var currentBatch: seq<Record>
    var batchSize: nat
    var running: bool
    var phase: P.Phase

    ghost function Snap(): P.Worker
      reads this, dirtyQueue
    {
      P.Worker(dirtyQueue.Snap(), currentBatch, batchSize, running, phase)
    }

    /** Construction followed by `start`. */
    constructor (wal: W.WAL, batchSize: nat)
      ensures Snap() == P.IdleWorker(batchSize, true) && fresh(dirtyQueue) && this.wal == wal
    {
      this.wal := wal;
      dirtyQueue := new Q.BoundedThreadsafeQueue(P.QUEUE_LIMIT, Q.Block);
      currentBatch := [];
      this.batchSize := batchSize;
      running := true;
      phase := P.LoopHead;
    }

    method Enqueue(t: Tid, r: Record, pick: Tid) returns (o: Q.Outcome<Record>)
      requires P.CanEnqueue(Snap(), t, pick)
      modifies dirtyQueue
      ensures (Snap(), o) == P.Enqueue(old(Snap()), t, r, pick)
    {
      o := dirtyQueue.DoPush(t, r, pick);
    }

    method FinishEnqueue(t: Tid, pick: Tid) returns (o: Q.Outcome<Record>)
      requires Q.Enabled(dirtyQueue.Snap(), Q.ResumePush(t, pick))
      modifies dirtyQueue
      ensures (Snap(), o) == P.FinishEnqueue(old(Snap()), t, pick)
    {
      o := dirtyQueue.FinishPush(t, pick);
    }

    method Advance(o: Q.Outcome<Record>)
      modifies this`phase
      ensures phase == P.AfterPop(o)
    {
      match o
      case Got(r) => phase := P.Holding(r);
      case Sleeping => phase := P.Parked;
      case _ => phase := P.TimerCheck;
    }

    /** `while (running_)` and the first half of `WaitAndPop`. */
    method RunHead(pick: Tid)
      requires P.WorkerEnabled(Snap(), P.Head(pick))
      modifies this`phase, dirtyQueue
      ensures Snap() == P.WorkerStep(old(Snap()), P.Head(pick))
    {
      if !running {
        phase := P.Exited;
        return;
      }
      var o := dirtyQueue.DoPop(P.WORKER, true, pick);
      Advance(o);
    }

    /** `WaitAndPop` after its wait. */
    method RunResume(deadline: bool, pick: Tid)
      requires P.WorkerEnabled(Snap(), P.ResumeWorker(deadline, pick))
      modifies this`phase, dirtyQueue
      ensures Snap() == P.WorkerStep(old(Snap()), P.ResumeWorker(deadline, pick))
    {
      var o := dirtyQueue.FinishPop(P.WORKER, deadline, pick);
      Advance(o);
    }

    /** The swap at the start of `process_batch`. */
    method SwapBatch(after: P.After)
      modifies this`phase, this`currentBatch
      ensures phase == P.Flushing(old(currentBatch), after) && currentBatch == []
    {
      phase := P.Flushing(currentBatch, after);
      currentBatch := [];
    }

    /** The record in hand joins the batch; a full batch is flushed. */
    method TakeIntoBatch()
      requires P.WorkerEnabled(Snap(), P.TakeIntoBatch)
      modifies this`phase, this`currentBatch
      ensures Snap() == P.WorkerStep(old(Snap()), P.TakeIntoBatch)
    {
      currentBatch := currentBatch + [phase.record];
      if |currentBatch| >= batchSize {
        SwapBatch(P.ToTimer);
      } else {
        phase := P.TimerCheck;
      }
    }

    /** The flush-interval test; `due` is the clock's answer. */
    method CheckTimer(due: bool)
      requires P.WorkerEnabled(Snap(), P.Timer(due))
      modifies this`phase, this`currentBatch
      ensures Snap() == P.WorkerStep(old(Snap()), P.Timer(due))
    {
      if due && currentBatch != [] {
        SwapBatch(P.ToHead);
      } else {
        phase := P.LoopHead;
      }
    }

    /** One turn of the append loop of `process_batch`. */
    method FlushOne(at: U64)
      requires P.WorkerEnabled(Snap(), P.FlushOne(at))
      modifies this`phase, wal
      ensures Snap() == P.WorkerStep(old(Snap()), P.FlushOne(at))
      ensures wal.Snap() == W.Append(old(wal.Snap()), old(phase.rest[0]), at)
    {
      wal.DoAppend(phase.rest[0], at);
      phase := P.Flushing(phase.rest[1..], phase.after);
    }

    method FlushDone()
      requires P.WorkerEnabled(Snap(), P.FlushDone)
      modifies this`phase
      ensures Snap() == P.WorkerStep(old(Snap()), P.FlushDone)
    {
      match phase.after
      case ToTimer => phase := P.TimerCheck;
      case ToHead => phase := P.LoopHead;
      case ToStopped => phase := P.Stopped;
    }

    /** The first half of `stop`. */
    method RequestStop()
      modifies this`running
      ensures Snap() == P.WorkerStep(old(Snap()), P.RequestStop)
    {
      running := false;
    }

    /** The flush of `stop`, after the join. */
    method StopFlush()
      requires P.WorkerEnabled(Snap(), P.StopFlush)
      modifies this`phase, this`currentBatch
      ensures Snap() == P.WorkerStep(old(Snap()), P.StopFlush)
    {
      SwapBatch(P.ToStopped);
    }

    method SetBatchSize(size: nat)
      modifies this`batchSize
      ensures Snap() == P.WorkerStep(old(Snap()), P.SetBatchSize(size))
    {
      batchSize := size;
    }
  }

  // ---------------------------------------------------------------- the store object

  class MemStore {
    const mode: P.Mode
    const wal: W.WAL
    const worker: WriteBehindWorker?
    var store: map<Slot, Meta>
    var ttlIndex: seq<Slot>
    var writer: Option<Tid>

    ghost predicate Valid()
      reads this
    {
      (mode.WriteBehind? <==> worker != null) && (worker != null ==> worker.wal == wal)
    }

    ghost function WorkerSnap(): P.Worker
      reads this, worker, if worker != null then {worker.dirtyQueue} else {}
    {
      if worker != null then worker.Snap() else P.IdleWorker(0, false)
    }

    ghost function Snap(): P.State
      reads this, wal, worker, if worker != null then {worker.dirtyQueue} else {}
    {
      P.State(mode, Store(store, ttlIndex), writer, WorkerSnap(), wal.Snap())
    }

    constructor (wal: W.WAL, mode: P.Mode, batchSize: nat)
      ensures Valid() && this.wal == wal
      ensures Snap() == P.Init(mode, if mode.WriteBehind? then batchSize else 0, 0).(wal := wal.Snap())
    {
      this.wal := wal;
      this.mode := mode;
      store, ttlIndex, writer := map[], [], None;
      if mode.WriteBehind? {
        worker := new WriteBehindWorker(wal, batchSize);
      } else {
        worker := null;
      }
    }

    /** The log record of a write, emitted under the store's lock. */
    method Emit(t: Tid, r: Record, pick: Tid, at: U64)
      requires Valid() && P.CanEnqueue(WorkerSnap(), t, pick)
      modifies this`writer, wal, if worker != null then {worker.dirtyQueue} else {}
      ensures mode.WriteAhead? ==> Snap() == old(Snap()).(wal := W.Append(old(wal.Snap()), r, at))
      ensures mode.WriteBehind? ==>
        var (w, o) := P.Enqueue(old(WorkerSnap()), t, r, pick);
        Snap() == old(Snap()).(worker := w, writer := if o.Sleeping? then Some(t) else old(writer))
    {
      if mode.WriteAhead? {
        wal.DoAppend(r, at);
      } else {
        var o := worker.Enqueue(t, r, pick);
        if o.Sleeping? {
          writer := Some(t);
        }
      }
    }

    method Set(t: Tid, slot: Slot, value: Bytes, ttl: Option<int>, now: Time, pick: Tid, at: U64)
      requires Valid() && P.Enabled(Snap(), P.Client(t, Op.Set(slot, value, ttl, now), pick, at))
      modifies this, wal, if worker != null then {worker.dirtyQueue} else {}
      ensures Valid()
      ensures Snap() == P.Step(old(Snap()), P.Client(t, Op.Set(slot, value, ttl, now), pick, at))
    {
      var entry := if slot in store then store[slot] else NEW_META;
      entry := entry.(value := value, version := entry.version + 1, createdAt := now);
      if ttl.Some? {
        entry := entry.(expiresAt := Some(now + ttl.value * TICKS_PER_SECOND));
        ttlIndex := [slot] + ttlIndex;
      }
      store := store[slot := entry];
      Emit(t, Record(slot, value), pick, at);
    }

    method SetIfVersion(t: Tid, slot: Slot, value: Bytes, expected: nat, pick: Tid, at: U64) returns (ok: bool)
      requires Valid() && P.Enabled(Snap(), P.Client(t, Op.SetIfVersion(slot, value, expected), pick, at))
      modifies this, wal, if worker != null then {worker.dirtyQueue} else {}
      ensures Valid()
      ensures ok == VersionMatches(old(Snap().store), slot, expected)
      ensures Snap() == P.Step(old(Snap()), P.Client(t, Op.SetIfVersion(slot, value, expected), pick, at))
    {
      if slot !in store {
        store := store[slot := NEW_META];
      }
      var entry := store[slot];
      if entry.version != expected {
        return false;
      }
      store := store[slot := entry.(value := value, version := entry.version + 1)];
      Emit(t, Record(slot, value), pick, at);
      return true;
    }

    /** Runs when no client is parked with the store's lock. */
    method Get(slot: Slot, now: Time) returns (r: Option<Bytes>)
      requires writer.None?
      ensures r == DoGet(Snap().store, slot, now)
    {
      if slot !in store {
        return None;
      }
      var entry := store[slot];
      if entry.expiresAt.Some? && now > entry.expiresAt.value {
        return None;
      }
      return Some(entry.value);
    }

    method Del(slot: Slot) returns (erased: bool)
      requires writer.None?
      modifies this`store
      ensures erased == (slot in old(store))
      ensures Snap() == old(Snap()).(store := Apply(old(Snap().store), Op.Del(slot)))
    {
      erased := slot in store;
      store := store - {slot};
    }

    /** A client parked inside `Push` has the queue's mutex again. */
    method ResumeWriter(pick: Tid)
      requires Valid() && worker != null && P.Enabled(Snap(), P.ResumeWriter(pick))
      modifies this`writer, worker.dirtyQueue
      ensures Valid() && Snap() == P.Step(old(Snap()), P.ResumeWriter(pick))
    {
      var o := worker.FinishEnqueue(writer.value, pick);
      if !o.Sleeping? {
        writer := None;
      }
    }

    /** `cleanup_expired`: `remove_if` over the TTL index with a callback that erases expired
      * entries; the loop moves on only past the pairs it keeps. */
    method CleanupExpired(now: Time)
      modifies this`store, this`ttlIndex
      ensures Snap() == old(Snap()).(store := Apply(old(Snap().store), Cleanup(now)))
    {
      var kept: seq<Slot> := [];
      ghost var index, entries := ttlIndex, store;
      ghost var i := 0;
      while ttlIndex != []
        invariant 0 <= i <= |index| && ttlIndex == index[i..]
        invariant CleanedBy(store, entries, index[..i], now)
        invariant kept == KeptPairs(index[..i], entries, now)
        decreases |ttlIndex|
      {
        var slot := ttlIndex[0];
        var stale := slot !in store;
        var due := !stale && store[slot].expiresAt.Some? && now > store[slot].expiresAt.value;
        CleanOne(store, entries, index, i, now);
        if due {
          store := store - {slot};
        }
        if !stale && !due {
          kept := kept + [slot];
        }
        ttlIndex := ttlIndex[1..];
        i := i + 1;
      }
      assert index[..i] == index;
      ttlIndex := kept;
    }
  }

  /** `entries` is `was` without the expired entries that `seen` names. */
  ghost predicate CleanedBy(entries: map<Slot, Meta>, was: map<Slot, Meta>, seen: seq<Slot>, now: Time) {
    && (forall s :: s in entries <==> s in was && !(s in seen && Expired(was[s], now)))
    && (forall s | s in entries :: entries[s] == was[s])
  }

  lemma {:induction false} CleanOne(entries: map<Slot, Meta>, was: map<Slot, Meta>, index: seq<Slot>, i: nat, now: Time)
    requires i < |index| && CleanedBy(entries, was, index[..i], now)
    ensures var slot := index[i];
      var due := slot in entries && Expired(entries[slot], now);
      && CleanedBy(if due then entries - {slot} else entries, was, index[..i + 1], now)
      && KeptPairs(index[..i + 1], was, now) ==
           KeptPairs(index[..i], was, now) + (if slot in entries && !due then [slot] else [])
  {
    assert index[..i + 1] == index[..i] + [index[i]];
    KeptSnoc(index[..i], index[i], was, now);
  }

  lemma {:induction false} KeptSnoc(index: seq<Slot>, last: Slot, entries: map<Slot, Meta>, now: Time)
    ensures KeptPairs(index + [last], entries, now) ==
      KeptPairs(index, entries, now) + (if last in entries && !Expired(entries[last], now) then [last] else [])
  {
    if index == [] {
      assert index + [last] == [last];
    } else {
      assert (index + [last])[1..] == index[1..] + [last];
      KeptSnoc(index[1..], last, entries, now);
    }
  }
}
