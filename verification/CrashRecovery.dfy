/** What a crash leaves: the bytes of a log cut off anywhere, what replay reads from them, and what
  * folding that gives compared with the memory clients had seen.
  */
module CrashRecovery {
  import opened Base
  import opened LogFormat
  import S = StoreSpec
  import W = Wal
  import P = Pipeline
  import R = Recovery

  function RecordsOf(es: seq<Entry>): (rs: seq<Record>)
    ensures |rs| == |es| && forall i | 0 <= i < |es| :: rs[i] == es[i].record
  {
    seq(|es|, i requires 0 <= i < |es| => es[i].record)
  }

  // ---------------------------------------------------------------- folding what can be read

  lemma {:induction false} NonEmptyConcat(a: seq<Entry>, b: seq<Entry>)
    ensures NonEmpty(a + b) == NonEmpty(a) + NonEmpty(b)
  {
    if a == [] {
      assert a + b == b;
    } else {
      assert (a + b)[1..] == a[1..] + b;
      NonEmptyConcat(a[1..], b);
    }
  }

  lemma {:induction false} FoldMore(es: seq<Entry>, e: Entry)
    ensures S.Fold(RecordsOf(es + [e])) == S.Fold(RecordsOf(es))[e.record.slot := e.record.value]
  {
    assert RecordsOf(es + [e]) == RecordsOf(es) + [e.record];
    S.FoldAppend(RecordsOf(es), e.record);
  }

  predicate NoEmptyValue(m: map<Slot, Bytes>) {
    forall s | s in m :: m[s] != []
  }

  /** `n` is what is left of `m` when records with empty values are lost. */
  predicate LosesEmpty(m: map<Slot, Bytes>, n: map<Slot, Bytes>) {
    && (forall s | s in m && m[s] != [] :: s in n && n[s] == m[s])
    && (forall s | s in n :: s in m && n[s] != [])
  }

  lemma {:induction false} LosesEmptyMore(m: map<Slot, Bytes>, n: map<Slot, Bytes>, slot: Slot, v: Bytes)
    requires LosesEmpty(m, n)
    ensures LosesEmpty(m[slot := v], if v != [] then n[slot := v] else n)
  {
  }

  lemma {:induction false} ReadableLosesEmpty(es: seq<Entry>)
    ensures LosesEmpty(S.Fold(RecordsOf(es)), S.Fold(RecordsOf(NonEmpty(es))))
  {
    if es != [] {
      var k := |es| - 1;
      var init, e := es[..k], es[k];
      ReadableLosesEmpty(init);
      LosesEmptyMore(S.Fold(RecordsOf(init)), S.Fold(RecordsOf(NonEmpty(init))), e.record.slot, e.record.value);
      assert es == init + [e];
      FoldMore(init, e);
      NonEmptyConcat(init, [e]);
      assert NonEmpty(es) == NonEmpty(init) + Readable(e);
      if e.record.value != [] {
        FoldMore(NonEmpty(init), e);
      } else {
        assert NonEmpty(es) == NonEmpty(init);
      }
    }
  }

  lemma {:induction false} NothingEmptyIsLost(m: map<Slot, Bytes>, n: map<Slot, Bytes>)
    requires LosesEmpty(m, n) && NoEmptyValue(m)
    ensures n == m
  {
  }

  /** `before` overwritten by `since` is what is read of `since`: there is no empty value in `since`, and
    * nothing that only `before` has. */
  predicate NothingLost(before: map<Slot, Bytes>, since: map<Slot, Bytes>) {
    NoEmptyValue(since) && before.Keys - since.Keys == {}
  }

  /** The same when one more slot is read with `part` for its value. */
  predicate NothingLostWith(before: map<Slot, Bytes>, since: map<Slot, Bytes>, slot: Slot, part: Bytes) {
    && NoEmptyValue(since) && before.Keys - since.Keys <= {slot}
    && slot in before + since && (before + since)[slot] == part
  }

  lemma {:induction false} NothingLostExactly(before: map<Slot, Bytes>, since: map<Slot, Bytes>, read: map<Slot, Bytes>)
    requires LosesEmpty(since, read)
    ensures (read == before + since) <==> NothingLost(before, since)
  {
    var m := before + since;
    if read == m {
      assert forall s | s in since :: s in m && m[s] == since[s];
      assert forall s | s in before :: s in m;
    }
    if NothingLost(before, since) {
      NothingEmptyIsLost(since, read);
      assert forall s | s in before && s !in since :: s in before.Keys - since.Keys;
      assert m.Keys == since.Keys && m == since;
    }
  }

  lemma {:induction false} NothingLostWithExactly(before: map<Slot, Bytes>, since: map<Slot, Bytes>,
                                                  read: map<Slot, Bytes>, slot: Slot, part: Bytes)
    requires LosesEmpty(since, read) && part != []
    ensures (read[slot := part] == before + since) <==> NothingLostWith(before, since, slot, part)
  {
    var m, torn := before + since, read[slot := part];
    if torn == m {
      assert forall s | s in since :: s in m && m[s] == since[s] == torn[s];
      assert forall s | s in before && s != slot :: s in m && s in read;
    }
    if NothingLostWith(before, since, slot, part) {
      NothingEmptyIsLost(since, read);
      assert forall s | s in before && s !in since :: s in before.Keys - since.Keys;
      assert forall s :: s in m <==> s in torn;
    }
  }

  // ---------------------------------------------------------------- where the cut falls

  /** How many whole records there are in the first `n` bytes. */
  function Whole(es: seq<Entry>, n: nat): (k: nat)
    requires n <= |Encode(es)|
    ensures k <= |es|
  {
    if es == [] || n < |Frame(es[0])| then 0 else 1 + Whole(es[1..], n - |Frame(es[0])|)
  }

  /** What there is of the value of the record after them. */
  function Part(es: seq<Entry>, n: nat): (part: Bytes)
    requires n <= |Encode(es)|
    ensures part != [] ==> Whole(es, n) < |es| && part <= es[Whole(es, n)].record.value
  {
    if es == [] then []
    else if n >= |Frame(es[0])| then Part(es[1..], n - |Frame(es[0])|)
    else if n <= |Header(es[0])| then []
    else es[0].record.value[..n - |Header(es[0])|]
  }

  /** The cut has gone through a value. */
  predicate CutsValue(es: seq<Entry>, n: nat)
    requires n <= |Encode(es)|
  {
    Part(es, n) != [] && Part(es, n) != es[Whole(es, n)].record.value
  }

  /** How many records are there with all of their value; the last may lack its newline. */
  function Complete(es: seq<Entry>, n: nat): (k: nat)
    requires n <= |Encode(es)|
    ensures k <= |es|
  {
    if Part(es, n) != [] && !CutsValue(es, n) then Whole(es, n) + 1 else Whole(es, n)
  }

  function Rest(es: seq<Entry>, n: nat): seq<Entry>
    requires n <= |Encode(es)|
  {
    if Part(es, n) == [] then [] else [WithValue(es[Whole(es, n)], Part(es, n))]
  }

  lemma {:induction false} NonEmptyCons(es: seq<Entry>, k: nat, rest: seq<Entry>)
    requires es != [] && k < |es|
    ensures NonEmpty(es[..k + 1]) + rest == Readable(es[0]) + (NonEmpty(es[1..][..k]) + rest)
  {
    assert es[..k + 1][1..] == es[1..][..k];
    assert NonEmpty(es[..k + 1]) == Readable(es[0]) + NonEmpty(es[1..][..k]);
  }

  lemma {:induction false} TornIsWholeAndPart(es: seq<Entry>, n: nat)
    requires n <= |Encode(es)|
    ensures Torn(es, n) == NonEmpty(es[..Whole(es, n)]) + Rest(es, n)
  {
    if es != [] && n >= |Frame(es[0])| {
      var tail, left := es[1..], n - |Frame(es[0])|;
      TornIsWholeAndPart(tail, left);
      NonEmptyCons(es, Whole(tail, left), Rest(tail, left));
    } else {
      assert es[..0] == [];
    }
  }

  // ---------------------------------------------------------------- when the fold of what is read is right

  lemma {:induction false} FoldConcat(a: seq<Record>, b: seq<Record>)
    ensures S.Fold(a + b) == S.Fold(a) + S.Fold(b)
  {
    if b == [] {
      assert a + b == a;
    } else {
      var n := |b| - 1;
      FoldConcat(a, b[..n]);
      assert a + b == a + b[..n] + [b[n]] && b == b[..n] + [b[n]];
      S.FoldAppend(a + b[..n], b[n]);
      S.FoldAppend(b[..n], b[n]);
    }
  }

  lemma {:induction false} TornFold(es: seq<Entry>, n: nat)
    requires n <= |Encode(es)|
    ensures var read := S.Fold(RecordsOf(NonEmpty(es[..Whole(es, n)])));
      S.Fold(RecordsOf(Torn(es, n))) ==
        if Part(es, n) == [] then read else read[es[Whole(es, n)].record.slot := Part(es, n)]
  {
    TornIsWholeAndPart(es, n);
    var read := NonEmpty(es[..Whole(es, n)]);
    if Part(es, n) == [] {
      assert read + [] == read;
    } else {
      FoldMore(read, WithValue(es[Whole(es, n)], Part(es, n)));
    }
  }

  lemma {:induction false} WholeFold(es: seq<Entry>, k: nat)
    requires k < |es|
    ensures S.Fold(RecordsOf(es[..k + 1])) == S.Fold(RecordsOf(es[..k]))[es[k].record.slot := es[k].record.value]
  {
    assert es[..k + 1] == es[..k] + [es[k]];
    FoldMore(es[..k], es[k]);
  }

  lemma {:induction false} CleanTornFold(es: seq<Entry>, n: nat)
    requires n <= |Encode(es)| && !CutsValue(es, n)
    ensures LosesEmpty(S.Fold(RecordsOf(es[..Complete(es, n)])), S.Fold(RecordsOf(Torn(es, n))))
  {
    var k, part := Whole(es, n), Part(es, n);
    TornFold(es, n);
    ReadableLosesEmpty(es[..k]);
    if part != [] {
      WholeFold(es, k);
      LosesEmptyMore(S.Fold(RecordsOf(es[..k])), S.Fold(RecordsOf(NonEmpty(es[..k]))), es[k].record.slot, part);
    }
  }

  /** What the first `k` records, which are no longer in the live file, made of the memory. */
  function Before(es: seq<Entry>, k: nat): map<Slot, Bytes>
    requires k <= |es|
  {
    S.Fold(RecordsOf(es[..k]))
  }

  /** What the complete ones of the others did to it, when the live file has been cut off at `n`. */
  function Since(es: seq<Entry>, k: nat, n: nat): map<Slot, Bytes>
    requires k <= |es| && n <= |Encode(es[k..])|
  {
    S.Fold(RecordsOf(es[k..][..Complete(es[k..], n)]))
  }

  /** The memory after the last complete record. */
  function LastMemory(es: seq<Entry>, k: nat, n: nat): map<Slot, Bytes>
    requires k <= |es| && n <= |Encode(es[k..])|
  {
    S.Fold(RecordsOf(es[..k + Complete(es[k..], n)]))
  }

  /** What can be read is that memory: since the rotation no slot was last given an empty value, and every
    * slot logged before has been logged again; if the cut has gone through a value, what is left of it must
    * be what its slot held before. */
  predicate ReadsRight(es: seq<Entry>, k: nat, n: nat)
    requires k <= |es| && n <= |Encode(es[k..])|
  {
    var live := es[k..];
    if CutsValue(live, n) then
      NothingLostWith(Before(es, k), Since(es, k, n), live[Whole(live, n)].record.slot, Part(live, n))
    else NothingLost(Before(es, k), Since(es, k, n))
  }

  lemma {:induction false} RecordsOfParts(es: seq<Entry>, k: nat, c: nat)
    requires k <= |es| && c <= |es[k..]|
    ensures RecordsOf(es[..k + c]) == RecordsOf(es[..k]) + RecordsOf(es[k..][..c])
  {
  }

  lemma {:induction false} FoldOfParts(es: seq<Entry>, k: nat, c: nat)
    requires k <= |es| && c <= |es[k..]|
    ensures S.Fold(RecordsOf(es[..k + c])) == S.Fold(RecordsOf(es[..k])) + S.Fold(RecordsOf(es[k..][..c]))
  {
    RecordsOfParts(es, k, c);
    FoldConcat(RecordsOf(es[..k]), RecordsOf(es[k..][..c]));
  }

  lemma {:induction false} LastMemoryIsBoth(es: seq<Entry>, k: nat, n: nat)
    requires k <= |es| && n <= |Encode(es[k..])|
    ensures LastMemory(es, k, n) == Before(es, k) + Since(es, k, n)
  {
    FoldOfParts(es, k, Complete(es[k..], n));
  }

  lemma {:induction false} TornFoldIsRightExactly(es: seq<Entry>, k: nat, n: nat)
    requires k <= |es| && n <= |Encode(es[k..])|
    ensures (S.Fold(RecordsOf(Torn(es[k..], n))) == Before(es, k) + Since(es, k, n)) <==> ReadsRight(es, k, n)
  {
    var live := es[k..];
    if CutsValue(live, n) {
      var w := Whole(live, n);
      TornFold(live, n);
      ReadableLosesEmpty(live[..w]);
      NothingLostWithExactly(Before(es, k), Since(es, k, n), S.Fold(RecordsOf(NonEmpty(live[..w]))),
                             live[w].record.slot, Part(live, n));
    } else {
      CleanTornFold(live, n);
      NothingLostExactly(Before(es, k), Since(es, k, n), S.Fold(RecordsOf(Torn(live, n))));
    }
  }

  /** For every log of framable records, every rotation and every cut. */
  lemma {:induction false} FoldIsRightExactly(es: seq<Entry>, k: nat, n: nat)
    requires k <= |es| && AllFramable(es[k..]) && n <= |Encode(es[k..])|
    ensures (S.Fold(RecordsOf(Replay(Encode(es[k..])[..n]).delivered)) == LastMemory(es, k, n))
      <==> ReadsRight(es, k, n)
  {
    TornReplay(es[k..], n);
    LastMemoryIsBoth(es, k, n);
    TornFoldIsRightExactly(es, k, n);
  }

  // ---------------------------------------------------------------- over whole runs

  /** The entries a run has appended. */
  function Logged(mode: P.Mode, batchSize: nat, logLimit: nat, es: seq<P.Event>): seq<Entry>
    requires P.IsRun(P.Init(mode, batchSize, logLimit), es)
  {
    W.Entries(P.Appended(P.Init(mode, batchSize, logLimit), es))
  }

  /** How many of them had been appended when the log last rotated. */
  function Rotation(mode: P.Mode, batchSize: nat, logLimit: nat, es: seq<P.Event>): (k: nat)
    requires P.IsRun(P.Init(mode, batchSize, logLimit), es)
    ensures k <= |Logged(mode, batchSize, logLimit, es)|
  {
    W.LastRotation(logLimit, P.Appended(P.Init(mode, batchSize, logLimit), es))
  }

  /** The file that replay reads. */
  function LiveFile(mode: P.Mode, batchSize: nat, logLimit: nat, es: seq<P.Event>): Bytes
    requires P.IsRun(P.Init(mode, batchSize, logLimit), es)
  {
    P.Run(P.Init(mode, batchSize, logLimit), es).wal.live
  }

  lemma {:induction false} LiveIsEncoded(mode: P.Mode, batchSize: nat, logLimit: nat, es: seq<P.Event>)
    requires P.IsRun(P.Init(mode, batchSize, logLimit), es)
    ensures LiveFile(mode, batchSize, logLimit, es)
      == Encode(Logged(mode, batchSize, logLimit, es)[Rotation(mode, batchSize, logLimit, es)..])
  {
    R.LogHoldsAppended(mode, batchSize, logLimit, es);
    W.LiveSinceRotation(logLimit, P.Appended(P.Init(mode, batchSize, logLimit), es));
  }

  lemma {:induction false} LoggedIsHistory(mode: P.Mode, batchSize: nat, logLimit: nat, es: seq<P.Event>, k: nat)
    requires P.IsRun(P.Init(mode, batchSize, logLimit), es) && k <= |Logged(mode, batchSize, logLimit, es)|
    ensures k <= |R.History(es)|
    ensures RecordsOf(Logged(mode, batchSize, logLimit, es)[..k]) == R.History(es)[..k]
  {
    R.LoggedAreHistory(mode, batchSize, logLimit, es);
  }

  lemma {:induction false} LoggedIsFramable(mode: P.Mode, batchSize: nat, logLimit: nat, es: seq<P.Event>)
    requires P.IsRun(P.Init(mode, batchSize, logLimit), es) && forall r | r in R.History(es) :: Framable(r)
    ensures AllFramable(Logged(mode, batchSize, logLimit, es))
  {
    R.LoggedAreHistory(mode, batchSize, logLimit, es);
  }

  lemma {:induction false} LastMemoryWasMemory(mode: P.Mode, batchSize: nat, logLimit: nat, es: seq<P.Event>,
                                               entries: seq<Entry>, k: nat, n: nat)
    requires P.IsRun(P.Init(mode, batchSize, logLimit), es) && S.OnlyWrites(P.ClientOps(es))
    requires entries == Logged(mode, batchSize, logLimit, es) && k <= |entries| && n <= |Encode(entries[k..])|
    ensures R.WasMemory(P.Init(mode, batchSize, logLimit), es, LastMemory(entries, k, n))
  {
    var c := k + Complete(entries[k..], n);
    LoggedIsHistory(mode, batchSize, logLimit, es, c);
    R.PrefixWasMemory(mode, batchSize, logLimit, es, c);
  }

  lemma {:induction false} TornFileReadsRight(entries: seq<Entry>, k: nat, n: nat, file: Bytes)
    requires k <= |entries| && AllFramable(entries) && file == Encode(entries[k..]) && n <= |file|
    ensures !Replay(file[..n]).threw
    ensures (S.Fold(RecordsOf(Replay(file[..n]).delivered)) == LastMemory(entries, k, n)) <==> ReadsRight(entries, k, n)
  {
    TornReplay(entries[k..], n);
    FoldIsRightExactly(entries, k, n);
  }

  /** A crash at any moment of any run without removals, with any number of rotations, cutting the live
    * file anywhere: replay does not throw; the memory after the last complete record was the memory at
    * some moment; and the fold of what replay delivers is that memory if and only if `ReadsRight`. */
  lemma {:induction false} TornLogRecovery(mode: P.Mode, batchSize: nat, logLimit: nat, es: seq<P.Event>, n: nat,
                                           entries: seq<Entry>, k: nat, file: Bytes)
    requires P.IsRun(P.Init(mode, batchSize, logLimit), es) && S.OnlyWrites(P.ClientOps(es))
    requires forall r | r in R.History(es) :: Framable(r)
    requires entries == Logged(mode, batchSize, logLimit, es) && k == Rotation(mode, batchSize, logLimit, es)
    requires file == LiveFile(mode, batchSize, logLimit, es) && n <= |file|
    ensures n <= |Encode(entries[k..])| && !Replay(file[..n]).threw
    ensures R.WasMemory(P.Init(mode, batchSize, logLimit), es, LastMemory(entries, k, n))
    ensures (S.Fold(RecordsOf(Replay(file[..n]).delivered)) == LastMemory(entries, k, n)) <==> ReadsRight(entries, k, n)
  {
    LoggedIsFramable(mode, batchSize, logLimit, es);
    LiveIsEncoded(mode, batchSize, logLimit, es);
    TornFileReadsRight(entries, k, n, file);
    LastMemoryWasMemory(mode, batchSize, logLimit, es, entries, k, n);
  }

  lemma {:induction false} FoldOfValues(es: seq<Entry>)
    requires forall i | 0 <= i < |es| :: es[i].record.value != []
    ensures NoEmptyValue(S.Fold(RecordsOf(es)))
  {
    if es != [] {
      var n := |es| - 1;
      FoldOfValues(es[..n]);
      assert es == es[..n] + [es[n]];
      FoldMore(es[..n], es[n]);
    }
  }

  lemma {:induction false} LoggedHasValues(mode: P.Mode, batchSize: nat, logLimit: nat, es: seq<P.Event>,
                                           entries: seq<Entry>)
    requires P.IsRun(P.Init(mode, batchSize, logLimit), es) && forall r | r in R.History(es) :: Replayable(r)
    requires entries == Logged(mode, batchSize, logLimit, es)
    ensures forall i | 0 <= i < |entries| :: entries[i].record.value != []
  {
    var n := |entries|;
    LoggedIsHistory(mode, batchSize, logLimit, es, n);
    forall i | 0 <= i < n
      ensures entries[i].record.value != []
    {
      assert entries[i].record == RecordsOf(entries[..n])[i] == R.History(es)[..n][i];
      assert R.History(es)[i] in R.History(es);
    }
  }

  /** The slots logged before the last rotation and not logged again by what is complete in the live file. */
  function OnlyBefore(es: seq<Entry>, k: nat, n: nat): set<Slot>
    requires k <= |es| && n <= |Encode(es[k..])|
  {
    Before(es, k).Keys - Since(es, k, n).Keys
  }

  lemma {:induction false} CleanCutReadsRight(entries: seq<Entry>, k: nat, n: nat)
    requires k <= |entries| && n <= |Encode(entries[k..])| && !CutsValue(entries[k..], n)
    requires forall i | 0 <= i < |entries| :: entries[i].record.value != []
    ensures ReadsRight(entries, k, n) <==> OnlyBefore(entries, k, n) == {}
  {
    FoldOfValues(entries[k..][..Complete(entries[k..], n)]);
  }

  /** The case a caller can arrange: every value written is replayable and the crash does not cut through
    * a value.  Then the fold of what replay delivers is the memory after the last complete record if and
    * only if every slot logged before the last rotation has been logged again since. */
  lemma {:induction false} CleanCutRecovers(mode: P.Mode, batchSize: nat, logLimit: nat, es: seq<P.Event>, n: nat,
                                            entries: seq<Entry>, k: nat, file: Bytes)
    requires P.IsRun(P.Init(mode, batchSize, logLimit), es) && S.OnlyWrites(P.ClientOps(es))
    requires forall r | r in R.History(es) :: Replayable(r)
    requires entries == Logged(mode, batchSize, logLimit, es) && k == Rotation(mode, batchSize, logLimit, es)
    requires file == LiveFile(mode, batchSize, logLimit, es) && n <= |file|
    ensures n <= |Encode(entries[k..])|
    ensures R.WasMemory(P.Init(mode, batchSize, logLimit), es, LastMemory(entries, k, n))
    ensures !CutsValue(entries[k..], n) ==>
      ((S.Fold(RecordsOf(Replay(file[..n]).delivered)) == LastMemory(entries, k, n))
       <==> OnlyBefore(entries, k, n) == {})
  {
    TornLogRecovery(mode, batchSize, logLimit, es, n, entries, k, file);
    LoggedHasValues(mode, batchSize, logLimit, es, entries);
    if !CutsValue(entries[k..], n) {
      CleanCutReadsRight(entries, k, n);
    }
  }
}
