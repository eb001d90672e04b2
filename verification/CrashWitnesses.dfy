/** Runs and cuts that show every part of the condition in `CrashRecovery` to be needed. */
module CrashWitnesses {
  import opened Base
  import opened LogFormat
  import opened CrashRecovery
  import S = StoreSpec
  import W = Wal
  import P = Pipeline
  import R = Recovery

  function SetOf(r: Record): P.Event {
    P.Client(1, S.Op.Set(r.slot, r.value, None, 0), 0, 0)
  }

  /** One client writes `rs`, one record after the other. */
  function Sets(rs: seq<Record>): (es: seq<P.Event>)
    ensures |es| == |rs| && forall i | 0 <= i < |rs| :: es[i] == SetOf(rs[i])
  {
    seq(|rs|, i requires 0 <= i < |rs| => SetOf(rs[i]))
  }

  function Writes(rs: seq<Record>): (ws: seq<W.Write>)
    ensures |ws| == |rs| && forall i | 0 <= i < |rs| :: ws[i] == W.Write(rs[i], 0)
  {
    seq(|rs|, i requires 0 <= i < |rs| => W.Write(rs[i], 0))
  }

  /** A log limit that these writes do not reach. */
  function Roomy(rs: seq<Record>): nat {
    |Encode(W.Entries(Writes(rs)))| + 1
  }

  lemma {:induction false} SetIsLogged(s: P.State, r: Record)
    requires P.Inv(s) && s.mode.WriteAhead?
    ensures P.Enabled(s, SetOf(r)) && P.Appends(s, SetOf(r)) == [W.Write(r, 0)]
  {
  }

  ghost predicate RunOf(rs: seq<Record>, es: seq<P.Event>, ws: seq<W.Write>, limit: nat) {
    var s0 := P.Init(P.WriteAhead, 0, limit);
    && P.IsRun(s0, es) && P.Appended(s0, es) == ws
    && R.History(es) == rs && S.OnlyWrites(P.ClientOps(es))
  }

  lemma {:induction false} SetCanFollow(rs: seq<Record>, es: seq<P.Event>, ws: seq<W.Write>, limit: nat, r: Record)
    requires RunOf(rs, es, ws, limit)
    ensures var s := P.Run(P.Init(P.WriteAhead, 0, limit), es);
      P.Enabled(s, SetOf(r)) && P.Appends(s, SetOf(r)) == [W.Write(r, 0)]
  {
    R.RunConserves(P.WriteAhead, 0, limit, es);
    SetIsLogged(P.Run(P.Init(P.WriteAhead, 0, limit), es), r);
  }

  lemma {:induction false} OnlyWritesMore(ops: seq<S.Op>, op: S.Op)
    requires S.OnlyWrites(ops) && op.Set?
    ensures S.OnlyWrites(ops + [op])
  {
  }

  lemma {:induction false} OneMoreSet(s0: P.State, es: seq<P.Event>, n: nat, r: Record)
    requires |es| == n + 1 && es[n] == SetOf(r) && P.IsRun(s0, es[..n]) && P.Enabled(P.Run(s0, es[..n]), SetOf(r))
    requires P.Appends(P.Run(s0, es[..n]), SetOf(r)) == [W.Write(r, 0)]
    ensures P.IsRun(s0, es) && P.Appended(s0, es) == P.Appended(s0, es[..n]) + [W.Write(r, 0)]
    ensures P.ClientOps(es) == P.ClientOps(es[..n]) + [es[n].op]
    ensures R.History(es) == R.History(es[..n]) + [r]
  {
    R.LogSnoc(P.ClientOps(es[..n]), es[n]);
  }

  lemma {:induction false} RunOfMore(rs: seq<Record>, es: seq<P.Event>, ws: seq<W.Write>, limit: nat, n: nat)
    requires |rs| == |es| == |ws| == n + 1 && es[n] == SetOf(rs[n]) && ws[n] == W.Write(rs[n], 0)
    requires RunOf(rs[..n], es[..n], ws[..n], limit)
    ensures RunOf(rs, es, ws, limit)
  {
    assert rs == rs[..n] + [rs[n]];
    assert ws == ws[..n] + [ws[n]];
    SetCanFollow(rs[..n], es[..n], ws[..n], limit, rs[n]);
    OneMoreSet(P.Init(P.WriteAhead, 0, limit), es, n, rs[n]);
    OnlyWritesMore(P.ClientOps(es[..n]), es[n].op);
  }

  ghost predicate AreARun(rs: seq<Record>, limit: nat) {
    RunOf(rs, Sets(rs), Writes(rs), limit)
  }

  lemma {:induction false} RunOfNothing(limit: nat)
    ensures RunOf([], [], [], limit)
  {
  }

  lemma {:induction false} RunOfSets(rs: seq<Record>, es: seq<P.Event>, ws: seq<W.Write>, limit: nat)
    requires |es| == |rs| == |ws|
    requires forall i | 0 <= i < |rs| :: es[i] == SetOf(rs[i]) && ws[i] == W.Write(rs[i], 0)
    ensures RunOf(rs, es, ws, limit)
  {
    if rs == [] {
      RunOfNothing(limit);
    } else {
      var n := |rs| - 1;
      RunOfSets(rs[..n], es[..n], ws[..n], limit);
      RunOfMore(rs, es, ws, limit, n);
    }
  }

  /** In write-ahead mode any records are the history of a run. */
  lemma {:induction false} SetsAreARun(rs: seq<Record>, limit: nat)
    ensures AreARun(rs, limit)
  {
    RunOfSets(rs, Sets(rs), Writes(rs), limit);
  }

  lemma {:induction false} SetsMemories(rs: seq<Record>, limit: nat, m: map<Slot, Bytes>)
    requires P.IsRun(P.Init(P.WriteAhead, 0, limit), Sets(rs))
    requires R.WasMemory(P.Init(P.WriteAhead, 0, limit), Sets(rs), m)
    ensures exists i :: 0 <= i <= |rs| && m == S.Fold(rs[..i])
  {
    var s0 := P.Init(P.WriteAhead, 0, limit);
    var i :| 0 <= i <= |rs| && P.IsRun(s0, Sets(rs)[..i]) && S.Visible(P.Run(s0, Sets(rs)[..i]).store) == m;
    assert Sets(rs)[..i] == Sets(rs[..i]);
    SetsAreARun(rs[..i], limit);
    R.RunConserves(P.WriteAhead, 0, limit, Sets(rs[..i]));
    S.FoldIsExact(P.ClientOps(Sets(rs[..i])));
  }

  lemma {:induction false} NeverMemory(rs: seq<Record>, limit: nat, m: map<Slot, Bytes>)
    requires P.IsRun(P.Init(P.WriteAhead, 0, limit), Sets(rs))
    requires forall i | 0 <= i <= |rs| :: m != S.Fold(rs[..i])
    ensures !R.WasMemory(P.Init(P.WriteAhead, 0, limit), Sets(rs), m)
  {
    if R.WasMemory(P.Init(P.WriteAhead, 0, limit), Sets(rs), m) {
      SetsMemories(rs, limit, m);
    }
  }

  /** The file that replay reads after such a run. */
  lemma {:induction false} SetsLog(rs: seq<Record>, limit: nat)
    ensures P.IsRun(P.Init(P.WriteAhead, 0, limit), Sets(rs))
    ensures LiveFile(P.WriteAhead, 0, limit, Sets(rs))
      == Encode(W.Entries(Writes(rs))[W.LastRotation(limit, Writes(rs))..])
  {
    SetsAreARun(rs, limit);
    LiveIsEncoded(P.WriteAhead, 0, limit, Sets(rs));
  }

  /** Replaying the first `n` bytes of the log of `rs` and folding what is read gives `m`, which the
    * memory never was at any moment of the run. */
  ghost predicate Invents(rs: seq<Record>, limit: nat, n: nat, m: map<Slot, Bytes>) {
    && P.IsRun(P.Init(P.WriteAhead, 0, limit), Sets(rs))
    && n <= |LiveFile(P.WriteAhead, 0, limit, Sets(rs))|
    && S.Fold(RecordsOf(Replay(LiveFile(P.WriteAhead, 0, limit, Sets(rs))[..n]).delivered)) == m
    && !R.WasMemory(P.Init(P.WriteAhead, 0, limit), Sets(rs), m)
  }

  lemma {:induction false} InventsWhatWasRead(rs: seq<Record>, limit: nat, file: Bytes, n: nat, read: seq<Entry>,
                                              m: map<Slot, Bytes>)
    requires file == Encode(W.Entries(Writes(rs))[W.LastRotation(limit, Writes(rs))..])
    requires n <= |file| && Replay(file[..n]).delivered == read
    requires S.Fold(RecordsOf(read)) == m && forall i | 0 <= i <= |rs| :: m != S.Fold(rs[..i])
    ensures Invents(rs, limit, n, m)
  {
    SetsLog(rs, limit);
    NeverMemory(rs, limit, m);
  }

  lemma {:induction false} RoomyNeverRotates(rs: seq<Record>)
    ensures W.Entries(Writes(rs))[W.LastRotation(Roomy(rs), Writes(rs))..] == W.Entries(Writes(rs))
  {
    var es := W.Entries(Writes(rs));
    W.NoRotationExactly(Roomy(rs), Writes(rs));
    W.LiveSinceRotation(Roomy(rs), Writes(rs));
    W.SuffixOfSameCode(es, W.LastRotation(Roomy(rs), Writes(rs)));
  }

  lemma {:induction false} ThreeMemories(a: Slot, b: Slot, x: Bytes, y: Bytes)
    requires a != b && x != [] && y != []
    ensures var rs := [Record(a, x), Record(a, []), Record(b, y)];
      forall i | 0 <= i <= |rs| :: map[a := x, b := y] != S.Fold(rs[..i])
  {
    var m, rs := map[a := x, b := y], [Record(a, x), Record(a, []), Record(b, y)];
    PrefixFolds(rs[0], rs[1], rs[2]);
    assert a in m && b in m && m[a] == x;
    forall i | 0 <= i <= |rs|
      ensures m != S.Fold(rs[..i])
    {
      assert i == 0 || i == 1 || i == 2 || i == 3;
    }
  }

  lemma {:induction false} ReadWithoutTheEmpty(es: seq<Entry>)
    requires AllFramable(es) && |es| == 3
    requires es[0].record.value != [] && es[1].record.value == [] && es[2].record.value != []
    ensures Replay(Encode(es)[..|Encode(es)|]).delivered == [es[0], es[2]]
  {
    ReplayEncode(es);
    ThreeReadable(es);
    assert Encode(es)[..|Encode(es)|] == Encode(es);
  }

  lemma {:induction false} FoldTwoEntries(e: Entry, f: Entry)
    ensures S.Fold(RecordsOf([e, f])) == map[e.record.slot := e.record.value][f.record.slot := f.record.value]
  {
    assert RecordsOf([e, f]) == [e.record, f.record];
    FoldTwo(e.record, f.record);
  }

  /** An empty value is lost, and the value before it comes back beside a later write. */
  lemma {:induction false} EmptyValueBringsBackTheOld(a: Slot, b: Slot, x: Bytes, y: Bytes)
    requires a != b && x != [] && y != [] && Framable(Record(a, x)) && Framable(Record(b, y))
    ensures var rs := [Record(a, x), Record(a, []), Record(b, y)];
      Invents(rs, Roomy(rs), |Encode(W.Entries(Writes(rs)))|, map[a := x, b := y])
  {
    var rs := [Record(a, x), Record(a, []), Record(b, y)];
    var es := W.Entries(Writes(rs));
    ReadWithoutTheEmpty(es);
    FoldTwoEntries(es[0], es[2]);
    ThreeMemories(a, b, x, y);
    RoomyNeverRotates(rs);
    InventsWhatWasRead(rs, Roomy(rs), Encode(es), |Encode(es)|, [es[0], es[2]], map[a := x, b := y]);
  }

  lemma {:induction false} ThreeReadable(es: seq<Entry>)
    requires |es| == 3 && es[0].record.value != [] && es[1].record.value == [] && es[2].record.value != []
    ensures NonEmpty(es) == [es[0], es[2]]
  {
    assert es[1..][0] == es[1] && es[1..][1..] == es[2..] == [es[2]];
    assert NonEmpty(es[2..]) == [es[2]];
  }

  lemma {:induction false} FoldTwo(r: Record, q: Record)
    ensures S.Fold([r, q]) == map[r.slot := r.value][q.slot := q.value]
  {
    S.FoldAppend([], r);
    S.FoldAppend([r], q);
    assert [] + [r] == [r] && [r] + [q] == [r, q];
  }

  lemma {:induction false} PrefixFolds(r: Record, q: Record, p: Record)
    ensures var rs := [r, q, p];
      && S.Fold(rs[..0]) == map[] && S.Fold(rs[..1]) == map[r.slot := r.value]
      && S.Fold(rs[..2]) == map[r.slot := r.value][q.slot := q.value]
      && S.Fold(rs[..3]) == map[r.slot := r.value][q.slot := q.value][p.slot := p.value]
  {
    var rs := [r, q, p];
    assert rs[..0] == [] && rs[..1] == [r] && rs[..2] == [r, q] && rs[..3] == [r, q] + [p];
    FoldTwo(r, q);
    S.FoldAppend([], r);
    assert [] + [r] == [r];
    S.FoldAppend([r, q], p);
  }

  lemma {:induction false} TwoMemories(a: Slot, x: Bytes, more: Bytes)
    requires more != []
    ensures var rs := [Record(a, x + more)];
      forall i | 0 <= i <= |rs| :: map[a := x] != S.Fold(rs[..i])
  {
    var m, rs := map[a := x], [Record(a, x + more)];
    S.FoldAppend([], rs[0]);
    assert rs[..0] == [] && rs[..1] == [] + [rs[0]] && |x + more| > |x|;
    assert a in m && m[a] == x;
    forall i | 0 <= i <= |rs|
      ensures m != S.Fold(rs[..i])
    {
      assert i == 0 || i == 1;
    }
  }

  lemma {:induction false} EncodeOne(e: Entry)
    ensures Encode([e]) == Frame(e)
  {
    assert Encode([e]) == Frame(e) + [];
  }

  lemma {:induction false} FoldOne(e: Entry)
    ensures S.Fold(RecordsOf([e])) == map[e.record.slot := e.record.value]
  {
    assert RecordsOf([e]) == [] + [e.record];
    S.FoldAppend([], e.record);
  }

  lemma {:induction false} CutFits(es: seq<Entry>, x: Bytes, more: Bytes)
    requires |es| == 1 && es[0].record.value == x + more && x != [] && more != []
    ensures var n := |Header(es[0])| + |x|;
      && |Header(es[0])| < n < |Encode(es)| && Encode(es) == Frame(es[0])
      && n - |Header(es[0])| <= |es[0].record.value| && es[0].record.value[..n - |Header(es[0])|] == x
  {
    FrameSize(es[0]);
    assert es == [es[0]];
    EncodeOne(es[0]);
    assert (x + more)[..|x|] == x;
  }

  lemma {:induction false} CutRead(e: Entry, file: Bytes, n: nat, x: Bytes)
    requires Framable(e.record) && file == Frame(e) && |Header(e)| < n < |file|
    requires n - |Header(e)| <= |e.record.value| && x == e.record.value[..n - |Header(e)|]
    ensures Replay(file[..n]).delivered == [WithValue(e, x)]
  {
    ReplayTornFrame(e, n);
  }

  /** A value cut short is taken for a value. */
  lemma {:induction false} CutValueIsTakenForAValue(a: Slot, x: Bytes, more: Bytes)
    requires x != [] && more != [] && Framable(Record(a, x + more))
    ensures exists n :: Invents([Record(a, x + more)], Roomy([Record(a, x + more)]), n, map[a := x])
  {
    var rs := [Record(a, x + more)];
    var es := W.Entries(Writes(rs));
    var n, read := |Header(es[0])| + |x|, [WithValue(es[0], x)];
    CutFits(es, x, more);
    CutRead(es[0], Encode(es), n, x);
    FoldOne(read[0]);
    TwoMemories(a, x, more);
    RoomyNeverRotates(rs);
    InventsWhatWasRead(rs, Roomy(rs), Encode(es), n, read, map[a := x]);
  }

  lemma {:induction false} RotatesOnce(rs: seq<Record>, limit: nat)
    requires |rs| == 2
    requires var es := W.Entries(Writes(rs)); |Frame(es[1])| < limit <= |Frame(es[0])|
    ensures W.LastRotation(limit, Writes(rs)) == 1
  {
    var ws := Writes(rs);
    var es, first := W.Entries(ws), ws[..1];
    assert W.Entries(first)[0] == es[0] && first[..0] == [];
    W.LiveSinceRotation(limit, first);
    assert W.AppendAll(W.Fresh(limit), first[..0]).live == [];
    assert [] + Frame(es[0]) == Frame(es[0]);
    assert W.LastRotation(limit, first) == 1;
    assert W.Entries(first)[1..] == [];
    assert [] + Frame(es[1]) == Frame(es[1]);
  }

  lemma {:induction false} OnlyTheSecond(a: Slot, b: Slot, x: Bytes, y: Bytes)
    requires a != b
    ensures var rs := [Record(a, x), Record(b, y)];
      forall i | 0 <= i <= |rs| :: map[b := y] != S.Fold(rs[..i])
  {
    var m, rs := map[b := y], [Record(a, x), Record(b, y)];
    FoldTwo(rs[0], rs[1]);
    S.FoldAppend([], rs[0]);
    assert rs[..0] == [] && rs[..1] == [] + [rs[0]] && rs[..2] == rs;
    assert b in m && a !in m;
    forall i | 0 <= i <= |rs|
      ensures m != S.Fold(rs[..i])
    {
      assert i == 0 || i == 1 || i == 2;
    }
  }

  lemma {:induction false} ReadOne(e: Entry, file: Bytes)
    requires Framable(e.record) && e.record.value != [] && file == Encode([e])
    ensures Replay(file[..|file|]).delivered == [e]
  {
    ReplayEncode([e]);
    assert NonEmpty([e]) == [e];
    assert file[..|file|] == file;
  }

  /** What was logged before the last rotation is not read, even if nothing is cut off and every value can
    * be replayed. */
  lemma {:induction false} RotationForgets(a: Slot, b: Slot, x: Bytes, y: Bytes, limit: nat)
    requires a != b && Replayable(Record(a, x)) && Replayable(Record(b, y))
    requires var es := W.Entries(Writes([Record(a, x), Record(b, y)]));
      |Frame(es[1])| < limit <= |Frame(es[0])|
    ensures var rs := [Record(a, x), Record(b, y)];
      Invents(rs, limit, |Frame(W.Entries(Writes(rs))[1])|, map[b := y])
  {
    var rs := [Record(a, x), Record(b, y)];
    var es := W.Entries(Writes(rs));
    RotatesOnce(rs, limit);
    assert es[1..] == [es[1]];
    EncodeOne(es[1]);
    ReadOne(es[1], Encode([es[1]]));
    FoldOne(es[1]);
    OnlyTheSecond(a, b, x, y);
    InventsWhatWasRead(rs, limit, Encode([es[1]]), |Frame(es[1])|, [es[1]], map[b := y]);
  }
}
