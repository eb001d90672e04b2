/** The write-ahead log: sequence numbers, appending, size-triggered rotation and replay.
  * Files are byte sequences; the clock reading of an append is a parameter.
  */
module Wal {
  import opened Base
  import opened LogFormat

  /** `live` is the file at `path_`, `rotated` the one at `path_ + ".1"`; `heard` is what the
    * registered handler has been called with. */
  datatype WalState = WalState(
    seqCounter: U64, live: Bytes, rotated: Option<Bytes>, maxSize: nat, listening: bool, heard: seq<Entry>)

  datatype Write = Write(record: Record, timestamp: U64)

  function Fresh(maxSize: nat): WalState {
    WalState(0, [], None, maxSize, false, [])
  }

  /** `++seq_counter_` */
  function NextSeq(n: U64): U64 {
    (n + 1) % TWO64
  }

  function Hear(w: WalState, es: seq<Entry>): WalState {
    if w.listening then w.(heard := w.heard + es) else w
  }

  function Append(w: WalState, r: Record, timestamp: U64): WalState {
    var e := Entry(NextSeq(w.seqCounter), r, timestamp);
    var file := w.live + Frame(e);
    var w' := w.(seqCounter := e.seqNo);
    Hear(if |file| >= w.maxSize then w'.(live := [], rotated := Some(file)) else w'.(live := file), [e])
  }

  function AppendAll(w: WalState, ws: seq<Write>): WalState {
    if ws == [] then w
    else
      var last := ws[|ws| - 1];
      Append(AppendAll(w, ws[..|ws| - 1]), last.record, last.timestamp)
  }

  /** The entries a fresh log numbers 1, 2, 3, ... (modulo 2^64). */
  function Entries(ws: seq<Write>): (es: seq<Entry>)
    ensures |es| == |ws|
    ensures forall i | 0 <= i < |ws| ::
      es[i].seqNo == (i + 1) % TWO64 && es[i].record == ws[i].record && es[i].timestamp == ws[i].timestamp
  {
    if ws == [] then []
    else
      var last := ws[|ws| - 1];
      Entries(ws[..|ws| - 1]) + [Entry(|ws| % TWO64, last.record, last.timestamp)]
  }

  /** A handler registered at the start hears every entry as it is numbered and written, and nothing else;
    * without a handler nobody does. */
  lemma {:induction false} HandlerHearsEntries(maxSize: nat, ws: seq<Write>, listening: bool)
    ensures var w := AppendAll(Fresh(maxSize).(listening := listening), ws);
      && w.listening == listening && w.heard == (if listening then Entries(ws) else [])
      && w.seqCounter == |ws| % TWO64
  {
    if ws != [] {
      var n := |ws| - 1;
      HandlerHearsEntries(maxSize, ws[..n], listening);
      NextSeqOfCount(n);
    }
  }

  // ---------------------------------------------------------------- rotation

  /** The live file holds the entries from `k` on, the rotated one those from `j` up to `k`;
    * the rotated file was closed by the first append that brought it to the size limit. */
  predicate Generations(w: WalState, es: seq<Entry>, j: nat, k: nat) {
    && j <= k <= |es|
    && w.live == Encode(es[k..])
    && (w.live == [] || |w.live| < w.maxSize)
    && (if k == 0 then w.rotated == None
        else j < k && w.rotated == Some(Encode(es[j..k]))
             && |Encode(es[j..k])| >= w.maxSize
             && (j == k - 1 || |Encode(es[j..k - 1])| < w.maxSize))
  }

  lemma {:induction false} EncodeConcat(a: seq<Entry>, b: seq<Entry>)
    ensures Encode(a + b) == Encode(a) + Encode(b)
  {
    if a == [] {
      assert a + b == b;
    } else {
      assert (a + b)[1..] == a[1..] + b;
      EncodeConcat(a[1..], b);
    }
  }

  lemma {:induction false} EncodeEmpty(es: seq<Entry>)
    ensures Encode(es) == [] <==> es == []
  {
  }

  lemma {:induction false} RotatingKeepsGenerations(w: WalState, es: seq<Entry>, j: nat, k: nat, e: Entry)
    requires Generations(w, es, j, k) && |w.live + Frame(e)| >= w.maxSize
    ensures Generations(w.(live := [], rotated := Some(w.live + Frame(e))), es + [e], k, |es| + 1)
  {
    var es' := es + [e];
    assert es'[k..|es'|] == es[k..] + [e] && es'[k..|es|] == es[k..] && es'[|es'|..] == [];
    EncodeAppend(es[k..], e);
    EncodeEmpty(es[k..]);
  }

  lemma {:induction false} GrowingKeepsGenerations(w: WalState, es: seq<Entry>, j: nat, k: nat, e: Entry)
    requires Generations(w, es, j, k) && |w.live + Frame(e)| < w.maxSize
    ensures Generations(w.(live := w.live + Frame(e)), es + [e], j, k)
  {
    var es' := es + [e];
    assert es'[k..] == es[k..] + [e];
    EncodeAppend(es[k..], e);
    if k > 0 {
      assert es'[j..k] == es[j..k] && es'[j..k - 1] == es[j..k - 1];
    }
  }

  lemma {:induction false} AppendKeepsGenerations(w: WalState, es: seq<Entry>, j: nat, k: nat, e: Entry)
    returns (j': nat, k': nat)
    requires Generations(w, es, j, k) && e.seqNo == NextSeq(w.seqCounter)
    ensures var w' := Append(w, e.record, e.timestamp);
      w'.seqCounter == e.seqNo && w'.maxSize == w.maxSize && Generations(w', es + [e], j', k')
  {
    if |w.live + Frame(e)| >= w.maxSize {
      RotatingKeepsGenerations(w, es, j, k, e);
      return k, |es| + 1;
    } else {
      GrowingKeepsGenerations(w, es, j, k, e);
      return j, k;
    }
  }

  lemma {:induction false} NextSeqOfCount(n: nat)
    ensures NextSeq(n % TWO64) == (n + 1) % TWO64
  {
  }

  lemma {:induction false} RotationInvariant(maxSize: nat, ws: seq<Write>, w: WalState, es: seq<Entry>)
    returns (j: nat, k: nat)
    requires w == AppendAll(Fresh(maxSize), ws) && es == Entries(ws)
    ensures Generations(w, es, j, k) && w.maxSize == maxSize && w.seqCounter == |ws| % TWO64
    decreases |ws|
  {
    if ws == [] {
      return 0, 0;
    }
    var n := |ws| - 1;
    var prev, before := AppendAll(Fresh(maxSize), ws[..n]), Entries(ws[..n]);
    j, k := RotationInvariant(maxSize, ws[..n], prev, before);
    assert es == before + [es[n]];
    NextSeqOfCount(n);
    j, k := AppendKeepsGenerations(prev, before, j, k, es[n]);
  }

  function BothFiles(w: WalState): Bytes {
    (if w.rotated.Some? then w.rotated.value else []) + w.live
  }

  lemma {:induction false} GenerationsAreContiguous(w: WalState, es: seq<Entry>, j: nat, k: nat)
    requires Generations(w, es, j, k)
    ensures k == 0 ==> BothFiles(w) == Encode(es)
    ensures k > 0 ==> BothFiles(w) == Encode(es[j..])
  {
    if k == 0 {
      assert es[0..] == es;
    } else {
      assert es[j..] == es[j..k] + es[k..];
      EncodeConcat(es[j..k], es[k..]);
    }
  }

  /** The two files together hold the newest entries without a gap, and replay yields exactly
    * the readable ones since the last rotation. */
  ghost predicate Recoverable(w: WalState, es: seq<Entry>) {
    exists j: nat, k: nat :: Generations(w, es, j, k)
      && BothFiles(w) == Encode(if k == 0 then es else es[j..])
      && Replay(w.live) == Replayed(NonEmpty(es[k..]), false)
  }

  lemma {:induction false} GenerationsAreRecoverable(w: WalState, es: seq<Entry>, j: nat, k: nat)
    requires Generations(w, es, j, k) && AllFramable(es)
    ensures Recoverable(w, es)
  {
    GenerationsAreContiguous(w, es, j, k);
    ReplayEncode(es[k..]);
  }

  /** How many appends had been made when the log last rotated; 0 if it never has. */
  function LastRotation(maxSize: nat, ws: seq<Write>): (k: nat)
    ensures k <= |ws|
  {
    if ws == [] then 0
    else
      var n := |ws| - 1;
      var file := AppendAll(Fresh(maxSize), ws[..n]).live + Frame(Entries(ws)[n]);
      if |file| >= maxSize then |ws| else LastRotation(maxSize, ws[..n])
  }

  lemma {:induction false} ConfigStays(maxSize: nat, ws: seq<Write>)
    ensures AppendAll(Fresh(maxSize), ws).maxSize == maxSize
    ensures AppendAll(Fresh(maxSize), ws).seqCounter == |ws| % TWO64
  {
    var j, k := RotationInvariant(maxSize, ws, AppendAll(Fresh(maxSize), ws), Entries(ws));
  }

  lemma {:induction false} LiveSinceRotation(maxSize: nat, ws: seq<Write>)
    ensures AppendAll(Fresh(maxSize), ws).live == Encode(Entries(ws)[LastRotation(maxSize, ws)..])
  {
    if ws != [] {
      var n := |ws| - 1;
      var prev, es, before := AppendAll(Fresh(maxSize), ws[..n]), Entries(ws), Entries(ws[..n]);
      var k := LastRotation(maxSize, ws[..n]);
      LiveSinceRotation(maxSize, ws[..n]);
      ConfigStays(maxSize, ws[..n]);
      NextSeqOfCount(n);
      assert es == before + [es[n]];
      if LastRotation(maxSize, ws) == k {
        assert es[k..] == before[k..] + [es[n]];
        EncodeAppend(before[k..], es[n]);
      } else {
        assert es[|ws|..] == [];
      }
    }
  }

  /** What can be recovered after any run of appends. */
  lemma {:induction false} RotationTheorem(maxSize: nat, ws: seq<Write>)
    requires AllFramable(Entries(ws))
    ensures Recoverable(AppendAll(Fresh(maxSize), ws), Entries(ws))
    ensures AppendAll(Fresh(maxSize), ws).seqCounter == |ws| % TWO64
  {
    var w, es := AppendAll(Fresh(maxSize), ws), Entries(ws);
    var j, k := RotationInvariant(maxSize, ws, w, es);
    GenerationsAreRecoverable(w, es, j, k);
  }

  lemma {:induction false} PartIsNoLonger(es: seq<Entry>, j: nat, k: nat)
    requires j <= k <= |es|
    ensures |Encode(es[j..k])| <= |Encode(es)|
  {
    EncodeConcat(es[..j], es[j..k]);
    assert es[..j] + es[j..k] == es[..k];
    EncodeConcat(es[..k], es[k..]);
    assert es[..k] + es[k..] == es;
  }

  lemma {:induction false} SuffixOfSameCode(es: seq<Entry>, k: nat)
    requires k <= |es| && Encode(es[k..]) == Encode(es)
    ensures es[k..] == es
  {
    EncodeConcat(es[..k], es[k..]);
    assert es[..k] + es[k..] == es;
    EncodeEmpty(es[..k]);
  }

  /** The log has never rotated exactly when its whole history is below the limit, and then
    * the live file is that history. */
  lemma {:induction false} NoRotationExactly(maxSize: nat, ws: seq<Write>)
    ensures var w := AppendAll(Fresh(maxSize), ws);
      (w.rotated == None <==> ws == [] || |Encode(Entries(ws))| < maxSize)
      && (w.rotated == None ==> w.live == Encode(Entries(ws)))
  {
    var es := Entries(ws);
    var j, k := RotationInvariant(maxSize, ws, AppendAll(Fresh(maxSize), ws), es);
    EncodeEmpty(es);
    if k == 0 {
      assert es[0..] == es;
    } else {
      PartIsNoLonger(es, j, k);
    }
  }

  lemma {:induction false} ReplayFirstLine(file: Bytes)
    requires file != []
    ensures var (line, rest) := GetLine(file, NEWLINE).value;
      Replay(file) == match ParseLine(line)
        case Throw => Replayed([], true)
        case Skip => Replay(rest)
        case Deliver(e) => Replayed([e] + Replay(rest).delivered, Replay(rest).threw)
  {
  }

  // ---------------------------------------------------------------- the log object

  /** A replay that amounts to `total` has delivered `done` and has `left` to read. */
  ghost predicate Remains(total: Replayed, done: seq<Entry>, left: Bytes) {
    total == Replayed(done + Replay(left).delivered, Replay(left).threw)
  }

  lemma {:induction false} NothingRemains(total: Replayed, done: seq<Entry>)
    requires Remains(total, done, [])
    ensures total == Replayed(done, false)
  {
    assert done + [] == done;
  }

  class WAL {
    var seqCounter: U64
    var live: Bytes
    var rotated: Option<Bytes>
    const maxSize: nat
    var listening: bool
    var heard: seq<Entry>

    ghost function Snap(): WalState
      reads this
    {
      WalState(seqCounter, live, rotated, maxSize, listening, heard)
    }

    /** The file is opened for appending: what it holds is kept. */
    constructor (existing: Bytes, maxSize: nat)
      ensures Snap() == Fresh(maxSize).(live := existing)
    {
      seqCounter, live, rotated := 0, existing, None;
      this.maxSize := maxSize;
      listening, heard := false, [];
    }

    method RegisterHandler()
      modifies this
      ensures Snap() == old(Snap()).(listening := true)
    {
      listening := true;
    }

    method NotifyHandler(e: Entry)
      modifies this`heard
      ensures heard == if listening then old(heard) + [e] else old(heard)
    {
      if listening {
        heard := heard + [e];
      }
    }

    method Rotate()
      modifies this
      ensures Snap() == old(Snap()).(live := [], rotated := Some(old(live)))
    {
      rotated := Some(live);
      live := [];
    }

    /** The handler is called with the entry that has been written, under its number and time. */
    method DoAppend(r: Record, timestamp: U64)
      modifies this
      ensures Snap() == Append(old(Snap()), r, timestamp)
      ensures heard == old(heard) +
        if listening then [Entry((old(seqCounter) + 1) % TWO64, r, timestamp)] else []
    {
      seqCounter := NextSeq(seqCounter);
      var e := Entry(seqCounter, r, timestamp);
      live := live + Frame(e);
      if |live| >= maxSize {
        Rotate();
      }
      NotifyHandler(e);
    }

    /** One turn of the line loop: the first line of what is left, and the rest. */
    method NextLine(left: Bytes, ghost done: seq<Entry>, ghost total: Replayed)
      returns (parsed: LineResult, next: Bytes)
      requires left != [] && Remains(total, done, left)
      ensures |next| < |left|
      ensures match parsed
        case Throw => total == Replayed(done, true)
        case Skip => Remains(total, done, next)
        case Deliver(e) => Remains(total, done + [e], next)
    {
      var (line, rest) := GetLine(left, NEWLINE).value;
      ReplayFirstLine(left);
      parsed, next := ParseLine(line), rest;
    }

    /** The line loop of `replay`. */
    method ReadLines(file: Bytes, ghost total: Replayed) returns (threw: bool)
      requires Remains(total, [], file)
      modifies this`heard
      ensures threw == total.threw && heard == old(heard) + if listening then total.delivered else []
    {
      var left := file;
      ghost var done: seq<Entry> := [];
      while left != []
        invariant heard == old(heard) + if listening then done else []
        invariant Remains(total, done, left)
        decreases |left|
      {
        var parsed, next := NextLine(left, done, total);
        if parsed.Throw? {
          return true;
        }
        if parsed.Deliver? {
          NotifyHandler(parsed.entry);
          done := done + [parsed.entry];
        }
        left := next;
      }
      NothingRemains(total, done);
      return false;
    }

    /** Reads the live file line by line and hands every record to the handler. */
    method DoReplay() returns (threw: bool)
      modifies this`heard
      ensures threw == Replay(live).threw
      ensures heard == old(heard) + if listening then Replay(live).delivered else []
    {
      assert [] + Replay(live).delivered == Replay(live).delivered;
      threw := ReadLines(live, Replay(live));
    }
  }
}
