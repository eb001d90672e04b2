/** The bytes of the log: how a record is framed, and what the line parser makes of any file. */
module LogFormat {
  import opened Base
  import Decimal

  const NEWLINE: Byte := 10
  const BAR: Byte := 124

  /** `WAL::Entry` */
  datatype Entry = Entry(seqNo: U64, record: Record, timestamp: U64)

  // ---------------------------------------------------------------- framing

  function Header(e: Entry): Bytes {
    Decimal.Print(e.seqNo) + [BAR] + Decimal.Print(e.timestamp) + [BAR]
    + e.record.slot.actor + [BAR] + e.record.slot.key + [BAR]
  }

  /** What `append` writes for one entry. */
  function Frame(e: Entry): Bytes {
    Header(e) + e.record.value + [NEWLINE]
  }

  function Encode(es: seq<Entry>): Bytes {
    if es == [] then [] else Frame(es[0]) + Encode(es[1..])
  }

  // ---------------------------------------------------------------- std::getline

  /** Position of the first `d`, or the length when there is none. */
  function Find(s: Bytes, d: Byte): (i: nat)
    ensures i <= |s| && d !in s[..i] && (i < |s| ==> s[i] == d)
  {
    if s == [] || s[0] == d then 0 else 1 + Find(s[1..], d)
  }

  /** `getline(in, token, d)` on a stream with `s` left: nothing to extract fails; otherwise
    * the token ends before the first `d`, which is consumed, or at the end of the stream. */
  function GetLine(s: Bytes, d: Byte): (r: Option<(Bytes, Bytes)>)
    ensures r.Some? ==> |r.value.1| < |s|
  {
    if s == [] then None
    else
      var i := Find(s, d);
      Some((s[..i], if i < |s| then s[i + 1..] else []))
  }

  // ---------------------------------------------------------------- the line parser

  /** The five fields of a line. */
  datatype Fields = Fields(seqText: Bytes, tsText: Bytes, actor: Bytes, key: Bytes, value: Bytes)

  /** The chain of five `getline` calls. */
  function Split(line: Bytes): Option<Fields> {
    match GetLine(line, BAR)
    case None => None
    case Some((seqText, r1)) =>
      match GetLine(r1, BAR)
      case None => None
      case Some((tsText, r2)) =>
        match GetLine(r2, BAR)
        case None => None
        case Some((actor, r3)) =>
          match GetLine(r3, BAR)
          case None => None
          case Some((key, r4)) =>
            match GetLine(r4, NEWLINE)
            case None => None
            case Some((value, _)) => Some(Fields(seqText, tsText, actor, key, value))
  }

  datatype LineResult = Skip | Deliver(entry: Entry) | Throw

  /** The body of the replay loop on one line. */
  function ParseLine(line: Bytes): LineResult {
    match Split(line)
    case None => Skip
    case Some(f) =>
      var seqNo, timestamp := Decimal.Stoull(f.seqText), Decimal.Stoull(f.tsText);
      if seqNo.Number? && timestamp.Number? then
        Deliver(Entry(seqNo.n, Record(Slot(f.actor, f.key), f.value), timestamp.n))
      else Throw
  }

  /** The entries handed to the handler, and whether `stoull` ended the replay by throwing. */
  datatype Replayed = Replayed(delivered: seq<Entry>, threw: bool)

  function Replay(file: Bytes): Replayed
    decreases |file|
  {
    match GetLine(file, NEWLINE)
    case None => Replayed([], false)
    case Some((line, rest)) =>
      match ParseLine(line)
      case Throw => Replayed([], true)
      case Skip => Replay(rest)
      case Deliver(e) =>
        var r := Replay(rest);
        Replayed([e] + r.delivered, r.threw)
  }

  // ---------------------------------------------------------------- which records survive

  /** Free of the delimiters the parser gives a meaning to. */
  predicate Framable(r: Record) {
    && BAR !in r.slot.actor && NEWLINE !in r.slot.actor
    && BAR !in r.slot.key && NEWLINE !in r.slot.key
    && NEWLINE !in r.value
  }

  predicate AllFramable(es: seq<Entry>) {
    forall i | 0 <= i < |es| :: Framable(es[i].record)
  }

  /** An empty value makes the last `getline` fail. */
  predicate Replayable(r: Record) {
    Framable(r) && r.value != []
  }

  function Readable(e: Entry): seq<Entry> {
    if e.record.value != [] then [e] else []
  }

  function NonEmpty(es: seq<Entry>): seq<Entry> {
    if es == [] then [] else Readable(es[0]) + NonEmpty(es[1..])
  }

  lemma {:induction false} FindFirst(a: Bytes, d: Byte, b: Bytes)
    requires d !in a
    ensures Find(a + [d] + b, d) == |a|
    ensures GetLine(a + [d] + b, d) == Some((a, b))
  {
    var s := a + [d] + b;
    if a != [] {
      assert s[1..] == a[1..] + [d] + b;
      FindFirst(a[1..], d, b);
    }
    assert s[..|a|] == a && s[|a| + 1..] == b;
  }

  lemma {:induction false} FindNone(a: Bytes, d: Byte)
    requires d !in a && a != []
    ensures Find(a, d) == |a| && GetLine(a, d) == Some((a, []))
  {
    if |a| > 1 {
      FindNone(a[1..], d);
    }
    assert a[..|a|] == a;
  }

  lemma {:induction false} DigitsAreNotDelimiters(n: nat)
    ensures BAR !in Decimal.Print(n) && NEWLINE !in Decimal.Print(n)
  {
  }

  lemma {:induction false} Regroup(a: Bytes, b: Bytes, c: Bytes, d: Bytes)
    ensures a + b + c + d == a + (b + c + d)
  {
  }

  function Line(f: Fields): Bytes {
    f.seqText + [BAR] + f.tsText + [BAR] + f.actor + [BAR] + f.key + [BAR] + f.value
  }

  lemma {:induction false} LineFromTheLeft(f: Fields)
    ensures Line(f) == f.seqText + [BAR] + (f.tsText + [BAR] + (f.actor + [BAR] + (f.key + [BAR] + f.value)))
  {
  }

  lemma {:induction false} SplitFields(f: Fields)
    requires BAR !in f.seqText && BAR !in f.tsText && BAR !in f.actor && BAR !in f.key
    requires NEWLINE !in f.value
    ensures Split(Line(f)) == if f.value == [] then None else Some(f)
  {
    LineFromTheLeft(f);
    var r3 := f.key + [BAR] + f.value;
    var r2 := f.actor + [BAR] + r3;
    FindFirst(f.seqText, BAR, f.tsText + [BAR] + r2);
    FindFirst(f.tsText, BAR, r2);
    FindFirst(f.actor, BAR, r3);
    FindFirst(f.key, BAR, f.value);
    if f.value != [] {
      FindNone(f.value, NEWLINE);
    }
  }

  function WithValue(e: Entry, value: Bytes): Entry {
    e.(record := e.record.(value := value))
  }

  /** A line holding a complete header and a value, whole or torn, parses to that entry. */
  lemma {:induction false} ParseHeaderAndValue(e: Entry, value: Bytes)
    requires Framable(e.record) && NEWLINE !in value
    ensures ParseLine(Header(e) + value) == if value == [] then Skip else Deliver(WithValue(e, value))
  {
    DigitsAreNotDelimiters(e.seqNo);
    DigitsAreNotDelimiters(e.timestamp);
    SplitFields(Fields(Decimal.Print(e.seqNo), Decimal.Print(e.timestamp),
                       e.record.slot.actor, e.record.slot.key, value));
    Decimal.PrintParse(e.seqNo);
    Decimal.PrintParse(e.timestamp);
  }

  // ---------------------------------------------------------------- round trip

  lemma {:induction false} NoNewlineInHeader(e: Entry)
    requires Framable(e.record)
    ensures NEWLINE !in Header(e)
  {
  }

  lemma {:induction false} ReplayFrame(e: Entry, rest: Bytes)
    requires Framable(e.record)
    ensures Replay(Frame(e) + rest) ==
      Replayed(Readable(e) + Replay(rest).delivered, Replay(rest).threw)
  {
    NoNewlineInHeader(e);
    var line := Header(e) + e.record.value;
    assert Frame(e) + rest == line + [NEWLINE] + rest;
    FindFirst(line, NEWLINE, rest);
    ParseHeaderAndValue(e, e.record.value);
    assert WithValue(e, e.record.value) == e;
  }

  /** Replay of a whole log of framable records delivers those with a value, in order. */
  lemma {:induction false} ReplayEncode(es: seq<Entry>)
    requires AllFramable(es)
    ensures Replay(Encode(es)) == Replayed(NonEmpty(es), false)
  {
    TornReplay(es, |Encode(es)|);
    TornAtEnd(es);
    assert Encode(es)[..|Encode(es)|] == Encode(es);
  }

  lemma {:induction false} TokensOf(s: Bytes, d: Byte)
    requires GetLine(s, d).Some?
    ensures var (token, rest) := GetLine(s, d).value;
      d !in token && (forall b | b in token :: b in s) && (forall b | b in rest :: b in s)
  {
  }

  lemma {:induction false} ParsedIsReplayable(line: Bytes)
    requires NEWLINE !in line && ParseLine(line).Deliver?
    ensures Replayable(ParseLine(line).entry.record)
  {
    TokensOf(line, BAR);
    var r1 := GetLine(line, BAR).value.1;
    TokensOf(r1, BAR);
    var r2 := GetLine(r1, BAR).value.1;
    TokensOf(r2, BAR);
    var r3 := GetLine(r2, BAR).value.1;
    TokensOf(r3, BAR);
    var r4 := GetLine(r3, BAR).value.1;
    FindNone(r4, NEWLINE);
  }

  /** Whatever bytes the file holds, every delivered entry is one the format can carry. */
  lemma {:induction false} DeliveredAreReplayable(file: Bytes)
    ensures forall e | e in Replay(file).delivered :: Replayable(e.record)
    decreases |file|
  {
    if file != [] {
      TokensOf(file, NEWLINE);
      var (line, rest) := GetLine(file, NEWLINE).value;
      DeliveredAreReplayable(rest);
      if ParseLine(line).Deliver? {
        ParsedIsReplayable(line);
      }
    }
  }

  lemma {:induction false} NonEmptyOfReplayable(es: seq<Entry>)
    requires forall e | e in es :: e.record.value != []
    ensures NonEmpty(es) == es
  {
    if es != [] {
      NonEmptyOfReplayable(es[1..]);
    }
  }

  /** Replay gives back exactly what was appended if and only if every appended record is
    * free of delimiters and has a value. */
  lemma {:induction false} RoundTripExactly(es: seq<Entry>)
    ensures Replay(Encode(es)) == Replayed(es, false) <==> forall e | e in es :: Replayable(e.record)
  {
    DeliveredAreReplayable(Encode(es));
    if forall e | e in es :: Replayable(e.record) {
      ReplayEncode(es);
      NonEmptyOfReplayable(es);
    }
  }

  // ---------------------------------------------------------------- torn files

  /** What can be read back from the first `n` bytes of a log. */
  function Torn(es: seq<Entry>, n: nat): seq<Entry>
    requires n <= |Encode(es)|
  {
    if es == [] then []
    else if n >= |Frame(es[0])| then Readable(es[0]) + Torn(es[1..], n - |Frame(es[0])|)
    else if n <= |Header(es[0])| then []
    else [WithValue(es[0], es[0].record.value[..n - |Header(es[0])|])]
  }

  lemma {:induction false} TornAtEnd(es: seq<Entry>)
    ensures Torn(es, |Encode(es)|) == NonEmpty(es)
  {
    if es != [] {
      TornAtEnd(es[1..]);
    }
  }

  lemma {:induction false} TornField(p: Bytes, a: Bytes, b: Bytes)
    requires BAR !in a && p <= a + [BAR] + b
    ensures GetLine(p, BAR).Some? ==> GetLine(p, BAR).value.1 <= b
  {
    if |p| > |a| {
      var tail := p[|a| + 1..];
      assert p == a + [BAR] + tail;
      FindFirst(a, BAR, tail);
    } else if p != [] {
      assert p == a[..|p|];
      FindNone(p, BAR);
    }
  }

  /** A torn header parses to nothing; in particular the parser does not throw on it. */
  lemma {:induction false} TornHeader(e: Entry, p: Bytes)
    requires Framable(e.record) && p <= Header(e)
    ensures ParseLine(p) == Skip
  {
    var s, t, a, k := Decimal.Print(e.seqNo), Decimal.Print(e.timestamp), e.record.slot.actor, e.record.slot.key;
    DigitsAreNotDelimiters(e.seqNo);
    DigitsAreNotDelimiters(e.timestamp);
    var p1 := s + [BAR];
    var p2 := p1 + t + [BAR];
    var p3 := p2 + a + [BAR];
    var r3 := k + [BAR] + [];
    var r2 := a + [BAR] + r3;
    var r1 := t + [BAR] + r2;
    assert Header(e) == p3 + k + [BAR] + [];
    Regroup(p3, k, [BAR], []);
    Regroup(p2, a, [BAR], r3);
    Regroup(p1, t, [BAR], r2);
    TornField(p, s, r1);
    if GetLine(p, BAR).Some? {
      var q1 := GetLine(p, BAR).value.1;
      TornField(q1, t, r2);
      if GetLine(q1, BAR).Some? {
        var q2 := GetLine(q1, BAR).value.1;
        TornField(q2, a, r3);
        if GetLine(q2, BAR).Some? {
          TornField(GetLine(q2, BAR).value.1, k, []);
        }
      }
    }
  }

  lemma {:induction false} FrameSize(e: Entry)
    ensures |Frame(e)| == |Header(e)| + |e.record.value| + 1
  {
  }

  lemma {:induction false} TornLine(e: Entry, n: nat)
    requires Framable(e.record) && n < |Frame(e)|
    ensures NEWLINE !in Frame(e)[..n]
    ensures n <= |Header(e)| ==> Frame(e)[..n] == Header(e)[..n]
    ensures n > |Header(e)| ==> Frame(e)[..n] == Header(e) + e.record.value[..n - |Header(e)|]
  {
  }

  lemma {:induction false} ReplayLastLine(line: Bytes)
    requires line != [] && NEWLINE !in line
    ensures Replay(line) == match ParseLine(line)
      case Throw => Replayed([], true)
      case Skip => Replayed([], false)
      case Deliver(e) => Replayed([e], false)
  {
    FindNone(line, NEWLINE);
  }

  lemma {:induction false} TornInHeader(e: Entry, n: nat, line: Bytes)
    requires Framable(e.record) && n <= |Header(e)| && line == Header(e)[..n] && NEWLINE !in line
    ensures Replay(line) == Replayed([], false)
  {
    if n > 0 {
      ReplayLastLine(line);
      TornHeader(e, line);
    }
  }

  lemma {:induction false} TornInValue(e: Entry, value: Bytes, line: Bytes)
    requires Framable(e.record) && value != [] && NEWLINE !in value
    requires line == Header(e) + value && NEWLINE !in line
    ensures Replay(line) == Replayed([WithValue(e, value)], false)
  {
    ReplayLastLine(line);
    ParseHeaderAndValue(e, value);
  }

  lemma {:induction false} ReplayTornFrame(e: Entry, n: nat)
    requires Framable(e.record) && n < |Frame(e)|
    ensures Replay(Frame(e)[..n]) == Replayed(
      if n <= |Header(e)| then [] else [WithValue(e, e.record.value[..n - |Header(e)|])], false)
  {
    FrameSize(e);
    TornLine(e, n);
    if n <= |Header(e)| {
      TornInHeader(e, n, Frame(e)[..n]);
    } else {
      TornInValue(e, e.record.value[..n - |Header(e)|], Frame(e)[..n]);
    }
  }

  lemma {:induction false} TakeOfConcat(a: Bytes, b: Bytes, n: nat)
    requires n <= |a| + |b|
    ensures n >= |a| ==> (a + b)[..n] == a + b[..n - |a|]
    ensures n < |a| ==> (a + b)[..n] == a[..n]
  {
  }

  lemma {:induction false} TornInFirst(es: seq<Entry>, n: nat, file: Bytes)
    requires es != [] && n < |Frame(es[0])| && file == Encode(es)[..n]
    ensures file == Frame(es[0])[..n]
    ensures Torn(es, n) ==
      if n <= |Header(es[0])| then [] else [WithValue(es[0], es[0].record.value[..n - |Header(es[0])|])]
  {
    TakeOfConcat(Frame(es[0]), Encode(es[1..]), n);
  }

  lemma {:induction false} TornLater(es: seq<Entry>, n: nat, file: Bytes, m: nat)
    requires es != [] && |Frame(es[0])| <= n <= |Encode(es)| && m == n - |Frame(es[0])| && file == Encode(es)[..n]
    ensures m <= |Encode(es[1..])| && file == Frame(es[0]) + Encode(es[1..])[..m]
    ensures Torn(es, n) == Readable(es[0]) + Torn(es[1..], m)
  {
    TakeOfConcat(Frame(es[0]), Encode(es[1..]), n);
  }

  lemma {:induction false} TornReplayOf(es: seq<Entry>, n: nat, file: Bytes, torn: seq<Entry>)
    requires AllFramable(es) && n <= |Encode(es)| && file == Encode(es)[..n] && torn == Torn(es, n)
    ensures Replay(file) == Replayed(torn, false)
    decreases |es|
  {
    if es == [] {
    } else if n < |Frame(es[0])| {
      TornInFirst(es, n, file);
      ReplayTornFrame(es[0], n);
    } else {
      var m := n - |Frame(es[0])|;
      TornLater(es, n, file, m);
      TornReplayOf(es[1..], m, Encode(es[1..])[..m], Torn(es[1..], m));
      ReplayFrame(es[0], Encode(es[1..])[..m]);
    }
  }

  /** Replaying the first `n` bytes of a log never misparses and never throws. */
  lemma {:induction false} TornReplay(es: seq<Entry>, n: nat)
    requires AllFramable(es) && n <= |Encode(es)|
    ensures Replay(Encode(es)[..n]) == Replayed(Torn(es, n), false)
  {
    TornReplayOf(es, n, Encode(es)[..n], Torn(es, n));
  }

  /** `read` is the readable part of the first `k` entries and then entry `k` with the first
    * `m` bytes of its value; `m` is 0 when there is no such entry. */
  predicate ReadsPrefix(read: seq<Entry>, es: seq<Entry>, k: nat, m: nat) {
    && k <= |es|
    && (m == 0 ==> read == NonEmpty(es[..k]))
    && (m > 0 ==>
          k < |es| && m <= |es[k].record.value|
          && read == NonEmpty(es[..k]) + [WithValue(es[k], es[k].record.value[..m])])
  }

  lemma {:induction false} ReadsPrefixInFirst(es: seq<Entry>, read: seq<Entry>, m: nat)
    requires es != [] && m <= |es[0].record.value|
    requires read == if m == 0 then [] else [WithValue(es[0], es[0].record.value[..m])]
    ensures ReadsPrefix(read, es, 0, m)
  {
    assert es[..0] == [];
    assert [] + read == read;
  }

  lemma {:induction false} ReadsPrefixLater(es: seq<Entry>, read: seq<Entry>, k: nat, m: nat)
    requires es != [] && ReadsPrefix(read, es[1..], k, m)
    ensures ReadsPrefix(Readable(es[0]) + read, es, k + 1, m)
  {
    var head := NonEmpty(es[1..][..k]);
    assert es[..k + 1][0] == es[0] && es[..k + 1][1..] == es[1..][..k];
    assert NonEmpty(es[..k + 1]) == Readable(es[0]) + head;
    if m > 0 {
      var last := [WithValue(es[k + 1], es[k + 1].record.value[..m])];
      assert es[1..][k] == es[k + 1];
      assert Readable(es[0]) + (head + last) == (Readable(es[0]) + head) + last;
    }
  }

  lemma {:induction false} TornIsPrefix(es: seq<Entry>, n: nat, torn: seq<Entry>) returns (k: nat, m: nat)
    requires n <= |Encode(es)| && torn == Torn(es, n)
    ensures ReadsPrefix(torn, es, k, m)
    decreases |es|
  {
    if es == [] {
      return 0, 0;
    }
    var f, h := |Frame(es[0])|, |Header(es[0])|;
    if n < f {
      FrameSize(es[0]);
      k, m := 0, if n <= h then 0 else n - h;
      ReadsPrefixInFirst(es, torn, m);
    } else {
      k, m := TornIsPrefix(es[1..], n - f, Torn(es[1..], n - f));
      ReadsPrefixLater(es, Torn(es[1..], n - f), k, m);
      k := k + 1;
    }
  }

  /** A log torn at any byte yields the records of a prefix of the log, plus at most one more
    * with everything but its value intact and its value cut short. */
  lemma {:induction false} TornLogSafety(es: seq<Entry>, n: nat)
    requires AllFramable(es) && n <= |Encode(es)|
    ensures !Replay(Encode(es)[..n]).threw
    ensures exists k: nat, m: nat :: ReadsPrefix(Replay(Encode(es)[..n]).delivered, es, k, m)
  {
    TornReplay(es, n);
    var k, m := TornIsPrefix(es, n, Torn(es, n));
  }

  lemma {:induction false} EncodeAppend(es: seq<Entry>, e: Entry)
    ensures Encode(es + [e]) == Encode(es) + Frame(e)
  {
    if es == [] {
      assert es + [e] == [e];
    } else {
      assert (es + [e])[1..] == es[1..] + [e];
      EncodeAppend(es[1..], e);
    }
  }
}
