/** What replay makes of a file with any content, line by line and field by field. */
module LogLines {
  import opened Base
  import Decimal
  import opened LogFormat

  // ---------------------------------------------------------------- one line

  /** The first four fields are free of bars, so that `Line(f)` has `f` for its fields. */
  predicate AreFields(f: Fields) {
    BAR !in f.seqText && BAR !in f.tsText && BAR !in f.actor && BAR !in f.key && NEWLINE !in f.value
  }

  /** A line with four bars and something after them is an entry, unless a number cannot be read. */
  lemma {:induction false} ParseFields(f: Fields)
    requires AreFields(f) && f.value != []
    ensures var seqNo, timestamp := Decimal.Stoull(f.seqText), Decimal.Stoull(f.tsText);
      ParseLine(Line(f)) ==
        if seqNo.Number? && timestamp.Number? then
          Deliver(Entry(seqNo.n, Record(Slot(f.actor, f.key), f.value), timestamp.n))
        else Throw
  {
    SplitFields(f);
  }

  lemma {:induction false} TokenAndRest(s: Bytes)
    requires GetLine(s, BAR).Some? && GetLine(s, BAR).value.1 != []
    ensures var (token, rest) := GetLine(s, BAR).value; BAR !in token && s == token + [BAR] + rest
  {
  }

  lemma {:induction false} LastToken(s: Bytes)
    requires GetLine(s, NEWLINE).Some? && NEWLINE !in s
    ensures GetLine(s, NEWLINE).value.0 == s && s != []
  {
    FindNone(s, NEWLINE);
  }

  lemma {:induction false} RestIsFree(token: Bytes, rest: Bytes)
    requires NEWLINE !in token + [BAR] + rest
    ensures NEWLINE !in rest
  {
    assert forall i | 0 <= i < |rest| :: (token + [BAR] + rest)[|token| + 1 + i] == rest[i];
  }

  /** And every other line is skipped. */
  lemma {:induction false} OnlyFields(line: Bytes)
    requires NEWLINE !in line && Split(line).Some?
    ensures AreFields(Split(line).value) && Split(line).value.value != [] && line == Line(Split(line).value)
  {
    TokenAndRest(line);
    var (t1, r1) := GetLine(line, BAR).value;
    RestIsFree(t1, r1);
    TokenAndRest(r1);
    var (t2, r2) := GetLine(r1, BAR).value;
    RestIsFree(t2, r2);
    TokenAndRest(r2);
    var (t3, r3) := GetLine(r2, BAR).value;
    RestIsFree(t3, r3);
    TokenAndRest(r3);
    var (t4, r4) := GetLine(r3, BAR).value;
    RestIsFree(t4, r4);
    LastToken(r4);
    LineFromTheLeft(Fields(t1, t2, t3, t4, r4));
    Nest(t1, t2, t3, t4, r4);
  }

  lemma {:induction false} Nest(a: Bytes, b: Bytes, c: Bytes, d: Bytes, e: Bytes)
    ensures a + [BAR] + (b + [BAR] + (c + [BAR] + (d + [BAR] + e))) ==
      a + [BAR] + b + [BAR] + c + [BAR] + d + [BAR] + e
  {
  }

  /** Four bars, something after them, and a sequence number or timestamp that is no 64-bit number. */
  ghost predicate BadLine(line: Bytes) {
    exists f: Fields :: AreFields(f) && f.value != [] && line == Line(f)
      && !(Decimal.Stoull(f.seqText).Number? && Decimal.Stoull(f.tsText).Number?)
  }

  /** A line makes replay throw exactly then, is delivered exactly if it is otherwise like that, and is
    * skipped in all other cases. */
  lemma {:induction false} LineThrowsExactly(line: Bytes)
    requires NEWLINE !in line
    ensures ParseLine(line).Throw? <==> BadLine(line)
    ensures ParseLine(line).Skip? <==> forall f | AreFields(f) && line == Line(f) :: f.value == []
  {
    if Split(line).Some? {
      OnlyFields(line);
    }
    forall f | AreFields(f) && line == Line(f)
      ensures Split(line) == if f.value == [] then None else Some(f)
    {
      SplitFields(f);
    }
  }

  // ---------------------------------------------------------------- line by line

  /** A file is read as its first line and then the rest. */
  lemma {:induction false} ReplayLineByLine(line: Bytes, rest: Bytes)
    requires NEWLINE !in line
    ensures Replay(line + [NEWLINE] + rest) == match ParseLine(line)
      case Throw => Replayed([], true)
      case Skip => Replay(rest)
      case Deliver(e) => Replayed([e] + Replay(rest).delivered, Replay(rest).threw)
  {
    FindFirst(line, NEWLINE, rest);
  }

  /** The bytes from `i` to `j` are a line of the file: ended by a newline, or the last and not empty. */
  predicate IsLine(file: Bytes, i: nat, j: nat) {
    && i <= j <= |file| && (i == 0 || file[i - 1] == NEWLINE) && NEWLINE !in file[i..j]
    && (if j < |file| then file[j] == NEWLINE else i < j)
  }

  ghost predicate BadAt(file: Bytes, i: nat, j: nat) {
    IsLine(file, i, j) && BadLine(file[i..j])
  }

  ghost predicate HasBadLine(file: Bytes) {
    exists i: nat, j: nat :: BadAt(file, i, j)
  }

  lemma {:induction false} OnlyOneLine(file: Bytes, i: nat, j: nat)
    requires file != [] && NEWLINE !in file
    ensures IsLine(file, i, j) <==> i == 0 && j == |file|
    ensures file[0..|file|] == file
  {
  }

  lemma {:induction false} NewlineInside(file: Bytes, k: nat, j: nat)
    requires k < j <= |file| && file[k] == NEWLINE
    ensures NEWLINE in file[0..j]
  {
    assert file[0..j][k] == NEWLINE;
  }

  lemma {:induction false} FirstLine(line: Bytes, rest: Bytes, file: Bytes, i: nat, j: nat)
    requires NEWLINE !in line && file == line + [NEWLINE] + rest && i <= |line|
    ensures IsLine(file, i, j) <==> i == 0 && j == |line|
    ensures file[0..|line|] == line
  {
    assert forall k | 0 <= k < |line| :: file[k] == line[k];
    assert file[|line|] == NEWLINE && file[0..|line|] == line;
    if |line| < j <= |file| {
      NewlineInside(file, |line|, j);
    }
  }

  lemma {:induction false} Shifted(line: Bytes, rest: Bytes, file: Bytes, i: nat, j: nat)
    requires file == line + [NEWLINE] + rest && i <= j <= |rest|
    ensures file[|line| + 1 + i..|line| + 1 + j] == rest[i..j]
  {
  }

  lemma {:induction false} LaterLine(line: Bytes, rest: Bytes, file: Bytes, i: nat, j: nat)
    requires file == line + [NEWLINE] + rest
    ensures BadAt(rest, i, j) <==> BadAt(file, |line| + 1 + i, |line| + 1 + j)
  {
    if i <= j <= |rest| {
      Shifted(line, rest, file, i, j);
    }
  }

  lemma {:induction false} FirstIsBad(line: Bytes, rest: Bytes, file: Bytes, i: nat, j: nat)
    requires NEWLINE !in line && file == line + [NEWLINE] + rest && i <= |line|
    ensures BadAt(file, i, j) <==> i == 0 && j == |line| && BadLine(line)
  {
    FirstLine(line, rest, file, i, j);
  }

  lemma {:induction false} BadInRest(line: Bytes, rest: Bytes, file: Bytes)
    requires file == line + [NEWLINE] + rest && HasBadLine(rest)
    ensures HasBadLine(file)
  {
    var i: nat, j: nat :| BadAt(rest, i, j);
    LaterLine(line, rest, file, i, j);
  }

  lemma {:induction false} FirstOrLater(line: Bytes, rest: Bytes, file: Bytes, i: nat, j: nat)
    requires NEWLINE !in line && file == line + [NEWLINE] + rest && BadAt(file, i, j)
    ensures if i <= |line| then BadLine(line) else j >= i && BadAt(rest, i - |line| - 1, j - |line| - 1)
  {
    if i <= |line| {
      FirstIsBad(line, rest, file, i, j);
    } else {
      LaterLine(line, rest, file, i - |line| - 1, j - |line| - 1);
    }
  }

  lemma {:induction false} BadInEither(line: Bytes, rest: Bytes, file: Bytes)
    requires NEWLINE !in line && file == line + [NEWLINE] + rest && HasBadLine(file)
    ensures BadLine(line) || HasBadLine(rest)
  {
    var i: nat, j: nat :| BadAt(file, i, j);
    FirstOrLater(line, rest, file, i, j);
  }

  lemma {:induction false} BadLines(line: Bytes, rest: Bytes, file: Bytes)
    requires NEWLINE !in line && file == line + [NEWLINE] + rest
    ensures HasBadLine(file) <==> BadLine(line) || HasBadLine(rest)
  {
    FirstIsBad(line, rest, file, 0, |line|);
    if HasBadLine(rest) {
      BadInRest(line, rest, file);
    } else if HasBadLine(file) {
      BadInEither(line, rest, file);
    }
  }

  /** Whatever the bytes of the file: replay throws if and only if some line of it has four bars, something
    * after them, and a sequence number or timestamp that cannot be read. */
  lemma {:induction false} ReplayThrowsExactly(file: Bytes)
    ensures Replay(file).threw <==> HasBadLine(file)
    decreases |file|
  {
    if file == [] {
    } else if NEWLINE in file {
      var k := Find(file, NEWLINE);
      var line, rest := file[..k], file[k + 1..];
      assert file == line + [NEWLINE] + rest;
      ReplayThrowsExactly(rest);
      ReplayLineByLine(line, rest);
      LineThrowsExactly(line);
      BadLines(line, rest, file);
    } else {
      ReplayLastLine(file);
      LineThrowsExactly(file);
      OnlyLine(file);
    }
  }

  lemma {:induction false} OnlyLine(file: Bytes)
    requires file != [] && NEWLINE !in file
    ensures HasBadLine(file) <==> BadLine(file)
  {
    OnlyOneLine(file, 0, |file|);
    if BadLine(file) {
      assert BadAt(file, 0, |file|);
    }
    if HasBadLine(file) {
      var i: nat, j: nat :| BadAt(file, i, j);
      OnlyOneLine(file, i, j);
    }
  }

  // ---------------------------------------------------------------- the bytes themselves

  lemma {:induction false} PrintsDigit(n: nat, d: nat)
    requires d < 10
    ensures Decimal.Print(10 * n + d) == (if n == 0 then [] else Decimal.Print(n)) + [(48 + d) as Byte]
  {
    assert (10 * n + d) / 10 == n && (10 * n + d) % 10 == d;
  }

  /** A line as it stands in the file: decimal digits, bars (124) and a newline (10). */
  lemma {:induction false} SampleLine(actor: Bytes, key: Bytes, value: Bytes)
    ensures Frame(Entry(907, Record(Slot(actor, key), value), 42))
      == [57, 48, 55, 124, 52, 50, 124] + actor + [124] + key + [124] + value + [10]
  {
    PrintsDigit(0, 9);
    PrintsDigit(9, 0);
    PrintsDigit(90, 7);
    PrintsDigit(0, 4);
    PrintsDigit(4, 2);
    assert Decimal.Print(907) == [57, 48, 55] && Decimal.Print(42) == [52, 50];
    assert [57, 48, 55] + [124] + [52, 50] + [124] == [57, 48, 55, 124, 52, 50, 124];
  }
}
