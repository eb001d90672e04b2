/** Decimal text of 64-bit numbers: what `operator<<` writes and `std::stoull` reads back. */
module Decimal {
  import opened Base

  predicate IsDigit(b: Byte) { 48 <= b <= 57 }

  predicate AllDigits(s: Bytes) { forall i | 0 <= i < |s| :: IsDigit(s[i]) }

  /** `isspace` in the "C" locale. */
  predicate IsSpace(b: Byte) { 9 <= b <= 13 || b == 32 }

  function Print(n: nat): Bytes
    ensures |Print(n)| >= 1 && AllDigits(Print(n))
  {
    if n < 10 then [(48 + n) as Byte] else Print(n / 10) + [(48 + n % 10) as Byte]
  }

  /** The number a string of digits denotes. */
  function Value(s: Bytes): nat
    requires AllDigits(s)
  {
    if s == [] then 0 else 10 * Value(s[..|s| - 1]) + (s[|s| - 1] as int - 48)
  }

  /** Length of the longest prefix of digits. */
  function DigitCount(s: Bytes): (n: nat)
    ensures n <= |s| && AllDigits(s[..n]) && (n < |s| ==> !IsDigit(s[n]))
  {
    if s == [] || !IsDigit(s[0]) then 0 else 1 + DigitCount(s[1..])
  }

  function SkipSpaces(s: Bytes): Bytes {
    if s != [] && IsSpace(s[0]) then SkipSpaces(s[1..]) else s
  }

  datatype Parsed = Number(n: U64) | InvalidArgument | OutOfRange

  /** `std::stoull(s)`: leading blanks, an optional sign, the longest run of digits, and
    * whatever follows ignored; a minus sign negates modulo 2^64. */
  function Stoull(s: Bytes): Parsed {
    var t := SkipSpaces(s);
    var negative := t != [] && t[0] == 45;
    var digits := if negative || (t != [] && t[0] == 43) then t[1..] else t;
    var n := DigitCount(digits);
    if n == 0 then InvalidArgument
    else
      var v := Value(digits[..n]);
      if v >= TWO64 then OutOfRange
      else if negative && v > 0 then Number(TWO64 - v)
      else Number(v)
  }

  lemma {:induction false} PrintValue(n: nat)
    ensures Value(Print(n)) == n
  {
    if n >= 10 {
      PrintValue(n / 10);
      var s := Print(n);
      assert s[..|s| - 1] == Print(n / 10);
    }
  }

  /** Printing and parsing are inverse on 64-bit numbers. */
  lemma {:induction false} PrintParse(n: U64)
    ensures Stoull(Print(n)) == Number(n)
  {
    PrintValue(n);
    var s := Print(n);
    assert IsDigit(s[0]);
    assert SkipSpaces(s) == s;
    assert DigitCount(s) == |s|;
    assert s[..|s|] == s;
  }

  // ---------------------------------------------------------------- any text

  lemma {:induction false} SkipsSpaces(spaces: Bytes, text: Bytes)
    requires (forall i | 0 <= i < |spaces| :: IsSpace(spaces[i])) && (text != [] ==> !IsSpace(text[0]))
    ensures SkipSpaces(spaces + text) == text
  {
    if spaces == [] {
      assert spaces + text == text;
    } else {
      assert (spaces + text)[1..] == spaces[1..] + text;
      SkipsSpaces(spaces[1..], text);
    }
  }

  lemma {:induction false} CountsDigits(digits: Bytes, rest: Bytes)
    requires AllDigits(digits) && (rest != [] ==> !IsDigit(rest[0]))
    ensures DigitCount(digits + rest) == |digits|
  {
    if digits == [] {
      assert digits + rest == rest;
    } else {
      assert (digits + rest)[1..] == digits[1..] + rest;
      CountsDigits(digits[1..], rest);
    }
  }

  /** Blanks, a sign or none, digits, and anything that does not begin with a digit. */
  predicate IsNumberText(spaces: Bytes, sign: Bytes, digits: Bytes, rest: Bytes) {
    && (forall i | 0 <= i < |spaces| :: IsSpace(spaces[i]))
    && (sign == [] || sign == [43] || sign == [45])
    && AllDigits(digits) && digits != [] && (rest != [] ==> !IsDigit(rest[0]))
  }

  lemma {:induction false} AfterSign(sign: Bytes, digits: Bytes, rest: Bytes)
    requires (sign == [] || sign == [43] || sign == [45]) && AllDigits(digits) && digits != []
    ensures var t := sign + (digits + rest);
      && t != [] && !IsSpace(t[0]) && (t[0] == 45 <==> sign == [45]) && (t[0] == 43 <==> sign == [43])
      && (if sign == [] then t else t[1..]) == digits + rest
  {
    var t := sign + (digits + rest);
    if sign == [] {
      assert t == digits + rest && t[0] == digits[0] && IsDigit(digits[0]);
    } else {
      assert t[0] == sign[0] && t[1..] == digits + rest;
    }
  }

  /** What such a text is read as. */
  lemma {:induction false} StoullReads(spaces: Bytes, sign: Bytes, digits: Bytes, rest: Bytes)
    requires IsNumberText(spaces, sign, digits, rest)
    ensures Stoull(spaces + (sign + (digits + rest))) ==
      if Value(digits) >= 0x1_0000_0000_0000_0000 then OutOfRange
      else if sign == [45] && Value(digits) > 0 then Number(0x1_0000_0000_0000_0000 - Value(digits))
      else Number(Value(digits))
  {
    AfterSign(sign, digits, rest);
    SkipsSpaces(spaces, sign + (digits + rest));
    CountsDigits(digits, rest);
    assert (digits + rest)[..|digits|] == digits;
  }
}
