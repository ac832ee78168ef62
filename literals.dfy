/**
 * Decoding of integer and string literal text into values (blue/parse.go):
 * decimal and hexadecimal integers with the source's wrap-around overflow
 * test, and quoted strings with their escapes. Characters of a `string`
 * stand for bytes.
 */
module Literals {
  import opened Common

  // ===== integers =====

  const OVERFLOW_MSG: string := "number overflow"

  /** One step of the decimal accumulator: `sum*10 + byte - 48`, wrapped to int64. */
  function DecStep(sum: int64, ch: char): int64
  {
    Wrap64(sum * 10 + ch as int - 48)
  }

  /** The value a byte contributes to the hexadecimal accumulator; a byte that is not a hex digit contributes itself. */
  function HexDigit(ch: char): int
  {
    if '0' <= ch <= '9' then ch as int - '0' as int
    else if 'A' <= ch <= 'F' then ch as int - 'A' as int + 10
    else if 'a' <= ch <= 'f' then ch as int - 'a' as int + 10
    else ch as int
  }

  /** The byte written `\xHH` with these two hex digits. */
  function HexPair(h1: char, h2: char): char
    requires IsHexDigitChar(h1) && IsHexDigitChar(h2)
  {
    (HexDigit(h1) * 16 + HexDigit(h2)) as char
  }

  function HexStep(sum: int64, ch: char): int64
  {
    Wrap64(sum * 16 + HexDigit(ch))
  }

  /**
   * The accumulator loop from index `i`: it runs while bytes remain and the
   * new sum is not below the previous one, and yields the final
   * (previous, sum) pair.
   */
  function Scan(value: string, i: nat, prev: int64, sum: int64, hex: bool): (r: (int64, int64))
    requires i <= |value|
    decreases |value| - i
  {
    if i < |value| && sum >= prev then
      Scan(value, i + 1, sum, if hex then HexStep(sum, value[i]) else DecStep(sum, value[i]), hex)
    else (prev, sum)
  }

  /** Hexadecimal digits (without prefix): the sum, or "number overflow" when the last step went down. */
  function HexSpec(value: string): Result<int64>
  {
    var (prev, sum) := Scan(value, 0, -1, 0, true);
    if sum >= prev then Ok(sum) else Failure(OVERFLOW_MSG)
  }

  /** An integer literal: hexadecimal after an `x`/`X` at index 1, decimal otherwise. */
  function ParseIntSpec(value: string): Result<int64>
  {
    if |value| >= 2 && (value[1] == 'X' || value[1] == 'x') then HexSpec(value[2..])
    else
      var (prev, sum) := Scan(value, 0, -1, 0, false);
      if sum >= prev then Ok(sum) else Failure(OVERFLOW_MSG)
  }

  method ParseHex(value: string, size: nat) returns (r: Result<int64>)
    requires size == |value|
    ensures r == HexSpec(value)
  {
    var prevValue: int64, sum: int64 := -1, 0;
    var i := 0;
    while i < size && sum >= prevValue
      invariant 0 <= i <= size
      invariant Scan(value, i, prevValue, sum, true) == Scan(value, 0, -1, 0, true)
    {
      var ch := HexDigit(value[i]);
      prevValue := sum;
      sum := Wrap64(sum * 16 + ch);
      i := i + 1;
    }
    if sum >= prevValue {
      return Ok(sum);
    } else {
      return Failure(OVERFLOW_MSG);
    }
  }

  method ParseInt(value: string) returns (r: Result<int64>)
    ensures r == ParseIntSpec(value)
  {
    var size := |value|;
    if size >= 2 {
      if value[1] == 'X' || value[1] == 'x' {
        r := ParseHex(value[2..], size - 2);
        return;
      }
    }
    var prevValue: int64, sum: int64 := -1, 0;
    var i := 0;
    while i < size && sum >= prevValue
      invariant 0 <= i <= size
      invariant Scan(value, i, prevValue, sum, false) == Scan(value, 0, -1, 0, false)
    {
      prevValue := sum;
      sum := Wrap64(sum * 10 + value[i] as int - 48);
      i := i + 1;
    }
    if sum >= prevValue {
      return Ok(sum);
    } else {
      return Failure(OVERFLOW_MSG);
    }
  }

  // ----- what the integer decoder computes -----

  predicate IsDecDigit(c: char) { '0' <= c <= '9' }

  predicate IsHexDigitChar(c: char) { '0' <= c <= '9' || 'a' <= c <= 'f' || 'A' <= c <= 'F' }

  /** The number a digit string denotes in base `b` (10 or 16). */
  function Value(s: string, hex: bool): nat
  {
    if |s| == 0 then 0
    else
      var d := if hex then HexDigit(s[|s| - 1]) else s[|s| - 1] as int - 48;
      Value(s[..|s| - 1], hex) * (if hex then 16 else 10) + (if d < 0 then 0 else d)
  }

  predicate Digits(s: string, hex: bool)
  {
    forall i :: 0 <= i < |s| ==> if hex then IsHexDigitChar(s[i]) else IsDecDigit(s[i])
  }

  lemma {:induction false} ValuePrefixBound(s: string, i: nat, hex: bool)
    requires i <= |s| && Digits(s, hex)
    ensures Value(s[..i], hex) <= Value(s, hex)
    decreases |s| - i
  {
    if i < |s| {
      ValuePrefixBound(s, i + 1, hex);
      assert s[..i + 1][..i] == s[..i];
    } else {
      assert s[..i] == s;
    }
  }

  /** While the digits read so far denote a number in range, the accumulator holds exactly that number. */
  lemma {:induction false} ScanExact(s: string, i: nat, prev: int64, sum: int64, hex: bool)
    requires i <= |s| && Digits(s, hex) && Value(s, hex) <= INT64_MAX
    requires sum == Value(s[..i], hex) && prev <= sum
    ensures Scan(s, i, prev, sum, hex).1 == Value(s, hex)
    ensures Scan(s, i, prev, sum, hex).0 <= Scan(s, i, prev, sum, hex).1
    decreases |s| - i
  {
    if i < |s| {
      assert s[..i + 1][..i] == s[..i];
      assert s[..i + 1][i] == s[i];
      ValuePrefixBound(s, i + 1, hex);
      var next := Value(s[..i + 1], hex);
      if hex {
        assert HexStep(sum, s[i]) == next;
      } else {
        assert DecStep(sum, s[i]) == next;
      }
      ScanExact(s, i + 1, sum, next, hex);
    } else {
      assert s[..i] == s;
    }
  }

  /** A decimal literal whose value fits in int64 decodes to that value. */
  lemma DecimalInRange(s: string)
    requires Digits(s, false) && Value(s, false) <= INT64_MAX
    ensures ParseIntSpec(s) == Ok(Value(s, false))
  {
    assert s[..0] == "";
    ScanExact(s, 0, -1, 0, false);
  }

  /** A `0x` literal whose hexadecimal digits denote a value in int64 decodes to that value. */
  lemma HexInRange(s: string)
    requires |s| >= 2 && (s[1] == 'x' || s[1] == 'X')
    requires Digits(s[2..], true) && Value(s[2..], true) <= INT64_MAX
    ensures ParseIntSpec(s) == Ok(Value(s[2..], true))
  {
    assert s[2..][..0] == "";
    ScanExact(s[2..], 0, -1, 0, true);
  }

  /**
   * While the digits up to `k` denote a number in range, the loop reaches
   * index `k` holding that number, with the number before it as previous sum.
   */
  lemma {:induction false} ScanTo(s: string, i: nat, k: nat, prev: int64, sum: int64, hex: bool)
    requires i <= k <= |s| && Digits(s, hex) && Value(s[..k], hex) <= INT64_MAX
    requires sum == Value(s[..i], hex) && prev <= sum
    ensures k > 0 ==> Value(s[..k - 1], hex) <= Value(s[..k], hex)
    ensures Scan(s, i, prev, sum, hex) == Scan(s, k, if k == i then prev else Value(s[..k - 1], hex), Value(s[..k], hex), hex)
    decreases k - i
  {
    if i < k {
      assert s[..i + 1][..i] == s[..i];
      assert s[..i + 1][i] == s[i];
      assert s[..k][..i + 1] == s[..i + 1];
      ValuePrefixBound(s[..k], i + 1, hex);
      var next := Value(s[..i + 1], hex);
      if hex {
        assert HexStep(sum, s[i]) == next;
      } else {
        assert DecStep(sum, s[i]) == next;
      }
      ScanTo(s, i + 1, k, sum, next, hex);
    } else if k > 0 {
      assert s[..k][..k - 1] == s[..k - 1];
      ValuePrefixBound(s[..k], k - 1, hex);
    }
  }

  lemma DecStepWraps(v: int64, c: char)
    ensures DecStep(v, c) == Wrap64(v * 10 + c as int - 48)
  {
  }

  /** The decimal loop's state just before the last digit, when the digits before it fit. */
  lemma LastStep(s: string)
    requires |s| >= 1 && Digits(s, false) && Value(s[..|s| - 1], false) <= INT64_MAX
    ensures Scan(s, 0, -1, 0, false) == (Value(s[..|s| - 1], false), Wrap64(Value(s, false)))
  {
    var k := |s| - 1;
    var v := Value(s[..k], false);
    var x := v * 10 + s[k] as int - 48;
    DecStepWraps(v, s[k]);
    var w := DecStep(v, s[k]);
    assert Value(s, false) == x;
    assert w == Wrap64(Value(s, false));
    assert s[..0] == "";
    ScanTo(s, 0, k, -1, 0, false);
    var p := if k == 0 then -1 else Value(s[..k - 1], false);
    assert Scan(s, 0, -1, 0, false) == Scan(s, k, p, v, false);
    assert Scan(s, k, p, v, false) == Scan(s, k + 1, v, w, false);
    assert Scan(s, k + 1, v, w, false) == (v, w);
  }

  /** A decimal literal whose last digit makes the accumulator wrap below the previous sum is reported as an overflow. */
  lemma OverflowDetected(s: string)
    requires |s| >= 1 && Digits(s, false) && Value(s[..|s| - 1], false) <= INT64_MAX
    requires Wrap64(Value(s, false)) < Value(s[..|s| - 1], false)
    ensures ParseIntSpec(s) == Failure(OVERFLOW_MSG)
  {
    LastStep(s);
  }

  /**
   * The overflow test only compares each sum with the previous one: a
   * literal beyond int64 whose wrapped value is still not below the previous
   * sum is accepted with the wrapped value.
   */
  lemma OverflowUndetected(s: string)
    requires |s| >= 1 && Digits(s, false) && Value(s[..|s| - 1], false) <= INT64_MAX
    requires Value(s, false) > INT64_MAX && Wrap64(Value(s, false)) >= Value(s[..|s| - 1], false)
    ensures ParseIntSpec(s) == Ok(Wrap64(Value(s, false))) && Wrap64(Value(s, false)) != Value(s, false)
  {
    LastStep(s);
  }

  // ===== strings =====

  /** The outcome of decoding a string literal: the bytes, a bad `\x` escape, or an out-of-range read. */
  datatype Decoded = Text(s: string) | BadEscape | Panic

  const BAD_ESCAPE_MSG: string := "invalid \\x escape"

  function Prepend(c: string, d: Decoded): Decoded
  {
    if d.Text? then Text(c + d.s) else d
  }

  function SimpleEscape(e: char): Option<char>
  {
    match e
    case '\'' => Some('\'')
    case '"' => Some('"')
    case 'n' => Some('\n')
    case 't' => Some('\t')
    case 'r' => Some('\r')
    case _ => None
  }

  /**
   * Decoding of the text after the opening quote. The final byte is the
   * closing quote and is never copied, but an escape just before it reads it.
   */
  function Unescape(t: string): Decoded
    decreases |t|
  {
    if |t| <= 1 then Text("")
    else if t[0] != '\\' then Prepend([t[0]], Unescape(t[1..]))
    else if SimpleEscape(t[1]).Some? then Prepend([SimpleEscape(t[1]).value], Unescape(t[2..]))
    else if t[1] == 'x' || t[1] == 'X' then
      if |t| < 3 then Panic
      else if !IsHexDigitChar(t[2]) then BadEscape
      else if |t| < 4 then Panic
      else if !IsHexDigitChar(t[3]) then BadEscape
      else Prepend([HexPair(t[2], t[3])], Unescape(t[4..]))
    else Unescape(t[2..])
  }

  /**
   * A string literal including its quotes (and `r`/`R` prefix): two bytes
   * decode to the empty string, a raw literal keeps everything between its
   * first and last byte, any other is unescaped.
   */
  function ParseStringSpec(value: string): Decoded
  {
    if |value| == 2 then Text("")
    else if |value| == 0 then Panic
    else if value[0] == 'R' || value[0] == 'r' then
      if |value| < 2 then Panic else Text(value[1..|value| - 1])
    else Unescape(value[1..])
  }

  lemma PrependAssoc(a: string, b: string, d: Decoded)
    ensures Prepend(a, Prepend(b, d)) == Prepend(a + b, d)
  {
    if d.Text? {
      assert a + (b + d.s) == (a + b) + d.s;
    }
  }

  /** A plain byte is copied and decoding resumes after it. */
  lemma StepPlain(value: string, spos: nat)
    requires spos + 1 < |value| && value[spos] != '\\'
    ensures Unescape(value[spos..]) == Prepend([value[spos]], Unescape(value[spos + 1..]))
  {
    assert value[spos..][1..] == value[spos + 1..];
  }

  /** A simple escape yields its byte, an unknown one nothing, and decoding resumes two bytes on. */
  lemma StepEscape(value: string, spos: nat)
    requires spos + 1 < |value| && value[spos] == '\\'
    requires value[spos + 1] != 'x' && value[spos + 1] != 'X'
    ensures SimpleEscape(value[spos + 1]).Some? ==>
      Unescape(value[spos..]) == Prepend([SimpleEscape(value[spos + 1]).value], Unescape(value[spos + 2..]))
    ensures SimpleEscape(value[spos + 1]).None? ==> Unescape(value[spos..]) == Unescape(value[spos + 2..])
  {
    assert value[spos..][2..] == value[spos + 2..];
  }

  /** The outcomes of a `\x` escape starting at `spos`. */
  lemma StepHex(value: string, spos: nat)
    requires spos + 1 < |value| && value[spos] == '\\'
    requires value[spos + 1] == 'x' || value[spos + 1] == 'X'
    ensures spos + 2 >= |value| ==> Unescape(value[spos..]) == Panic
    ensures spos + 2 < |value| && !IsHexDigitChar(value[spos + 2]) ==> Unescape(value[spos..]) == BadEscape
    ensures spos + 2 < |value| && IsHexDigitChar(value[spos + 2]) && spos + 3 >= |value| ==>
      Unescape(value[spos..]) == Panic
    ensures spos + 3 < |value| && IsHexDigitChar(value[spos + 2]) && !IsHexDigitChar(value[spos + 3]) ==>
      Unescape(value[spos..]) == BadEscape
    ensures spos + 3 < |value| && IsHexDigitChar(value[spos + 2]) && IsHexDigitChar(value[spos + 3]) ==>
      Unescape(value[spos..]) ==
        Prepend([HexPair(value[spos + 2], value[spos + 3])], Unescape(value[spos + 4..]))
  {
    var t := value[spos..];
    assert SimpleEscape(t[1]).None?;
    if spos + 3 < |value| {
      assert t[4..] == value[spos + 4..];
    }
  }

  method ParseString(value: string) returns (r: Decoded)
    ensures r == ParseStringSpec(value)
  {
    var size := |value|;
    if size == 2 {
      return Text("");
    }
    if size == 0 {
      return Panic;
    }
    if value[0] == 'R' || value[0] == 'r' {
      if size < 2 {
        return Panic;
      }
      return Text(value[1..size - 1]);
    }
    var buf := "";
    var spos := 1;
    while spos < size - 1
      invariant 1 <= spos <= size
      invariant Prepend(buf, Unescape(value[spos..])) == Unescape(value[1..])
    {
      var stop, out, next := DecodeAt(value, spos);
      if stop.Some? {
        return stop.value;
      }
      PrependAssoc(buf, out, Unescape(value[next..]));
      buf := buf + out;
      spos := next;
    }
    assert |value[spos..]| <= 1;
    return Text(buf);
  }

  /**
   * One turn of the decoding loop at `spos`: the bytes it appends and the
   * index it resumes at, or the outcome that ends decoding.
   */
  method DecodeAt(value: string, spos: nat) returns (stop: Option<Decoded>, out: string, next: nat)
    requires spos + 1 < |value|
    ensures stop.Some? ==> !stop.value.Text? && Unescape(value[spos..]) == stop.value
    ensures stop.None? ==> spos < next <= |value| && Unescape(value[spos..]) == Prepend(out, Unescape(value[next..]))
  {
    var size := |value|;
    if value[spos] != '\\' {
      StepPlain(value, spos);
      return None, [value[spos]], spos + 1;
    }
    var e := value[spos + 1];
    if e == 'X' || e == 'x' {
      StepHex(value, spos);
      if spos + 2 >= size {
        return Some(Panic), "", 0;
      }
      var ch := value[spos + 2];
      if !IsHexDigitChar(ch) {
        return Some(BadEscape), "", 0;
      }
      var sum := HexDigit(ch) * 16;
      if spos + 3 >= size {
        return Some(Panic), "", 0;
      }
      ch := value[spos + 3];
      if !IsHexDigitChar(ch) {
        return Some(BadEscape), "", 0;
      }
      sum := sum + HexDigit(ch);
      return None, [sum as char], spos + 4;
    }
    StepEscape(value, spos);
    var mapped := SimpleEscape(e);
    if mapped.Some? {
      return None, [mapped.value], spos + 2;
    }
    return None, "", spos + 2;
  }

  // ----- what the string decoder computes -----

  /** Without backslashes, the text after the opening quote decodes to all of it but the last byte. */
  lemma {:induction false} UnescapePlain(t: string)
    requires |t| >= 1 && forall i :: 0 <= i < |t| - 1 ==> t[i] != '\\'
    ensures Unescape(t) == Text(t[..|t| - 1])
    decreases |t|
  {
    if |t| > 1 {
      UnescapePlain(t[1..]);
      assert t[..|t| - 1] == [t[0]] + t[1..][..|t[1..]| - 1];
    }
  }

  /** Without backslashes, an ordinary literal decodes to the bytes strictly between its first and last byte. */
  lemma NoBackslashLiteral(value: string)
    requires |value| >= 3 && value[0] != 'r' && value[0] != 'R'
    requires forall i :: 1 <= i < |value| - 1 ==> value[i] != '\\'
    ensures ParseStringSpec(value) == Text(value[1..|value| - 1])
  {
    var t := value[1..];
    assert forall i :: 0 <= i < |t| - 1 ==> t[i] == value[i + 1];
    UnescapePlain(t);
    assert t[..|t| - 1] == value[1..|value| - 1];
  }

  /** A raw literal keeps every byte between its prefix and its last byte, so its opening quote stays in the value. */
  lemma RawLiteral(value: string)
    requires |value| >= 3 && (value[0] == 'r' || value[0] == 'R')
    ensures ParseStringSpec(value) == Text(value[1..|value| - 1])
    ensures ParseStringSpec(value).s[0] == value[1]
  {
  }

  /** `\xHH` yields the byte 16*H1+H2 and a non-hex digit in either place is a bad escape, whatever follows. */
  lemma HexEscape(h1: char, h2: char, rest: string)
    requires |rest| >= 1
    ensures IsHexDigitChar(h1) && IsHexDigitChar(h2) ==>
      Unescape(['\\', 'x', h1, h2] + rest) == Prepend([HexPair(h1, h2)], Unescape(rest))
    ensures !IsHexDigitChar(h1) ==> Unescape(['\\', 'x', h1, h2] + rest) == BadEscape
    ensures IsHexDigitChar(h1) && !IsHexDigitChar(h2) ==> Unescape(['\\', 'x', h1, h2] + rest) == BadEscape
  {
    var v := ['\\', 'x', h1, h2] + rest;
    assert v[0] == '\\' && v[1] == 'x' && v[2] == h1 && v[3] == h2 && |v| >= 5;
    assert v[0..] == v && v[4..] == rest;
    StepHex(v, 0);
  }

  // ----- a literal for every byte string -----

  function HexChar(d: nat): char
    requires d < 16
  {
    "0123456789abcdef"[d]
  }

  /** How a byte is written inside a literal: printable bytes other than quotes and backslash as themselves, the rest as `\xHH`. */
  function EscapeByte(c: char): string
    requires c as int < 256
  {
    if ' ' <= c <= '~' && c != '\\' && c != '"' && c != '\'' then [c]
    else ['\\', 'x', HexChar(c as int / 16), HexChar(c as int % 16)]
  }

  function EscapeBytes(s: string): string
    requires forall i :: 0 <= i < |s| ==> s[i] as int < 256
  {
    if |s| == 0 then "" else EscapeByte(s[0]) + EscapeBytes(s[1..])
  }

  /** The double-quoted literal that spells `s`. */
  function Quote(s: string): string
    requires forall i :: 0 <= i < |s| ==> s[i] as int < 256
  {
    "\"" + EscapeBytes(s) + "\""
  }

  lemma HexCharValue(d: nat)
    requires d < 16
    ensures IsHexDigitChar(HexChar(d)) && HexDigit(HexChar(d)) == d
  {
  }

  /** The spelling of one byte decodes to that byte, whatever follows. */
  lemma UnescapeOneByte(c: char, rest: string)
    requires c as int < 256 && |rest| >= 1
    ensures Unescape(EscapeByte(c) + rest) == Prepend([c], Unescape(rest))
  {
    if ' ' <= c <= '~' && c != '\\' && c != '"' && c != '\'' {
      assert EscapeByte(c) == [c];
      UnescapePlainByte(c, rest);
    } else {
      var h1, h2 := HexChar(c as int / 16), HexChar(c as int % 16);
      var e := ['\\', 'x', h1, h2];
      assert EscapeByte(c) == e;
      HexCharValue(c as int / 16);
      HexCharValue(c as int % 16);
      HexEscape(h1, h2, rest);
      HexByte(c);
      assert Unescape(e + rest) == Prepend([c], Unescape(rest));
    }
  }

  lemma UnescapePlainByte(c: char, rest: string)
    requires c != '\\' && |rest| >= 1
    ensures Unescape([c] + rest) == Prepend([c], Unescape(rest))
  {
    var t := [c] + rest;
    StepPlain(t, 0);
    assert t[0..] == t && t[1..] == rest;
  }

  lemma HexByte(c: char)
    requires c as int < 256
    ensures IsHexDigitChar(HexChar(c as int / 16)) && IsHexDigitChar(HexChar(c as int % 16))
    ensures HexPair(HexChar(c as int / 16), HexChar(c as int % 16)) == c
  {
    HexCharValue(c as int / 16);
    HexCharValue(c as int % 16);
  }

  lemma {:induction false} UnescapeEscaped(s: string, tail: string)
    requires forall i :: 0 <= i < |s| ==> s[i] as int < 256
    requires |tail| == 1
    ensures Unescape(EscapeBytes(s) + tail) == Text(s)
    decreases |s|
  {
    if |s| == 0 {
      assert EscapeBytes(s) + tail == tail;
    } else {
      var rest := EscapeBytes(s[1..]) + tail;
      UnescapeEscaped(s[1..], tail);
      assert EscapeBytes(s) + tail == EscapeByte(s[0]) + rest;
      UnescapeOneByte(s[0], rest);
      assert [s[0]] + s[1..] == s;
    }
  }

  /** Decoding the quoted spelling of any byte string gives the byte string back. */
  lemma QuoteRoundTrip(s: string)
    requires forall i :: 0 <= i < |s| ==> s[i] as int < 256
    ensures ParseStringSpec(Quote(s)) == Text(s)
  {
    var q := Quote(s);
    if |s| > 0 {
      assert |EscapeBytes(s)| >= 1;
      assert q[1..] == EscapeBytes(s) + "\"";
      UnescapeEscaped(s, "\"");
    }
  }
}
