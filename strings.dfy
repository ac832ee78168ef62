/**
 * The string type (objects/stringobject.go). A Go string is a sequence of
 * bytes; here each byte is a `char` below 256. Indexing converts the byte
 * to a rune and back to text (UTF-8), and the case-mapping methods range
 * over the UTF-8 runes of the value and write the low byte of each.
 */
module StringObjects {
  import opened Common
  import opened Values
  import opened Arguments

  const STRING_MAX: int := 0x00ff_ffff
  const SUBSCRIPT_RANGE: string := "subscript position out of bounds"
  const NON_INT_REPEAT: string := "cant multiply sequence with non-integer"
  const TOO_LARGE: string := "repeated string became too large"

  // ----- UTF-8 -----

  /** Go's `string(r)` for a code point: its UTF-8 encoding. */
  function RuneText(c: char): (t: string)
    ensures 1 <= |t| <= 4
    ensures forall k :: 0 <= k < |t| ==> t[k] as int < 256
  {
    var v := c as int;
    if v < 0x80 then [c]
    else if v < 0x800 then [(0xC0 + v / 64) as char, (0x80 + v % 64) as char]
    else if v < 0x1_0000 then [(0xE0 + v / 4096) as char, (0x80 + v / 64 % 64) as char, (0x80 + v % 64) as char]
    else [(0xF0 + v / 0x4_0000) as char, (0x80 + v / 4096 % 64) as char, (0x80 + v / 64 % 64) as char, (0x80 + v % 64) as char]
  }

  const RUNE_ERROR: int := 0xFFFD

  /** Byte `i` exists and lies in `lo..hi`. */
  predicate InRange(s: string, i: nat, lo: int, hi: int)
  {
    i < |s| && lo <= s[i] as int <= hi
  }

  /**
   * Go's UTF-8 decoding of the rune starting at byte `i` (as `for range`
   * does it): the rune and its width. A malformed or truncated sequence
   * gives U+FFFD with width 1.
   */
  function Decode(s: string, i: nat): (d: (int, nat))
    requires i < |s|
    ensures 1 <= d.1 <= |s| - i && 0 <= d.0 < 0x11_0000
  {
    var b0 := s[i] as int;
    if b0 < 0x80 then (b0, 1)
    else if 0xC2 <= b0 <= 0xDF then
      if InRange(s, i + 1, 0x80, 0xBF) then ((b0 % 32) * 64 + s[i + 1] as int % 64, 2)
      else (RUNE_ERROR, 1)
    else if 0xE0 <= b0 <= 0xEF then
      var lo := if b0 == 0xE0 then 0xA0 else 0x80;
      var hi := if b0 == 0xED then 0x9F else 0xBF;
      if InRange(s, i + 1, lo, hi) && InRange(s, i + 2, 0x80, 0xBF) then
        ((b0 % 16) * 4096 + (s[i + 1] as int % 64) * 64 + s[i + 2] as int % 64, 3)
      else (RUNE_ERROR, 1)
    else if 0xF0 <= b0 <= 0xF4 then
      var lo := if b0 == 0xF0 then 0x90 else 0x80;
      var hi := if b0 == 0xF4 then 0x8F else 0xBF;
      if InRange(s, i + 1, lo, hi) && InRange(s, i + 2, 0x80, 0xBF) && InRange(s, i + 3, 0x80, 0xBF) then
        ((b0 % 8) * 0x4_0000 + (s[i + 1] as int % 64) * 4096 + (s[i + 2] as int % 64) * 64 + s[i + 3] as int % 64, 4)
      else (RUNE_ERROR, 1)
    else (RUNE_ERROR, 1)
  }

  /** Decoding the encoding of a code point gives back that code point, consuming all of it. */
  lemma RuneRoundTrip(c: char, rest: string)
    ensures Decode(RuneText(c) + rest, 0) == (c as int, |RuneText(c)|)
  {
    var v := c as int;
    if v < 0x80 {
    } else if v < 0x800 {
      RoundTripTwo(v, RuneText(c) + rest);
    } else if v < 0x1_0000 {
      RoundTripThree(v, RuneText(c) + rest);
    } else {
      RoundTripFour(v, RuneText(c) + rest);
    }
  }

  lemma RoundTripTwo(v: int, t: string)
    requires 0x80 <= v < 0x800 && |t| >= 2
    requires t[0] as int == 0xC0 + v / 64 && t[1] as int == 0x80 + v % 64
    ensures Decode(t, 0) == (v, 2)
  {
    var hi, lo := v / 64, v % 64;
    assert 2 <= hi < 32 && v == hi * 64 + lo;
    assert (0xC0 + hi) % 32 == hi;
    assert (0x80 + lo) % 64 == lo;
  }

  lemma RoundTripThree(v: int, t: string)
    requires 0x800 <= v < 0x1_0000 && !(0xD800 <= v < 0xE000) && |t| >= 3
    requires t[0] as int == 0xE0 + v / 4096 && t[1] as int == 0x80 + v / 64 % 64 && t[2] as int == 0x80 + v % 64
    ensures Decode(t, 0) == (v, 3)
  {
    var a, b, d := v / 4096, v / 64 % 64, v % 64;
    assert v / 64 == a * 64 + b;
    assert v == (a * 64 + b) * 64 + d;
    assert 0 <= a < 16;
    assert (0xE0 + a) % 16 == a;
    assert (0x80 + b) % 64 == b && (0x80 + d) % 64 == d;
    assert a == 0 ==> b >= 32;
    assert a == 13 ==> b < 32;
  }

  /** The base-64 digits of `v` as the encoder takes them apart. */
  lemma SixBitDigits(v: nat)
    ensures v / 64 == v / 4096 * 64 + v / 64 % 64
    ensures v / 4096 == v / 0x4_0000 * 64 + v / 4096 % 64
  {
    var q := v / 64;
    assert q / 64 == v / 4096;
    assert q / 64 / 64 == v / 0x4_0000;
  }

  lemma RoundTripFour(v: int, t: string)
    requires 0x1_0000 <= v < 0x11_0000 && |t| >= 4
    requires t[0] as int == 0xF0 + v / 0x4_0000 && t[1] as int == 0x80 + v / 4096 % 64
    requires t[2] as int == 0x80 + v / 64 % 64 && t[3] as int == 0x80 + v % 64
    ensures Decode(t, 0) == (v, 4)
  {
    var a, b, d, e := v / 0x4_0000, v / 4096 % 64, v / 64 % 64, v % 64;
    SixBitDigits(v);
    assert v == ((a * 64 + b) * 64 + d) * 64 + e;
    assert 0 <= a <= 4;
    assert (0xF0 + a) % 8 == a;
    assert (0x80 + b) % 64 == b && (0x80 + d) % 64 == d && (0x80 + e) % 64 == e;
    assert a == 0 ==> b >= 16;
    assert a == 4 ==> b < 16;
  }

  // ----- item, concatenation, truthiness -----

  /** `blStringSeqItem`: the byte at `num`, converted to a rune and back to text. */
  function Item(s: string, num: int64): (r: Outcome<string>)
    ensures r.Error? <==> num < 0 || num >= |s|
    ensures r.Error? ==> r.msg == SUBSCRIPT_RANGE
    ensures r.Done? || r.Error?
  {
    if num >= |s| || num < 0 then Error(SUBSCRIPT_RANGE)
    else Done(RuneText(s[num]))
  }

  /**
   * An ASCII byte comes back as the one-byte string holding it; a byte
   * 0x80..0xFF comes back as its two-byte UTF-8 encoding.
   */
  lemma ItemBytes(s: string, num: int64)
    requires 0 <= num < |s|
    ensures s[num] as int < 0x80 ==> Item(s, num) == Done([s[num]])
    ensures 0x80 <= s[num] as int < 0x100 ==> |Item(s, num).value| == 2
    ensures Decode(Item(s, num).value, 0) == (s[num] as int, |Item(s, num).value|)
  {
    RuneRoundTrip(s[num], []);
    assert RuneText(s[num]) + [] == RuneText(s[num]);
  }

  /** `blStringSeqConcat`: the right operand must be a string; otherwise its type is named in the error. */
  function Concat(a: string, b: Ref, objs: seq<Obj>): (r: Outcome<string>)
    ensures r.Done? <==> Deref(objs, b).Some? && Deref(objs, b).value.StringObj?
    ensures r.Done? ==> r.value == a + Deref(objs, b).value.sval
    ensures r.Fault? <==> TypeOf(objs, b).None?
  {
    match Deref(objs, b)
    case Some(StringObj(t)) => Done(a + t)
    case _ =>
      match TypeOf(objs, b)
      case None => Fault(NIL_DEREF)
      case Some(tag) => Error("cannot add '" + TypeName(tag) + "' to string")
  }

  /** `blStringEvalCond`: a string is true when it is not empty. */
  predicate EvalCond(s: string)
  {
    |s| > 0
  }

  // ----- repetition -----

  /** `k` copies of `s` one after another. */
  function Copies(s: string, k: nat): (r: string)
  {
    if k == 0 then [] else Copies(s, k - 1) + s
  }

  lemma {:induction false} CopiesLength(s: string, k: nat)
    ensures |Copies(s, k)| == k * |s|
  {
    if k > 0 {
      CopiesLength(s, k - 1);
    }
  }

  /** How many times `i := 0; i < size; i += step` runs. */
  function Steps(i: int, size: int, step: nat): nat
    requires i >= size || step > 0
    decreases size - i
  {
    if i >= size then 0 else Steps(i + step, size, step) + 1
  }

  /** With `size == k*step`, the loop runs exactly `k` times. */
  lemma {:induction false} StepsExact(k: nat, step: nat, done: nat)
    requires step > 0 && done <= k
    ensures Steps(done * step, k * step, step) == k - done
    decreases k - done
  {
    if done < k {
      assert done * step < k * step;
      assert done * step + step == (done + 1) * step;
      StepsExact(k, step, done + 1);
    }
  }

  /**
   * `blStringSeqRepeat` as a function: a non-Int multiplier fails, 1 gives the
   * operand itself (`None`), and otherwise `size = vsize*n` (wrapping as a Go
   * int) is checked against `STRING_MAX` and the string is written once for
   * each step of `i` from 0 below `size` by `vsize`.
   */
  function RepeatSpec(s: string, count: Option<int64>): (r: Outcome<Option<string>>)
    ensures r.Done? || r.Error?
  {
    if count.None? then Error(NON_INT_REPEAT)
    else if count.value == 1 then Done(None)
    else
      var size := Wrap64(|s| * count.value);
      if size > STRING_MAX then Error(TOO_LARGE)
      else Done(Some(Copies(s, Steps(0, size, |s|))))
  }

  /** Without wrap-around, repetition by `n` gives `n` copies, none for `n <= 0`, and fails past `STRING_MAX`. */
  lemma RepeatCopies(s: string, n: int64)
    requires n != 1 && INT64_MIN <= |s| * n <= INT64_MAX
    ensures |s| * n > STRING_MAX ==> RepeatSpec(s, Some(n)) == Error(TOO_LARGE)
    ensures |s| * n <= STRING_MAX && n <= 0 ==> RepeatSpec(s, Some(n)) == Done(Some([]))
    ensures |s| * n <= STRING_MAX && n >= 0 ==> RepeatSpec(s, Some(n)) == Done(Some(Copies(s, n as nat)))
  {
    if n >= 0 && |s| * n <= STRING_MAX {
      RepeatNonNegative(s, n as nat);
    } else if n < 0 {
      RepeatNegative(s, n as int);
    }
  }

  lemma RepeatNonNegative(s: string, n: nat)
    ensures |s| * n == 0 || (|s| > 0 && Steps(0, |s| * n, |s|) == n)
    ensures |s| * n == 0 ==> Copies(s, n) == []
  {
    if |s| > 0 {
      StepsExact(n, |s|, 0);
    }
    CopiesLength(s, n);
  }

  lemma RepeatNegative(s: string, n: int)
    requires n < 0
    ensures |s| * n <= 0
  {
    assert |s| * n == -(|s| * (-n));
  }

  /**
   * The product wraps for a huge multiplier: `"abc" * 6148914691236517206`
   * computes a size of 2 and yields a single copy.
   */
  lemma RepeatWraps()
    ensures RepeatSpec("abc", Some(6148914691236517206)) == Done(Some("abc"))
  {
    var s: string, n: int64 := "abc", 6148914691236517206;
    assert |s| * n == TWO_64 + 2;
    assert (TWO_64 + 2) % TWO_64 == 2;
    assert Wrap64(|s| * n) == 2;
    assert Steps(0, 2, 3) == 1 by {
      assert Steps(3, 2, 3) == 0;
    }
    assert Copies(s, 1) == [] + s == s;
    assert RepeatSpec(s, Some(n)) == Done(Some(Copies(s, Steps(0, 2, 3))));
  }

  /** `blStringSeqRepeat`: the buffer-writing loop. */
  method Repeat(s: string, count: Option<int64>) returns (r: Outcome<Option<string>>)
    ensures r == RepeatSpec(s, count)
  {
    if count.None? {
      return Error(NON_INT_REPEAT);
    }
    if count.value == 1 {
      return Done(None);
    }
    var size := Wrap64(|s| * count.value);
    if size > STRING_MAX {
      return Error(TOO_LARGE);
    }
    var buf: string := [];
    var i := 0;
    ghost var k: nat := 0;
    while i < size
      invariant i >= size || |s| > 0
      invariant buf == Copies(s, k)
      invariant Steps(0, size, |s|) == k + Steps(i, size, |s|)
      decreases size - i
    {
      buf := buf + s;
      i := i + |s|;
      k := k + 1;
    }
    return Done(Some(buf));
  }

  // ----- comparison -----

  /** The comparison from index `i` on: the first byte difference, else the length order. */
  function CompareFrom(a: string, b: string, i: nat): int
    decreases |a| - i
  {
    if i < |a| && i < |b| then
      var v := a[i] as int - b[i] as int;
      if v != 0 then v else CompareFrom(a, b, i + 1)
    else if |a| < |b| then -1
    else if |a| > |b| then 1
    else 0
  }

  /** The specification of `blStringCompare`. */
  function CompareSpec(a: string, b: string): int
  {
    CompareFrom(a, b, 0)
  }

  lemma {:induction false} CompareFromProperties(a: string, b: string, i: nat)
    requires i <= |a| && i <= |b| && a[..i] == b[..i]
    ensures CompareFrom(a, b, i) == -CompareFrom(b, a, i)
    ensures CompareFrom(a, b, i) == 0 <==> a == b
    decreases |a| - i
  {
    if i < |a| && i < |b| && a[i] == b[i] {
      assert a[..i + 1] == a[..i] + [a[i]];
      assert b[..i + 1] == b[..i] + [b[i]];
      CompareFromProperties(a, b, i + 1);
    } else if i < |a| && i < |b| {
      assert a[i] != b[i];
    } else if |a| == |b| {
      assert a == a[..i] && b == b[..i];
    } else if |a| < |b| {
      assert |a| != |b|;
    }
  }

  /** Swapping the operands negates the result, and 0 means equal strings. */
  lemma CompareOrder(a: string, b: string)
    ensures CompareSpec(a, b) == -CompareSpec(b, a)
    ensures CompareSpec(a, b) == 0 <==> a == b
  {
    CompareFromProperties(a, b, 0);
  }

  /**
   * The raw byte difference can be -2, the value the comparison operators
   * take to mean "cannot be ordered": `"a"` against `"c"` gives -2.
   */
  lemma CompareCollidesWithSentinel()
    ensures CompareSpec("a", "c") == -2
  {
  }

  /** `blStringCompare`: the loop over the common prefix, then the length test. */
  method Compare(a: string, b: string) returns (r: int)
    ensures r == CompareSpec(a, b)
  {
    var i := 0;
    while i < |a| && i < |b|
      invariant 0 <= i <= |a| && i <= |b|
      invariant CompareSpec(a, b) == CompareFrom(a, b, i)
      decreases |a| - i
    {
      var v := a[i] as int - b[i] as int;
      if v != 0 {
        return v;
      }
      i := i + 1;
    }
    if |a| < |b| {
      return -1;
    } else if |a| > |b| {
      return 1;
    }
    return 0;
  }

  // ----- construction and methods -----

  /** `blStringInit`: exactly one String argument, whose value becomes the new string. */
  function Init(args: seq<Ref>, objs: seq<Obj>): (r: Outcome<string>)
    ensures r.Done? || r.Error?
  {
    match ParseArgumentsSpec("s", args, objs)
    case Failure(m) => Error(m)
    case Ok(vals) => Done(vals[0].s)
  }

  lemma InitMeaning(args: seq<Ref>, objs: seq<Obj>)
    ensures Init(args, objs).Done? <==> |args| == 1 && Deref(objs, args[0]).Some? && Deref(objs, args[0]).value.StringObj?
    ensures Init(args, objs).Done? ==> Init(args, objs).value == Deref(objs, args[0]).value.sval
  {
    ParseArgumentsMeaning("s", args, objs);
    if |args| == 1 {
      assert Accepts("s"[0], args[0], objs) <==> Deref(objs, args[0]).Some? && Deref(objs, args[0]).value.StringObj?;
    }
  }

  /** The string behind a method's receiver, if it is one; any other receiver ends the interpreter. */
  function Receiver(recv: Ref, objs: seq<Obj>): Option<string>
  {
    match Deref(objs, recv)
    case Some(StringObj(v)) => Some(v)
    case _ => None
  }

  const NOT_A_STRING: string := "expected string object"

  /** The `concat` method: the receiver's value followed by its single string argument. */
  function ConcatMethod(recv: Ref, args: seq<Ref>, objs: seq<Obj>): (r: Outcome<string>)
    ensures r.Done? || r.Error?
  {
    match Receiver(recv, objs)
    case None => Error(NOT_A_STRING)
    case Some(v) =>
      match ParseArgumentsSpec("s", args, objs)
      case Failure(m) => Error(m)
      case Ok(vals) => Done(v + vals[0].s)
  }

  lemma ConcatMethodMeaning(recv: Ref, args: seq<Ref>, objs: seq<Obj>)
    requires Receiver(recv, objs).Some?
    ensures ConcatMethod(recv, args, objs).Done?
      <==> |args| == 1 && Deref(objs, args[0]).Some? && Deref(objs, args[0]).value.StringObj?
    ensures ConcatMethod(recv, args, objs).Done? ==>
      ConcatMethod(recv, args, objs).value == Receiver(recv, objs).value + Deref(objs, args[0]).value.sval
  {
    InitMeaning(args, objs);
  }

  // ----- case mapping -----

  function UpperRune(r: int): int
  {
    if 'a' as int <= r <= 'z' as int then r - 32 else r
  }

  function LowerRune(r: int): int
  {
    if 'A' as int <= r <= 'Z' as int then r + 32 else r
  }

  /** `byte(r)`: the low eight bits of a rune. */
  function LowByte(r: int): char
    requires r >= 0
  {
    (r % 256) as char
  }

  /** The bytes written for the runes from byte `i` on: each rune mapped, then cut to its low byte. */
  function MapFrom(s: string, i: nat, upper: bool): string
    decreases |s| - i
  {
    if i >= |s| then []
    else
      var d := Decode(s, i);
      var r := if upper then UpperRune(d.0) else LowerRune(d.0);
      [LowByte(r)] + MapFrom(s, i + d.1, upper)
  }

  /** The specification of `toupper`. */
  function ToUpperSpec(s: string): string { MapFrom(s, 0, true) }

  /** The specification of `tolower`. */
  function ToLowerSpec(s: string): string { MapFrom(s, 0, false) }

  predicate IsAscii(s: string)
  {
    forall k :: 0 <= k < |s| ==> s[k] as int < 0x80
  }

  function UpperChar(c: char): char
  {
    if 'a' <= c <= 'z' then (c as int - 32) as char else c
  }

  function LowerChar(c: char): char
  {
    if 'A' <= c <= 'Z' then (c as int + 32) as char else c
  }

  lemma {:induction false} MapFromAscii(s: string, i: nat, upper: bool)
    requires i <= |s| && IsAscii(s)
    ensures |MapFrom(s, i, upper)| == |s| - i
    ensures forall k :: i <= k < |s| ==>
      MapFrom(s, i, upper)[k - i] == if upper then UpperChar(s[k]) else LowerChar(s[k])
    decreases |s| - i
  {
    if i < |s| {
      MapFromAscii(s, i + 1, upper);
      var m := MapFrom(s, i, upper);
      assert m == [LowByte(if upper then UpperRune(s[i] as int) else LowerRune(s[i] as int))] + MapFrom(s, i + 1, upper);
      forall k | i < k < |s|
        ensures m[k - i] == if upper then UpperChar(s[k]) else LowerChar(s[k])
      {
        assert m[k - i] == MapFrom(s, i + 1, upper)[k - (i + 1)];
      }
    }
  }

  /**
   * On ASCII text `toupper` maps `a`-`z` to `A`-`Z`, every other byte is
   * kept, and the length is preserved.
   */
  lemma ToUpperAscii(s: string)
    requires IsAscii(s)
    ensures |ToUpperSpec(s)| == |s|
    ensures forall k :: 0 <= k < |s| ==> ToUpperSpec(s)[k] == UpperChar(s[k])
  {
    MapFromAscii(s, 0, true);
  }

  /** On ASCII text `tolower` maps `A`-`Z` to `a`-`z` and keeps every other byte. */
  lemma ToLowerAscii(s: string)
    requires IsAscii(s)
    ensures |ToLowerSpec(s)| == |s|
    ensures forall k :: 0 <= k < |s| ==> ToLowerSpec(s)[k] == LowerChar(s[k])
  {
    MapFromAscii(s, 0, false);
  }

  /** Outside ASCII the length changes: the two UTF-8 bytes of U+00E9 become the single byte 0xE9. */
  lemma CaseMappingShrinks()
    ensures ToUpperSpec("Ã©") == "é"
  {
    var s := "Ã©";
    assert Decode(s, 0) == (0xE9, 2);
  }

  /** `toupper`/`tolower`: the loop over the runes, writing one byte per rune. */
  method MapCase(s: string, upper: bool) returns (r: string)
    ensures r == MapFrom(s, 0, upper)
  {
    var buf: string := [];
    var i := 0;
    while i < |s|
      invariant buf + MapFrom(s, i, upper) == MapFrom(s, 0, upper)
      decreases |s| - i
    {
      var d := Decode(s, i);
      var ch := if upper then UpperRune(d.0) else LowerRune(d.0);
      assert MapFrom(s, i, upper) == [LowByte(ch)] + MapFrom(s, i + d.1, upper);
      assert buf + MapFrom(s, i, upper) == (buf + [LowByte(ch)]) + MapFrom(s, i + d.1, upper);
      buf := buf + [LowByte(ch)];
      i := i + d.1;
    }
    assert buf + [] == buf;
    return buf;
  }

  /** The `toupper` method: any string receiver, arguments not looked at. */
  method ToUpper(recv: Ref, objs: seq<Obj>) returns (r: Outcome<string>)
    ensures Receiver(recv, objs).None? ==> r == Error(NOT_A_STRING)
    ensures Receiver(recv, objs).Some? ==> r == Done(ToUpperSpec(Receiver(recv, objs).value))
  {
    var v := Receiver(recv, objs);
    if v.None? {
      return Error(NOT_A_STRING);
    }
    var t := MapCase(v.value, true);
    return Done(t);
  }

  /** The `tolower` method. */
  method ToLower(recv: Ref, objs: seq<Obj>) returns (r: Outcome<string>)
    ensures Receiver(recv, objs).None? ==> r == Error(NOT_A_STRING)
    ensures Receiver(recv, objs).Some? ==> r == Done(ToLowerSpec(Receiver(recv, objs).value))
  {
    var v := Receiver(recv, objs);
    if v.None? {
      return Error(NOT_A_STRING);
    }
    var t := MapCase(v.value, false);
    return Done(t);
  }
}
