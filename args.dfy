/**
 * `blParseArguments` (objects/object.go): checks a builtin's arguments
 * against a format string, one character per argument, and reads out the
 * payload of each `i` (Int) and `s` (String) argument.
 */
module Arguments {
  import opened Common
  import opened Values

  /** What one format position stores: an int, a string, or nothing (any other format character). */
  datatype Arg = IntArg(i: int64) | StrArg(s: string) | Skipped

  const EXPECTED_INT: string := "expected int object"
  const EXPECTED_STRING: string := "expected string object"

  function MismatchMessage(expected: nat, got: nat): string
  {
    "argument mismatch. Expected (" + NatText(expected) + ") , got (" + NatText(got) + ")"
  }

  /** Position `i`: the check and the value stored for format character `c`. */
  function ParseOne(c: char, arg: Ref, objs: seq<Obj>): Result<Arg>
  {
    match Deref(objs, arg)
    case Some(IntObj(v)) => if c == 's' then Failure(EXPECTED_STRING) else if c == 'i' then Ok(IntArg(v)) else Ok(Skipped)
    case Some(StringObj(v)) => if c == 'i' then Failure(EXPECTED_INT) else if c == 's' then Ok(StrArg(v)) else Ok(Skipped)
    case _ => if c == 'i' then Failure(EXPECTED_INT) else if c == 's' then Failure(EXPECTED_STRING) else Ok(Skipped)
  }

  /** The values stored from position `i` on, or the first failing check. */
  function ParseFrom(format: string, args: seq<Ref>, objs: seq<Obj>, i: nat): Result<seq<Arg>>
    requires |format| == |args| && i <= |format|
    decreases |format| - i
  {
    if i == |format| then Ok([])
    else
      var a :- ParseOne(format[i], args[i], objs);
      var rest :- ParseFrom(format, args, objs, i + 1);
      Ok([a] + rest)
  }

  /** The specification of `blParseArguments`: the counts must agree before any argument is looked at. */
  function ParseArgumentsSpec(format: string, args: seq<Ref>, objs: seq<Obj>): Result<seq<Arg>>
  {
    if |format| != |args| then Failure(MismatchMessage(|format|, |args|))
    else ParseFrom(format, args, objs, 0)
  }

  /** A position passes the check for its format character. */
  predicate Accepts(c: char, arg: Ref, objs: seq<Obj>)
  {
    (c == 'i' ==> Deref(objs, arg).Some? && Deref(objs, arg).value.IntObj?)
    && (c == 's' ==> Deref(objs, arg).Some? && Deref(objs, arg).value.StringObj?)
  }

  /** The value a passing position stores. */
  function Stored(c: char, arg: Ref, objs: seq<Obj>): Arg
    requires Accepts(c, arg, objs)
  {
    if c == 'i' then IntArg(Deref(objs, arg).value.ival)
    else if c == 's' then StrArg(Deref(objs, arg).value.sval)
    else Skipped
  }

  lemma {:induction false} ParseFromMeaning(format: string, args: seq<Ref>, objs: seq<Obj>, i: nat)
    requires |format| == |args| && i <= |format|
    ensures ParseFrom(format, args, objs, i).Ok?
      <==> forall j :: i <= j < |format| ==> Accepts(format[j], args[j], objs)
    ensures ParseFrom(format, args, objs, i).Ok? ==>
      |ParseFrom(format, args, objs, i).value| == |format| - i
      && forall j :: i <= j < |format| ==> ParseFrom(format, args, objs, i).value[j - i] == Stored(format[j], args[j], objs)
    decreases |format| - i
  {
    if i < |format| {
      ParseFromMeaning(format, args, objs, i + 1);
      var r := ParseFrom(format, args, objs, i);
      if r.Ok? {
        forall j | i <= j < |format|
          ensures r.value[j - i] == Stored(format[j], args[j], objs)
        {
          if j > i {
            assert r.value[j - i] == ParseFrom(format, args, objs, i + 1).value[j - (i + 1)];
          }
        }
      }
    }
  }

  /**
   * Parsing succeeds exactly when the counts agree and every `i`/`s`
   * position holds an Int/String; it then stores one value per position.
   */
  lemma ParseArgumentsMeaning(format: string, args: seq<Ref>, objs: seq<Obj>)
    ensures ParseArgumentsSpec(format, args, objs).Ok?
      <==> |format| == |args| && forall j :: 0 <= j < |format| ==> Accepts(format[j], args[j], objs)
    ensures ParseArgumentsSpec(format, args, objs).Ok? ==>
      |ParseArgumentsSpec(format, args, objs).value| == |format|
      && forall j :: 0 <= j < |format| ==> ParseArgumentsSpec(format, args, objs).value[j] == Stored(format[j], args[j], objs)
    ensures |format| != |args| ==> ParseArgumentsSpec(format, args, objs) == Failure(MismatchMessage(|format|, |args|))
  {
    if |format| == |args| {
      ParseFromMeaning(format, args, objs, 0);
    }
  }

  /** The error raised is that of the first position that fails its check. */
  lemma {:induction false} FirstFailureReported(format: string, args: seq<Ref>, objs: seq<Obj>, k: nat)
    requires |format| == |args| && k < |format|
    requires forall j :: 0 <= j < k ==> Accepts(format[j], args[j], objs)
    requires !Accepts(format[k], args[k], objs)
    ensures ParseArgumentsSpec(format, args, objs) == Failure(if format[k] == 'i' then EXPECTED_INT else EXPECTED_STRING)
  {
    FirstFailureFrom(format, args, objs, 0, k);
  }

  lemma {:induction false} FirstFailureFrom(format: string, args: seq<Ref>, objs: seq<Obj>, i: nat, k: nat)
    requires |format| == |args| && i <= k < |format|
    requires forall j :: i <= j < k ==> Accepts(format[j], args[j], objs)
    requires !Accepts(format[k], args[k], objs)
    ensures ParseFrom(format, args, objs, i) == Failure(if format[k] == 'i' then EXPECTED_INT else EXPECTED_STRING)
    decreases k - i
  {
    if i < k {
      FirstFailureFrom(format, args, objs, i + 1, k);
      assert ParseOne(format[i], args[i], objs).Ok?;
    }
  }

  /** `blParseArguments`: the loop over the format string, stopping at the first failure. */
  method ParseArguments(format: string, args: seq<Ref>, objs: seq<Obj>) returns (r: Result<seq<Arg>>)
    ensures r == ParseArgumentsSpec(format, args, objs)
  {
    if |format| != |args| {
      return Failure(MismatchMessage(|format|, |args|));
    }
    var values: seq<Arg> := [];
    var i := 0;
    ThenNothing(ParseFrom(format, args, objs, 0));
    while i < |format|
      invariant 0 <= i <= |format| && |values| == i
      invariant ParseFrom(format, args, objs, 0) == Then(values, ParseFrom(format, args, objs, i))
      decreases |format| - i
    {
      var a := ParseOne(format[i], args[i], objs);
      if a.Failure? {
        return Failure(a.msg);
      }
      ThenStep(values, a.value, ParseFrom(format, args, objs, i + 1));
      values := values + [a.value];
      i := i + 1;
    }
    assert values + [] == values;
    return Ok(values);
  }

  /** The values stored so far followed by those of the rest, or the rest's failure. */
  function Then(done: seq<Arg>, rest: Result<seq<Arg>>): Result<seq<Arg>>
  {
    if rest.Ok? then Ok(done + rest.value) else rest
  }

  lemma ThenNothing(rest: Result<seq<Arg>>)
    ensures Then([], rest) == rest
  {
    if rest.Ok? {
      assert [] + rest.value == rest.value;
    }
  }

  lemma ThenStep(done: seq<Arg>, a: Arg, rest: Result<seq<Arg>>)
    ensures Then(done, if rest.Ok? then Ok([a] + rest.value) else rest) == Then(done + [a], rest)
  {
    if rest.Ok? {
      assert done + ([a] + rest.value) == (done + [a]) + rest.value;
    }
  }
}
