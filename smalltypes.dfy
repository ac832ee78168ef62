/**
 * The small types: bool, nil and range (objects/boolobject.go,
 * objects/nilobject.go, objects/rangeobject.go) and the callables —
 * user functions, methods, builtin functions and builtin methods
 * (objects/functionobject.go, objects/methodobject.go,
 * objects/gfunctionobject.go, objects/gmethodobject.go).
 */
module SmallTypes {
  import opened Common
  import opened Values
  import opened Interm
  import opened Arguments

  // ----- bool -----

  /** `blBoolRepr`. */
  function BoolRepr(b: bool): (s: string)
    ensures s == "true" <==> b
    ensures s == "false" <==> !b
  {
    if b then "true" else "false"
  }

  /** `blBoolEvalCond`: the stored value itself. */
  predicate BoolEvalCond(b: bool)
  {
    b
  }

  /** `blBoolCompare`: 0 when equal, -1 for false against true, 1 otherwise. */
  function BoolCompare(a: bool, b: bool): (r: int)
    ensures r == 0 <==> a == b
    ensures r == -1 <==> !a && b
    ensures r == 1 <==> a && !b
  {
    if a == b then 0 else if !a && b then -1 else 1
  }

  lemma BoolCompareAntisymmetric(a: bool, b: bool)
    ensures BoolCompare(a, b) == -BoolCompare(b, a)
  {
  }

  const NOT_BOOL: string := "expected bool or int"

  /**
   * `blBoolInit`: the format `"|o"` asks for two arguments and stores
   * neither, so `arg` stays nil and a well-formed call always gives false.
   */
  function BoolInit(args: seq<Ref>, objs: seq<Obj>): (r: Outcome<Ref>)
    ensures r.Done? || r.Error?
    ensures r.Done? ==> r.value == FalseRef
  {
    match ParseArgumentsSpec("|o", args, objs)
    case Failure(m) => Error(m)
    case Ok(_) => Done(FalseRef)
  }

  lemma BoolInitMeaning(args: seq<Ref>, objs: seq<Obj>)
    ensures BoolInit(args, objs).Done? <==> |args| == 2
    ensures |args| != 2 ==> BoolInit(args, objs) == Error(MismatchMessage(2, |args|))
  {
    ParseArgumentsMeaning("|o", args, objs);
  }

  // ----- nil -----

  /** `blNilRepr`. */
  function NilRepr(): (s: string)
    ensures |s| == 3 && s[0] == 'n'
  {
    "nil"
  }

  /** `blNilEvalCond`: nil is never true. */
  predicate NilEvalCond()
  {
    false
  }

  /** The nil type has only `Repr` and `EvalCond`: no member, numeric, sequence, compare or init hook. */
  lemma NilHasNoHooks()
    ensures HasHook(NilType, Repr) && HasHook(NilType, EvalCond)
    ensures !HasHook(NilType, GetMember) && !HasHook(NilType, SetMember)
    ensures !HasHook(NilType, Compare) && !HasHook(NilType, Init)
    ensures TypeTable(NilType).numbers.None? && TypeTable(NilType).sequence.None?
  {
  }

  // ----- range -----

  /** `NewBlRange`: the two ends as given. */
  function NewRange(s: int64, e: int64): (o: Obj)
    ensures o.RangeObj? && o.s == s && o.e == e
  {
    RangeObj(s, e)
  }

  /** `blRangeSize`: `E - S` as a Go int. */
  function RangeSize(o: Obj): int64
    requires o.RangeObj?
  {
    Wrap64(o.e - o.s)
  }

  /** `blRangeItem`: `S + num` for `0 <= num < E - S`. */
  function RangeItem(o: Obj, num: int64): (r: Outcome<int64>)
    requires o.RangeObj?
    ensures r.Done? <==> 0 <= num < RangeSize(o)
    ensures r.Error? <==> !(0 <= num < RangeSize(o))
  {
    if num < 0 || num >= RangeSize(o) then Error("subscript position out of bounds")
    else Done(Wrap64(o.s + num))
  }

  /** When `E - S` fits, the items are exactly `S, S+1, ..., E-1`. */
  lemma RangeItems(o: Obj, num: int64)
    requires o.RangeObj? && INT64_MIN <= o.e - o.s <= INT64_MAX
    ensures RangeSize(o) == o.e - o.s
    ensures RangeItem(o, num).Done? ==> o.s <= RangeItem(o, num).value < o.e && RangeItem(o, num).value == o.s + num
  {
  }

  /** `blRangeRepr`: `"S..E"`. */
  function RangeRepr(o: Obj): (t: string)
    requires o.RangeObj?
  {
    IntText(o.s) + ".." + IntText(o.e)
  }

  lemma RangeReprShape(o: Obj)
    requires o.RangeObj? && o.s >= 0 && o.e >= 0
    ensures var t := RangeRepr(o); var k := |IntText(o.s)|;
      k + 2 <= |t| && t[..k] == NatText(o.s) && t[k..k + 2] == ".." && t[k + 2..] == NatText(o.e)
  {
  }

  // ----- user functions -----

  /**
   * `NewBlFunction`: everything stored as given, except that a starred
   * parameter is not counted in `ParamLen`.
   */
  function NewFunction(path: string, name: string, globals: Globals, params: seq<string>,
                       paramLen: int, block: Tree, blockId: NodeId, starParam: bool): (o: Obj)
    ensures o.FunctionObj? && o.path == path && o.name == name && o.globals == globals
    ensures o.params == params && o.block == block && o.blockId == blockId && o.starParam == starParam
    ensures o.paramLen == if starParam then paramLen - 1 else paramLen
  {
    var len := if starParam then paramLen - 1 else paramLen;
    FunctionObj(path, name, globals, params, len, starParam, block, blockId)
  }

  /** `blFunctionEvalCond`: true when the function takes a fixed parameter. */
  predicate FunctionEvalCond(o: Obj)
    requires o.FunctionObj?
  {
    o.paramLen > 0
  }

  /** `blFunctionRepr`. */
  function FunctionRepr(o: Obj): string
    requires o.FunctionObj?
  {
    "<function '" + o.name + "', params=" + IntText(o.paramLen) + ">"
  }

  /** A function of `n` written parameters, one of them starred, is false exactly when `n <= 1`. */
  lemma StarredFunctionTruth(path: string, name: string, globals: Globals, params: seq<string>,
                             block: Tree, blockId: NodeId)
    ensures FunctionEvalCond(NewFunction(path, name, globals, params, |params|, block, blockId, true))
      <==> |params| >= 2
  {
  }

  // ----- methods -----

  /** `NewBlMethod`: class, receiver (nil when unbound) and function as given. */
  function NewMethod(cls: Ref, self: Ref, f: Ref): (o: Obj)
    ensures o.MethodObj? && o.cls == cls && o.self == self && o.f == f
  {
    MethodObj(cls, self, f)
  }

  /** `blMethodEvalCond`: the truth of the method's function; a field that is not a function panics. */
  function MethodEvalCond(o: Obj, objs: seq<Obj>): (r: Outcome<bool>)
    requires o.MethodObj?
    ensures r.Done? || r.Fault?
    ensures r.Done? <==> Deref(objs, o.f).Some? && Deref(objs, o.f).value.FunctionObj?
    ensures r.Done? ==> r.value == FunctionEvalCond(Deref(objs, o.f).value)
  {
    match Deref(objs, o.f)
    case Some(FunctionObj(_, _, _, _, n, _, _, _)) => Done(n > 0)
    case _ => Fault(NIL_DEREF)
  }

  /** `blMethodRepr`: the class name, the function name and its `ParamLen`. */
  function MethodRepr(o: Obj, objs: seq<Obj>): (r: Outcome<string>)
    requires o.MethodObj?
    ensures r.Done? || r.Fault?
    ensures r.Done? <==> Deref(objs, o.cls).Some? && Deref(objs, o.cls).value.ClassObj?
                         && Deref(objs, o.f).Some? && Deref(objs, o.f).value.FunctionObj?
  {
    match (Deref(objs, o.cls), Deref(objs, o.f))
    case (Some(ClassObj(c, _, _)), Some(FunctionObj(_, n, _, _, len, _, _, _))) =>
      Done("<method '" + c + "." + n + "', params=" + IntText(len) + ">")
    case _ => Fault(NIL_DEREF)
  }

  // ----- builtin functions -----

  /** `blGFunctionEvalCond`: true exactly when the `VARARGS` bit is set. */
  predicate GFunctionEvalCond(f: GFunction)
  {
    HasFlag(f.flags, GFUNC_VARARGS)
  }

  /** `blGFunctionRepr`. */
  function GFunctionRepr(f: GFunction): string
  {
    "<builtin-function '" + f.name + "'>"
  }

  /** Of the list and string methods, exactly the variadic list methods are true. */
  lemma BuiltinMethodTruth(i: nat)
    ensures i < |ListMethods()| ==> (GFunctionEvalCond(ListMethods()[i]) <==> i < 3)
    ensures i < |StringMethods()| ==> !GFunctionEvalCond(StringMethods()[i])
  {
  }

  // ----- builtin methods -----

  /** `newBlGMethod`: the owning type, the receiver (nil when unbound) and the function. */
  function NewGMethod(cls: Ref, self: Ref, f: Ref): (o: Obj)
    ensures o.GMethodObj? && o.cls == cls && o.self == self && o.f == f
  {
    GMethodObj(cls, self, f)
  }

  /** The parameter count `blGMethodRepr` shows: one more than `Params` when unbound. */
  function GMethodReprParams(f: GFunction, self: Ref): int
  {
    if self == Null then f.params + 1 else f.params
  }

  /** The count `blGMethodEvalCond` tests: one more than `Params` when bound. */
  function GMethodCondParams(f: GFunction, self: Ref): int
  {
    if self != Null then f.params + 1 else f.params
  }

  /** `blGMethodEvalCond`: the builtin function behind the method must exist, or the access panics. */
  function GMethodEvalCond(o: Obj): (r: Outcome<bool>)
    requires o.GMethodObj?
    ensures r.Done? <==> o.f.BuiltinRef? && BuiltinAt(o.f.table, o.f.index).Some?
    ensures r.Done? ==> (r.value <==> GMethodCondParams(BuiltinAt(o.f.table, o.f.index).value, o.self) > 0)
  {
    if o.f.BuiltinRef? && BuiltinAt(o.f.table, o.f.index).Some? then
      Done(GMethodCondParams(BuiltinAt(o.f.table, o.f.index).value, o.self) > 0)
    else Fault(NIL_DEREF)
  }

  /** `blGMethodRepr`: the class must be a type object, whose name is shown with the function's. */
  function GMethodRepr(o: Obj): (r: Outcome<string>)
    requires o.GMethodObj?
    ensures r.Done? || r.Fault?
    ensures r.Done? <==> o.f.BuiltinRef? && BuiltinAt(o.f.table, o.f.index).Some? && o.cls.TypeRef?
    ensures o.f.BuiltinRef? && BuiltinAt(o.f.table, o.f.index).Some? && !o.cls.TypeRef? ==> r == Fault(BAD_ASSERTION)
    ensures r.Done? ==> "<builtin-method '" + TypeName(o.cls.tag) + "." + BuiltinAt(o.f.table, o.f.index).value.name <= r.value
  {
    if !(o.f.BuiltinRef? && BuiltinAt(o.f.table, o.f.index).Some?) then Fault(NIL_DEREF)
    else if !o.cls.TypeRef? then Fault(BAD_ASSERTION)
    else
      var f := BuiltinAt(o.f.table, o.f.index).value;
      Done("<builtin-method '" + TypeName(o.cls.tag) + "." + f.name + "', params="
           + IntText(GMethodReprParams(f, o.self)) + ">")
  }

  /**
   * Binding moves the extra count between the two: for the same function,
   * the unbound method shows one parameter more than the bound one, while
   * only the bound one counts the receiver for truthiness.
   */
  lemma GMethodCounts(f: GFunction, self: Ref)
    requires self != Null
    ensures GMethodReprParams(f, Null) == GMethodReprParams(f, self) + 1
    ensures GMethodCondParams(f, self) == GMethodCondParams(f, Null) + 1
  {
  }

  /** The string and list methods all have `Params == 0`: bound ones are true, unbound ones false. */
  lemma MethodTableTruth(t: Tag, i: nat, self: Ref)
    requires i < |Methods(t)|
    ensures GMethodCondParams(Methods(t)[i], self) > 0 <==> self != Null
  {
  }
}
