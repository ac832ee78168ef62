/**
 * The object model of the objects package: references, the object records
 * kept on the heap, the builtin-function records, the hook table of every
 * type object registered by `BlInitTypes`, and the outcome of an operation.
 *
 * Go objects that are package-level variables (the type objects, the
 * builtin-function arrays, `BlTrue`, `BlFalse`, `BlNil`) are references of
 * their own; every object made at run time lives in a heap `seq<Obj>` and is
 * referred to by its address.
 */
module Values {
  import opened Common
  import opened Interm

  // ----- floats -----

  datatype FloatOp = FAdd | FSub | FMul | FDiv | FMod

  /** A float64, kept as the term that produced it (IEEE arithmetic is not modelled). */
  datatype Float =
    | FloatLit(text: string)
    | FloatOfInt(i: int64)
    | FloatNeg(x: Float)
    | FloatArith(op: FloatOp, x: Float, y: Float)

  /** The host's float64 decisions: `<`, `== 0.0` and the conversion to int64. */
  datatype FloatSem = FloatSem(less: (Float, Float) -> bool, isZero: Float -> bool, toInt: Float -> int64)

  const FLOAT_ZERO: Float := FloatOfInt(0)

  // ----- builtin functions -----

  const GFUNC_NOARGS: int := 1
  const GFUNC_VARARGS: int := 2

  /** `flags & bit != 0` for a single-bit `bit` and a non-negative flags word. */
  predicate HasFlag(flags: int, bit: int)
    requires bit > 0
  {
    (flags / bit) % 2 == 1
  }

  /** The Go callbacks a builtin function can hold; `Foreign` stands for those of modules left out. */
  datatype Builtin =
    | StringConcat | StringToUpper | StringToLower
    | ListAppend | ListPrepend | ListInsert | ListTrunc | ListReverse
    | Foreign(name: string)

  /** A `BlGFunctionObject`. */
  datatype GFunction = GFunction(name: string, callback: Builtin, flags: int, params: int)

  /** `NewBlGFunction`: name, callback and flags as given, `Params` left at 0. */
  function NewGFunction(name: string, callback: Builtin, flags: int): (f: GFunction)
    ensures f.name == name && f.callback == callback && f.flags == flags && f.params == 0
  {
    GFunction(name, callback, flags, 0)
  }

  /** The two flag bits are distinct single bits: a flags word built from them answers each test by its own bit. */
  lemma FlagsIndependent(noArgs: bool, varArgs: bool)
    ensures var flags := (if noArgs then GFUNC_NOARGS else 0) + (if varArgs then GFUNC_VARARGS else 0);
      (HasFlag(flags, GFUNC_NOARGS) <==> noArgs) && (HasFlag(flags, GFUNC_VARARGS) <==> varArgs)
  {
  }

  // ----- references and objects -----

  /** The type objects `BlInitTypes` knows of, plus the module type. */
  datatype Tag =
    | StringType | IntType | FloatType | ListType | RangeType | BoolType | NilType
    | ClassType | InstanceType | MethodType | FunctionType | GMethodType | GFunctionType
    | TypeType | ModuleType

  /** A Go array of builtin functions: a type's `methods`, or the functions given to a builtin module. */
  datatype Table = TypeMethods(owner: Tag) | ModuleFunctions(moduleName: string, funcs: seq<GFunction>)

  /**
   * A `BlObject` interface value: Go nil, a heap object, a type object, an
   * element of a builtin-function array, or one of the three singletons.
   */
  datatype Ref =
    | Null
    | Ptr(addr: nat)
    | TypeRef(tag: Tag)
    | BuiltinRef(table: Table, index: nat)
    | TrueRef | FalseRef | NilRef

  /** The identity of a syntax node: the parsed source it belongs to and its child path from the root. */
  datatype NodeId = NodeId(unit: nat, path: seq<nat>)

  function ChildId(id: NodeId, i: nat): NodeId
  {
    id.(path := id.path + [i])
  }

  /** The globals map a function was created with: the main program's, or a module's `Locals`. */
  datatype Globals = MainGlobals | ModuleGlobals(addr: nat)

  /**
   * The objects the interpreter creates at run time, one constructor per Go
   * object type. A string's `vsize` is always the length of its value
   * (`NewBlString` sets it and nothing changes either), so it is not stored.
   */
  datatype Obj =
    | IntObj(ival: int64)
    | FloatObj(fval: Float)
    | StringObj(sval: string)
    | ListObj(list: seq<Ref>, lsize: int)
    | RangeObj(s: int64, e: int64)
    | FunctionObj(path: string, name: string, globals: Globals, params: seq<string>,
                  paramLen: int, starParam: bool, block: Tree, blockId: NodeId)
    | MethodObj(cls: Ref, self: Ref, f: Ref)
    | GMethodObj(cls: Ref, self: Ref, f: Ref)
    | ClassObj(name: string, base: Ref, members: map<string, Ref>)
    | InstanceObj(cls: Ref, members: map<string, Ref>)
    | ModuleObj(name: string, path: string, locals: map<string, Ref>)

  function TagOf(o: Obj): Tag
  {
    match o
    case IntObj(_) => IntType
    case FloatObj(_) => FloatType
    case StringObj(_) => StringType
    case ListObj(_, _) => ListType
    case RangeObj(_, _) => RangeType
    case FunctionObj(_, _, _, _, _, _, _, _) => FunctionType
    case MethodObj(_, _, _) => MethodType
    case GMethodObj(_, _, _) => GMethodType
    case ClassObj(_, _, _) => ClassType
    case InstanceObj(_, _) => InstanceType
    case ModuleObj(_, _, _) => ModuleType
  }

  /** The heap object behind a reference, if it is one. */
  function Deref(objs: seq<Obj>, r: Ref): Option<Obj>
  {
    if r.Ptr? && r.addr < |objs| then Some(objs[r.addr]) else None
  }

  /**
   * `BlType()`: the tag of the type object a reference points at. Go nil and
   * the `type` type object itself (whose header is empty) have none, so every
   * hook looked up through them is a nil dereference.
   */
  function TypeOf(objs: seq<Obj>, r: Ref): Option<Tag>
  {
    match r
    case Null => None
    case Ptr(a) => if a < |objs| then Some(TagOf(objs[a])) else None
    case TypeRef(t) => if t == TypeType then None else Some(TypeType)
    case BuiltinRef(_, _) => Some(GFunctionType)
    case TrueRef => Some(BoolType)
    case FalseRef => Some(BoolType)
    case NilRef => Some(NilType)
  }

  /** Only a reference to a module object has the module type. */
  lemma TypeOfModule(objs: seq<Obj>, r: Ref)
    ensures TypeOf(objs, r) == Some(ModuleType) <==> Deref(objs, r).Some? && Deref(objs, r).value.ModuleObj?
  {
  }

  /** Appends a new object; its reference is the next address. */
  function Alloc(objs: seq<Obj>, o: Obj): (r: (seq<Obj>, Ref))
    ensures r.0 == objs + [o] && r.1 == Ptr(|objs|)
    ensures Deref(r.0, r.1) == Some(o)
  {
    (objs + [o], Ptr(|objs|))
  }

  /** Allocation leaves every existing object where it was. */
  lemma AllocKeeps(objs: seq<Obj>, o: Obj, r: Ref)
    requires Deref(objs, r).Some?
    ensures Deref(Alloc(objs, o).0, r) == Deref(objs, r)
    ensures TypeOf(Alloc(objs, o).0, r) == TypeOf(objs, r)
  {
  }

  function BoolRef(b: bool): Ref
  {
    if b then TrueRef else FalseRef
  }

  // ----- outcomes -----

  /**
   * How an operation ends: with a value, with a `return` unwinding to the
   * enclosing call, with a blue error (the message set and the trace raised),
   * with a Go run-time panic (nil dereference, index out of range, failed type
   * assertion), or with the evaluation's fuel exhausted.
   */
  datatype Outcome<T> = Done(value: T) | Returned | Error(msg: string) | Fault(msg: string) | Diverged

  /** An outcome that is not a value, passed on at another result type. */
  function PassOn<T, U>(o: Outcome<T>): (r: Outcome<U>)
    requires !o.Done?
    ensures r.Returned? == o.Returned? && r.Error? == o.Error? && r.Fault? == o.Fault? && r.Diverged? == o.Diverged?
    ensures (r.Error? || r.Fault?) ==> r.msg == o.msg
  {
    match o
    case Returned => Returned
    case Error(m) => Error(m)
    case Fault(m) => Fault(m)
    case Diverged => Diverged
  }

  const NIL_DEREF: string := "invalid memory address or nil pointer dereference"
  const OUT_OF_RANGE: string := "index out of range"
  const BAD_ASSERTION: string := "interface conversion"

  /** The result of a per-type operation: an existing reference, or a new object to allocate. */
  datatype Val = Existing(r: Ref) | Fresh(o: Obj)

  // ----- type objects -----

  datatype Hook = Repr | GetMember | SetMember | EvalCond | Compare | Init

  datatype NumOp = NumNeg | NumCompl | NumOr | NumAnd | NumXor | NumLshift | NumRshift
                 | NumAdd | NumSub | NumMul | NumDiv | NumMod

  datatype SeqOp = SeqItem | SeqAssItem | SeqConcat | SeqRepeat | SeqSize

  datatype NumberMethods = NumberMethods(ops: set<NumOp>, coerce: bool)

  /** A `BlTypeObject`: which hooks are set, its methods, its members map and its base. */
  datatype TypeObject = TypeObject(
    name: string, hooks: set<Hook>, numbers: Option<NumberMethods>, sequence: Option<set<SeqOp>>,
    methods: seq<GFunction>, members: map<string, Ref>, base: Option<TypeObject>)

  const ALL_NUM_OPS: set<NumOp> := {NumNeg, NumCompl, NumOr, NumAnd, NumXor, NumLshift, NumRshift,
                                    NumAdd, NumSub, NumMul, NumDiv, NumMod}

  function StringMethods(): seq<GFunction>
  {
    [NewGFunction("concat", StringConcat, 1),
     NewGFunction("toupper", StringToUpper, 0),
     NewGFunction("tolower", StringToLower, 0)]
  }

  function ListMethods(): seq<GFunction>
  {
    [NewGFunction("append", ListAppend, GFUNC_VARARGS),
     NewGFunction("prepend", ListPrepend, GFUNC_VARARGS),
     NewGFunction("insert", ListInsert, GFUNC_VARARGS),
     NewGFunction("trunc", ListTrunc, GFUNC_NOARGS),
     NewGFunction("reverse", ListReverse, GFUNC_NOARGS)]
  }

  /** The `methods` array of a type; empty for all but string and list. */
  function Methods(t: Tag): seq<GFunction>
  {
    if t == StringType then StringMethods() else if t == ListType then ListMethods() else []
  }

  /** The members map after the first `n` methods have been entered: a later duplicate name wins. */
  function FinishSpec(t: Tag, ms: seq<GFunction>, n: nat): (m: map<string, Ref>)
    requires n <= |ms|
    ensures forall name :: name in m <==> exists i :: 0 <= i < n && ms[i].name == name
  {
    if n == 0 then map[]
    else
      var m := FinishSpec(t, ms, n - 1);
      assert ms[n - 1].name == ms[n - 1].name;
      m[ms[n - 1].name := BuiltinRef(TypeMethods(t), n - 1)]
  }

  /** Each name is bound to the last of the first `n` methods bearing it. */
  lemma {:induction false} FinishLastWins(t: Tag, ms: seq<GFunction>, n: nat, i: nat)
    requires i < n <= |ms|
    requires forall j :: i < j < n ==> ms[j].name != ms[i].name
    ensures FinishSpec(t, ms, n)[ms[i].name] == BuiltinRef(TypeMethods(t), i)
  {
    if i < n - 1 {
      FinishLastWins(t, ms, n - 1, i);
    }
  }

  /** `blTypeFinish`: a fresh members map from each method's name to that method, filled in a loop. */
  method TypeFinish(t: Tag, typeobj: TypeObject) returns (r: TypeObject)
    ensures r == typeobj.(members := FinishSpec(t, typeobj.methods, |typeobj.methods|))
  {
    var members: map<string, Ref> := map[];
    var i := 0;
    while i < |typeobj.methods|
      invariant 0 <= i <= |typeobj.methods|
      invariant members == FinishSpec(t, typeobj.methods, i)
    {
      members := members[typeobj.methods[i].name := BuiltinRef(TypeMethods(t), i)];
      i := i + 1;
    }
    r := typeobj.(members := members);
  }

  /** A type object as its `blInit*` function sets it, before `blTypeFinish`. */
  function Declared(t: Tag): TypeObject
  {
    TypeObject(DeclaredName(t), DeclaredHooks(t), DeclaredNumbers(t), DeclaredSequence(t), Methods(t), map[], None)
  }

  /** The name each `blInit*` function gives its type. */
  function DeclaredName(t: Tag): string
  {
    match t
    case StringType => "string"
    case IntType => "int"
    case FloatType => "float"
    case ListType => "list"
    case RangeType => "range"
    case BoolType => "bool"
    case NilType => "nil"
    case ClassType => "class"
    case InstanceType => "instance"
    case MethodType => "method"
    case FunctionType => "function"
    case GMethodType => "builtin-method"
    case GFunctionType => "builtin-function"
    case TypeType => "type"
    case ModuleType => "module"
  }

  /** The hooks each `blInit*` function fills in. */
  function DeclaredHooks(t: Tag): set<Hook>
  {
    match t
    case StringType => {Repr, GetMember, EvalCond, Compare, Init}
    case IntType => {Repr, EvalCond, Compare, Init}
    case FloatType => {Repr, EvalCond, Compare}
    case ListType => {Repr, GetMember, EvalCond, Compare, Init}
    case RangeType => {Repr}
    case BoolType => {Repr, EvalCond, Compare, Init}
    case NilType => {Repr, EvalCond}
    case ClassType => {Repr, GetMember, SetMember, EvalCond}
    case InstanceType => {Repr, GetMember, SetMember, EvalCond}
    case MethodType => {Repr, EvalCond}
    case FunctionType => {Repr, EvalCond}
    case GMethodType => {Repr, EvalCond}
    case GFunctionType => {Repr, EvalCond}
    case TypeType => {Repr, GetMember, Init}
    case ModuleType => {Repr, GetMember, SetMember}
  }

  /** The number methods: only `int` and `float` have them, and only `float` coerces. */
  function DeclaredNumbers(t: Tag): Option<NumberMethods>
  {
    match t
    case IntType => Some(NumberMethods(ALL_NUM_OPS, false))
    case FloatType => Some(NumberMethods({NumNeg, NumAdd, NumSub, NumMul, NumDiv, NumMod}, true))
    case _ => None
  }

  /** The sequence methods of the types that are sequences. */
  function DeclaredSequence(t: Tag): Option<set<SeqOp>>
  {
    match t
    case StringType => Some({SeqItem, SeqConcat, SeqRepeat})
    case IntType => Some({SeqItem, SeqAssItem})
    case ListType => Some({SeqItem, SeqAssItem, SeqRepeat, SeqSize})
    case RangeType => Some({SeqItem, SeqSize})
    case _ => None
  }

  /** The types whose `blInit*` calls `blTypeFinish`. */
  predicate Finished(t: Tag)
  {
    t == StringType || t == IntType || t == ListType || t == BoolType
  }

  /**
   * The type objects at run time. `BlInitTypes` never initialises the module
   * type, so it keeps Go's zero value: no name and no hooks. A type that is
   * not finished keeps a nil members map, which reads as an empty one.
   */
  function TypeTable(t: Tag): (tobj: TypeObject)
    ensures t != ModuleType ==> tobj == Declared(t).(members := FinishedMembers(t))
    ensures tobj.base == None
  {
    if t == ModuleType then TypeObject("", {}, None, None, [], map[], None)
    else TypeObject(DeclaredName(t), DeclaredHooks(t), DeclaredNumbers(t), DeclaredSequence(t), Methods(t),
                    FinishedMembers(t), None)
  }

  /** The members map `blTypeFinish` fills in: empty for the types it never runs on. */
  function FinishedMembers(t: Tag): map<string, Ref>
  {
    if Finished(t) then FinishSpec(t, Methods(t), |Methods(t)|) else map[]
  }

  function TypeName(t: Tag): string
  {
    TypeTable(t).name
  }

  predicate HasHook(t: Tag, h: Hook)
  {
    h in TypeTable(t).hooks
  }

  predicate HasNumOp(t: Tag, op: NumOp)
  {
    TypeTable(t).numbers.Some? && op in TypeTable(t).numbers.value.ops
  }

  predicate HasSeqOp(t: Tag, op: SeqOp)
  {
    TypeTable(t).sequence.Some? && op in TypeTable(t).sequence.value
  }

  /** The builtin function a `BuiltinRef` designates, if the index is inside its array. */
  function BuiltinAt(table: Table, i: nat): Option<GFunction>
  {
    var fs := match table
              case TypeMethods(t) => TypeTable(t).methods
              case ModuleFunctions(_, funcs) => funcs;
    if i < |fs| then Some(fs[i]) else None
  }

  /** The string and list members maps bind each method name to that method of the array. */
  lemma MembersAreMethods(t: Tag, name: string)
    requires name in TypeTable(t).members
    ensures TypeTable(t).members[name].BuiltinRef?
    ensures TypeTable(t).members[name].table == TypeMethods(t)
    ensures BuiltinAt(TypeMethods(t), TypeTable(t).members[name].index).Some?
    ensures BuiltinAt(TypeMethods(t), TypeTable(t).members[name].index).value.name == name
  {
    var ms := Methods(t);
    assert t == StringType || t == ListType;
    var i :| 0 <= i < |ms| && ms[i].name == name;
    var j := i;
    while j + 1 < |ms| && exists k :: j < k < |ms| && ms[k].name == name
      invariant i <= j < |ms| && ms[j].name == name
      decreases |ms| - j
    {
      var k :| j < k < |ms| && ms[k].name == name;
      j := k;
    }
    FinishLastWins(t, ms, |ms|, j);
  }
}
