/**
 * The protocol every value goes through: the dispatch helpers of
 * blue/objects.go (member get/set, subscript get/set, the unary and binary
 * number operators, the comparison operators, truthiness) and the two
 * protocol functions of objects/object.go that sit above every type,
 * `BlNumCoerce` and `BlCompare`.
 *
 * Each Go helper looks a hook up in the operand's type object and calls
 * it. Here the dispatch is written out per object, and the lemmas of the
 * first section prove that it agrees with the hook table `TypeTable`: an
 * operation reaches a type's code exactly when that type has the hook.
 *
 * A Go helper that returns nil after a hook that set no message of its
 * own leaves the previous message in place; `STALE` stands for it.
 */
module Protocol {
  import opened Common
  import opened Values
  import opened Members
  import opened SmallTypes
  import Tokens
  import Ints = IntObjects
  import Strs = StringObjects
  import Lists = ListObjects

  const STALE: string := "<the previous error message>"

  /**
   * What every heap the interpreter builds satisfies: class bases sit
   * below their classes, instances refer to classes, and every list keeps
   * `lsize == len(list)`.
   */
  predicate WellFormed(objs: seq<Obj>)
  {
    && BasesBelow(objs)
    && InstancesOfClasses(objs)
    && forall a :: 0 <= a < |objs| && objs[a].ListObj? ==> Lists.IsList(objs[a])
  }

  /** The heap after an operation: nothing removed, and no object changes its type. */
  predicate Extends(objs: seq<Obj>, objs': seq<Obj>)
  {
    |objs| <= |objs'| && forall a :: 0 <= a < |objs| ==> TagOf(objs'[a]) == TagOf(objs[a])
  }

  /** An object the protocol creates: never a class or an instance, and a list keeps its size. */
  predicate Allocatable(o: Obj)
  {
    !o.ClassObj? && !o.InstanceObj? && (o.ListObj? ==> Lists.IsList(o))
  }

  predicate FreshOk(v: Val)
  {
    v.Fresh? ==> Allocatable(v.o)
  }

  // ----- the hook table -----

  // The types that carry each hook, read off the table `BlInitTypes` builds.

  /** The types with a member getter: strings, lists, classes, instances and type objects. */
  lemma GetMemberOwners(t: Tag)
    ensures HasHook(t, GetMember) <==> t in {StringType, ListType, ClassType, InstanceType, TypeType}
  {
    var hs: set<Hook> := if t == ModuleType then {} else DeclaredHooks(t);
    assert TypeTable(t).hooks == hs;
  }

  /** The types with a member setter: classes and instances. */
  lemma SetMemberOwners(t: Tag)
    ensures HasHook(t, SetMember) <==> t == ClassType || t == InstanceType
  {
    var hs: set<Hook> := if t == ModuleType then {} else DeclaredHooks(t);
    assert TypeTable(t).hooks == hs;
  }

  /** Every type but ranges, type objects and modules has a truth hook. */
  lemma EvalCondOwners(t: Tag)
    ensures HasHook(t, EvalCond) <==> t !in {RangeType, TypeType, ModuleType}
  {
    var hs: set<Hook> := if t == ModuleType then {} else DeclaredHooks(t);
    assert TypeTable(t).hooks == hs;
  }

  /** The comparable types. */
  lemma CompareOwners(t: Tag)
    ensures HasHook(t, Compare) <==> t in {StringType, IntType, FloatType, ListType, BoolType}
  {
    var hs: set<Hook> := if t == ModuleType then {} else DeclaredHooks(t);
    assert TypeTable(t).hooks == hs;
  }

  /** The types that can be called to construct a value. */
  lemma InitOwners(t: Tag)
    ensures HasHook(t, Init) <==> t in {StringType, IntType, ListType, BoolType, TypeType}
  {
    var hs: set<Hook> := if t == ModuleType then {} else DeclaredHooks(t);
    assert TypeTable(t).hooks == hs;
  }


  /** Every type but the module type can be printed. */
  lemma ReprOwners(t: Tag)
    ensures HasHook(t, Repr) <==> t != ModuleType
  {
  }

  /** The types that are sequences. */
  lemma SeqOwners(t: Tag)
    ensures TypeTable(t).sequence.Some? <==> t in {StringType, IntType, ListType, RangeType}
    ensures HasSeqOp(t, SeqItem) <==> TypeTable(t).sequence.Some?
  {
  }

  /** Ints and lists store items. */
  lemma AssItemOwners(t: Tag)
    ensures HasSeqOp(t, SeqAssItem) <==> t == IntType || t == ListType
  {
    assert TypeTable(t).sequence == if t == ModuleType then None else DeclaredSequence(t);
  }

  /** Only strings concatenate. */
  lemma ConcatOwners(t: Tag)
    ensures HasSeqOp(t, SeqConcat) <==> t == StringType
  {
    assert TypeTable(t).sequence == if t == ModuleType then None else DeclaredSequence(t);
  }

  /** Strings and lists repeat. */
  lemma RepeatOwners(t: Tag)
    ensures HasSeqOp(t, SeqRepeat) <==> t == StringType || t == ListType
  {
    assert TypeTable(t).sequence == if t == ModuleType then None else DeclaredSequence(t);
  }


  /** The number types: int and float, of which only float coerces. */
  lemma NumberOwners(t: Tag)
    ensures TypeTable(t).numbers.Some? <==> t == IntType || t == FloatType
    ensures TypeTable(t).numbers.Some? && TypeTable(t).numbers.value.coerce <==> t == FloatType
  {
  }

  /** Int has every number operation, float the arithmetic ones and negation. */
  lemma NumOpOwners(t: Tag, op: NumOp)
    ensures HasNumOp(t, op) <==>
      t == IntType || (t == FloatType && op in {NumNeg, NumAdd, NumSub, NumMul, NumDiv, NumMod})
  {
  }

  // ----- members -----

  function CantGet(owner: string): string
  {
    "cant retrieve members from the '" + owner + "' object"
  }

  function CantSet(owner: string): string
  {
    "cant set members on the '" + owner + "' object"
  }

  /** A hook outcome that leaves the heap as it was. */
  function Keep(objs: seq<Obj>, r: Outcome<Val>): (r': Outcome<(seq<Obj>, Val)>)
    ensures r'.Done? <==> r.Done?
    ensures r'.Done? ==> r'.value == (objs, r.value)
    ensures !r.Done? ==> r' == PassOn(r)
  {
    match r
    case Done(v) => Done((objs, v))
    case _ => PassOn(r)
  }

  /**
   * `blGetMember`: the type's `GetMember` hook, which strings and lists
   * take from `genericGetMember`, classes, instances and type objects
   * from their own files; the heap changes only when an instance rebinds
   * a method.
   */
  function GetMemberOf(objs: seq<Obj>, obj: Ref, name: string): (r: Outcome<(seq<Obj>, Val)>)
    requires WellFormed(objs)
    ensures r.Done? ==> |r.value.0| == |objs| && Extends(objs, r.value.0) && WellFormed(r.value.0) && FreshOk(r.value.1)
    ensures !r.Returned?
  {
    match TypeOf(objs, obj)
    case None => Fault(NIL_DEREF)
    case Some(t) =>
      if !HasHook(t, GetMember) then Error(CantGet(TypeName(t)))
      else if obj.Ptr? && objs[obj.addr].InstanceObj? then
        InstanceGetMemberKeeps(objs, obj.addr, name);
        InstanceGetMember(objs, obj.addr, name)
      else Keep(objs, LookupMember(objs, obj, t, name))
  }

  /** The getters that leave the heap as it is: a class's, a type object's, and the generic one. */
  function LookupMember(objs: seq<Obj>, obj: Ref, t: Tag, name: string): (r: Outcome<Val>)
    requires WellFormed(objs) && TypeOf(objs, obj) == Some(t)
    ensures r.Done? ==> FreshOk(r.value)
    ensures !r.Returned?
  {
    match obj
    case Ptr(a) =>
      if objs[a].ClassObj? then ClassGetMember(objs, a, name) else GenericGetMember(t, name, obj)
    case TypeRef(tag) => TypeGetMember(tag, name)
    case _ => GenericGetMember(t, name, obj)
  }

  /** An instance's lookup keeps the heap well formed: it only rebinds methods. */
  lemma InstanceGetMemberKeeps(objs: seq<Obj>, a: nat, name: string)
    requires WellFormed(objs) && InstanceAt(objs, a)
    ensures var r := InstanceGetMember(objs, a, name);
      r.Done? ==> Extends(objs, r.value.0) && WellFormed(r.value.0) && FreshOk(r.value.1)
  {
  }

  /** Member access fails on nil, on every type without the hook, and on modules, whose type was never filled in. */
  lemma GetMemberNeedsHook(objs: seq<Obj>, obj: Ref, name: string)
    requires WellFormed(objs)
    ensures TypeOf(objs, obj).None? ==> GetMemberOf(objs, obj, name) == Fault(NIL_DEREF)
    ensures TypeOf(objs, obj).Some? && !HasHook(TypeOf(objs, obj).value, GetMember) ==>
      GetMemberOf(objs, obj, name) == Error(CantGet(TypeName(TypeOf(objs, obj).value)))
    ensures Deref(objs, obj).Some? && Deref(objs, obj).value.ModuleObj? ==>
      GetMemberOf(objs, obj, name) == Error(CantGet(""))
  {
    TypeOfModule(objs, obj);
    if TypeOf(objs, obj) == Some(ModuleType) {
      GetMemberOwners(ModuleType);
      assert TypeName(ModuleType) == "";
    }
  }

  /** On a string or list the member is the type's method, bound to the value. */
  lemma GetMemberOfSequence(objs: seq<Obj>, obj: Ref, name: string)
    requires WellFormed(objs)
    requires Deref(objs, obj).Some? && (Deref(objs, obj).value.StringObj? || Deref(objs, obj).value.ListObj?)
    ensures var t := TagOf(Deref(objs, obj).value);
      GetMemberOf(objs, obj, name) == Keep(objs, GenericGetMember(t, name, obj))
  {
    var t := TagOf(Deref(objs, obj).value);
    GetMemberOwners(t);
    assert TypeOf(objs, obj) == Some(t);
    assert LookupMember(objs, obj, t, name) == GenericGetMember(t, name, obj);
  }

  /** A string or list has exactly its type's methods as members. */
  lemma SequenceMembers(objs: seq<Obj>, obj: Ref, name: string)
    requires WellFormed(objs)
    requires Deref(objs, obj).Some? && (Deref(objs, obj).value.StringObj? || Deref(objs, obj).value.ListObj?)
    ensures var t := TagOf(Deref(objs, obj).value);
      GetMemberOf(objs, obj, name).Done? <==> exists i :: 0 <= i < |Methods(t)| && Methods(t)[i].name == name
  {
    GetMemberOfSequence(objs, obj, name);
    MethodLookup(TagOf(Deref(objs, obj).value), name, obj);
  }


  /**
   * `blSetMember`: classes and instances store the value (a class refuses
   * a bad `__init__`); every other type fails.
   */
  function SetMemberOf(objs: seq<Obj>, obj: Ref, name: string, value: Ref): (r: Outcome<seq<Obj>>)
    requires WellFormed(objs)
    ensures r.Done? ==> |r.value| == |objs| && Extends(objs, r.value) && WellFormed(r.value)
    ensures !r.Returned?
  {
    match TypeOf(objs, obj)
    case None => Fault(NIL_DEREF)
    case Some(t) =>
      if t == ClassType then
        match ClassSetMember(objs, objs[obj.addr], name, value)
        case Done(c) => Done(objs[obj.addr := c])
        case other => PassOn(other)
      else if t == InstanceType then Done(objs[obj.addr := InstanceSetMember(objs[obj.addr], name, value)])
      else Error(CantSet(TypeName(t)))
  }

  /** The dispatch agrees with the table: the set fails with the generic message exactly when the hook is missing. */
  lemma SetMemberNeedsHook(objs: seq<Obj>, obj: Ref, name: string, value: Ref)
    requires WellFormed(objs) && TypeOf(objs, obj).Some?
    ensures var t := TypeOf(objs, obj).value;
      SetMemberOf(objs, obj, name, value) == Error(CantSet(TypeName(t))) <==> !HasHook(t, SetMember)
  {
    var t := TypeOf(objs, obj).value;
    SetMemberOwners(t);
    var r := SetMemberOf(objs, obj, name, value);
    if t == ClassType {
      var c := ClassSetMember(objs, objs[obj.addr], name, value);
      assert r.Done? || r == PassOn(c);
      assert CantSet(TypeName(t))[0] == 'c';
      assert BAD_INIT == "'__init__' must be a blue function or blue method";
    } else if t == InstanceType {
      assert r.Done?;
    } else {
      assert r == Error(CantSet(TypeName(t)));
    }
  }

  /** A stored member reads back: on an instance the slot holds the value, on a class the lookup finds it first. */
  lemma SetThenGetMember(objs: seq<Obj>, obj: Ref, name: string, value: Ref)
    requires WellFormed(objs) && Deref(objs, obj).Some? && Deref(objs, obj).value.InstanceObj?
    ensures SetMemberOf(objs, obj, name, value).Done?
    ensures SetMemberOf(objs, obj, name, value).value[obj.addr].members[name] == value
    ensures forall x :: 0 <= x < |objs| && x != obj.addr ==> SetMemberOf(objs, obj, name, value).value[x] == objs[x]
  {
  }

  // ----- subscripts -----

  function NotSubscriptable(owner: string): string { "'" + owner + "' object is not subscriptable" }
  function NoGetter(owner: string): string { "'" + owner + "' object has no subscript getter" }
  function NoSetter(owner: string): string { "'" + owner + "' object has no subscript setter" }
  function BadIndex(owner: string): string { "'" + owner + "' indices must be integers" }

  /** The Int behind a reference, if it is one: Go's `key.(*BlIntObject)` with the `ok` test. */
  function IntValue(objs: seq<Obj>, r: Ref): Option<int64>
  {
    match Deref(objs, r)
    case Some(IntObj(v)) => Some(v)
    case _ => None
  }

  /** A hook's result of another type, lifted into a value. */
  function Made<T>(r: Outcome<T>, make: T -> Obj): (r': Outcome<Val>)
    ensures r'.Done? <==> r.Done?
    ensures r'.Done? ==> r'.value == Fresh(make(r.value))
    ensures !r.Done? ==> r' == PassOn(r)
  {
    match r
    case Done(v) => Done(Fresh(make(v)))
    case _ => PassOn(r)
  }

  /** The `SeqItem` hooks: a one-byte string, a bit of an int, a list slot, a range element. */
  function ItemHook(objs: seq<Obj>, o: Obj, num: int64): (r: Outcome<Val>)
    requires o.StringObj? || o.IntObj? || o.ListObj? || o.RangeObj?
  {
    match o
    case StringObj(s) => Made(Strs.Item(s, num), (v: string) => StringObj(v))
    case IntObj(v) => Made(Ints.Item(v, num), (b: int64) => IntObj(b))
    case ListObj(_, _) =>
      (match Lists.Item(o, num)
       case Done(x) => Done(Existing(x))
       case other => PassOn(other))
    case RangeObj(_, _) => Made(RangeItem(o, num), (i: int64) => IntObj(i))
  }

  /**
   * `blGetSeqItem`: the type must have a sequence table with a getter and
   * the key must be an Int, whose value is passed on unchanged (no
   * negative-index adjustment).
   */
  function GetSeqItem(objs: seq<Obj>, obj: Ref, key: Ref): (r: Outcome<Val>)
    ensures r.Done? ==> FreshOk(r.value)
    ensures !r.Returned?
  {
    match TypeOf(objs, obj)
    case None => Fault(NIL_DEREF)
    case Some(t) =>
      if TypeTable(t).sequence.None? then Error(NotSubscriptable(TypeName(t)))
      else if !HasSeqOp(t, SeqItem) then Error(NoGetter(TypeName(t)))
      else match IntValue(objs, key)
        case None => Error(BadIndex(TypeName(t)))
        case Some(n) =>
          SeqOwners(t);
          ItemHook(objs, objs[obj.addr], n)
  }

  /** Subscripting checks the table first, then the key, and hands the key's value to the hook unchanged. */
  lemma GetSeqItemOrder(objs: seq<Obj>, obj: Ref, key: Ref)
    requires TypeOf(objs, obj).Some?
    ensures var t := TypeOf(objs, obj).value;
      && (TypeTable(t).sequence.None? ==> GetSeqItem(objs, obj, key) == Error(NotSubscriptable(TypeName(t))))
      && (TypeTable(t).sequence.Some? && IntValue(objs, key).None? ==> GetSeqItem(objs, obj, key) == Error(BadIndex(TypeName(t))))
      && (TypeTable(t).sequence.Some? && IntValue(objs, key).Some? ==>
            GetSeqItem(objs, obj, key) == ItemHook(objs, objs[obj.addr], IntValue(objs, key).value))
  {
    SeqOwners(TypeOf(objs, obj).value);
  }

  /** A negative index is not counted from the end: it fails on every sequence. */
  lemma NegativeIndexFails(objs: seq<Obj>, obj: Ref, key: Ref)
    requires TypeOf(objs, obj).Some? && TypeTable(TypeOf(objs, obj).value).sequence.Some?
    requires IntValue(objs, key).Some? && IntValue(objs, key).value < 0
    ensures GetSeqItem(objs, obj, key).Error?
  {
    SeqOwners(TypeOf(objs, obj).value);
  }

  /**
   * `blSetSeqItem`: the setter is the int's bit store (the Int object is
   * changed in place, so every reference to it sees the new value) or
   * the list's slot store; strings and ranges have none.
   */
  function SetSeqItem(objs: seq<Obj>, obj: Ref, value: Ref, key: Ref): (r: Outcome<seq<Obj>>)
    ensures r.Done? ==> |r.value| == |objs| && obj.Ptr? && obj.addr < |objs|
    ensures r.Done? ==> forall x :: 0 <= x < |objs| && x != obj.addr ==> r.value[x] == objs[x]
    ensures !r.Returned?
  {
    match TypeOf(objs, obj)
    case None => Fault(NIL_DEREF)
    case Some(t) =>
      if TypeTable(t).sequence.None? then Error(NotSubscriptable(TypeName(t)))
      else if !HasSeqOp(t, SeqAssItem) then Error(NoSetter(TypeName(t)))
      else match IntValue(objs, key)
        case None => Error(BadIndex(TypeName(t)))
        case Some(n) =>
          SeqOwners(t);
          AssItemOwners(t);
          var o := objs[obj.addr];
          if o.IntObj? then
            match Ints.AssItem(o.ival, IntValue(objs, value), n)
            case Done(w) => Done(objs[obj.addr := IntObj(w)])
            case other => PassOn(other)
          else
            match Lists.AssItem(o, value, n)
            case Done(l) => Done(objs[obj.addr := l])
            case other => PassOn(other)
  }

  /** A subscript store changes one int's bits or one list's slot, so the heap keeps its shape. */
  lemma SetSeqItemKeepsShape(objs: seq<Obj>, obj: Ref, value: Ref, key: Ref)
    requires WellFormed(objs) && SetSeqItem(objs, obj, value, key).Done?
    ensures Extends(objs, SetSeqItem(objs, obj, value, key).value)
    ensures WellFormed(SetSeqItem(objs, obj, value, key).value)
  {
    var objs' := SetSeqItem(objs, obj, value, key).value;
    var o := objs[obj.addr];
    var t := TagOf(o);
    assert TypeOf(objs, obj) == Some(t);
    SeqOwners(t);
    AssItemOwners(t);
    var n := IntValue(objs, key).value;
    if o.ListObj? {
      var l := Lists.AssItem(o, value, n);
      assert objs' == objs[obj.addr := l.value];
      ReplaceScalar(objs, obj.addr, l.value);
    } else {
      var w := Ints.AssItem(o.ival, IntValue(objs, value), n);
      assert objs' == objs[obj.addr := IntObj(w.value)];
      ReplaceScalar(objs, obj.addr, IntObj(w.value));
    }
  }

  /** Replacing an object that is neither a class nor an instance by one of its own type keeps the heap's shape. */
  lemma ReplaceScalar(objs: seq<Obj>, a: nat, o: Obj)
    requires WellFormed(objs) && a < |objs| && TagOf(o) == TagOf(objs[a])
    requires !o.ClassObj? && !o.InstanceObj? && (o.ListObj? ==> Lists.IsList(o))
    ensures Extends(objs, objs[a := o]) && WellFormed(objs[a := o])
  {
    var objs' := objs[a := o];
    assert !objs[a].ClassObj? && !objs[a].InstanceObj?;
    forall x | 0 <= x < |objs'| && objs'[x].InstanceObj? ensures objs'[x].cls.Ptr? && ClassAt(objs', objs'[x].cls.addr) {
      assert ClassAt(objs, objs[x].cls.addr);
    }
  }


  /** A bit stored into an int is read back through the same dispatch. */
  lemma SetThenGetBit(objs: seq<Obj>, obj: Ref, key: Ref, value: Ref)
    requires Deref(objs, obj).Some? && Deref(objs, obj).value.IntObj?
    requires IntValue(objs, key).Some? && 0 <= IntValue(objs, key).value <= 63
    requires IntValue(objs, value).Some? && (IntValue(objs, value).value == 0 || IntValue(objs, value).value == 1)
    requires key.addr != obj.addr
    ensures SetSeqItem(objs, obj, value, key).Done?
    ensures GetSeqItem(SetSeqItem(objs, obj, value, key).value, obj, key)
      == Done(Fresh(IntObj(IntValue(objs, value).value)))
  {
    var n := IntValue(objs, key).value;
    var v := objs[obj.addr].ival;
    var x := IntValue(objs, value).value;
    Ints.ItemAfterAssItem(v, x, n);
    SeqOwners(IntType);
    AssItemOwners(IntType);
    var w := Ints.AssItem(v, Some(x), n).value;
    assert TypeOf(objs, obj) == Some(IntType);
    var objs' := objs[obj.addr := IntObj(w)];
    assert SetSeqItem(objs, obj, value, key) == Done(objs');
    assert IntValue(objs', key) == Some(n);
    assert TypeOf(objs', obj) == Some(IntType);
    assert GetSeqItem(objs', obj, key) == ItemHook(objs', IntObj(w), n);
  }

  // ----- number operators -----

  function BadOperand(op: string): string { "bad operand type for '" + op + "'" }
  function BadOperands(op: string): string { "bad operand types for '" + op + "'" }

  const FLOAT_DIV_ZERO: string := "float division by zero"
  const FLOAT_MOD_ZERO: string := "float modulo by zero"

  /** `blNumNegate`: int wraps, float negates; every other type fails. */
  function Negate(objs: seq<Obj>, obj: Ref): (r: Outcome<Val>)
    ensures r.Done? ==> r.value.Fresh?
    ensures r.Done? ==> FreshOk(r.value)
    ensures !r.Returned?
  {
    match TypeOf(objs, obj)
    case None => Fault(NIL_DEREF)
    case Some(t) =>
      match Deref(objs, obj)
      case Some(IntObj(v)) => Done(Fresh(IntObj(Ints.Neg(v))))
      case Some(FloatObj(f)) => Done(Fresh(FloatObj(FloatNeg(f))))
      case _ => Error(BadOperand("-"))
  }

  /** `blNumCompl`: only ints have a complement. */
  function Complement(objs: seq<Obj>, obj: Ref): (r: Outcome<Val>)
    ensures r.Done? ==> r.value.Fresh?
    ensures r.Done? ==> FreshOk(r.value)
    ensures !r.Returned?
  {
    match TypeOf(objs, obj)
    case None => Fault(NIL_DEREF)
    case Some(t) =>
      match Deref(objs, obj)
      case Some(IntObj(v)) => Done(Fresh(IntObj(Ints.Compl(v))))
      case _ => Error(BadOperand("~"))
  }

  /** The unary dispatch agrees with the table: it reaches a type's code exactly when the type has the operation. */
  lemma UnaryNeedsOp(objs: seq<Obj>, obj: Ref)
    requires TypeOf(objs, obj).Some?
    ensures Negate(objs, obj).Done? <==> HasNumOp(TypeOf(objs, obj).value, NumNeg)
    ensures Complement(objs, obj).Done? <==> HasNumOp(TypeOf(objs, obj).value, NumCompl)
    ensures !Negate(objs, obj).Done? ==> Negate(objs, obj) == Error(BadOperand("-"))
  {
    NumOpOwners(TypeOf(objs, obj).value, NumNeg);
    NumOpOwners(TypeOf(objs, obj).value, NumCompl);
  }

  /** Whether an object is a number: its type has a number table. */
  predicate IsNumber(o: Obj)
  {
    o.IntObj? || o.FloatObj?
  }

  /**
   * `BlNumCoerce` on the objects behind `a` (a number, as every caller
   * checks) and `b`: the operands unchanged when the types agree, else an
   * Int side replaced by a new Float when the other side is a Float, else
   * `None` (-1). A nil `b` panics when its type is read.
   */
  function NumCoerce(objs: seq<Obj>, a: Ref, b: Ref): (r: Outcome<Option<(Obj, Obj)>>)
    requires Deref(objs, a).Some? && IsNumber(Deref(objs, a).value)
    ensures r.Done? || r == Fault(NIL_DEREF)
    ensures r.Done? && r.value.Some? ==> TagOf(r.value.value.0) == TagOf(r.value.value.1) && IsNumber(r.value.value.0)
  {
    var x := objs[a.addr];
    match TypeOf(objs, b)
    case None => Fault(NIL_DEREF)
    case Some(tb) =>
      match Deref(objs, b)
      case Some(y) =>
        if TagOf(x) == TagOf(y) then Done(Some((x, y)))
        else if x.FloatObj? && y.IntObj? then Done(Some((x, FloatObj(FloatOfInt(y.ival)))))
        else if x.IntObj? && y.FloatObj? then Done(Some((FloatObj(FloatOfInt(x.ival)), y)))
        else Done(None)
      case None => Done(None)
  }

  /**
   * Coercion succeeds exactly for two numbers; mixing int and float gives
   * two floats, the int converted, whichever side it was on.
   */
  lemma CoerceMeaning(objs: seq<Obj>, a: Ref, b: Ref)
    requires Deref(objs, a).Some? && IsNumber(Deref(objs, a).value) && TypeOf(objs, b).Some?
    ensures NumCoerce(objs, a, b).Done?
    ensures NumCoerce(objs, a, b).value.Some? <==> Deref(objs, b).Some? && IsNumber(Deref(objs, b).value)
    ensures var x := Deref(objs, a).value;
      Deref(objs, b).Some? && Deref(objs, b).value.IntObj? && x.FloatObj? ==>
        NumCoerce(objs, a, b) == Done(Some((x, FloatObj(FloatOfInt(Deref(objs, b).value.ival)))))
    ensures var x := Deref(objs, a).value;
      Deref(objs, b).Some? && Deref(objs, b).value.FloatObj? && x.IntObj? ==>
        NumCoerce(objs, a, b) == Done(Some((FloatObj(FloatOfInt(x.ival)), Deref(objs, b).value)))
  {
  }

  /** A float operation; division and modulo by a zero divisor fail. */
  function FloatOp(op: NumOp, x: Float, y: Float, fs: FloatSem): (r: Outcome<Val>)
    requires op in {NumAdd, NumSub, NumMul, NumDiv, NumMod}
  {
    match op
    case NumAdd => Done(Fresh(FloatObj(FloatArith(FAdd, x, y))))
    case NumSub => Done(Fresh(FloatObj(FloatArith(FSub, x, y))))
    case NumMul => Done(Fresh(FloatObj(FloatArith(FMul, x, y))))
    case NumDiv => if fs.isZero(y) then Error(FLOAT_DIV_ZERO) else Done(Fresh(FloatObj(FloatArith(FDiv, x, y))))
    case NumMod => if fs.isZero(y) then Error(FLOAT_MOD_ZERO) else Done(Fresh(FloatObj(FloatArith(FMod, x, y))))
  }

  /** The number step of a binary operator: coerce, then the coerced left type's operation. */
  function NumberStep(objs: seq<Obj>, op: NumOp, a: Ref, b: Ref, text: string, fs: FloatSem): (r: Outcome<Val>)
    requires op != NumNeg && op != NumCompl
    requires Deref(objs, a).Some? && IsNumber(Deref(objs, a).value)
  {
    match NumCoerce(objs, a, b)
    case Done(Some((x, y))) =>
      if x.IntObj? then Made(Ints.Binary(op, x.ival, y.ival), (v: int64) => IntObj(v))
      else if op in {NumAdd, NumSub, NumMul, NumDiv, NumMod} then FloatOp(op, x.fval, y.fval, fs)
      else Error(BadOperands(text))
    case Done(None) => Error(BadOperands(text))
    case other => PassOn(other)
  }

  /**
   * The binary number helpers `blNumOr` ... `blNumModulo`, with `text` the
   * operator as written (`"+"`, `"+="`, ...). `+` first tries the left
   * operand's `SeqConcat` and `*` its `SeqRepeat`; otherwise the left type
   * must have a number table. An operation that fails with its own message
   * (division by zero) keeps it.
   */
  function Binary(objs: seq<Obj>, op: NumOp, a: Ref, b: Ref, text: string, fs: FloatSem): (r: Outcome<Val>)
    requires op != NumNeg && op != NumCompl
    requires WellFormed(objs)
    ensures r.Done? ==> FreshOk(r.value)
    ensures !r.Returned?
  {
    var x := Deref(objs, a);
    if TypeOf(objs, a).None? then Fault(NIL_DEREF)
    else if x.Some? && x.value.StringObj? then
      if op == NumAdd then Made(Strs.Concat(x.value.sval, b, objs), (v: string) => StringObj(v))
      else if op == NumMul then Repeated(a, Strs.RepeatSpec(x.value.sval, IntValue(objs, b)), (v: string) => StringObj(v))
      else Error(BadOperands(text))
    else if x.Some? && x.value.ListObj? then
      if op == NumMul then Repeated(a, Lists.Repeat(x.value, IntValue(objs, b)), (l: Obj) => l)
      else Error(BadOperands(text))
    else if x.Some? && IsNumber(x.value) then NumberStep(objs, op, a, b, text, fs)
    else Error(BadOperands(text))
  }

  /** A `SeqRepeat` result: `None` (a count of 1) hands back the left operand itself. */
  function Repeated<T>(a: Ref, r: Outcome<Option<T>>, make: T -> Obj): (r': Outcome<Val>)
    ensures r == Done(None) ==> r' == Done(Existing(a))
    ensures r.Done? && r.value.Some? ==> r' == Done(Fresh(make(r.value.value)))
    ensures !r.Done? ==> r' == PassOn(r)
  {
    match r
    case Done(None) => Done(Existing(a))
    case Done(Some(v)) => Done(Fresh(make(v)))
    case _ => PassOn(r)
  }

  /** `+` on a string is concatenation and never reaches the numbers, whatever the right operand. */
  lemma AddTriesConcatFirst(objs: seq<Obj>, a: Ref, b: Ref, text: string, fs: FloatSem)
    requires WellFormed(objs) && Deref(objs, a).Some? && Deref(objs, a).value.StringObj?
    ensures HasSeqOp(TagOf(Deref(objs, a).value), SeqConcat)
    ensures Binary(objs, NumAdd, a, b, text, fs) == Made(Strs.Concat(Deref(objs, a).value.sval, b, objs), (v: string) => StringObj(v))
  {
    SeqOwners(StringType);
    ConcatOwners(StringType);
    NumberOwners(StringType);
  }

  /** `*` on a list or string is repetition; a multiplier of 1 gives the same object back. */
  lemma MulTriesRepeatFirst(objs: seq<Obj>, a: Ref, b: Ref, text: string, fs: FloatSem)
    requires WellFormed(objs) && Deref(objs, a).Some?
    requires Deref(objs, a).value.StringObj? || Deref(objs, a).value.ListObj?
    requires IntValue(objs, b) == Some(1)
    ensures HasSeqOp(TagOf(Deref(objs, a).value), SeqRepeat)
    ensures Binary(objs, NumMul, a, b, text, fs) == Done(Existing(a))
  {
    RepeatOwners(TagOf(Deref(objs, a).value));
  }

  /**
   * The number dispatch agrees with the table: a left operand without a
   * number table (and no sequence hook for the operator) fails with the
   * operator's text, and so does an operand pair coercion cannot join.
   */
  lemma BinaryNeedsNumbers(objs: seq<Obj>, op: NumOp, a: Ref, b: Ref, text: string, fs: FloatSem)
    requires op != NumNeg && op != NumCompl && WellFormed(objs) && TypeOf(objs, a).Some?
    requires var ta := TypeOf(objs, a).value;
      TypeTable(ta).numbers.None? && !(op == NumAdd && HasSeqOp(ta, SeqConcat)) && !(op == NumMul && HasSeqOp(ta, SeqRepeat))
    ensures Binary(objs, op, a, b, text, fs) == Error(BadOperands(text))
  {
    NumberOwners(TypeOf(objs, a).value);
  }

  /** Int with float, in either order, is computed in floats. */
  lemma MixedArithmeticIsFloat(objs: seq<Obj>, op: NumOp, a: Ref, b: Ref, text: string, fs: FloatSem)
    requires op in {NumAdd, NumSub, NumMul} && WellFormed(objs)
    requires Deref(objs, a).Some? && Deref(objs, b).Some?
    requires (Deref(objs, a).value.IntObj? && Deref(objs, b).value.FloatObj?)
          || (Deref(objs, a).value.FloatObj? && Deref(objs, b).value.IntObj?)
    ensures Binary(objs, op, a, b, text, fs).Done?
    ensures Binary(objs, op, a, b, text, fs).value.Fresh? && Binary(objs, op, a, b, text, fs).value.o.FloatObj?
  {
    CoerceMeaning(objs, a, b);
  }

  /** A zero int divisor keeps the int type's own message. */
  lemma IntDivisionByZero(objs: seq<Obj>, a: Ref, b: Ref, text: string, fs: FloatSem)
    requires WellFormed(objs) && IntValue(objs, a).Some? && IntValue(objs, b) == Some(0)
    ensures Binary(objs, NumDiv, a, b, text, fs) == Error(Ints.DIV_ZERO)
    ensures Binary(objs, NumMod, a, b, text, fs) == Error(Ints.MOD_ZERO)
  {
  }

  // ----- comparison -----

  /**
   * What `BlCompare` returns: an order value, or -2 with the message
   * "types cannot be ordered". A string comparison can also give -2 as a
   * plain byte difference; that is an `Ordered(-2)`.
   */
  datatype Order = Ordered(v: int) | Unordered(msg: string)

  /** The int `BlCompare` returns. */
  function OrderValue(o: Order): int
  {
    if o.Unordered? then -2 else o.v
  }

  function CannotOrder(a: string, b: string): string
  {
    "types cannot be ordered, '" + a + "' and '" + b + "'"
  }

  /** `blFloatCompare`: `<` then `>`, else equal. */
  function FloatCompare(x: Float, y: Float, fs: FloatSem): int
  {
    if fs.less(x, y) then -1 else if fs.less(y, x) then 1 else 0
  }

  /** The `Compare` hook of the number types, on two coerced operands of the same type. */
  function NumberCompare(x: Obj, y: Obj, fs: FloatSem): int
    requires IsNumber(x) && TagOf(x) == TagOf(y)
  {
    if x.IntObj? then Ints.Compare(x.ival, y.ival) else FloatCompare(x.fval, y.fval, fs)
  }

  /**
   * `BlCompare`. Lists compare element by element through `BlCompare`
   * again; a list that contains itself makes the Go recursion unbounded,
   * which `fuel` bounds (`Diverged`).
   */
  function CompareSpec(objs: seq<Obj>, a: Ref, b: Ref, fs: FloatSem, fuel: nat): (r: Outcome<Order>)
    decreases fuel, 0
    ensures !r.Returned?
  {
    var ta, tb := TypeOf(objs, a), TypeOf(objs, b);
    var x, y := Deref(objs, a), Deref(objs, b);
    if a == b then Done(Ordered(0))
    else if ta.None? || tb.None? then Fault(NIL_DEREF)
    else if ta != tb then
      if x.Some? && IsNumber(x.value) then
        var c := NumCoerce(objs, a, b);
        if !c.Done? then PassOn(c)
        else if c.value.Some? then Done(Ordered(NumberCompare(c.value.value.0, c.value.value.1, fs)))
        else Done(Unordered(CannotOrder(TypeName(ta.value), TypeName(tb.value))))
      else Done(Unordered(CannotOrder(TypeName(ta.value), TypeName(tb.value))))
    else if ta.value == BoolType then Done(Ordered(BoolCompare(a == TrueRef, b == TrueRef)))
    else if x.None? || y.None? then Done(Unordered(CannotOrder(TypeName(ta.value), TypeName(tb.value))))
    else if x.value.StringObj? then Done(Ordered(Strs.CompareSpec(x.value.sval, y.value.sval)))
    else if x.value.IntObj? then Done(Ordered(Ints.Compare(x.value.ival, y.value.ival)))
    else if x.value.FloatObj? then Done(Ordered(FloatCompare(x.value.fval, y.value.fval, fs)))
    else if x.value.ListObj? then
      if fuel == 0 then Diverged
      else ListCompareFrom(objs, x.value, y.value, 0, fs, fuel - 1)
    else Done(Unordered(CannotOrder(TypeName(ta.value), TypeName(tb.value))))
  }

  /** `blListCompare` from index `i`: the first nonzero element comparison, else the sizes. */
  function ListCompareFrom(objs: seq<Obj>, x: Obj, y: Obj, i: nat, fs: FloatSem, fuel: nat): (r: Outcome<Order>)
    requires x.ListObj? && y.ListObj?
    decreases fuel, 1, x.lsize - i
    ensures !r.Returned?
  {
    if i < x.lsize && i < y.lsize then
      if i >= |x.list| || i >= |y.list| then Fault(OUT_OF_RANGE)
      else match CompareSpec(objs, x.list[i], y.list[i], fs, fuel)
        case Done(o) => if OrderValue(o) != 0 then Done(o) else ListCompareFrom(objs, x, y, i + 1, fs, fuel)
        case other => other
    else Done(Ordered(if x.lsize < y.lsize then -1 else if x.lsize > y.lsize then 1 else 0))
  }

  /** Every reference compares equal to itself. */
  lemma CompareSelf(objs: seq<Obj>, a: Ref, fs: FloatSem, fuel: nat)
    ensures CompareSpec(objs, a, a, fs, fuel) == Done(Ordered(0))
  {
  }

  /** Two values of different, not both numeric, types cannot be ordered. */
  lemma CompareMismatch(objs: seq<Obj>, a: Ref, b: Ref, fs: FloatSem, fuel: nat)
    requires a != b && TypeOf(objs, a).Some? && TypeOf(objs, b).Some? && TypeOf(objs, a) != TypeOf(objs, b)
    requires !(Deref(objs, a).Some? && IsNumber(Deref(objs, a).value) && Deref(objs, b).Some? && IsNumber(Deref(objs, b).value))
    ensures CompareSpec(objs, a, b, fs, fuel) == Done(Unordered(CannotOrder(TypeName(TypeOf(objs, a).value), TypeName(TypeOf(objs, b).value))))
  {
    if Deref(objs, a).Some? && IsNumber(Deref(objs, a).value) {
      CoerceMeaning(objs, a, b);
      assert NumCoerce(objs, a, b) == Done(None);
    }
  }


  /** An int and a float compare as two floats, whichever side the int is on. */
  lemma CompareMixedNumbers(objs: seq<Obj>, a: Ref, b: Ref, fs: FloatSem, fuel: nat)
    requires IntValue(objs, a).Some? && Deref(objs, b).Some? && Deref(objs, b).value.FloatObj?
    ensures CompareSpec(objs, a, b, fs, fuel)
      == Done(Ordered(FloatCompare(FloatOfInt(IntValue(objs, a).value), Deref(objs, b).value.fval, fs)))
    ensures CompareSpec(objs, b, a, fs, fuel)
      == Done(Ordered(FloatCompare(Deref(objs, b).value.fval, FloatOfInt(IntValue(objs, a).value), fs)))
  {
  }

  /** Two lists whose first `k` elements compare equal and whose element `k` differs compare as element `k`. */
  lemma {:induction false} ListFirstDifference(objs: seq<Obj>, x: Obj, y: Obj, i: nat, k: nat, fs: FloatSem, fuel: nat)
    requires Lists.IsList(x) && Lists.IsList(y) && i <= k < x.lsize && k < y.lsize
    requires forall j :: i <= j < k ==> CompareSpec(objs, x.list[j], y.list[j], fs, fuel) == Done(Ordered(0))
    requires CompareSpec(objs, x.list[k], y.list[k], fs, fuel).Done?
    requires OrderValue(CompareSpec(objs, x.list[k], y.list[k], fs, fuel).value) != 0
    ensures ListCompareFrom(objs, x, y, i, fs, fuel) == CompareSpec(objs, x.list[k], y.list[k], fs, fuel)
    decreases k - i
  {
    if i < k {
      assert CompareSpec(objs, x.list[i], y.list[i], fs, fuel) == Done(Ordered(0));
      ListFirstDifference(objs, x, y, i + 1, k, fs, fuel);
    }
  }

  /** A list whose elements all compare equal to a longer list's prefix is smaller. */
  lemma {:induction false} ListPrefixSmaller(objs: seq<Obj>, x: Obj, y: Obj, i: nat, fs: FloatSem, fuel: nat)
    requires Lists.IsList(x) && Lists.IsList(y) && i <= x.lsize < y.lsize
    requires forall j :: i <= j < x.lsize ==> CompareSpec(objs, x.list[j], y.list[j], fs, fuel) == Done(Ordered(0))
    ensures ListCompareFrom(objs, x, y, i, fs, fuel) == Done(Ordered(-1))
    decreases x.lsize - i
  {
    if i < x.lsize {
      ListPrefixSmaller(objs, x, y, i + 1, fs, fuel);
    }
  }

  /**
   * `BlCompare` as the source runs it: identity, then the type test, then
   * the hook; for two lists the loop of `blListCompare` calls back into it.
   */
  method CompareObjects(objs: seq<Obj>, a: Ref, b: Ref, fs: FloatSem, fuel: nat) returns (r: Outcome<Order>)
    ensures r == CompareSpec(objs, a, b, fs, fuel)
    decreases fuel
  {
    var x, y := Deref(objs, a), Deref(objs, b);
    if a != b && TypeOf(objs, a).Some? && TypeOf(objs, a) == TypeOf(objs, b)
       && x.Some? && x.value.ListObj? && y.Some? && y.value.ListObj? && fuel > 0 {
      var p, q := x.value, y.value;
      var i := 0;
      while i < p.lsize && i < q.lsize
        invariant 0 <= i
        invariant ListCompareFrom(objs, p, q, 0, fs, fuel - 1) == ListCompareFrom(objs, p, q, i, fs, fuel - 1)
        decreases p.lsize - i
      {
        if i >= |p.list| || i >= |q.list| {
          return Fault(OUT_OF_RANGE);
        }
        var ret := CompareObjects(objs, p.list[i], q.list[i], fs, fuel - 1);
        if !ret.Done? || OrderValue(ret.value) != 0 {
          return ret;
        }
        i := i + 1;
      }
      return Done(Ordered(if p.lsize < q.lsize then -1 else if p.lsize > q.lsize then 1 else 0));
    }
    return CompareSpec(objs, a, b, fs, fuel);
  }

  /** A string comparison that gives -2 is an ordinary order value, not the sentinel's message. */
  lemma StringDifferenceIsOrdered(objs: seq<Obj>, a: Ref, b: Ref, fs: FloatSem, fuel: nat)
    requires a != b && Deref(objs, a) == Some(StringObj("a")) && Deref(objs, b) == Some(StringObj("c"))
    ensures CompareSpec(objs, a, b, fs, fuel) == Done(Ordered(-2))
    ensures OrderValue(CompareSpec(objs, a, b, fs, fuel).value) == -2
  {
    assert Strs.CompareFrom("a", "c", 0) == -2;
  }

  /**
   * `blCmp`: -2 with any operator but `==` is an error (the message
   * `BlCompare` set, or the stale one when -2 was a byte difference);
   * otherwise the sign of the comparison decides the operator.
   */
  function Cmp(o: Order, op: Tokens.Kind): (r: Outcome<Ref>)
    ensures r.Done? ==> r.value == TrueRef || r.value == FalseRef
    ensures !r.Returned?
  {
    var v := OrderValue(o);
    if op != Tokens.EQ && v == -2 then Error(if o.Unordered? then o.msg else STALE)
    else
      var res :=
        if op == Tokens.EQ then v == 0
        else if op == Tokens.NE then v != 0
        else if op == Tokens.LT then v < 0
        else if op == Tokens.LE then v <= 0
        else if op == Tokens.GT then v > 0
        else if op == Tokens.GE then v >= 0
        else false;
      Done(BoolRef(res))
  }

  /**
   * Unordered values are unequal under `==` but make `!=` fail, and a
   * string pair whose first differing bytes are two apart fails every
   * operator but `==`, with a stale message.
   */
  lemma CmpSentinel(o: Order, op: Tokens.Kind)
    requires OrderValue(o) == -2
    ensures Cmp(o, Tokens.EQ) == Done(FalseRef)
    ensures op != Tokens.EQ ==> Cmp(o, op).Error?
    ensures op != Tokens.EQ && o.Ordered? ==> Cmp(o, op) == Error(STALE)
  {
  }

  /** Away from the sentinel, `<`, `<=`, `>`, `>=`, `==`, `!=` read the sign of the comparison. */
  lemma CmpSign(o: Order)
    requires OrderValue(o) != -2
    ensures Cmp(o, Tokens.LT) == Done(BoolRef(OrderValue(o) < 0))
    ensures Cmp(o, Tokens.GE) == Done(BoolRef(!(OrderValue(o) < 0)))
    ensures Cmp(o, Tokens.EQ) == Done(BoolRef(OrderValue(o) == 0))
    ensures Cmp(o, Tokens.NE) == Done(BoolRef(OrderValue(o) != 0))
    ensures Cmp(o, Tokens.GT) == Done(BoolRef(OrderValue(o) > 0))
    ensures Cmp(o, Tokens.LE) == Done(BoolRef(!(OrderValue(o) > 0)))
  {
  }

  // ----- truthiness -----

  /** The `EvalCond` hooks, per object. */
  function Truth(objs: seq<Obj>, obj: Ref, fs: FloatSem): (r: Outcome<bool>)
    requires TypeOf(objs, obj).Some? && HasHook(TypeOf(objs, obj).value, EvalCond)
  {
    match obj
    case TrueRef => Done(true)
    case FalseRef => Done(false)
    case NilRef => Done(NilEvalCond())
    case BuiltinRef(table, i) =>
      if BuiltinAt(table, i).Some? then Done(GFunctionEvalCond(BuiltinAt(table, i).value)) else Fault(NIL_DEREF)
    case Ptr(a) =>
      (match objs[a]
       case StringObj(s) => Done(Strs.EvalCond(s))
       case IntObj(v) => Done(Ints.EvalCond(v))
       case FloatObj(f) => Done(fs.less(FLOAT_ZERO, f))
       case ListObj(_, _) => Done(Lists.EvalCond(objs[a]))
       case ClassObj(_, _, _) => Done(ClassEvalCond(objs[a]))
       case InstanceObj(_, _) => Done(InstanceEvalCond(objs[a]))
       case FunctionObj(_, _, _, _, _, _, _, _) => Done(FunctionEvalCond(objs[a]))
       case MethodObj(_, _, _) => MethodEvalCond(objs[a], objs)
       case GMethodObj(_, _, _) => GMethodEvalCond(objs[a])
       case _ => Done(true))
    case _ => Done(true)
  }

  /** `blEvalCondition`: a type without the hook counts as true. */
  function EvalCondition(objs: seq<Obj>, obj: Ref, fs: FloatSem): (r: Outcome<bool>)
  {
    match TypeOf(objs, obj)
    case None => Fault(NIL_DEREF)
    case Some(t) => if HasHook(t, EvalCond) then Truth(objs, obj, fs) else Done(true)
  }

  /**
   * `x.BlType().EvalCond(x)`, as the evaluator calls it: a type without
   * the hook makes the call through a nil function panic.
   */
  function EvalCondHook(objs: seq<Obj>, obj: Ref, fs: FloatSem): (r: Outcome<bool>)
    ensures !r.Returned?
  {
    match TypeOf(objs, obj)
    case None => Fault(NIL_DEREF)
    case Some(t) => if HasHook(t, EvalCond) then Truth(objs, obj, fs) else Fault(NIL_DEREF)
  }

  /**
   * The two agree wherever the hook exists; where it does not (ranges,
   * type objects, modules) the helper says true and the evaluator's
   * direct call panics.
   */
  lemma EvalCondDefault(objs: seq<Obj>, obj: Ref, fs: FloatSem)
    ensures TypeOf(objs, obj).Some? && HasHook(TypeOf(objs, obj).value, EvalCond) ==>
      EvalCondition(objs, obj, fs) == EvalCondHook(objs, obj, fs)
    ensures TypeOf(objs, obj).Some? && !HasHook(TypeOf(objs, obj).value, EvalCond) ==>
      EvalCondition(objs, obj, fs) == Done(true) && EvalCondHook(objs, obj, fs) == Fault(NIL_DEREF)
    ensures Deref(objs, obj).Some? && Deref(objs, obj).value.RangeObj? ==> EvalCondHook(objs, obj, fs) == Fault(NIL_DEREF)
  {
    if TypeOf(objs, obj).Some? {
      EvalCondOwners(TypeOf(objs, obj).value);
    }
  }

  /** Zero and negative ints, empty strings and lists, false and nil are false. */
  lemma FalseValues(objs: seq<Obj>, obj: Ref, fs: FloatSem)
    ensures obj == FalseRef || obj == NilRef ==> EvalCondHook(objs, obj, fs) == Done(false)
    ensures IntValue(objs, obj).Some? ==> EvalCondHook(objs, obj, fs) == Done(IntValue(objs, obj).value > 0)
    ensures Deref(objs, obj).Some? && Deref(objs, obj).value.StringObj? ==>
      EvalCondHook(objs, obj, fs) == Done(|Deref(objs, obj).value.sval| > 0)
  {
    if TypeOf(objs, obj).Some? {
      EvalCondOwners(TypeOf(objs, obj).value);
    }
  }

  // ----- construction through a type object -----

  function MissingInit(owner: string): string
  {
    "'" + owner + "' object is missing init function"
  }

  /**
   * `blTypeInit` on the type object `t` with evaluated arguments: a type
   * without `Init` fails, the others build their value. The `type` object
   * itself has no type, so calling it panics.
   */
  function TypeInit(objs: seq<Obj>, t: Tag, args: seq<Ref>): (r: Outcome<Val>)
    ensures r.Done? ==> FreshOk(r.value)
    ensures !r.Returned?
  {
    if t == TypeType then Fault(NIL_DEREF)
    else if !HasHook(t, Init) then Error(MissingInit(TypeName(t)))
    else if t == StringType then Made(Strs.Init(args, objs), (s: string) => StringObj(s))
    else if t == IntType then Made(Ints.Init(args, objs), (v: int64) => IntObj(v))
    else if t == ListType then Made(Lists.Init(args, objs), (l: Obj) => l)
    else
      var b := BoolInit(args, objs);
      if b.Done? then Done(Existing(b.value)) else PassOn(b)
  }

  /** Float and nil have no constructor, and `int(...)` always fails. */
  lemma TypeInitRefuses(objs: seq<Obj>, args: seq<Ref>)
    ensures TypeInit(objs, FloatType, args) == Error(MissingInit("float"))
    ensures TypeInit(objs, NilType, args) == Error(MissingInit("nil"))
    ensures TypeInit(objs, IntType, args).Error?
  {
    InitOwners(FloatType);
    InitOwners(NilType);
    InitOwners(IntType);
  }

  /** `list(x, y)` is an empty list. */
  lemma ListOfTwo(objs: seq<Obj>, args: seq<Ref>)
    requires |args| == 2
    ensures TypeInit(objs, ListType, args) == Done(Fresh(ListObj([], 0)))
  {
    Lists.InitMeaning(args, objs);
  }

  /** `bool(x, y)` is false. */
  lemma BoolOfTwo(objs: seq<Obj>, args: seq<Ref>)
    requires |args| == 2
    ensures TypeInit(objs, BoolType, args) == Done(Existing(FalseRef))
  {
    InitOwners(BoolType);
    BoolInitMeaning(args, objs);
  }
}
