/**
 * Member lookup and update on type objects, classes, instances and modules:
 * `locate` and `genericGetMember` (objects/object.go), `blTypeGetMember`
 * (objects/typeobject.go), the class hooks with their walk up the base
 * chain (objects/classobject.go), the instance hooks with their receiver
 * binding (objects/instanceobject.go) and the module hooks
 * (objects/moduleobject.go).
 *
 * A hook that gives Go nil without setting a message is modelled as
 * `Done(Existing(Null))`: the caller decides that it is an error. A hook
 * that sets a message and gives nil is `Error(msg)`.
 */
module Members {
  import opened Common
  import opened Values
  import opened SmallTypes

  /** The message of every failed lookup on a type, class or module. */
  function NoMember(owner: string, name: string): string
  {
    "'" + owner + "' object has no member '" + name + "'"
  }

  // ----- type objects -----

  /** A type object followed by its bases, nearest first. */
  function TypeChain(tobj: TypeObject): (c: seq<TypeObject>)
    ensures |c| >= 1 && c[0] == tobj
  {
    [tobj] + if tobj.base.Some? then TypeChain(tobj.base.value) else []
  }

  /** `locate`: the type's own members first, then its base, recursively. */
  function Locate(tobj: TypeObject, name: string): (r: Option<Ref>)
    ensures name in tobj.members ==> r == Some(tobj.members[name])
  {
    if name in tobj.members then Some(tobj.members[name])
    else if tobj.base.Some? then Locate(tobj.base.value, name)
    else None
  }

  /** `locate` gives the entry of the nearest type of the chain that holds the name. */
  lemma {:induction false} LocateNearest(tobj: TypeObject, name: string, k: nat)
    requires k < |TypeChain(tobj)| && name in TypeChain(tobj)[k].members
    requires forall j :: 0 <= j < k ==> name !in TypeChain(tobj)[j].members
    ensures Locate(tobj, name) == Some(TypeChain(tobj)[k].members[name])
  {
    var c := TypeChain(tobj);
    if k > 0 {
      assert name !in c[0].members;
      assert tobj.base.Some? by {
        assert |c| >= 2;
      }
      var cb := TypeChain(tobj.base.value);
      assert c == [tobj] + cb;
      assert cb[k - 1] == c[k];
      assert forall j :: 0 <= j < k - 1 ==> name !in cb[j].members by {
        forall j | 0 <= j < k - 1 ensures name !in cb[j].members {
          assert cb[j] == c[j + 1];
        }
      }
      LocateNearest(tobj.base.value, name, k - 1);
    }
  }

  /** A name held by no type of the chain is not found. */
  lemma {:induction false} LocateMissing(tobj: TypeObject, name: string)
    requires forall j :: 0 <= j < |TypeChain(tobj)| ==> name !in TypeChain(tobj)[j].members
    ensures Locate(tobj, name).None?
  {
    var c := TypeChain(tobj);
    assert name !in c[0].members;
    if tobj.base.Some? {
      var cb := TypeChain(tobj.base.value);
      assert c == [tobj] + cb;
      assert forall j :: 0 <= j < |cb| ==> name !in cb[j].members by {
        forall j | 0 <= j < |cb| ensures name !in cb[j].members {
          assert cb[j] == c[j + 1];
        }
      }
      LocateMissing(tobj.base.value, name);
    }
  }

  /**
   * `genericGetMember`, the getter of strings and lists: a builtin function
   * found on the type comes back as a builtin method bound to `self`.
   */
  function GenericGetMember(t: Tag, name: string, self: Ref): (r: Outcome<Val>)
    ensures r.Done? || r.Error?
    ensures r.Error? <==> Locate(TypeTable(t), name).None?
    ensures r.Error? ==> r.msg == NoMember(TypeName(t), name)
    ensures r.Done? ==> var ret := Locate(TypeTable(t), name).value;
      r.value == if ret.BuiltinRef? then Fresh(GMethodObj(TypeRef(t), self, ret)) else Existing(ret)
  {
    var tobj := TypeTable(t);
    match Locate(tobj, name)
    case None => Error(NoMember(tobj.name, name))
    case Some(ret) => if ret.BuiltinRef? then Done(Fresh(NewGMethod(TypeRef(t), self, ret))) else Done(Existing(ret))
  }

  /**
   * `blTypeGetMember`: the getter of the `type` type, applied to a type
   * object `t`; a builtin function comes back unbound.
   */
  function TypeGetMember(t: Tag, name: string): (r: Outcome<Val>)
    ensures r.Done? || r.Error?
    ensures r.Done? && r.value.Fresh? ==> r.value.o.GMethodObj?
  {
    var tobj := TypeTable(t);
    var ret := Locate(tobj, name);
    if ret.None? then Error(NoMember(tobj.name, name))
    else if ret.value.BuiltinRef? then Done(Fresh(NewGMethod(TypeRef(t), Null, ret.value)))
    else Done(Existing(ret.value))
  }

  /** Looking a member up on the type object is the generic lookup with no receiver. */
  lemma TypeGetMemberUnbound(t: Tag, name: string)
    ensures TypeGetMember(t, name) == GenericGetMember(t, name, Null)
  {
  }

  /**
   * A method name of a string or a list resolves to that method of the
   * type's array, bound to the receiver; any other name fails.
   */
  lemma MethodLookup(t: Tag, name: string, self: Ref)
    ensures GenericGetMember(t, name, self).Done? <==> exists i :: 0 <= i < |Methods(t)| && Methods(t)[i].name == name
    ensures GenericGetMember(t, name, self).Done? ==>
      var v := GenericGetMember(t, name, self).value;
      v.Fresh? && v.o.GMethodObj? && v.o.cls == TypeRef(t) && v.o.self == self
      && v.o.f.BuiltinRef? && BuiltinAt(v.o.f.table, v.o.f.index).Some?
      && BuiltinAt(v.o.f.table, v.o.f.index).value.name == name
  {
    if name in TypeTable(t).members {
      MembersAreMethods(t, name);
    }
    if t != ModuleType && !Finished(t) {
      assert TypeTable(t).members == map[];
    }
  }

  // ----- classes -----

  predicate ClassAt(objs: seq<Obj>, a: nat)
  {
    a < |objs| && objs[a].ClassObj?
  }

  predicate InstanceAt(objs: seq<Obj>, a: nat)
  {
    a < |objs| && objs[a].InstanceObj?
  }

  /**
   * A class's base is evaluated before the class is created, so a base
   * that is a heap object always sits at a lower address: the base chain
   * has no cycle.
   */
  predicate BasesBelow(objs: seq<Obj>)
  {
    forall a :: 0 <= a < |objs| && objs[a].ClassObj? && objs[a].base.Ptr? ==> objs[a].base.addr < a
  }

  /** Every instance refers to a class. */
  predicate InstancesOfClasses(objs: seq<Obj>)
  {
    forall a :: 0 <= a < |objs| && objs[a].InstanceObj? ==> objs[a].cls.Ptr? && ClassAt(objs, objs[a].cls.addr)
  }

  /** `NewBlClass`: name and base as given, no members yet. */
  function NewClass(name: string, base: Ref): (o: Obj)
    ensures o.ClassObj? && o.name == name && o.base == base && |o.members| == 0
  {
    ClassObj(name, base, map[])
  }

  /** Whether a value refers to a user function. */
  predicate IsFunction(objs: seq<Obj>, v: Val)
  {
    v.Existing? && Deref(objs, v.r).Some? && Deref(objs, v.r).value.FunctionObj?
  }

  /** The classes of a base chain, from `a` up to the first base that is not a class. */
  function ClassChain(objs: seq<Obj>, a: nat): (c: seq<nat>)
    requires ClassAt(objs, a) && BasesBelow(objs)
    ensures |c| >= 1 && c[0] == a && forall i :: 0 <= i < |c| ==> ClassAt(objs, c[i])
    decreases a
  {
    var base := objs[a].base;
    [a] + if base.Ptr? && ClassAt(objs, base.addr) then ClassChain(objs, base.addr) else []
  }

  /** The base that ends the chain: nil, a type object, or a heap object that is not a class. */
  function ChainEnd(objs: seq<Obj>, a: nat): Ref
    requires ClassAt(objs, a) && BasesBelow(objs)
    decreases a
  {
    var base := objs[a].base;
    if base.Ptr? && ClassAt(objs, base.addr) then ChainEnd(objs, base.addr) else base
  }

  /**
   * `blClassGetMember`: the class's own members, else the base's getter when
   * the base is a class or a type object. A name found nowhere (or bound to
   * nil) fails naming this class; a user function comes back as a method of
   * this class with no receiver.
   */
  function ClassGetMember(objs: seq<Obj>, a: nat, name: string): (r: Outcome<Val>)
    requires ClassAt(objs, a) && BasesBelow(objs)
    ensures r.Error? ==> r.msg == NoMember(objs[a].name, name)
    ensures r.Done? ==> r.value != Existing(Null) && !IsFunction(objs, r.value)
    ensures r.Fault? ==> r == Fault(NIL_DEREF)
    ensures r.Returned? == false && r.Diverged? == false
    ensures r.Done? && r.value.Fresh? ==> r.value.o.MethodObj? || r.value.o.GMethodObj?
    decreases a
  {
    var c := objs[a];
    var ret: Outcome<Val> :=
      if name in c.members then Done(Existing(c.members[name]))
      else match c.base
        case Ptr(b) => if ClassAt(objs, b) then ClassGetMember(objs, b, name) else Done(Existing(Null))
        case TypeRef(t) => if t == TypeType then Fault(NIL_DEREF) else TypeGetMember(t, name)
        case _ => Done(Existing(Null));
    match ret
    case Done(v) =>
      if v == Existing(Null) then Error(NoMember(c.name, name))
      else if IsFunction(objs, v) then Done(Fresh(NewMethod(Ptr(a), Null, v.r)))
      else Done(v)
    case Fault(m) => Fault(m)
    case _ => Error(NoMember(c.name, name))
  }

  /**
   * The lookup stops at the nearest class of the chain that holds the name:
   * nil there fails naming the class asked, a user function becomes a method
   * of the class that DEFINES it, and anything else comes back unchanged.
   */
  lemma {:induction false} ClassLookupNearest(objs: seq<Obj>, a: nat, name: string, k: nat)
    requires ClassAt(objs, a) && BasesBelow(objs)
    requires k < |ClassChain(objs, a)|
    requires forall j :: 0 <= j < k ==> name !in objs[ClassChain(objs, a)[j]].members
    requires name in objs[ClassChain(objs, a)[k]].members
    ensures var b := ClassChain(objs, a)[k]; var v := objs[b].members[name];
      ClassGetMember(objs, a, name) ==
        if v == Null then Error(NoMember(objs[a].name, name))
        else if IsFunction(objs, Existing(v)) then Done(Fresh(MethodObj(Ptr(b), Null, v)))
        else Done(Existing(v))
    decreases a
  {
    var c := ClassChain(objs, a);
    if k > 0 {
      assert name !in objs[c[0]].members;
      var base := objs[a].base;
      assert |c| >= 2;
      assert base.Ptr? && ClassAt(objs, base.addr);
      var cb := ClassChain(objs, base.addr);
      assert c == [a] + cb;
      assert forall j :: 0 <= j < k - 1 ==> name !in objs[cb[j]].members by {
        forall j | 0 <= j < k - 1 ensures name !in objs[cb[j]].members {
          assert cb[j] == c[j + 1];
        }
      }
      assert cb[k - 1] == c[k];
      ClassLookupNearest(objs, base.addr, name, k - 1);
    }
  }

  /**
   * A name held by no class of the chain fails naming the class asked,
   * unless the chain ends in a builtin type object, whose getter then
   * decides: one of its methods comes back unbound, and its failure is
   * reported against the class asked.
   */
  lemma {:induction false} ClassLookupMissing(objs: seq<Obj>, a: nat, name: string)
    requires ClassAt(objs, a) && BasesBelow(objs)
    requires forall j :: 0 <= j < |ClassChain(objs, a)| ==> name !in objs[ClassChain(objs, a)[j]].members
    ensures ClassGetMember(objs, a, name) == AtChainEnd(ChainEnd(objs, a), objs[a].name, name)
    decreases a
  {
    var c := ClassChain(objs, a);
    assert name !in objs[c[0]].members;
    var base := objs[a].base;
    if base.Ptr? && ClassAt(objs, base.addr) {
      var cb := ClassChain(objs, base.addr);
      assert c == [a] + cb;
      assert forall j :: 0 <= j < |cb| ==> name !in objs[cb[j]].members by {
        forall j | 0 <= j < |cb| ensures name !in objs[cb[j]].members {
          assert cb[j] == c[j + 1];
        }
      }
      ClassLookupMissing(objs, base.addr, name);
    } else {
      ClassLookupAtEnd(objs, a, name);
    }
  }

  /** The last class of the chain, without the name, hands the lookup to its base. */
  lemma ClassLookupAtEnd(objs: seq<Obj>, a: nat, name: string)
    requires ClassAt(objs, a) && BasesBelow(objs) && name !in objs[a].members
    requires !(objs[a].base.Ptr? && ClassAt(objs, objs[a].base.addr))
    ensures ClassGetMember(objs, a, name) == AtChainEnd(objs[a].base, objs[a].name, name)
  {
    if objs[a].base.TypeRef? && objs[a].base.tag != TypeType {
      ClassLookupAtType(objs, a, name);
    }
  }

  /** A class whose base is a builtin type object, without the name, asks the type object. */
  lemma ClassLookupAtType(objs: seq<Obj>, a: nat, name: string)
    requires ClassAt(objs, a) && BasesBelow(objs) && name !in objs[a].members
    requires objs[a].base.TypeRef? && objs[a].base.tag != TypeType
    ensures ClassGetMember(objs, a, name) == AtChainEnd(objs[a].base, objs[a].name, name)
  {
    var t := objs[a].base.tag;
    if name in TypeTable(t).members {
      MembersAreMethods(t, name);
      assert TypeGetMember(t, name) == Done(Fresh(NewGMethod(TypeRef(t), Null, TypeTable(t).members[name])));
    } else {
      assert Locate(TypeTable(t), name).None?;
    }
  }


  /** What a lookup that reaches the end `e` of a class chain gives, for class `owner`. */
  function AtChainEnd(e: Ref, owner: string, name: string): Outcome<Val>
  {
    if e == TypeRef(TypeType) then Fault(NIL_DEREF)
    else if e.TypeRef? then
      var r := TypeGetMember(e.tag, name);
      if r.Error? then Error(NoMember(owner, name)) else r
    else Error(NoMember(owner, name))
  }

  /** A type object at the end of the chain answers with one of its methods, unbound, or fails. */
  lemma AtChainEndMeaning(e: Ref, owner: string, name: string)
    requires e.TypeRef? && e.tag != TypeType
    ensures name in TypeTable(e.tag).members ==>
      AtChainEnd(e, owner, name) == Done(Fresh(GMethodObj(TypeRef(e.tag), Null, TypeTable(e.tag).members[name])))
    ensures name !in TypeTable(e.tag).members ==> AtChainEnd(e, owner, name) == Error(NoMember(owner, name))
  {
    assert Locate(TypeTable(e.tag), name) == if name in TypeTable(e.tag).members then Some(TypeTable(e.tag).members[name]) else None;
    if name in TypeTable(e.tag).members {
      MembersAreMethods(e.tag, name);
    }
  }


  /** True when `name` is `__init__` by the test `blClassSetMember` makes. */
  predicate IsInitName(name: string)
    requires |name| >= 2
  {
    name[0] == '_' && name[|name| - 1] == '_' && name[1..|name| - 1] == "_init_"
  }

  const BAD_INIT: string := "'__init__' must be a blue function or blue method"
  const SLICE_RANGE: string := "slice bounds out of range"

  /**
   * `blClassSetMember`: the new class object. The name is indexed before
   * anything is stored, so the empty name panics, and so does `_`, whose
   * inner slice `name[1:0]` is out of range. `__init__` must be a user
   * function or method.
   */
  function ClassSetMember(objs: seq<Obj>, c: Obj, name: string, value: Ref): (r: Outcome<Obj>)
    requires c.ClassObj?
    ensures r.Done? ==> r.value == ClassObj(c.name, c.base, c.members[name := value])
    ensures r.Error? ==> r.msg == BAD_INIT
  {
    var size := |name|;
    if size == 0 then Fault(OUT_OF_RANGE)
    else if name[0] == '_' && name[size - 1] == '_' && size < 2 then Fault(SLICE_RANGE)
    else if name[0] == '_' && name[size - 1] == '_' && name[1..size - 1] == "_init_"
            && !(Deref(objs, value).Some? && (Deref(objs, value).value.FunctionObj? || Deref(objs, value).value.MethodObj?))
    then Error(BAD_INIT)
    else Done(ClassObj(c.name, c.base, c.members[name := value]))
  }

  /** The only names and values `blClassSetMember` refuses. */
  lemma ClassSetMemberRefuses(objs: seq<Obj>, c: Obj, name: string, value: Ref)
    requires c.ClassObj?
    ensures ClassSetMember(objs, c, name, value).Fault? <==> name == "" || name == "_"
    ensures ClassSetMember(objs, c, name, value).Error? <==>
      name == "__init__" && !(Deref(objs, value).Some? && (Deref(objs, value).value.FunctionObj? || Deref(objs, value).value.MethodObj?))
  {
    var size := |name|;
    if size >= 2 && name[0] == '_' && name[size - 1] == '_' && name[1..size - 1] == "_init_" {
      assert name == [name[0]] + name[1..size - 1] + [name[size - 1]];
    }
    if name == "__init__" {
      assert name[1..size - 1] == "_init_";
    }
  }

  /** `blClassEvalCond`: true when the class has at least one member. */
  predicate ClassEvalCond(c: Obj)
    requires c.ClassObj?
  {
    |c.members| > 0
  }

  /**
   * Storing a name on a class (anything but `__init__`, `_` and the empty
   * name) and reading it back gives the value stored, a user function as a
   * method of this class; whatever the bases hold is hidden.
   */
  lemma ClassSetThenGet(objs: seq<Obj>, a: nat, name: string, value: Ref)
    requires ClassAt(objs, a) && BasesBelow(objs)
    requires name != "" && name != "_" && name != "__init__" && value != Null
    ensures ClassSetMember(objs, objs[a], name, value).Done?
    ensures var objs' := objs[a := ClassSetMember(objs, objs[a], name, value).value];
      ClassGetMember(objs', a, name) ==
        if IsFunction(objs', Existing(value)) then Done(Fresh(MethodObj(Ptr(a), Null, value)))
        else Done(Existing(value))
  {
    ClassSetMemberRefuses(objs, objs[a], name, value);
    var objs' := objs[a := ClassSetMember(objs, objs[a], name, value).value];
    assert BasesBelow(objs') by {
      forall x | 0 <= x < |objs'| && objs'[x].ClassObj? && objs'[x].base.Ptr?
        ensures objs'[x].base.addr < x
      {
        assert objs'[x].base == objs[x].base;
      }
    }
  }

  // ----- instances -----

  /** `NewBlInstance`: a back-reference to the class and no members yet. */
  function NewInstance(cls: Ref): (o: Obj)
    ensures o.InstanceObj? && o.cls == cls && |o.members| == 0
  {
    InstanceObj(cls, map[])
  }

  /** What `blInstanceGetMember` finds before it binds: the own member, else the class's getter. */
  function InstanceLookup(objs: seq<Obj>, a: nat, name: string): (r: Outcome<Val>)
    requires InstanceAt(objs, a) && InstancesOfClasses(objs) && BasesBelow(objs)
    ensures !r.Returned?
  {
    var i := objs[a];
    if name in i.members then Done(Existing(i.members[name]))
    else ClassGetMember(objs, i.cls.addr, name)
  }

  /**
   * `blInstanceGetMember`: the heap afterwards and the value. A user function
   * becomes a method bound to (the class, this instance); a method found has
   * its receiver overwritten IN PLACE with this instance; any other value,
   * and nil, gives nil without a message.
   */
  function InstanceGetMember(objs: seq<Obj>, a: nat, name: string): (r: Outcome<(seq<Obj>, Val)>)
    requires InstanceAt(objs, a) && InstancesOfClasses(objs) && BasesBelow(objs)
    ensures r.Done? ==> |r.value.0| == |objs|
    ensures r.Done? ==> forall x :: 0 <= x < |objs| && r.value.0[x] != objs[x] ==>
      objs[x].MethodObj? && r.value.0[x] == Rebind(objs[x], Ptr(a)) && r.value.1 == Existing(Ptr(x))
    ensures !r.Done? ==> !InstanceLookup(objs, a, name).Done? && r == PassOn(InstanceLookup(objs, a, name))
    ensures !r.Returned?
  {
    var cls := objs[a].cls;
    var found := InstanceLookup(objs, a, name);
    if !found.Done? then PassOn(found)
    else match found.value
      case Existing(p) =>
        if IsFunction(objs, Existing(p)) then Done((objs, Fresh(NewMethod(cls, Ptr(a), p))))
        else if p.Ptr? && p.addr < |objs| && objs[p.addr].MethodObj? then
          Done((objs[p.addr := Rebind(objs[p.addr], Ptr(a))], Existing(p)))
        else Done((objs, Existing(Null)))
      case Fresh(o) =>
        if o.MethodObj? then Done((objs, Fresh(Rebind(o, Ptr(a))))) else Done((objs, Existing(Null)))
  }

  /** A method object with its receiver replaced, as `t.Self = iobj` does. */
  function Rebind(m: Obj, self: Ref): (r: Obj)
    requires m.MethodObj?
    ensures r.MethodObj? && r.cls == m.cls && r.self == self && r.f == m.f
  {
    MethodObj(m.cls, self, m.f)
  }

  /** `blInstanceSetMember`: stores into the instance's own members, overwriting. */
  function InstanceSetMember(i: Obj, name: string, value: Ref): (r: Obj)
    requires i.InstanceObj?
    ensures r.InstanceObj? && r.cls == i.cls && r.members == i.members[name := value]
  {
    InstanceObj(i.cls, i.members[name := value])
  }

  /** `blInstanceEvalCond`: true when the instance has at least one own member. */
  predicate InstanceEvalCond(i: Obj)
    requires i.InstanceObj?
  {
    |i.members| > 0
  }

  /**
   * A function defined in the class comes back as a method bound to the
   * class and the instance, and the heap is left as it was.
   */
  lemma InstanceGetsClassFunction(objs: seq<Obj>, a: nat, name: string)
    requires InstanceAt(objs, a) && InstancesOfClasses(objs) && BasesBelow(objs)
    requires name !in objs[a].members
    requires var c := objs[a].cls.addr; name in objs[c].members && IsFunction(objs, Existing(objs[c].members[name]))
    ensures var c := objs[a].cls.addr;
      InstanceGetMember(objs, a, name) == Done((objs, Fresh(MethodObj(Ptr(c), Ptr(a), objs[c].members[name]))))
  {
  }

  /**
   * Values stored on an instance read back as nil unless they are
   * functions or methods: a number stored as a member cannot be read.
   */
  lemma InstanceDropsPlainValues(objs: seq<Obj>, a: nat, name: string, value: Ref)
    requires InstanceAt(objs, a) && InstancesOfClasses(objs) && BasesBelow(objs)
    requires !(Deref(objs, value).Some? && (Deref(objs, value).value.FunctionObj? || Deref(objs, value).value.MethodObj?))
    ensures var objs' := objs[a := InstanceSetMember(objs[a], name, value)];
      InstancesOfClasses(objs') && BasesBelow(objs')
      && InstanceGetMember(objs', a, name) == Done((objs', Existing(Null)))
  {
    var objs' := objs[a := InstanceSetMember(objs[a], name, value)];
    assert forall x :: 0 <= x < |objs| ==> TagOf(objs'[x]) == TagOf(objs[x]);
    assert forall x :: 0 <= x < |objs| && objs[x].ClassObj? ==> objs'[x] == objs[x];
  }

  /**
   * One method object stored on a class is shared by all instances: reading
   * it through a second instance rebinds the object the first read returned.
   */
  lemma SharedMethodRebound(objs: seq<Obj>, a1: nat, a2: nat, name: string)
    requires InstanceAt(objs, a1) && InstanceAt(objs, a2) && InstancesOfClasses(objs) && BasesBelow(objs)
    requires objs[a1].cls == objs[a2].cls && name !in objs[a1].members && name !in objs[a2].members
    requires var c := objs[a1].cls.addr;
      (name in objs[c].members && objs[c].members[name].Ptr? && objs[c].members[name].addr < |objs|
       && objs[objs[c].members[name].addr].MethodObj?)
    ensures var m := objs[objs[a1].cls.addr].members[name];
      var r1 := InstanceGetMember(objs, a1, name);
      (r1.Done? && r1.value.1 == Existing(m) && r1.value.0[m.addr].self == Ptr(a1)
      && (var r2 := InstanceGetMember(r1.value.0, a2, name);
          r2.Done? && r2.value.1 == Existing(m) && r2.value.0[m.addr].self == Ptr(a2)))
  {
    var c := objs[a1].cls.addr;
    var m := objs[c].members[name];
    var objs1 := objs[m.addr := Rebind(objs[m.addr], Ptr(a1))];
    assert objs1[c] == objs[c] && objs1[a2] == objs[a2];
    assert InstancesOfClasses(objs1) && BasesBelow(objs1) by {
      assert forall x :: 0 <= x < |objs| ==> TagOf(objs1[x]) == TagOf(objs[x]);
      assert forall x :: 0 <= x < |objs| && (objs[x].ClassObj? || objs[x].InstanceObj?) ==> objs1[x] == objs[x];
    }
  }

  // ----- modules -----

  /** `NewBlModule`: name and path as given, empty `Locals`. */
  function NewModule(name: string, path: string): (o: Obj)
    ensures o.ModuleObj? && o.name == name && o.path == path && |o.locals| == 0
  {
    ModuleObj(name, path, map[])
  }

  /** `blModuleGetMember`: `Locals[name]` when present. */
  function ModuleGetMember(m: Obj, name: string): (r: Outcome<Val>)
    requires m.ModuleObj?
    ensures r.Done? <==> name in m.locals
    ensures r.Done? ==> r.value == Existing(m.locals[name])
    ensures r.Error? ==> r.msg == NoMember("module", name)
  {
    if name in m.locals then Done(Existing(m.locals[name])) else Error(NoMember("module", name))
  }

  /** `blModuleSetMember`: writes `Locals[name]`. */
  function ModuleSetMember(m: Obj, name: string, value: Ref): (r: Obj)
    requires m.ModuleObj?
    ensures r.ModuleObj? && r.name == m.name && r.path == m.path
  {
    m.(locals := m.locals[name := value])
  }

  /** A read after a write of the same name gives the value written; other names are untouched. */
  lemma ModuleGetAfterSet(m: Obj, name: string, value: Ref, other: string)
    requires m.ModuleObj? && other != name
    ensures ModuleGetMember(ModuleSetMember(m, name, value), name) == Done(Existing(value))
    ensures ModuleGetMember(ModuleSetMember(m, name, value), other) == ModuleGetMember(m, other)
  {
  }
}
