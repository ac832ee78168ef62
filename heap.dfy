/**
 * The interpreter's shared state outside an evaluation context: every
 * object created at run time, the module map of blue/module.go, and the
 * argument nodes that unbound builtin-method calls have cut down in place.
 *
 * Objects live in a sequence and a reference is an index into it, so Go's
 * pointer sharing is preserved: an update at an address is seen through
 * every reference to it.
 */
module Heaps {
  import opened Common
  import opened Values
  import opened Members
  import opened Protocol
  import Lists = ListObjects

  /**
   * An object that may be appended: a class's base is already allocated,
   * an instance refers to a class, a list keeps `lsize == len(list)`.
   */
  predicate Fits(objs: seq<Obj>, o: Obj)
  {
    && (o.ClassObj? && o.base.Ptr? ==> o.base.addr < |objs|)
    && (o.InstanceObj? ==> o.cls.Ptr? && ClassAt(objs, o.cls.addr))
    && (o.ListObj? ==> Lists.IsList(o))
  }

  /** Appending an object that fits keeps the heap well formed. */
  lemma AllocKeepsWellFormed(objs: seq<Obj>, o: Obj)
    requires WellFormed(objs) && Fits(objs, o)
    ensures WellFormed(objs + [o]) && Extends(objs, objs + [o])
  {
    var objs' := objs + [o];
    forall a | 0 <= a < |objs'| && objs'[a].InstanceObj?
      ensures objs'[a].cls.Ptr? && ClassAt(objs', objs'[a].cls.addr)
    {
      if a < |objs| {
        assert ClassAt(objs, objs[a].cls.addr);
      }
    }
  }

  /** An update in place: the same type, a class keeps its base, a list its size. */
  predicate Replaces(o: Obj, o': Obj)
  {
    && TagOf(o') == TagOf(o)
    && (o.ClassObj? ==> o'.ClassObj? && o'.base == o.base)
    && (o.InstanceObj? ==> o'.InstanceObj? && o'.cls == o.cls)
    && (o'.ListObj? ==> Lists.IsList(o'))
  }

  /** Updating an object in place keeps the heap well formed. */
  lemma StoreKeepsWellFormed(objs: seq<Obj>, a: nat, o: Obj)
    requires WellFormed(objs) && a < |objs| && Replaces(objs[a], o)
    ensures WellFormed(objs[a := o]) && Extends(objs, objs[a := o])
  {
    var objs' := objs[a := o];
    forall x | 0 <= x < |objs'| && objs'[x].InstanceObj?
      ensures objs'[x].cls.Ptr? && ClassAt(objs', objs'[x].cls.addr)
    {
      assert TagOf(objs'[x]) == TagOf(objs[x]);
      assert objs[x].InstanceObj?;
      var c := objs[x].cls.addr;
      assert ClassAt(objs, c);
      assert TagOf(objs'[c]) == TagOf(objs[c]);
    }
  }

  predicate ModuleAt(objs: seq<Obj>, a: nat)
  {
    a < |objs| && objs[a].ModuleObj?
  }

  /** A module stays a module however the heap grows. */
  lemma ExtendsKeepsModules(objs: seq<Obj>, objs': seq<Obj>, a: nat)
    requires Extends(objs, objs') && ModuleAt(objs, a)
    ensures ModuleAt(objs', a)
  {
    assert TagOf(objs'[a]) == TagOf(objs[a]);
  }

  /** An instance stays an instance however the heap grows. */
  lemma ExtendsKeepsInstances(objs: seq<Obj>, objs': seq<Obj>, a: nat)
    requires Extends(objs, objs') && a < |objs| && objs[a].InstanceObj?
    ensures a < |objs'| && objs'[a].InstanceObj?
  {
    assert TagOf(objs'[a]) == TagOf(objs[a]);
  }

  /** A class stays a class however the heap grows. */
  lemma ExtendsKeepsClasses(objs: seq<Obj>, objs': seq<Obj>, a: nat)
    requires Extends(objs, objs') && a < |objs| && objs[a].ClassObj?
    ensures a < |objs'| && objs'[a].ClassObj?
  {
    assert TagOf(objs'[a]) == TagOf(objs[a]);
  }

  /** A value as a reference: an existing object as it is, a new one appended. */
  function Materialize(objs: seq<Obj>, v: Val): (seq<Obj>, Ref)
  {
    if v.Existing? then (objs, v.r) else Alloc(objs, v.o)
  }

  /**
   * `BlInsertFunctions` (whose code is not part of this model): each
   * builtin function of a module table under its name; of two equal names
   * the later wins.
   */
  function InsertFunctions(table: Table, funcs: seq<GFunction>, n: nat): (m: map<string, Ref>)
    requires n <= |funcs|
    ensures forall i :: 0 <= i < n ==> funcs[i].name in m
    ensures forall name :: name in m ==>
      && m[name].BuiltinRef? && m[name].table == table && m[name].index < n
      && funcs[m[name].index].name == name
  {
    if n == 0 then map[]
    else InsertFunctions(table, funcs, n - 1)[funcs[n - 1].name := BuiltinRef(table, n - 1)]
  }

  predicate IsString(objs: seq<Obj>, r: Ref)
  {
    Deref(objs, r).Some? && Deref(objs, r).value.StringObj?
  }

  /** The strings behind a list of string objects. */
  function Strings(objs: seq<Obj>, r: Ref): Option<seq<string>>
  {
    var l := Deref(objs, r);
    if l.Some? && l.value.ListObj? && forall i :: 0 <= i < |l.value.list| ==> IsString(objs, l.value.list[i]) then
      Some(seq(|l.value.list|, i requires 0 <= i < |l.value.list| && IsString(objs, l.value.list[i]) =>
        Deref(objs, l.value.list[i]).value.sval))
    else None
  }

  /** The strings of a list survive the heap growing. */
  lemma StringsGrow(objs: seq<Obj>, objs': seq<Obj>, r: Ref)
    requires objs <= objs' && Strings(objs, r).Some?
    ensures Strings(objs', r) == Strings(objs, r)
  {
    var l := objs[r.addr];
    assert Deref(objs', r) == Deref(objs, r);
    assert forall k :: 0 <= k < |l.list| ==> Deref(objs', l.list[k]) == Deref(objs, l.list[k]);
    assert forall k :: 0 <= k < |l.list| ==> IsString(objs', l.list[k]);
    assert Strings(objs', r).value == Strings(objs, r).value;
  }

  /** The strings of a list survive an update of an object that is neither a list nor a string. */
  lemma StringsStore(objs: seq<Obj>, a: nat, o: Obj, r: Ref)
    requires Strings(objs, r).Some? && a < |objs| && !objs[a].ListObj? && !objs[a].StringObj?
    ensures Strings(objs[a := o], r) == Strings(objs, r)
  {
    var l := objs[r.addr];
    assert Deref(objs[a := o], r) == Deref(objs, r);
    assert forall k :: 0 <= k < |l.list| ==> Deref(objs[a := o], l.list[k]) == Deref(objs, l.list[k]);
    assert forall k :: 0 <= k < |l.list| ==> IsString(objs[a := o], l.list[k]);
    assert Strings(objs[a := o], r).value == Strings(objs, r).value;
  }

  /** The directories searched for modules, in order (`BLPATH_LIST`). */
  const SEARCH_PATH: seq<string> := ["./modules", "."]

  /** The functions of the `system` module: `exit`, whose body is a host call. */
  const SYSTEM_FUNCTIONS: seq<GFunction> := [NewGFunction("exit", Foreign("exit"), GFUNC_VARARGS)]

  class Heap {
    var objs: seq<Obj>
    var modules: map<string, nat>
    /** For an argument node, how many leading children have been cut off. */
    var stripped: map<NodeId, nat>
    /** How many parsed sources have been given an identity. */
    var units: nat

    predicate Valid()
      reads this
    {
      WellFormed(objs) && forall name :: name in modules ==> ModuleAt(objs, modules[name])
    }

    /**
     * The state after `Init`: the `system` module (`blInitSystem`), with its
     * `exit` function, its search path and `argv` lists of strings.
     */
    constructor (argv: seq<string>)
      ensures Valid() && modules.Keys == {"system"} && units == 0 && stripped == map[]
      ensures var sys := objs[modules["system"]];
        && sys == ModuleObj("system", "builtin", sys.locals)
        && sys.locals.Keys == {"exit", "path", "argv"}
        && sys.locals["exit"] == BuiltinRef(ModuleFunctions("system", SYSTEM_FUNCTIONS), 0)
        && Strings(objs, sys.locals["path"]) == Some(SEARCH_PATH)
        && Strings(objs, sys.locals["argv"]) == Some(argv)
    {
      objs := [];
      modules := map[];
      stripped := map[];
      units := 0;
      new;
      var sys := InitModule("system", SYSTEM_FUNCTIONS);
      ghost var exit := BuiltinRef(ModuleFunctions("system", SYSTEM_FUNCTIONS), 0);
      assert objs[sys].locals == map["exit" := exit];
      var path, args := AddSystemLists(sys, argv);
      assert objs[sys].locals == map["exit" := exit, "path" := path, "argv" := args];
    }

    /** The `path` and `argv` lists of `blInitSystem`, stored into the module at `sys`. */
    method AddSystemLists(sys: nat, argv: seq<string>) returns (path: Ref, args: Ref)
      requires Valid() && ModuleAt(objs, sys)
      modifies this
      ensures Valid() && modules == old(modules) && stripped == old(stripped) && units == old(units)
      ensures sys < |objs| && objs[sys] == ModuleSetMember(ModuleSetMember(old(objs)[sys], "path", path), "argv", args)
      ensures Strings(objs, path) == Some(SEARCH_PATH) && Strings(objs, args) == Some(argv)
    {
      path := MakeStrings(SEARCH_PATH);
      ghost var objs1 := objs;
      args := MakeStrings(argv);
      StringsGrow(objs1, objs, path);
      var m := objs[sys];
      StringsStore(objs, sys, ModuleSetMember(ModuleSetMember(m, "path", path), "argv", args), path);
      StringsStore(objs, sys, ModuleSetMember(ModuleSetMember(m, "path", path), "argv", args), args);
      Store(sys, ModuleSetMember(ModuleSetMember(m, "path", path), "argv", args));
    }

    /** `makePathObject` / `makeArgvObject`: a new list, then each string appended in turn. */
    method MakeStrings(ss: seq<string>) returns (r: Ref)
      requires Valid()
      modifies this
      ensures Valid() && Extends(old(objs), objs) && modules == old(modules)
      ensures stripped == old(stripped) && units == old(units)
      ensures r.Ptr? && |old(objs)| <= r.addr && Strings(objs, r) == Some(ss) && old(objs) <= objs
    {
      r := Alloc(ListObj([], 0));
      var i := 0;
      while i < |ss|
        invariant 0 <= i <= |ss|
        invariant Valid() && Extends(old(objs), objs) && modules == old(modules)
        invariant stripped == old(stripped) && units == old(units)
        invariant r.Ptr? && |old(objs)| <= r.addr < |objs| && Lists.IsList(objs[r.addr]) && old(objs) <= objs
        invariant |objs[r.addr].list| == i
        invariant forall k :: 0 <= k < i ==> objs[r.addr].list[k].Ptr? && r.addr < objs[r.addr].list[k].addr < |objs|
        invariant forall k :: 0 <= k < i ==> objs[objs[r.addr].list[k].addr] == StringObj(ss[k])
      {
        var s := Alloc(StringObj(ss[i]));
        Lists.AppendPlacesLast(objs[r.addr], s);
        Store(r.addr, Lists.Append(objs[r.addr], s));
        i := i + 1;
      }
      var l := objs[r.addr];
      assert forall k :: 0 <= k < |l.list| ==> IsString(objs, l.list[k]);
      assert Strings(objs, r).value == ss;
    }

    /** Appends an object that fits. */
    method Alloc(o: Obj) returns (r: Ref)
      requires Valid() && Fits(objs, o)
      modifies this
      ensures Valid() && Extends(old(objs), objs)
      ensures objs == old(objs) + [o] && r == Ptr(|old(objs)|)
      ensures modules == old(modules) && stripped == old(stripped) && units == old(units)
    {
      AllocKeepsWellFormed(objs, o);
      forall name | name in modules ensures ModuleAt(objs + [o], modules[name]) {
        ExtendsKeepsModules(objs, objs + [o], modules[name]);
      }
      r := Ptr(|objs|);
      objs := objs + [o];
    }

    /** The reference of a value, allocating a value the protocol created. */
    method Put(v: Val) returns (r: Ref)
      requires Valid() && FreshOk(v)
      modifies this
      ensures Valid() && Extends(old(objs), objs)
      ensures (objs, r) == Materialize(old(objs), v)
      ensures modules == old(modules) && stripped == old(stripped) && units == old(units)
    {
      if v.Existing? {
        r := v.r;
      } else {
        r := Alloc(v.o);
      }
    }

    /** Updates one object in place. */
    method Store(a: nat, o: Obj)
      requires Valid() && a < |objs| && Replaces(objs[a], o)
      modifies this
      ensures Valid() && Extends(old(objs), objs)
      ensures objs == old(objs)[a := o]
      ensures modules == old(modules) && stripped == old(stripped) && units == old(units)
    {
      StoreKeepsWellFormed(objs, a, o);
      forall name | name in modules ensures ModuleAt(objs[a := o], modules[name]) {
        ExtendsKeepsModules(objs, objs[a := o], modules[name]);
      }
      objs := objs[a := o];
    }

    /** Takes over a heap a protocol operation computed. */
    method Update(objs': seq<Obj>)
      requires Valid() && WellFormed(objs') && Extends(objs, objs')
      modifies this
      ensures Valid() && objs == objs'
      ensures modules == old(modules) && stripped == old(stripped) && units == old(units)
    {
      forall name | name in modules ensures ModuleAt(objs', modules[name]) {
        ExtendsKeepsModules(objs, objs', modules[name]);
      }
      objs := objs';
    }

    /**
     * `blInitModule`: a module already in the map is returned unchanged;
     * otherwise a module with path "builtin" holding the functions is
     * created and filed under its name.
     */
    method InitModule(name: string, funcs: seq<GFunction>) returns (a: nat)
      requires Valid()
      modifies this
      ensures Valid() && Extends(old(objs), objs) && stripped == old(stripped) && units == old(units)
      ensures name in old(modules) ==> a == old(modules)[name] && objs == old(objs) && modules == old(modules)
      ensures name !in old(modules) ==>
        && a == |old(objs)|
        && objs == old(objs) + [ModuleObj(name, "builtin", InsertFunctions(ModuleFunctions(name, funcs), funcs, |funcs|))]
        && modules == old(modules)[name := a]
    {
      if name in modules {
        return modules[name];
      }
      var m := NewModule(name, "builtin");
      m := m.(locals := InsertFunctions(ModuleFunctions(name, funcs), funcs, |funcs|));
      var r := Alloc(m);
      a := r.addr;
      modules := modules[name := a];
    }

    /**
     * `blAddModule`: a new module filed under its name, replacing any
     * module of that name.
     */
    method AddModule(name: string, fullpath: string) returns (a: nat)
      requires Valid()
      modifies this
      ensures Valid() && Extends(old(objs), objs) && stripped == old(stripped) && units == old(units)
      ensures a == |old(objs)| && objs == old(objs) + [NewModule(name, fullpath)]
      ensures modules == old(modules)[name := a]
    {
      var r := Alloc(NewModule(name, fullpath));
      a := r.addr;
      modules := modules[name := a];
    }

    /** How many leading children of an argument node have been cut off. */
    function Cut(id: NodeId): nat
      reads this
    {
      if id in stripped then stripped[id] else 0
    }

    /** `args.Children = args.Children[1:]`: one more leading child gone for good. */
    method Strip(id: NodeId)
      modifies this
      ensures stripped == old(stripped)[id := old(Cut(id)) + 1]
      ensures objs == old(objs) && modules == old(modules) && units == old(units)
    {
      stripped := stripped[id := Cut(id) + 1];
    }

    /** A fresh identity for a parsed source. */
    method NewUnit() returns (u: nat)
      modifies this
      ensures u == old(units) + 1 && units == u
      ensures objs == old(objs) && modules == old(modules) && stripped == old(stripped)
    {
      units := units + 1;
      u := units;
    }
  }
}
