/**
 * The tree-walking evaluator of blue/eval.go: an `Eval` holds one
 * evaluation context (the source path, its globals, the frame's locals,
 * the open class, the loop and return flags) and walks syntax trees,
 * changing the shared heap as it goes.
 *
 * Go's `panic`/`recover` control flow is an explicit outcome: `Returned`
 * is the `BlDiveout` panic of `return`, `Error` the trace panic raised
 * after a blue error (never recovered), `Fault` a Go run-time panic (which
 * `callFunction` recovers), and `Diverged` an exhausted fuel bound.
 */
module Evaluation {
  import opened Common
  import opened Values
  import opened Protocol
  import opened Interm
  import opened Tokens
  import opened Heaps
  import opened Semantics
  import SmallTypes
  import Members
  import Literals
  import Loader
  import Parsing
  import Strs = StringObjects

  /** The children of an argument node still present once `cut` leading ones are gone. */
  function ArgView(t: Tree, cut: nat): (v: seq<Tree>)
    ensures |v| == if cut <= |t.Children| then |t.Children| - cut else 0
    ensures forall j :: 0 <= j < |v| ==> v[j] == t.Children[cut + j]
  {
    if cut <= |t.Children| then t.Children[cut..] else []
  }

  /** The texts of a node's children, in order: a function's parameter names, an import path's names. */
  function ChildTexts(p: Tree): (names: seq<string>)
    ensures |names| == |p.Children| && forall i :: 0 <= i < |p.Children| ==> names[i] == p.Children[i].Str
  {
    seq(|p.Children|, i requires 0 <= i < |p.Children| => p.Children[i].Str)
  }

  /** The builtin function a reference designates, when it designates one. */
  function BuiltinOf(f: Ref): Option<GFunction>
  {
    if f.BuiltinRef? then BuiltinAt(f.table, f.index) else None
  }

  /** What CALL can call: a builtin function, a builtin method, a user function or a user method. */
  predicate Callable(objs: seq<Obj>, f: Ref)
  {
    f.BuiltinRef? || (Deref(objs, f).Some? && (Deref(objs, f).value.GMethodObj? || Deref(objs, f).value.FunctionObj? || Deref(objs, f).value.MethodObj?))
  }

  /** Where an assignment stores: a name through `set`, a member through `blSetMember`, an item through `blSetSeqItem`. */
  datatype Target = NameTarget(name: string) | MemberTarget(obj: Ref, member: string) | ItemTarget(obj: Ref, key: Ref)

  /** One store of an assignment: where, the value stored, and the heap the store began on. */
  datatype Store = Store(target: Target, value: Ref, before: seq<Obj>)

  /** The left-hand sides `assign` and `augassign` store to; any other does nothing. */
  predicate Assignable(k: Kind)
  {
    k == NAME || k == MEMBER || k == SUBSCRIPT
  }

  /** The target has the kind, and the name, of the left-hand side node. */
  predicate Aims(left: Tree, target: Target)
  {
    match target
    case NameTarget(n) => left.NodeType == NAME && n == left.Str
    case MemberTarget(_, n) => left.NodeType == MEMBER && |left.Children| >= 2 && n == left.Children[1].Str
    case ItemTarget(_, _) => left.NodeType == SUBSCRIPT
  }

  /** NEGATE, COMPL or a binary operator applied to evaluated operands, as `exec` dispatches them. */
  function ArithSpec(objs: seq<Obj>, k: Kind, a: Ref, b: Ref, fs: FloatSem): Outcome<Val>
    requires WellFormed(objs) && (k == NEGATE || k == COMPL || BinOp(k).Some?)
  {
    if k == NEGATE then Negate(objs, a)
    else if k == COMPL then Complement(objs, a)
    else Binary(objs, BinOp(k).value.0, a, b, BinOp(k).value.1, fs)
  }

  /**
   * Steps run in order: each completes before the next runs, all `n`
   * complete for the whole to complete, and the first that does not
   * ends the whole with its outcome.
   */
  predicate InOrder<T>(outcomes: seq<Outcome<T>>, n: nat, r: Outcome<Ref>)
  {
    && |outcomes| <= n
    && (forall j :: 0 <= j < |outcomes| - 1 ==> outcomes[j].Done?)
    && (r.Done? <==> |outcomes| == n && forall j :: 0 <= j < n ==> outcomes[j].Done?)
    && (!r.Done? ==> 0 < |outcomes| && !outcomes[|outcomes| - 1].Done? && r == PassOn(outcomes[|outcomes| - 1]))
  }

  /**
   * One child of the interactive root, given its outcome and the heap
   * after it: a non-nil value is printed, and a print refused with a
   * message is passed over.
   */
  function EchoStep(o: Outcome<Ref>, h: seq<Obj>): Outcome<()>
  {
    if !o.Done? then PassOn(o)
    else if o.value == Null then Done(())
    else
      var p := PrintStatus(h, o.value);
      if p.Error? then Done(()) else p
  }

  function EchoSteps(outcomes: seq<Outcome<Ref>>, hs: seq<seq<Obj>>): (steps: seq<Outcome<()>>)
    requires |outcomes| == |hs|
    ensures |steps| == |outcomes| && forall j :: 0 <= j < |steps| ==> steps[j] == EchoStep(outcomes[j], hs[j])
  {
    seq(|outcomes|, j requires 0 <= j < |outcomes| => EchoStep(outcomes[j], hs[j]))
  }

  /**
   * The rounds of a `while` loop that completed: `truths[j]` is the
   * condition tested in round `j` and `steps` the body's rounds. Every
   * condition but the last was true, and the loop left either because
   * the last condition was false or because the last round broke out;
   * no earlier round broke out.
   */
  predicate LoopRan(truths: seq<bool>, steps: seq<LoopStep>)
  {
    && 0 < |truths|
    && (forall j :: 0 <= j < |truths| - 1 ==> truths[j])
    && (forall j :: 0 <= j < |steps| - 1 ==> steps[j] != LeaveLoop)
    && if truths[|truths| - 1] then |steps| == |truths| && steps[|steps| - 1] == LeaveLoop
       else |steps| == |truths| - 1 && (0 < |steps| ==> steps[|steps| - 1] != LeaveLoop)
  }

  /** The new text a string method gives for its receiver and arguments. */
  function StringCall(cb: Builtin, self: Ref, args: seq<Ref>, objs: seq<Obj>): (r: Outcome<string>)
    requires cb == StringConcat || cb == StringToUpper || cb == StringToLower
    ensures r.Done? || r.Error?
    ensures Strs.Receiver(self, objs).None? ==> r == Error(Strs.NOT_A_STRING)
  {
    if cb == StringConcat then Strs.ConcatMethod(self, args, objs)
    else
      match Strs.Receiver(self, objs)
      case None => Error(Strs.NOT_A_STRING)
      case Some(s) => Done(if cb == StringToUpper then Strs.ToUpperSpec(s) else Strs.ToLowerSpec(s))
  }

  /**
   * The Go callback of a builtin on its receiver and evaluated arguments,
   * as the new heap and the value: a string method allocates the new
   * string, a list method stores the receiver's new contents and gives
   * nil, and a callback outside the model gives what the host gives.
   */
  function CallbackSpec(cb: Builtin, self: Ref, args: seq<Ref>, objs: seq<Obj>,
                        host: (string, Ref, seq<Ref>) -> Result<Ref>): (r: Outcome<(seq<Obj>, Ref)>)
    requires WellFormed(objs)
    ensures r.Done? || r.Error? || r.Fault?
    ensures r.Done? ==> WellFormed(r.value.0) && Extends(objs, r.value.0)
    ensures r.Done? && (cb == StringConcat || cb == StringToUpper || cb == StringToLower) ==>
      |r.value.0| == |objs| + 1 && r.value.1 == Ptr(|objs|) && r.value.0[|objs|].StringObj?
    ensures r.Done? && !cb.Foreign? && !(cb == StringConcat || cb == StringToUpper || cb == StringToLower) ==>
      |r.value.0| == |objs| && r.value.1 == NilRef && self.Ptr? && self.addr < |objs| && r.value.0[self.addr].ListObj?
  {
    if cb == StringConcat || cb == StringToUpper || cb == StringToLower then
      var s := StringCall(cb, self, args, objs);
      if s.Done? then Done((objs + [StringObj(s.value)], Ptr(|objs|))) else PassOn(s)
    else if cb.Foreign? then
      match host(cb.name, self, args)
      case Ok(v) => Done((objs, v))
      case Failure(m) => Error(m)
    else
      var l := ListCall(cb, self, args, objs);
      if l.Done? then Done((objs[self.addr := l.value], NilRef)) else PassOn(l)
  }

  class Eval {
    const heap: Heap
    const pathname: string
    /** Which globals map this context writes: the main program's, or a module's `Locals`. */
    const globalsKind: Globals
    const fs: FloatSem
    const files: Loader.Files
    /** The callbacks of builtin modules that are not part of this model: a value, or an error message. */
    const host: (string, Ref, seq<Ref>) -> Result<Ref>

    /** The main program's globals (a module's context keeps its globals in the heap instead). */
    var mainGlobals: map<string, Ref>
    /** The current frame's `Locals`: `None` at the top level, the call's map inside a function. */
    var locals: Option<map<string, Ref>>
    var cobj: Ref
    var diveType: int
    var diveValue: Ref
    var inFunction: bool
    var loopCount: int

    predicate Valid()
      reads this, heap
    {
      heap.Valid() && (globalsKind.ModuleGlobals? ==> ModuleAt(heap.objs, globalsKind.addr))
    }

    /** `e.globals`. */
    function Globals(): map<string, Ref>
      reads this, heap
    {
      if globalsKind.ModuleGlobals? && ModuleAt(heap.objs, globalsKind.addr) then heap.objs[globalsKind.addr].locals
      else mainGlobals
    }

    /**
     * What every evaluation step keeps: the context stays valid, the heap
     * only grows, and a `return` never escapes from outside a function;
     * a step begun outside a function that completes (or panics at run
     * time) ends outside one too.
     */
    predicate Keeps<T>(objs0: seq<Obj>, inFunction0: bool, r: Outcome<T>)
      reads this, heap
    {
      && Valid()
      && Extends(objs0, heap.objs)
      && (!inFunction0 ==> !r.Returned? && (r.Done? || r.Fault? ==> !inFunction))
    }

    /** `New`: a context with empty flags, no open class and no frame. */
    constructor (heap: Heap, pathname: string, globalsKind: Globals, globals: map<string, Ref>,
                 fs: FloatSem, files: Loader.Files, host: (string, Ref, seq<Ref>) -> Result<Ref>)
      requires heap.Valid() && (globalsKind.ModuleGlobals? ==> ModuleAt(heap.objs, globalsKind.addr))
      ensures Valid() && this.heap == heap && this.pathname == pathname && this.globalsKind == globalsKind
      ensures this.fs == fs && this.files == files && this.host == host && mainGlobals == globals
      ensures locals.None? && cobj == Null && diveType == DIVEOUT_RETURN && diveValue == Null
      ensures !inFunction && loopCount == 0
    {
      this.heap := heap;
      this.pathname := pathname;
      this.globalsKind := globalsKind;
      this.fs := fs;
      this.files := files;
      this.host := host;
      mainGlobals := globals;
      locals := None;
      cobj := Null;
      diveType := DIVEOUT_RETURN;
      diveValue := Null;
      inFunction := false;
      loopCount := 0;
    }

    /** The context is still valid after the heap grew. */
    lemma StillValid(objs0: seq<Obj>)
      requires heap.Valid() && Extends(objs0, heap.objs)
      requires globalsKind.ModuleGlobals? ==> ModuleAt(objs0, globalsKind.addr)
      ensures Valid()
    {
      if globalsKind.ModuleGlobals? {
        ExtendsKeepsModules(objs0, heap.objs, globalsKind.addr);
      }
    }

    /** The argument nodes of a call as they stand now: receivers cut off earlier are gone. */
    function ArgNodes(t: Tree, id: NodeId): seq<Tree>
      reads this, heap
    {
      ArgView(t, heap.Cut(id))
    }

    /** `name` is bound to `v` in the frame's locals, or in the globals at the top level. */
    predicate BoundTo(name: string, v: Ref)
      reads this, heap
    {
      if locals.Some? then name in locals.value && locals.value[name] == v
      else name in Globals() && Globals()[name] == v
    }

    /** A store begun on `before` that `s` describes left this heap and gave `r`. */
    predicate StoreGave<U(==)>(before: seq<Obj>, s: Outcome<seq<Obj>>, r: Outcome<U>)
      reads heap
    {
      if s.Done? then r.Done? && heap.objs == s.value else r == PassOn(s) && heap.objs == before
    }

    /**
     * The store `st` left the state and gave `r` as `set`, `blSetMember`
     * and `blSetSeqItem` say: a name outside a class body is bound in the
     * frame, inside one it is a member of the open class.
     */
    predicate Stored<U(==)>(st: Store, r: Outcome<U>)
      reads this, heap
    {
      && WellFormed(st.before)
      && match st.target
         case NameTarget(n) =>
           if cobj == Null then r.Done? && BoundTo(n, st.value)
           else StoreGave(st.before, SetMemberOf(st.before, cobj, n, st.value), r)
         case MemberTarget(o, n) => StoreGave(st.before, SetMemberOf(st.before, o, n, st.value), r)
         case ItemTarget(o, k) => StoreGave(st.before, SetSeqItem(st.before, o, st.value, k), r)
    }

    /** A value computed on `before` as `v` says was made a reference on this heap, or `v`'s failure passed on. */
    predicate Gave(before: seq<Obj>, v: Outcome<Val>, r: Outcome<Ref>)
      reads heap
    {
      (v.Done? ==> r.Done? && (heap.objs, r.value) == Materialize(before, v.value))
      && (!v.Done? ==> r == PassOn(v) && heap.objs == before)
    }

    /** The callback `cb` ran on the arguments and heap `args` and gave this heap and `r`, as `CallbackSpec` says. */
    predicate CallbackGave(cb: Builtin, self: Ref, args: (seq<Ref>, seq<Obj>), r: Outcome<Ref>)
      reads this, heap
    {
      && WellFormed(args.1)
      && var c := CallbackSpec(cb, self, args.0, args.1, host);
         (c.Done? ==> r == Done(c.value.1) && heap.objs == c.value.0)
         && (!c.Done? ==> r == PassOn(c) && heap.objs == args.1)
    }

    /** `Init` of type `tag` ran on the arguments and heap `args` and gave this heap and `r`; a nil result is an error. */
    predicate InitGave(tag: Tag, args: (seq<Ref>, seq<Obj>), r: Outcome<Ref>)
      reads heap
    {
      var v := TypeInit(args.1, tag, args.0);
      (v.Done? ==> var m := Materialize(args.1, v.value);
                   heap.objs == m.0 && r == (if m.1 == Null then Error(STALE) else Done(m.1)))
      && (!v.Done? ==> r == PassOn(v) && heap.objs == args.1)
    }

    // ----- names -----

    /** `get`: the lookup of `Semantics.Resolve`, its result allocated when the lookup made it. */
    method Get(name: string) returns (r: Outcome<Ref>)
      requires Valid()
      modifies heap
      ensures Valid() && Extends(old(heap.objs), heap.objs) && !r.Returned?
      ensures var res := Resolve(old(heap.objs), cobj, locals, old(Globals()), name);
        && (r.Done? <==> res.Done?)
        && (res.Done? ==> (heap.objs, r.value) == Materialize(res.value.0, res.value.1) && r.value != Null)
        && (!res.Done? ==> r == PassOn(res) && heap.objs == old(heap.objs))
    {
      var res := Resolve(heap.objs, cobj, locals, Globals(), name);
      if !res.Done? {
        return PassOn(res);
      }
      heap.Update(res.value.0);
      var x := heap.Put(res.value.1);
      StillValid(old(heap.objs));
      return Done(x);
    }

    /** `e.globals[name] = v`: the module's `Locals` in the heap, or the main program's map. */
    method SetGlobal(name: string, v: Ref)
      requires Valid()
      modifies this, heap
      ensures Valid() && Extends(old(heap.objs), heap.objs)
      ensures locals == old(locals) && cobj == old(cobj) && diveType == old(diveType)
      ensures diveValue == old(diveValue) && inFunction == old(inFunction) && loopCount == old(loopCount)
      ensures Globals() == old(Globals())[name := v]
      ensures globalsKind.MainGlobals? ==> heap.objs == old(heap.objs)
      ensures globalsKind.ModuleGlobals? ==>
        heap.objs == old(heap.objs)[globalsKind.addr := Members.ModuleSetMember(old(heap.objs)[globalsKind.addr], name, v)]
    {
      if globalsKind.ModuleGlobals? {
        var a := globalsKind.addr;
        heap.Store(a, Members.ModuleSetMember(heap.objs[a], name, v));
        StillValid(old(heap.objs));
      } else {
        mainGlobals := mainGlobals[name := v];
      }
    }

    /**
     * `set`: into the open class through its member hook, otherwise as
     * `Semantics.Bind` says (the frame's locals, else the globals), which
     * touches no heap object but the globals' module.
     */
    method Set(name: string, v: Ref) returns (r: Outcome<()>)
      requires Valid()
      modifies this, heap
      ensures Valid() && Extends(old(heap.objs), heap.objs) && !r.Returned?
      ensures cobj == old(cobj) && diveType == old(diveType) && diveValue == old(diveValue)
      ensures inFunction == old(inFunction) && loopCount == old(loopCount)
      ensures old(cobj) != Null ==> locals == old(locals)
      ensures old(cobj) != Null ==>
        var s := SetMemberOf(old(heap.objs), old(cobj), name, v);
        if s.Done? then r.Done? && heap.objs == s.value
        else r == PassOn(s) && heap.objs == old(heap.objs)
      ensures old(cobj) == Null ==>
        && r.Done? && (locals, Globals()) == Bind(old(locals), old(Globals()), name, v)
        && |heap.objs| == |old(heap.objs)|
        && forall a :: 0 <= a < |heap.objs| && !(globalsKind.ModuleGlobals? && a == globalsKind.addr) ==>
             heap.objs[a] == old(heap.objs)[a]
    {
      if cobj != Null {
        var s := SetMemberOf(heap.objs, cobj, name, v);
        if !s.Done? {
          return PassOn(s);
        }
        heap.Update(s.value);
        StillValid(old(heap.objs));
        return Done(());
      }
      if locals.Some? {
        locals := Some(locals.value[name := v]);
      } else {
        SetGlobal(name, v);
      }
      return Done(());
    }

    // ----- evaluation -----

    /** `Run` (through `evalCode`): the root in a frame without locals; the caller's frame comes back. */
    method Run(root: Tree, id: NodeId, fuel: nat) returns (r: Outcome<Ref>)
      requires Valid()
      modifies this, heap
      ensures Keeps(old(heap.objs), old(inFunction), r)
      ensures r.Done? ==> locals == old(locals)
      decreases fuel
    {
      var saved := locals;
      locals := None;
      r := Exec(root, id, fuel);
      if r.Done? {
        locals := saved;
      }
    }

    /** `exec`: one node, dispatched on its kind. Statements give Go nil; expressions go to `ExecExpr`. */
    method Exec(t: Tree, id: NodeId, fuel: nat) returns (r: Outcome<Ref>)
      requires Valid()
      modifies this, heap
      ensures Keeps(old(heap.objs), old(inFunction), r)
      decreases fuel, t, 4
    {
      var k := t.NodeType;
      if k == INTERACTIVE {
        ghost var outcomes, hs;
        r, outcomes, hs := Interactive(t, id, fuel);
      } else if k == FILE_INPUT || k == CLASSBLOCK || k == BLOCK {
        ghost var outcomes;
        r, outcomes := Block(t, id, fuel);
      } else if k == IMPORT {
        ghost var outcomes;
        r, outcomes := Import(t, id, fuel);
      } else if k == MAKE_CLASS {
        ghost var cls;
        r, cls := MakeClass(t, id, fuel);
      } else if k == MAKE_FUNC {
        ghost var made;
        r, made := MakeFunc(t, id);
      } else if k == IF {
        ghost var truths, ran;
        r, truths, ran := IfStmt(t, id, fuel);
      } else if k == WHILE {
        ghost var truths, steps, lastCount;
        r, truths, steps, lastCount := WhileStmt(t, id, fuel);
      } else if k == RETURN || k == BREAK || k == CONTINUE {
        r := Jump(t, id, fuel);
      } else if k == ASSIGN {
        ghost var st;
        r, st := Assign(t, id, fuel);
      } else if k == AUGASSIGN {
        ghost var operands, st;
        r, operands, st := AugAssign(t, id, fuel);
      } else if k == PRINT {
        ghost var printed;
        r, printed := Print(t, id, fuel);
      } else {
        r := ExecExpr(t, id, fuel);
      }
    }

    /** The expression kinds of `exec`; an unknown kind is fatal. */
    method ExecExpr(t: Tree, id: NodeId, fuel: nat) returns (r: Outcome<Ref>)
      requires Valid()
      modifies this, heap
      ensures Keeps(old(heap.objs), old(inFunction), r)
      decreases fuel, t, 3
    {
      var k := t.NodeType;
      if k == LOGICAL_AND || k == LOGICAL_OR || k == NOT {
        ghost var left, right;
        r, left, right := Logic(t, id, fuel);
      } else if k == NEGATE || k == COMPL || BinOp(k).Some? {
        ghost var operands;
        r, operands := Arithmetic(t, id, fuel);
      } else if k == COMP_OP {
        ghost var a, b;
        r, a, b := Comparison(t, id, fuel);
      } else if k == NAME {
        r := Get(t.Str);
      } else if k == MEMBER {
        ghost var obj;
        r, obj := Member(t, id, fuel);
      } else if k == MAKE_INSTANCE {
        ghost var callee, args;
        r, callee, args := MakeInstance(t, id, fuel);
      } else if k == CALL {
        ghost var callee, called, args, returned;
        r, callee, called, args, returned := Call(t, id, fuel);
      } else if k == SUBSCRIPT {
        ghost var operands;
        r, operands := Subscript(t, id, fuel);
      } else if k == LIST {
        ghost var items;
        r, items := ListNode(t, id, fuel);
      } else if k == RANGE {
        ghost var operands;
        r, operands := RangeNode(t, id, fuel);
      } else if k == STRING || k == INTEGER || k == FLOAT || k == TRUE || k == FALSE || k == NIL {
        r := Literal(t);
      } else {
        // `os.Exit(1)` after the message: nothing recovers from it.
        r := Error(Unrecognized(k));
      }
    }

    /** `node.Children[i]` evaluated; a missing child is Go's index panic. */
    method Operand(t: Tree, id: NodeId, i: nat, fuel: nat) returns (r: Outcome<Ref>)
      requires Valid()
      modifies this, heap
      ensures Keeps(old(heap.objs), old(inFunction), r)
      ensures i >= |t.Children| ==> r == Fault(OUT_OF_RANGE)
      decreases fuel, t, 0
    {
      if i >= |t.Children| {
        return Fault(OUT_OF_RANGE);
      }
      r := Exec(t.Children[i], ChildId(id, i), fuel);
    }

    /**
     * `block`: every child in order; the first that does not complete ends
     * the block. `outcomes` are the children's outcomes, in order.
     */
    method Block(t: Tree, id: NodeId, fuel: nat) returns (r: Outcome<Ref>, ghost outcomes: seq<Outcome<Ref>>)
      requires Valid()
      modifies this, heap
      ensures Keeps(old(heap.objs), old(inFunction), r)
      ensures InOrder(outcomes, |t.Children|, r)
      ensures r.Done? ==> r.value == Null
      decreases fuel, t, 2
    {
      outcomes := [];
      var i := 0;
      while i < |t.Children|
        invariant 0 <= i <= |t.Children| && |outcomes| == i
        invariant forall j :: 0 <= j < i ==> outcomes[j].Done?
        invariant Keeps(old(heap.objs), old(inFunction), Done(Null))
      {
        var x := Exec(t.Children[i], ChildId(id, i), fuel);
        outcomes := outcomes + [x];
        if !x.Done? {
          return PassOn(x), outcomes;
        }
        i := i + 1;
      }
      return Done(Null), outcomes;
    }

    /**
     * The interactive root: every child in order, each non-nil result
     * printed; a print refused with a message is passed over
     * (`EchoStep`). `outcomes` are the children's outcomes and `hs` the
     * heaps they left.
     */
    method Interactive(t: Tree, id: NodeId, fuel: nat)
      returns (r: Outcome<Ref>, ghost outcomes: seq<Outcome<Ref>>, ghost hs: seq<seq<Obj>>)
      requires Valid()
      modifies this, heap
      ensures Keeps(old(heap.objs), old(inFunction), r)
      ensures |outcomes| == |hs| && InOrder(EchoSteps(outcomes, hs), |t.Children|, r)
      ensures r.Done? ==> r.value == Null
      decreases fuel, t, 2
    {
      outcomes, hs := [], [];
      var i := 0;
      while i < |t.Children|
        invariant 0 <= i <= |t.Children| && |outcomes| == i && |hs| == i
        invariant forall j :: 0 <= j < i ==> EchoStep(outcomes[j], hs[j]).Done?
        invariant Keeps(old(heap.objs), old(inFunction), Done(Null))
      {
        var x := Exec(t.Children[i], ChildId(id, i), fuel);
        outcomes, hs := outcomes + [x], hs + [heap.objs];
        if !x.Done? {
          return PassOn(x), outcomes, hs;
        }
        if x.value != Null {
          var p := PrintStatus(heap.objs, x.value);
          if p.Fault? || p.Diverged? {
            return PassOn(p), outcomes, hs;
          }
        }
        i := i + 1;
      }
      return Done(Null), outcomes, hs;
    }

    /**
     * PRINT: `blPrint` of the value (`Semantics.PrintStatus`); a value
     * without a representation is an error. `printed` is the value.
     */
    method Print(t: Tree, id: NodeId, fuel: nat) returns (r: Outcome<Ref>, ghost printed: Option<Ref>)
      requires Valid()
      modifies this, heap
      ensures Keeps(old(heap.objs), old(inFunction), r)
      ensures r.Done? ==> printed.Some?
      ensures printed.Some? ==> var p := PrintStatus(heap.objs, printed.value);
        (p.Done? ==> r == Done(Null)) && (!p.Done? ==> r == PassOn(p))
      decreases fuel, t, 2
    {
      printed := None;
      var x := Operand(t, id, 0, fuel);
      if !x.Done? {
        return PassOn(x), printed;
      }
      printed := Some(x.value);
      var p := PrintStatus(heap.objs, x.value);
      if !p.Done? {
        return PassOn(p), printed;
      }
      return Done(Null), printed;
    }

    // ----- imports -----

    /**
     * IMPORT and `blImportModule`: each path node is joined into a path
     * and its base name located (`Loader.LocateModule`); a module found in
     * a file is parsed, filed under the base name and run in a context of
     * its own whose globals are the module's `Locals`; the module is then
     * bound under the base name in the globals. The paths are imported in
     * order, `outcomes` being theirs.
     */
    method Import(t: Tree, id: NodeId, fuel: nat) returns (r: Outcome<Ref>, ghost outcomes: seq<Outcome<()>>)
      requires Valid()
      modifies this, heap
      ensures Keeps(old(heap.objs), old(inFunction), r)
      ensures InOrder(outcomes, |t.Children|, r)
      ensures r.Done? ==> r.value == Null
      decreases fuel, t, 2
    {
      outcomes := [];
      var i := 0;
      while i < |t.Children|
        invariant 0 <= i <= |t.Children| && |outcomes| == i
        invariant forall j :: 0 <= j < i ==> outcomes[j].Done?
        invariant Keeps(old(heap.objs), old(inFunction), Done(Null))
      {
        ghost var m;
        var x;
        x, m := ImportOne(t.Children[i], fuel);
        outcomes := outcomes + [x];
        if !x.Done? {
          return PassOn(x), outcomes;
        }
        i := i + 1;
      }
      return Done(Null), outcomes;
    }

    /**
     * One path of an IMPORT statement: located by its joined path; a
     * cached module is reused, a found one loaded (`LoadModule`); the
     * module is then bound under the path's base name in the globals.
     */
    method ImportOne(p: Tree, fuel: nat) returns (r: Outcome<()>, ghost bound: Ref)
      requires Valid()
      modifies this, heap
      ensures Keeps(old(heap.objs), old(inFunction), r)
      ensures var path := Join(ChildTexts(p), [Loader.SEP]); var name := Loader.Base(path);
        var loc := Loader.LocateSpec(old(heap.objs), old(heap.modules), name, path, files);
        && (!loc.Done? ==> r == PassOn(loc) && heap.objs == old(heap.objs))
        && (loc.Done? && loc.value.Cached? ==>
              r.Done? && bound == Ptr(loc.value.addr) && Globals() == old(Globals())[name := bound])
        && (loc.Done? && loc.value.Found? && r.Done? ==>
              bound == Ptr(|old(heap.objs)|) && ModuleAt(heap.objs, bound.addr) && name in Globals() && Globals()[name] == bound)
      decreases fuel, p, 2
    {
      bound := Null;
      var path := Loader.JoinPath(ChildTexts(p));
      var name := Loader.Base(path);
      var loc := Loader.LocateModule(heap.objs, heap.modules, name, path, files);
      if !loc.Done? {
        return PassOn(loc), bound;
      }
      var m: Ref;
      if loc.value.Cached? {
        m := Ptr(loc.value.addr);
      } else {
        if fuel == 0 {
          return Diverged, bound;
        }
        var x := LoadModule(name, loc.value.fullpath, loc.value.source, fuel - 1);
        StillValid(old(heap.objs));
        if !x.Done? {
          return PassOn(x), bound;
        }
        m := x.value;
      }
      bound := m;
      ghost var objs1 := heap.objs;
      SetGlobal(name, m);
      if loc.value.Found? {
        ExtendsKeepsModules(objs1, heap.objs, m.addr);
      }
      return Done(()), bound;
    }

    /**
     * `blLoadModule`: the module's source is parsed, then filed and run as
     * `ExecModule` says.
     */
    method LoadModule(name: string, fullpath: string, source: string, fuel: nat) returns (r: Outcome<Ref>)
      requires heap.Valid()
      modifies heap
      ensures heap.Valid() && Extends(old(heap.objs), heap.objs) && !r.Returned?
      ensures r.Done? ==> r.value == Ptr(|old(heap.objs)|) && ModuleAt(heap.objs, r.value.addr)
      decreases fuel, 1
    {
      var tree := Parsing.Parse(fullpath, source, false);
      if tree.Failure? {
        return Error(tree.msg);
      }
      ghost var filed, modules1;
      r, filed, modules1 := ExecModule(name, fullpath, tree.value, fuel);
    }

    /**
     * `blAddModule` and `blExecModule`: a module object is filed under
     * `name`, and the tree run by an evaluator of its own whose globals
     * are that module's `Locals`. `filed` and `modules1` are the heap and
     * the module table right after the filing.
     */
    method ExecModule(name: string, fullpath: string, tree: Tree, fuel: nat)
      returns (r: Outcome<Ref>, ghost filed: seq<Obj>, ghost modules1: map<string, nat>)
      requires heap.Valid()
      modifies heap
      ensures heap.Valid() && Extends(old(heap.objs), heap.objs) && !r.Returned?
      ensures filed == old(heap.objs) + [Members.NewModule(name, fullpath)]
      ensures modules1 == old(heap.modules)[name := |old(heap.objs)|]
      ensures Extends(filed, heap.objs)
      ensures fuel == 0 ==> r == Diverged && heap.objs == filed && heap.modules == modules1
      ensures r.Done? ==> r.value == Ptr(|old(heap.objs)|) && ModuleAt(heap.objs, r.value.addr)
      decreases fuel, 0
    {
      var a := heap.AddModule(name, fullpath);
      filed, modules1 := heap.objs, heap.modules;
      var u := heap.NewUnit();
      if fuel == 0 {
        return Diverged, filed, modules1;
      }
      var sub := new Eval(heap, fullpath, ModuleGlobals(a), map[], fs, files, host);
      var x := sub.Run(tree, NodeId(u, []), fuel - 1);
      if !x.Done? {
        return PassOn(x), filed, modules1;
      }
      assert TagOf(heap.objs[a]) == TagOf(filed[a]);
      return Done(Ptr(a)), filed, modules1;
    }

    // ----- definitions -----

    /**
     * MAKE_CLASS and `makeClass`: the base named by the extends node, a
     * new class opened as `cobj` while its block runs, then bound under
     * its name with `cobj` cleared. A class body that cleared `cobj`
     * (by defining a class itself) leaves nothing to bind, an error.
     */
    method MakeClass(t: Tree, id: NodeId, fuel: nat) returns (r: Outcome<Ref>, ghost cls: Ref)
      requires Valid()
      modifies this, heap
      ensures Keeps(old(heap.objs), old(inFunction), r)
      ensures r.Done? ==> r.value == Null && cobj == Null
      ensures r.Done? ==> cls.Ptr? && |old(heap.objs)| <= cls.addr < |heap.objs| && heap.objs[cls.addr].ClassObj?
      decreases fuel, t, 2
    {
      cls := Null;
      if |t.Children| < 3 {
        return Fault(OUT_OF_RANGE), cls;
      }
      var name := t.Children[0].Str;
      var ext := t.Children[1];
      var base := Null;
      if |ext.Children| > 0 {
        var b := Get(ext.Children[0].Str);
        if !b.Done? {
          return PassOn(b), cls;
        }
        base := b.value;
      }
      if base.Ptr? && base.addr >= |heap.objs| {
        return Fault(NIL_DEREF), cls;
      }
      ghost var bound;
      r, cls, bound := OpenClass(name, base, t.Children[2], ChildId(id, 2), fuel);
      StillValid(old(heap.objs));
    }

    /**
     * The rest of `makeClass` once the base is known: the class is
     * allocated and opened as `cobj`, its block run, and the class left
     * in `cobj` (`bound`) bound under `name` with `cobj` cleared.
     */
    method OpenClass(name: string, base: Ref, body: Tree, bid: NodeId, fuel: nat)
      returns (r: Outcome<Ref>, ghost cls: Ref, ghost bound: Ref)
      requires Valid() && (base.Ptr? ==> base.addr < |heap.objs|)
      modifies this, heap
      ensures Keeps(old(heap.objs), old(inFunction), r)
      ensures cls == Ptr(|old(heap.objs)|) && cls.addr < |heap.objs| && heap.objs[cls.addr].ClassObj?
      ensures r.Done? ==> r.value == Null && cobj == Null && bound != Null && BoundTo(name, bound)
      decreases fuel, body, 5
    {
      var c := heap.Alloc(Members.NewClass(name, base));
      StillValid(old(heap.objs));
      ghost var objs1 := heap.objs;
      cls, bound := c, Null;
      cobj := c;
      var x := Exec(body, bid, fuel);
      ExtendsKeepsClasses(objs1, heap.objs, c.addr);
      if !x.Done? {
        return PassOn(x), cls, bound;
      }
      var obj := cobj;
      if obj == Null {
        return Error(STALE), cls, bound;
      }
      cobj := Null;
      bound := obj;
      ghost var objs2 := heap.objs;
      // with no class open, `set` binds and cannot fail
      var s := Set(name, obj);
      ExtendsKeepsClasses(objs2, heap.objs, c.addr);
      return Done(Null), cls, bound;
    }

    /**
     * MAKE_FUNC and `makeFunc`: a function over the parameter names, the
     * star flag of the PARAMETERS node and the block, bound under its
     * name; a refused binding in a class body is passed over.
     */
    method MakeFunc(t: Tree, id: NodeId) returns (r: Outcome<Ref>, ghost made: Ref)
      requires Valid()
      modifies this, heap
      ensures Keeps(old(heap.objs), old(inFunction), r)
      ensures r.Done? ==> r.value == Null && |t.Children| >= 3 && made == Ptr(|old(heap.objs)|)
      ensures r.Done? && old(cobj) == Null ==>
        && made.addr < |heap.objs|
        && heap.objs[made.addr] ==
             SmallTypes.NewFunction(pathname, t.Children[0].Str, globalsKind, ChildTexts(t.Children[1]),
                                    |t.Children[1].Children|, t.Children[2], ChildId(id, 2), StarFlagged(t.Children[1].Flags))
        && (locals, Globals()) == Bind(old(locals), old(Globals()), t.Children[0].Str, made)
    {
      made := Null;
      if |t.Children| < 3 {
        return Fault(OUT_OF_RANGE), made;
      }
      var name := t.Children[0].Str;
      var p := t.Children[1];
      var f := SmallTypes.NewFunction(pathname, name, globalsKind, ChildTexts(p), |p.Children|,
                                      t.Children[2], ChildId(id, 2), StarFlagged(p.Flags));
      ghost var g0 := Globals();
      var x := heap.Alloc(f);
      StillValid(old(heap.objs));
      assert Globals() == g0;
      made := x;
      var s := Set(name, x);
      if s.Fault? {
        return Fault(s.msg), made;
      }
      return Done(Null), made;
    }

    // ----- control flow -----

    /**
     * `ifStmt`: conditions at indices 0, 3, 6, ... are tested in turn and
     * the child after the first true one runs; when the index reaches the
     * child count exactly, the last child runs. `truths` are the
     * conditions tested and `ran` the index of the child run, as
     * `Semantics.IfChoice` gives it.
     */
    method IfStmt(t: Tree, id: NodeId, fuel: nat) returns (r: Outcome<Ref>, ghost truths: seq<bool>, ghost ran: Option<int>)
      requires Valid()
      modifies this, heap
      ensures Keeps(old(heap.objs), old(inFunction), r)
      ensures r.Done? ==>
        && r.value == Null && ran == IfChoice(|t.Children|, truths)
        && |truths| <= Conditions(|t.Children|)
        && (FirstTrue(truths) == |truths| ==> |truths| == Conditions(|t.Children|))
      decreases fuel, t, 2
    {
      var n := |t.Children|;
      var i := 0;
      truths := [];
      ran := None;
      while i < n
        invariant 0 <= i && i == 3 * |truths| && i <= n + 2
        invariant forall j :: 0 <= j < |truths| ==> !truths[j]
        invariant Keeps(old(heap.objs), old(inFunction), Done(Null))
        decreases n - i
      {
        var c := Exec(t.Children[i], ChildId(id, i), fuel);
        if !c.Done? {
          return PassOn(c), truths, ran;
        }
        var b := EvalCondHook(heap.objs, c.value, fs);
        if !b.Done? {
          return PassOn(b), truths, ran;
        }
        if b.value {
          IfTaken(n, truths);
          truths := truths + [true];
          ran := Some(i + 1);
          var x := Operand(t, id, i + 1, fuel);
          if !x.Done? {
            return PassOn(x), truths, ran;
          }
          return Done(Null), truths, ran;
        }
        truths := truths + [false];
        i := i + 3;
      }
      IfExhausted(n, truths);
      if i == n {
        ran := Some(n - 1);
        if n == 0 {
          return Fault(OUT_OF_RANGE), truths, ran;
        }
        var x := Exec(t.Children[n - 1], ChildId(id, n - 1), fuel);
        if !x.Done? {
          return PassOn(x), truths, ran;
        }
        return Done(Null), truths, ran;
      }
      return Done(Null), truths, ran;
    }

    /**
     * `whileStmt`: `loopCount` is raised around the loop; each round
     * tests the condition again, then runs the body (`RunBody`), until a
     * condition is false or a round breaks out (`LoopRan` over the
     * conditions `truths` and the rounds `steps`). The count is lowered
     * from `lastCount`, its value when the loop ends: a call in the body
     * resets it. The rounds are bounded by the fuel.
     */
    method WhileStmt(t: Tree, id: NodeId, fuel: nat)
      returns (r: Outcome<Ref>, ghost truths: seq<bool>, ghost steps: seq<LoopStep>, ghost lastCount: int)
      requires Valid()
      modifies this, heap
      ensures Keeps(old(heap.objs), old(inFunction), r)
      ensures r.Done? ==> r.value == Null && LoopRan(truths, steps) && loopCount == lastCount - 1
      decreases fuel, t, 2
    {
      truths, steps, lastCount := [], [], loopCount;
      if |t.Children| < 2 {
        return Fault(OUT_OF_RANGE), truths, steps, lastCount;
      }
      var body := t.Children[1];
      loopCount := loopCount + 1;
      var rounds := fuel;
      while true
        invariant Keeps(old(heap.objs), old(inFunction), Done(Null))
        invariant |steps| == |truths| && forall j :: 0 <= j < |truths| ==> truths[j] && steps[j] != LeaveLoop
        decreases rounds
      {
        if rounds == 0 {
          return Diverged, truths, steps, lastCount;
        }
        rounds := rounds - 1;
        ghost var value;
        var b;
        b, value := LoopTest(t.Children[0], ChildId(id, 0), fuel);
        if !b.Done? {
          return PassOn(b), truths, steps, lastCount;
        }
        truths := truths + [b.value];
        if !b.value {
          break;
        }
        var step := RunBody(body, ChildId(id, 1), fuel);
        if !step.Done? {
          return PassOn(step), truths, steps, lastCount;
        }
        steps := steps + [step.value];
        if step.value == LeaveLoop {
          break;
        }
      }
      lastCount := loopCount;
      loopCount := loopCount - 1;
      return Done(Null), truths, steps, lastCount;
    }

    /** The condition of a `while` round: evaluated, then its truth by the condition hook. */
    method LoopTest(cond: Tree, id: NodeId, fuel: nat) returns (r: Outcome<bool>, ghost value: Ref)
      requires Valid()
      modifies this, heap
      ensures Keeps(old(heap.objs), old(inFunction), r)
      ensures r.Done? ==> EvalCondHook(heap.objs, value, fs) == r
      decreases fuel, cond, 5
    {
      value := Null;
      var c := Exec(cond, id, fuel);
      if !c.Done? {
        return PassOn(c), value;
      }
      value := c.value;
      r := EvalCondHook(heap.objs, c.value, fs);
    }

    /**
     * One round of a loop body: the statements in order, reading the
     * flags after each one (`Semantics.AfterStatement`); a break or
     * continue flag ends the round and is cleared (`Semantics.Consumed`).
     */
    method RunBody(body: Tree, id: NodeId, fuel: nat) returns (r: Outcome<LoopStep>)
      requires Valid()
      modifies this, heap
      ensures Keeps(old(heap.objs), old(inFunction), r)
      ensures r.Done? && r.value != Proceed ==> diveType == DIVEOUT_NONE
      ensures r.Done? && r.value == Proceed && |body.Children| > 0 ==>
        diveType != DIVEOUT_BREAK && diveType != DIVEOUT_CONTINUE
      decreases fuel, body, 2
    {
      var i := 0;
      while i < |body.Children|
        invariant 0 <= i <= |body.Children|
        invariant Keeps(old(heap.objs), old(inFunction), Done(Null))
        invariant i > 0 ==> diveType != DIVEOUT_BREAK && diveType != DIVEOUT_CONTINUE
      {
        var x := Exec(body.Children[i], ChildId(id, i), fuel);
        if !x.Done? {
          return PassOn(x);
        }
        var step := AfterStatement(diveType);
        diveType := Consumed(diveType);
        if step != Proceed {
          return Done(step);
        }
        i := i + 1;
      }
      return Done(Proceed);
    }

    /**
     * RETURN, BREAK and CONTINUE: a return outside a function and a break
     * or continue with `loopCount == 0` are errors; a return records its
     * value (when it has one) and unwinds; break and continue only set
     * the flag.
     */
    method Jump(t: Tree, id: NodeId, fuel: nat) returns (r: Outcome<Ref>)
      requires Valid()
      requires t.NodeType == RETURN || t.NodeType == BREAK || t.NodeType == CONTINUE
      modifies this, heap
      ensures Keeps(old(heap.objs), old(inFunction), r)
      ensures t.NodeType == RETURN && !old(inFunction) ==> r == Error(RETURN_OUTSIDE)
      ensures t.NodeType == RETURN && old(inFunction) && |t.Children| == 0 ==>
        r == Returned && diveType == DIVEOUT_RETURN && diveValue == old(diveValue)
      ensures t.NodeType == RETURN && old(inFunction) ==> !r.Done?
      ensures t.NodeType != RETURN && old(loopCount) == 0 ==>
        r == Error(if t.NodeType == BREAK then BREAK_OUTSIDE else CONTINUE_OUTSIDE)
      ensures t.NodeType != RETURN && old(loopCount) != 0 ==>
        r == Done(Null) && diveType == (if t.NodeType == BREAK then DIVEOUT_BREAK else DIVEOUT_CONTINUE)
      decreases fuel, t, 2
    {
      if t.NodeType == RETURN {
        if !inFunction {
          return Error(RETURN_OUTSIDE);
        }
        diveType := DIVEOUT_RETURN;
        if |t.Children| > 0 {
          var v := Exec(t.Children[0], ChildId(id, 0), fuel);
          if !v.Done? {
            return PassOn(v);
          }
          diveValue := v.value;
        }
        return Returned;
      }
      if loopCount == 0 {
        return Error(if t.NodeType == BREAK then BREAK_OUTSIDE else CONTINUE_OUTSIDE);
      }
      diveType := if t.NodeType == BREAK then DIVEOUT_BREAK else DIVEOUT_CONTINUE;
      return Done(Null);
    }

    // ----- assignment -----

    /**
     * ASSIGN and `assign`: a name is bound with `set`; a member or a
     * subscript target evaluates its object (and key), then the value,
     * and stores through the hook; any other target does nothing. `st` is
     * the store made.
     */
    method Assign(t: Tree, id: NodeId, fuel: nat) returns (r: Outcome<Ref>, ghost st: Option<Store>)
      requires Valid()
      modifies this, heap
      ensures Keeps(old(heap.objs), old(inFunction), r)
      ensures r.Done? ==> r.value == Null && |t.Children| > 0
      ensures r.Done? && Assignable(t.Children[0].NodeType) ==> st.Some?
      ensures st.Some? ==> |t.Children| > 0 && Aims(t.Children[0], st.value.target) && Stored(st.value, r)
      ensures |t.Children| > 0 && !Assignable(t.Children[0].NodeType) ==> r == Done(Null) && heap.objs == old(heap.objs)
      decreases fuel, t, 2
    {
      st := None;
      if |t.Children| == 0 {
        return Fault(OUT_OF_RANGE), st;
      }
      var left := t.Children[0];
      if left.NodeType == NAME {
        var v := Operand(t, id, 1, fuel);
        if !v.Done? {
          return PassOn(v), st;
        }
        st := Some(Store(NameTarget(left.Str), v.value, heap.objs));
        var s := Set(left.Str, v.value);
        if !s.Done? {
          return PassOn(s), st;
        }
      } else if left.NodeType == MEMBER {
        r, st := AssignMember(t, id, fuel);
        return;
      } else if left.NodeType == SUBSCRIPT {
        r, st := AssignItem(t, id, fuel);
        return;
      }
      return Done(Null), st;
    }

    /** `assign` to `obj.name`: the object, then the value, then `StoreMember`. */
    method AssignMember(t: Tree, id: NodeId, fuel: nat) returns (r: Outcome<Ref>, ghost st: Option<Store>)
      requires Valid() && |t.Children| > 0 && t.Children[0].NodeType == MEMBER
      modifies this, heap
      ensures Keeps(old(heap.objs), old(inFunction), r)
      ensures r.Done? ==> r.value == Null && st.Some?
      ensures st.Some? ==> st.value.target.MemberTarget? && Aims(t.Children[0], st.value.target) && Stored(st.value, r)
      decreases fuel, t, 1
    {
      st := None;
      var left := t.Children[0];
      var obj := Operand(left, ChildId(id, 0), 0, fuel);
      if !obj.Done? {
        return PassOn(obj), st;
      }
      var v := Operand(t, id, 1, fuel);
      if !v.Done? {
        return PassOn(v), st;
      }
      if |left.Children| < 2 {
        return Fault(OUT_OF_RANGE), st;
      }
      st := Some(Store(MemberTarget(obj.value, left.Children[1].Str), v.value, heap.objs));
      var s := StoreMember(obj.value, left.Children[1].Str, v.value);
      if !s.Done? {
        return PassOn(s), st;
      }
      return Done(Null), st;
    }

    /** `assign` to `obj[key]`: the object, the key, then the value, then `StoreItem`. */
    method AssignItem(t: Tree, id: NodeId, fuel: nat) returns (r: Outcome<Ref>, ghost st: Option<Store>)
      requires Valid() && |t.Children| > 0 && t.Children[0].NodeType == SUBSCRIPT
      modifies this, heap
      ensures Keeps(old(heap.objs), old(inFunction), r)
      ensures r.Done? ==> r.value == Null && st.Some?
      ensures st.Some? ==> st.value.target.ItemTarget? && Aims(t.Children[0], st.value.target) && Stored(st.value, r)
      decreases fuel, t, 1
    {
      st := None;
      var left := t.Children[0];
      var lid := ChildId(id, 0);
      var obj := Operand(left, lid, 0, fuel);
      if !obj.Done? {
        return PassOn(obj), st;
      }
      var key := Operand(left, lid, 1, fuel);
      if !key.Done? {
        return PassOn(key), st;
      }
      var v := Operand(t, id, 1, fuel);
      if !v.Done? {
        return PassOn(v), st;
      }
      st := Some(Store(ItemTarget(obj.value, key.value), v.value, heap.objs));
      var s := StoreItem(obj.value, key.value, v.value);
      if !s.Done? {
        return PassOn(s), st;
      }
      return Done(Null), st;
    }

    /** `blSetMember(obj, value, name)` on the heap. */
    method StoreMember(obj: Ref, name: string, value: Ref) returns (r: Outcome<()>)
      requires Valid()
      modifies heap
      ensures Valid() && Extends(old(heap.objs), heap.objs) && !r.Returned?
      ensures var s := SetMemberOf(old(heap.objs), obj, name, value);
        if s.Done? then r.Done? && heap.objs == s.value
        else r == PassOn(s) && heap.objs == old(heap.objs)
    {
      var s := SetMemberOf(heap.objs, obj, name, value);
      if !s.Done? {
        return PassOn(s);
      }
      heap.Update(s.value);
      StillValid(old(heap.objs));
      return Done(());
    }

    /** `blSetSeqItem(obj, value, key)` on the heap. */
    method StoreItem(obj: Ref, key: Ref, value: Ref) returns (r: Outcome<()>)
      requires Valid()
      modifies heap
      ensures Valid() && Extends(old(heap.objs), heap.objs) && !r.Returned?
      ensures var s := SetSeqItem(old(heap.objs), obj, value, key);
        if s.Done? then r.Done? && heap.objs == s.value
        else r == PassOn(s) && heap.objs == old(heap.objs)
    {
      var s := SetSeqItem(heap.objs, obj, value, key);
      if !s.Done? {
        return PassOn(s);
      }
      SetSeqItemKeepsShape(heap.objs, obj, value, key);
      heap.Update(s.value);
      StillValid(old(heap.objs));
      return Done(());
    }

    /**
     * AUGASSIGN and `augassign`: the target and the right-hand side are
     * evaluated (`operands`, with the heap they left), combined by the
     * operator of `Semantics.AugOp` through `Protocol.Binary`, and the
     * result stored like an assignment (`StoreResult`), evaluating the
     * target's object (and key) a second time.
     */
    method AugAssign(t: Tree, id: NodeId, fuel: nat)
      returns (r: Outcome<Ref>, ghost operands: Option<(Ref, Ref, seq<Obj>)>, ghost st: Option<Store>)
      requires Valid()
      modifies this, heap
      ensures Keeps(old(heap.objs), old(inFunction), r)
      ensures r.Done? ==> r.value == Null && operands.Some?
      ensures operands.Some? ==> var (a, b, h) := operands.value;
        && |t.Children| > 0 && |t.Children[0].Children| > 0 && AugOp(t.Children[0].NodeType).Some? && WellFormed(h)
        && var op := AugOp(t.Children[0].NodeType).value;
           var v := Binary(h, op.0, a, b, op.1, fs);
           && (!v.Done? ==> r == PassOn(v) && heap.objs == h)
           && (v.Done? && r.Done? && Assignable(t.Children[0].Children[0].NodeType) ==> st.Some?)
           && (st.Some? ==> v.Done? && st.value.value == Materialize(h, v.value).1
                            && Aims(t.Children[0].Children[0], st.value.target) && Stored(st.value, r))
      decreases fuel, t, 2
    {
      operands, st := None, None;
      if |t.Children| == 0 {
        return Fault(OUT_OF_RANGE), operands, st;
      }
      var node := t.Children[0];
      var nid := ChildId(id, 0);
      var a := Operand(node, nid, 0, fuel);
      if !a.Done? {
        return PassOn(a), operands, st;
      }
      var b := Operand(node, nid, 1, fuel);
      if !b.Done? {
        return PassOn(b), operands, st;
      }
      var op := AugOp(node.NodeType);
      if op.None? {
        return Error(STALE), operands, st;
      }
      operands := Some((a.value, b.value, heap.objs));
      var v := Binary(heap.objs, op.value.0, a.value, b.value, op.value.1, fs);
      if !v.Done? {
        return PassOn(v), operands, st;
      }
      var ret := heap.Put(v.value);
      StillValid(old(heap.objs));
      var s;
      s, st := StoreResult(node.Children[0], ChildId(nid, 0), ret, fuel);
      if !s.Done? {
        return PassOn(s), operands, st;
      }
      return Done(Null), operands, st;
    }

    /**
     * The store half of `augassign`: the combined value goes where the
     * target names, its object (and key) evaluated once more. `st` is the
     * store made.
     */
    method StoreResult(left: Tree, lid: NodeId, ret: Ref, fuel: nat) returns (r: Outcome<()>, ghost st: Option<Store>)
      requires Valid()
      modifies this, heap
      ensures Keeps(old(heap.objs), old(inFunction), r)
      ensures r.Done? && Assignable(left.NodeType) ==> st.Some?
      ensures st.Some? ==> st.value.value == ret && Aims(left, st.value.target) && Stored(st.value, r)
      ensures !Assignable(left.NodeType) ==> r == Done(()) && heap.objs == old(heap.objs)
      decreases fuel, left, 2
    {
      st := None;
      if left.NodeType == NAME {
        st := Some(Store(NameTarget(left.Str), ret, heap.objs));
        r := Set(left.Str, ret);
      } else if left.NodeType == MEMBER || left.NodeType == SUBSCRIPT {
        r, st := StoreThrough(left, lid, ret, fuel);
      } else {
        r := Done(());
      }
    }

    /** `StoreResult` for a member or subscript target: the object (and key) evaluated again, then the hook. */
    method StoreThrough(left: Tree, lid: NodeId, ret: Ref, fuel: nat) returns (r: Outcome<()>, ghost st: Option<Store>)
      requires Valid() && (left.NodeType == MEMBER || left.NodeType == SUBSCRIPT)
      modifies this, heap
      ensures Keeps(old(heap.objs), old(inFunction), r)
      ensures r.Done? ==> st.Some?
      ensures st.Some? ==> st.value.value == ret && Aims(left, st.value.target) && Stored(st.value, r)
      decreases fuel, left, 1
    {
      st := None;
      var obj := Operand(left, lid, 0, fuel);
      if !obj.Done? {
        return PassOn(obj), st;
      }
      if left.NodeType == MEMBER {
        if |left.Children| < 2 {
          return Fault(OUT_OF_RANGE), st;
        }
        st := Some(Store(MemberTarget(obj.value, left.Children[1].Str), ret, heap.objs));
        r := StoreMember(obj.value, left.Children[1].Str, ret);
      } else {
        var key := Operand(left, lid, 1, fuel);
        if !key.Done? {
          return PassOn(key), st;
        }
        st := Some(Store(ItemTarget(obj.value, key.value), ret, heap.objs));
        r := StoreItem(obj.value, key.value, ret);
      }
    }

    // ----- expressions -----

    /**
     * `&&`, `||` and `!` through each operand's `EvalCond` hook: the
     * result is always `true` or `false`, and the right operand of `&&`
     * (of `||`) is evaluated exactly when the left one is true (false).
     */
    method Logic(t: Tree, id: NodeId, fuel: nat) returns (r: Outcome<Ref>, ghost left: bool, ghost right: Option<bool>)
      requires Valid()
      requires t.NodeType == LOGICAL_AND || t.NodeType == LOGICAL_OR || t.NodeType == NOT
      modifies this, heap
      ensures Keeps(old(heap.objs), old(inFunction), r)
      ensures r.Done? && t.NodeType == NOT ==> r.value == BoolRef(!left)
      ensures r.Done? && t.NodeType == LOGICAL_AND ==>
        (right.Some? <==> left) && r.value == BoolRef(left && right == Some(true))
      ensures r.Done? && t.NodeType == LOGICAL_OR ==>
        (right.Some? <==> !left) && r.value == BoolRef(left || right == Some(true))
      decreases fuel, t, 2
    {
      left, right := false, None;
      var a := Operand(t, id, 0, fuel);
      if !a.Done? {
        return PassOn(a), left, right;
      }
      var x := EvalCondHook(heap.objs, a.value, fs);
      if !x.Done? {
        return PassOn(x), left, right;
      }
      var lv := x.value;
      left := lv;
      if t.NodeType == NOT {
        return Done(BoolRef(!lv)), left, right;
      }
      if (t.NodeType == LOGICAL_AND) != lv {
        return Done(BoolRef(lv)), left, right;
      }
      var b := Operand(t, id, 1, fuel);
      if !b.Done? {
        return PassOn(b), left, right;
      }
      var y := EvalCondHook(heap.objs, b.value, fs);
      if !y.Done? {
        return PassOn(y), left, right;
      }
      right := Some(y.value);
      return Done(BoolRef(y.value)), left, right;
    }

    /**
     * NEGATE, COMPL and the ten binary operators: the operands, then
     * `Protocol.Negate`/`Complement`/`Binary` with the operator and text of
     * `Semantics.BinOp` (`ArithSpec`); a new number is allocated.
     * `operands` are the evaluated operands and the heap they left.
     */
    method Arithmetic(t: Tree, id: NodeId, fuel: nat) returns (r: Outcome<Ref>, ghost operands: Option<(Ref, Ref, seq<Obj>)>)
      requires Valid()
      requires t.NodeType == NEGATE || t.NodeType == COMPL || BinOp(t.NodeType).Some?
      modifies this, heap
      ensures Keeps(old(heap.objs), old(inFunction), r)
      ensures r.Done? ==> operands.Some?
      ensures operands.Some? ==> var (a, b, h) := operands.value;
        WellFormed(h) && Gave(h, ArithSpec(h, t.NodeType, a, b, fs), r)
      decreases fuel, t, 2
    {
      operands := None;
      var a := Operand(t, id, 0, fuel);
      if !a.Done? {
        return PassOn(a), operands;
      }
      var v: Outcome<Val>;
      if t.NodeType == NEGATE {
        v := Negate(heap.objs, a.value);
        operands := Some((a.value, Null, heap.objs));
      } else if t.NodeType == COMPL {
        v := Complement(heap.objs, a.value);
        operands := Some((a.value, Null, heap.objs));
      } else {
        var b := Operand(t, id, 1, fuel);
        if !b.Done? {
          return PassOn(b), operands;
        }
        var op := BinOp(t.NodeType).value;
        v := Binary(heap.objs, op.0, a.value, b.value, op.1, fs);
        operands := Some((a.value, b.value, heap.objs));
      }
      if !v.Done? {
        return PassOn(v), operands;
      }
      var x := heap.Put(v.value);
      StillValid(old(heap.objs));
      return Done(x), operands;
    }

    /** COMP_OP: both operands of the wrapped operator, `BlCompare`, then `blCmp` on its kind. */
    method Comparison(t: Tree, id: NodeId, fuel: nat) returns (r: Outcome<Ref>, ghost a: Ref, ghost b: Ref)
      requires Valid()
      modifies this, heap
      ensures Keeps(old(heap.objs), old(inFunction), r)
      ensures r.Done? ==>
        && |t.Children| > 0
        && CompareSpec(heap.objs, a, b, fs, fuel).Done?
        && r == Cmp(CompareSpec(heap.objs, a, b, fs, fuel).value, t.Children[0].NodeType)
      decreases fuel, t, 2
    {
      a, b := Null, Null;
      if |t.Children| == 0 {
        return Fault(OUT_OF_RANGE), a, b;
      }
      var o := t.Children[0];
      var oid := ChildId(id, 0);
      var x := Operand(o, oid, 0, fuel);
      if !x.Done? {
        return PassOn(x), a, b;
      }
      var y := Operand(o, oid, 1, fuel);
      if !y.Done? {
        return PassOn(y), a, b;
      }
      a, b := x.value, y.value;
      var order := CompareObjects(heap.objs, x.value, y.value, fs, fuel);
      if !order.Done? {
        return PassOn(order), a, b;
      }
      r := Cmp(order.value, o.NodeType);
    }

    /**
     * MEMBER: `blGetMember` of the evaluated object; a nil member is an
     * error. `obj` is the evaluated object and the heap it left.
     */
    method Member(t: Tree, id: NodeId, fuel: nat) returns (r: Outcome<Ref>, ghost obj: Option<(Ref, seq<Obj>)>)
      requires Valid()
      modifies this, heap
      ensures Keeps(old(heap.objs), old(inFunction), r)
      ensures r.Done? ==> r.value != Null && obj.Some?
      ensures obj.Some? ==> |t.Children| >= 2 && WellFormed(obj.value.1)
      ensures obj.Some? && |t.Children| >= 2 && WellFormed(obj.value.1) ==>
        var m := GetMemberOf(obj.value.1, obj.value.0, t.Children[1].Str);
        && (m.Done? ==> var (h, x) := Materialize(m.value.0, m.value.1);
                        heap.objs == h && r == (if x == Null then Error(STALE) else Done(x)))
        && (!m.Done? ==> r == PassOn(m) && heap.objs == obj.value.1)
      decreases fuel, t, 2
    {
      obj := None;
      var o := Operand(t, id, 0, fuel);
      if !o.Done? {
        return PassOn(o), obj;
      }
      if |t.Children| < 2 {
        return Fault(OUT_OF_RANGE), obj;
      }
      obj := Some((o.value, heap.objs));
      var m := GetMemberOf(heap.objs, o.value, t.Children[1].Str);
      if !m.Done? {
        return PassOn(m), obj;
      }
      heap.Update(m.value.0);
      var x := heap.Put(m.value.1);
      StillValid(old(heap.objs));
      if x == Null {
        return Error(STALE), obj;
      }
      return Done(x), obj;
    }

    /** SUBSCRIPT: `blGetSeqItem` of the evaluated object and key, with the heap they left. */
    method Subscript(t: Tree, id: NodeId, fuel: nat) returns (r: Outcome<Ref>, ghost operands: Option<(Ref, Ref, seq<Obj>)>)
      requires Valid()
      modifies this, heap
      ensures Keeps(old(heap.objs), old(inFunction), r)
      ensures r.Done? ==> operands.Some?
      ensures operands.Some? ==> var (o, k, h) := operands.value; Gave(h, GetSeqItem(h, o, k), r)
      decreases fuel, t, 2
    {
      operands := None;
      var obj := Operand(t, id, 0, fuel);
      if !obj.Done? {
        return PassOn(obj), operands;
      }
      var key := Operand(t, id, 1, fuel);
      if !key.Done? {
        return PassOn(key), operands;
      }
      operands := Some((obj.value, key.value, heap.objs));
      var v := GetSeqItem(heap.objs, obj.value, key.value);
      if !v.Done? {
        return PassOn(v), operands;
      }
      var x := heap.Put(v.value);
      StillValid(old(heap.objs));
      return Done(x), operands;
    }

    /**
     * LIST: a new list made first, then each element evaluated in order.
     * The list ends up holding exactly the element values, with `lsize`
     * their count.
     */
    method ListNode(t: Tree, id: NodeId, fuel: nat) returns (r: Outcome<Ref>, ghost items: seq<Ref>)
      requires Valid()
      modifies this, heap
      ensures Keeps(old(heap.objs), old(inFunction), r)
      ensures r.Done? ==>
        && r.value == Ptr(|old(heap.objs)|) && r.value.addr < |heap.objs|
        && heap.objs[r.value.addr] == ListObj(items, |t.Children|) && |items| == |t.Children|
      decreases fuel, t, 2
    {
      var l := heap.Alloc(ListObj([], 0));
      StillValid(old(heap.objs));
      var vals: seq<Ref> := [];
      var i := 0;
      while i < |t.Children|
        invariant 0 <= i <= |t.Children| && |vals| == i
        invariant Keeps(old(heap.objs), old(inFunction), Done(Null))
        invariant l.addr < |heap.objs| && heap.objs[l.addr].ListObj?
      {
        var x := Exec(t.Children[i], ChildId(id, i), fuel);
        if !x.Done? {
          return PassOn(x), vals;
        }
        vals := vals + [x.value];
        i := i + 1;
      }
      heap.Store(l.addr, ListObj(vals, |vals|));
      StillValid(old(heap.objs));
      return Done(l), vals;
    }

    /** RANGE: both bounds must be ints (`Semantics.RangeOf`); the range is allocated. */
    method RangeNode(t: Tree, id: NodeId, fuel: nat) returns (r: Outcome<Ref>, ghost operands: Option<(Ref, Ref, seq<Obj>)>)
      requires Valid()
      modifies this, heap
      ensures Keeps(old(heap.objs), old(inFunction), r)
      ensures r.Done? ==> operands.Some?
      ensures operands.Some? ==> var (a, b, h) := operands.value; var o := RangeOf(h, a, b);
        && (o.Done? ==> r == Done(Ptr(|h|)) && heap.objs == h + [o.value])
        && (!o.Done? ==> r == PassOn(o) && heap.objs == h)
      decreases fuel, t, 2
    {
      operands := None;
      var a := Operand(t, id, 0, fuel);
      if !a.Done? {
        return PassOn(a), operands;
      }
      var b := Operand(t, id, 1, fuel);
      if !b.Done? {
        return PassOn(b), operands;
      }
      operands := Some((a.value, b.value, heap.objs));
      var o := RangeOf(heap.objs, a.value, b.value);
      if !o.Done? {
        return PassOn(o), operands;
      }
      var x := heap.Alloc(o.value);
      StillValid(old(heap.objs));
      return Done(x), operands;
    }

    /**
     * The literal kinds: strings and integers decoded as
     * `Semantics.StringLiteral` and `IntLiteral` say, floats kept as their
     * text, and the three singletons.
     */
    method Literal(t: Tree) returns (r: Outcome<Ref>)
      requires Valid()
      requires t.NodeType in {STRING, INTEGER, FLOAT, TRUE, FALSE, NIL}
      modifies heap
      ensures Valid() && Extends(old(heap.objs), heap.objs) && !r.Returned?
      ensures t.NodeType == TRUE ==> r == Done(TrueRef)
      ensures t.NodeType == FALSE ==> r == Done(FalseRef)
      ensures t.NodeType == NIL ==> r == Done(NilRef)
      ensures t.NodeType == FLOAT ==>
        r == Done(Ptr(|old(heap.objs)|)) && heap.objs == old(heap.objs) + [FloatObj(FloatLit(t.Str))]
      ensures t.NodeType == STRING ==> var s := StringLiteral(Literals.ParseStringSpec(t.Str));
        && (s.Done? ==> r == Done(Ptr(|old(heap.objs)|)) && heap.objs == old(heap.objs) + [s.value])
        && (!s.Done? ==> r == PassOn(s))
      ensures t.NodeType == INTEGER ==> var n := IntLiteral(Literals.ParseIntSpec(t.Str));
        && (n.Done? ==> r == Done(Ptr(|old(heap.objs)|)) && heap.objs == old(heap.objs) + [n.value])
        && (!n.Done? ==> r == PassOn(n))
    {
      var k := t.NodeType;
      if k == TRUE {
        return Done(TrueRef);
      } else if k == FALSE {
        return Done(FalseRef);
      } else if k == NIL {
        return Done(NilRef);
      }
      var o: Outcome<Obj>;
      if k == STRING {
        var d := Literals.ParseString(t.Str);
        o := StringLiteral(d);
      } else if k == INTEGER {
        var p := Literals.ParseInt(t.Str);
        o := IntLiteral(p);
      } else {
        o := Done(FloatObj(FloatLit(t.Str)));
      }
      if !o.Done? {
        return PassOn(o);
      }
      var x := heap.Alloc(o.value);
      StillValid(old(heap.objs));
      return Done(x);
    }

    // ----- calls -----

    /**
     * CALL: the callee, then by its kind: a builtin function through
     * `callBuiltin` without receiver, a builtin method (`CallGMethod`), a
     * user function, or a user method with its receiver (`Invoke`);
     * anything else is not callable. A call that gives Go nil is an error.
     */
    method Call(t: Tree, id: NodeId, fuel: nat)
      returns (r: Outcome<Ref>, ghost callee: Option<(Ref, seq<Obj>)>, ghost called: Option<Outcome<Ref>>,
               ghost args: Option<(seq<Ref>, seq<Obj>)>, ghost returned: bool)
      requires Valid()
      modifies this, heap
      ensures Keeps(old(heap.objs), old(inFunction), r)
      ensures r.Done? ==> r.value != Null && called.Some?
      ensures called.Some? ==>
        && callee.Some? && Callable(callee.value.1, callee.value.0)
        && r == (if called.value == Done(Null) then Error(STALE) else called.value)
      ensures callee.Some? && !Callable(callee.value.1, callee.value.0) ==> var (f, h) := callee.value;
        && heap.objs == h
        && r == (if TypeOf(h, f).None? then Fault(NIL_DEREF) else Error(NotCallable(TypeName(TypeOf(h, f).value))))
      ensures callee.Some? && callee.value.0.BuiltinRef? && called.Some? && called.value.Done? ==> args.Some?
      ensures callee.Some? && callee.value.0.BuiltinRef? && called.Some? && args.Some? ==>
        && BuiltinOf(callee.value.0).Some?
        && CallbackGave(BuiltinOf(callee.value.0).value.callback, Null, args.value, called.value)
      ensures callee.Some? && Deref(callee.value.1, callee.value.0).Some? && called.Some? && called.value.Done? ==>
        var o := Deref(callee.value.1, callee.value.0).value;
        (o.FunctionObj? || o.MethodObj? ==> called.value.value == CallValue(returned, diveValue))
      decreases fuel, t, 2
    {
      callee, called, args, returned := None, None, None, false;
      var x := Operand(t, id, 0, fuel);
      if !x.Done? {
        return PassOn(x), callee, called, args, returned;
      }
      var obj := x.value;
      callee := Some((obj, heap.objs));
      var o := Deref(heap.objs, obj);
      var ret: Outcome<Ref>;
      if obj.BuiltinRef? {
        var g := BuiltinOf(obj);
        if g.None? {
          return Fault(NIL_DEREF), callee, called, args, returned;
        }
        if |t.Children| < 2 {
          return Fault(OUT_OF_RANGE), callee, called, args, returned;
        }
        ret, args := CallBuiltin(g.value, t.Children[1], ChildId(id, 1), Null, false, fuel);
      } else if o.Some? && o.value.GMethodObj? {
        ghost var rcv, gargs;
        ret, rcv, gargs := CallGMethod(o.value, t, id, fuel);
      } else if o.Some? && (o.value.FunctionObj? || o.value.MethodObj?) {
        var f := if o.value.FunctionObj? then o else Deref(heap.objs, o.value.f);
        var self := if o.value.FunctionObj? then Null else o.value.self;
        if !(f.Some? && f.value.FunctionObj?) {
          return Fault(NIL_DEREF), callee, called, args, returned;
        }
        if |t.Children| < 2 {
          return Fault(OUT_OF_RANGE), callee, called, args, returned;
        }
        ret, returned := Invoke(f.value, self, t.Children[1], ChildId(id, 1), fuel);
      } else {
        var ty := TypeOf(heap.objs, obj);
        if ty.None? {
          return Fault(NIL_DEREF), callee, called, args, returned;
        }
        return Error(NotCallable(TypeName(ty.value))), callee, called, args, returned;
      }
      called := Some(ret);
      if !ret.Done? {
        return ret, callee, called, args, returned;
      }
      if ret.value == Null {
        return Error(STALE), callee, called, args, returned;
      }
      return ret, callee, called, args, returned;
    }

    /**
     * A builtin method called through CALL. A bound one runs on its own
     * receiver. An unbound one takes its receiver from the first argument
     * node, which must hold a value of the method's type, and that node is
     * then cut off the argument node for good.
     */
    method CallGMethod(m: Obj, t: Tree, id: NodeId, fuel: nat)
      returns (r: Outcome<Ref>, ghost rcv: Ref, ghost args: Option<(seq<Ref>, seq<Obj>)>)
      requires Valid() && m.GMethodObj?
      modifies this, heap
      ensures Keeps(old(heap.objs), old(inFunction), r)
      ensures m.self == Null && |t.Children| >= 2 && |old(ArgNodes(t.Children[1], ChildId(id, 1)))| == 0 ==> !r.Done?
      ensures r.Done? && m.self == Null ==> m.cls.TypeRef? && TypeOf(heap.objs, rcv) == Some(m.cls.tag)
      ensures r.Done? && m.self != Null ==> rcv == m.self
      ensures r.Done? ==> args.Some?
      ensures args.Some? ==> BuiltinOf(m.f).Some? && CallbackGave(BuiltinOf(m.f).value.callback, rcv, args.value, r)
      decreases fuel, t, 1
    {
      rcv, args := m.self, None;
      if |t.Children| < 2 {
        return Fault(OUT_OF_RANGE), rcv, args;
      }
      var a := t.Children[1];
      var aid := ChildId(id, 1);
      var self := m.self;
      ghost var objs1 := heap.objs;
      if self == Null {
        var c := heap.Cut(aid);
        if c < |a.Children| {
          var x := Exec(a.Children[c], ChildId(aid, c), fuel);
          if !x.Done? {
            return PassOn(x), rcv, args;
          }
          self := x.value;
        }
        rcv := self;
        objs1 := heap.objs;
        var ty := TypeOf(heap.objs, self);
        if self == Null || !(ty.Some? && m.cls == TypeRef(ty.value)) {
          if !m.cls.TypeRef? {
            return Fault(BAD_ASSERTION), rcv, args;
          }
          var g := BuiltinOf(m.f);
          if g.None? {
            return Fault(NIL_DEREF), rcv, args;
          }
          return Error(NeedsReceiver(g.value.name, TypeName(m.cls.tag))), rcv, args;
        }
        heap.Strip(aid);
      }
      var g := BuiltinOf(m.f);
      if g.None? {
        return Fault(NIL_DEREF), rcv, args;
      }
      r, args := CallBuiltin(g.value, a, aid, self, true, fuel);
      if r.Done? && m.self == Null {
        assert TypeOf(heap.objs, rcv) == TypeOf(objs1, rcv) by {
          if rcv.Ptr? {
            assert TagOf(heap.objs[rcv.addr]) == TagOf(objs1[rcv.addr]);
          }
        }
      }
    }

    /** The arguments of a call node, evaluated in order from the children present when the call starts. */
    method EvalArgs(a: Tree, aid: NodeId, fuel: nat) returns (r: Outcome<seq<Ref>>)
      requires Valid()
      modifies this, heap
      ensures Keeps(old(heap.objs), old(inFunction), r)
      ensures r.Done? ==> |r.value| == |old(ArgNodes(a, aid))|
      decreases fuel, a, 2
    {
      var c := heap.Cut(aid);
      var n := |ArgView(a, c)|;
      var vals: seq<Ref> := [];
      var j := 0;
      while j < n
        invariant 0 <= j <= n && |vals| == j
        invariant Keeps(old(heap.objs), old(inFunction), Done(Null))
      {
        var x := Exec(a.Children[c + j], ChildId(aid, c + j), fuel);
        if !x.Done? {
          return PassOn(x);
        }
        vals := vals + [x.value];
        j := j + 1;
      }
      return Done(vals);
    }

    /**
     * `callBuiltin`: a function flagged NOARGS refuses any argument before
     * evaluating them; otherwise the arguments are evaluated and the Go
     * callback runs on the receiver (nil when `meth` is false). String
     * methods give a new string; list methods update the receiver in place
     * and give nil; callbacks of modules outside the model give what the
     * host gives.
     */
    method CallBuiltin(g: GFunction, a: Tree, aid: NodeId, rcv: Ref, meth: bool, fuel: nat)
      returns (r: Outcome<Ref>, ghost args: Option<(seq<Ref>, seq<Obj>)>)
      requires Valid()
      modifies this, heap
      ensures Keeps(old(heap.objs), old(inFunction), r)
      ensures HasFlag(g.flags, GFUNC_NOARGS) && |old(ArgNodes(a, aid))| > 0 ==>
        r == Error(NoArguments(g.name)) && heap.objs == old(heap.objs)
      ensures r.Done? ==> args.Some?
      ensures args.Some? ==>
        && |args.value.0| == |old(ArgNodes(a, aid))|
        && CallbackGave(g.callback, if meth then rcv else Null, args.value, r)
      decreases fuel, a, 3
    {
      args := None;
      if HasFlag(g.flags, GFUNC_NOARGS) && |ArgNodes(a, aid)| > 0 {
        return Error(NoArguments(g.name)), args;
      }
      var vals := EvalArgs(a, aid, fuel);
      if !vals.Done? {
        return PassOn(vals), args;
      }
      args := Some((vals.value, heap.objs));
      var self := if meth then rcv else Null;
      r := RunCallback(g.callback, self, vals.value);
      StillValid(old(heap.objs));
    }

    /**
     * The Go callback of a builtin on its receiver and evaluated
     * arguments: string methods allocate the new string, list methods
     * store the receiver's new contents and give nil, and callbacks
     * outside the model give what the host gives, touching no object.
     */
    method RunCallback(cb: Builtin, self: Ref, args: seq<Ref>) returns (r: Outcome<Ref>)
      requires heap.Valid()
      modifies heap
      ensures heap.Valid() && Extends(old(heap.objs), heap.objs) && !r.Returned?
      ensures cb.Foreign? ==>
        && heap.objs == old(heap.objs)
        && r == (match host(cb.name, self, args) case Ok(v) => Done(v) case Failure(m) => Error(m))
      ensures (cb == StringConcat || cb == StringToUpper || cb == StringToLower) && r.Done? ==>
        && r.value == Ptr(|old(heap.objs)|) && |heap.objs| == |old(heap.objs)| + 1
        && heap.objs[|old(heap.objs)|].StringObj?
      ensures cb.Foreign? || cb == StringConcat || cb == StringToUpper || cb == StringToLower ||
        (r.Done? ==> r.value == NilRef && |heap.objs| == |old(heap.objs)|)
      ensures CallbackGave(cb, self, (args, old(heap.objs)), r)
    {
      if cb == StringConcat || cb == StringToUpper || cb == StringToLower {
        var s: Outcome<string>;
        if cb == StringConcat {
          s := Strs.ConcatMethod(self, args, heap.objs);
        } else if cb == StringToUpper {
          s := Strs.ToUpper(self, heap.objs);
        } else {
          s := Strs.ToLower(self, heap.objs);
        }
        if !s.Done? {
          return PassOn(s);
        }
        var x := heap.Alloc(StringObj(s.value));
        return Done(x);
      } else if cb.Foreign? {
        var h := host(cb.name, self, args);
        if h.Failure? {
          return Error(h.msg);
        }
        return Done(h.value);
      } else {
        var l := ListCall(cb, self, args, heap.objs);
        if !l.Done? {
          return PassOn(l);
        }
        heap.Store(self.addr, l.value);
        return Done(NilRef);
      }
    }

    /**
     * `buildLocals`: the arity check of `Semantics.ArgCount` first, before
     * any argument is evaluated; then a new list (always made) and a map
     * filled as `Semantics.Writes` says: the receiver first, the fixed
     * arguments in order, the rest collected in the list, which ends up
     * holding `Semantics.StarItems`. Every argument is evaluated once.
     */
    method BuildLocals(f: Obj, a: Tree, aid: NodeId, self: Ref, fuel: nat)
      returns (r: Outcome<map<string, Ref>>, ghost vals: seq<Ref>, ghost list: Ref)
      requires Valid() && f.FunctionObj?
      modifies this, heap
      ensures Keeps(old(heap.objs), old(inFunction), r)
      ensures var argpos := ArgCount(|old(ArgNodes(a, aid))|, self != Null, f.starParam, f.paramLen);
        argpos != f.paramLen ==> r == Error(Mismatch(f.paramLen, argpos)) && heap.objs == old(heap.objs)
      ensures r.Done? ==>
        var first := ReceiverFirst(self != Null, f.starParam, f.paramLen);
        var off := if first then 1 else 0;
        && Bindable(f.params, f.starParam, first, f.paramLen)
        && off <= f.paramLen <= |vals| + off
        && |vals| == |old(ArgNodes(a, aid))|
        && r.value == Apply(map[], Writes(f.params, f.starParam, first, self, f.paramLen, vals, list))
        && list.Ptr? && list.addr < |heap.objs|
        && heap.objs[list.addr] == ListObj(StarItems(self, first, vals, f.paramLen - off),
                                           |StarItems(self, first, vals, f.paramLen - off)|)
      decreases fuel, a, 2
    {
      vals, list := [], Null;
      var c := heap.Cut(aid);
      var nargs := |ArgView(a, c)|;
      var first := ReceiverFirst(self != Null, f.starParam, f.paramLen);
      var argpos := ArgCount(nargs, self != Null, f.starParam, f.paramLen);
      if argpos != f.paramLen {
        return Error(Mismatch(f.paramLen, argpos)), vals, list;
      }
      var l := heap.Alloc(ListObj([], 0));
      StillValid(old(heap.objs));
      list := l;
      if !Bindable(f.params, f.starParam, first, argpos) {
        return Fault(OUT_OF_RANGE), vals, list;
      }
      r, vals := FillLocals(f, a, aid, c, nargs, first, self, argpos, l, fuel);
      StillValid(old(heap.objs));
    }

    /**
     * `buildLocals` past its checks, with the star list `l` allocated:
     * the receiver's write, then the fixed and the star arguments, then
     * the list's contents.
     */
    method FillLocals(f: Obj, a: Tree, aid: NodeId, c: nat, nargs: nat, first: bool, self: Ref, argpos: nat,
                      l: Ref, fuel: nat)
      returns (r: Outcome<map<string, Ref>>, ghost vals: seq<Ref>)
      requires Valid() && f.FunctionObj? && nargs == |ArgView(a, c)|
      requires Bindable(f.params, f.starParam, first, argpos)
      requires first == ReceiverFirst(self != Null, f.starParam, f.paramLen)
      requires argpos == ArgCount(nargs, self != Null, f.starParam, f.paramLen)
      requires l.Ptr? && l.addr < |heap.objs| && heap.objs[l.addr].ListObj?
      modifies this, heap
      ensures Keeps(old(heap.objs), old(inFunction), r)
      ensures r.Done? ==>
        var off := if first then 1 else 0;
        && off <= argpos <= |vals| + off
        && |vals| == nargs
        && r.value == Apply(map[], Writes(f.params, f.starParam, first, self, argpos, vals, l))
        && l.addr < |heap.objs|
        && heap.objs[l.addr] == ListObj(StarItems(self, first, vals, argpos - off),
                                        |StarItems(self, first, vals, argpos - off)|)
      decreases fuel, a, 1
    {
      vals := [];
      var off := if first then 1 else 0;
      assert off <= argpos <= nargs + off;
      var m: map<string, Ref> := map[];
      var items: seq<Ref> := [];
      if self != Null {
        if first {
          m := m[f.params[0] := self];
        } else {
          items := [self];
        }
      }
      assert m == Apply(map[], Writes(f.params, false, first, self, off, vals, Null));
      var fx;
      fx, vals := FixedArgs(f, a, aid, c, first, self, off, argpos, m, fuel);
      if !fx.Done? {
        return PassOn(fx), vals;
      }
      var more: seq<Ref> := [];
      if f.starParam {
        var extra := StarArgs(a, aid, c, argpos - off, nargs, fuel);
        if !extra.Done? {
          return PassOn(extra), vals;
        }
        more := extra.value;
      }
      ghost var objs1 := heap.objs;
      r, vals := FinishLocals(f, first, self, argpos, l, fx.value, items, vals, more);
      StillValid(objs1);
    }

    /**
     * The end of `buildLocals`: the star parameter bound to the list `l`,
     * which receives the receiver (when it was not bound to the first
     * parameter) and the arguments past the fixed ones.
     */
    method FinishLocals(f: Obj, first: bool, self: Ref, argpos: nat, l: Ref, m: map<string, Ref>,
                        items: seq<Ref>, ghost fixed: seq<Ref>, more: seq<Ref>)
      returns (r: Outcome<map<string, Ref>>, ghost vals: seq<Ref>)
      requires heap.Valid() && f.FunctionObj? && Bindable(f.params, f.starParam, first, argpos)
      requires l.Ptr? && l.addr < |heap.objs| && heap.objs[l.addr].ListObj?
      requires (if first then 1 else 0) <= argpos && |fixed| == argpos - (if first then 1 else 0)
      requires m == Apply(map[], Writes(f.params, false, first, self, argpos, fixed, Null))
      requires items == (if self != Null && !first then [self] else []) && (!f.starParam ==> more == [])
      modifies heap
      ensures heap.Valid() && Extends(old(heap.objs), heap.objs) && r.Done? && vals == fixed + more
      ensures var off := if first then 1 else 0;
        && r.value == Apply(map[], Writes(f.params, f.starParam, first, self, argpos, vals, l))
        && heap.objs == old(heap.objs)[l.addr := ListObj(StarItems(self, first, vals, argpos - off),
                                                          |StarItems(self, first, vals, argpos - off)|)]
    {
      vals := fixed + more;
      var all := items + more;
      var off := if first then 1 else 0;
      assert vals[argpos - off..] == more;
      WritesPrefix(f.params, false, first, self, argpos, fixed, more, Null);
      var m' := m;
      if f.starParam {
        WritesPrefix(f.params, true, first, self, argpos, fixed, more, l);
        WritesStar(f.params, first, self, argpos, fixed, l);
        m' := m[f.params[argpos] := l];
      }
      heap.Store(l.addr, ListObj(all, |all|));
      return Done(m'), vals;
    }

    /**
     * The first loop of `buildLocals`: the arguments bound to the fixed
     * parameters after the receiver's slot, each evaluated once, in order,
     * and written into `m` as `Semantics.Writes` says.
     */
    method FixedArgs(f: Obj, a: Tree, aid: NodeId, c: nat, first: bool, self: Ref, off: nat, argpos: nat,
                     m0: map<string, Ref>, fuel: nat)
      returns (r: Outcome<map<string, Ref>>, ghost vals: seq<Ref>)
      requires Valid() && f.FunctionObj?
      requires off == (if first then 1 else 0) && (first ==> |f.params| > 0)
      requires off <= argpos <= |f.params| && argpos - off <= |ArgView(a, c)|
      requires m0 == Apply(map[], Writes(f.params, false, first, self, off, [], Null))
      modifies this, heap
      ensures Keeps(old(heap.objs), old(inFunction), r)
      ensures r.Done? ==> |vals| == argpos - off && r.value == Apply(map[], Writes(f.params, false, first, self, argpos, vals, Null))
      decreases fuel, a, 0
    {
      vals := [];
      var m := m0;
      var j := 0;
      while off + j < argpos
        invariant 0 <= j && off + j <= argpos && |vals| == j
        invariant Keeps(old(heap.objs), old(inFunction), Done(Null))
        invariant m == Apply(map[], Writes(f.params, false, first, self, off + j, vals, Null))
        decreases argpos - j
      {
        var x := Exec(a.Children[c + j], ChildId(aid, c + j), fuel);
        if !x.Done? {
          return PassOn(x), vals;
        }
        ApplyWritesSnoc(f.params, first, self, off + j, vals, x.value);
        m := m[f.params[off + j] := x.value];
        vals := vals + [x.value];
        j := j + 1;
      }
      return Done(m), vals;
    }

    /**
     * The star loop of `buildLocals`: the arguments from index `from` on,
     * each evaluated once, in order.
     */
    method StarArgs(a: Tree, aid: NodeId, c: nat, from: nat, nargs: nat, fuel: nat) returns (r: Outcome<seq<Ref>>)
      requires Valid() && from <= nargs <= |ArgView(a, c)|
      modifies this, heap
      ensures Keeps(old(heap.objs), old(inFunction), r)
      ensures r.Done? ==> |r.value| == nargs - from
      decreases fuel, a, 0
    {
      var got: seq<Ref> := [];
      var j := from;
      while j < nargs
        invariant from <= j <= nargs && |got| == j - from
        invariant Keeps(old(heap.objs), old(inFunction), Done(Null))
      {
        var x := Exec(a.Children[c + j], ChildId(aid, c + j), fuel);
        if !x.Done? {
          return PassOn(x);
        }
        got := got + [x.value];
        j := j + 1;
      }
      return Done(got);
    }

    /**
     * A user function called with a receiver (nil for none): its locals
     * built by `BuildLocals`, then `callFunction`. `returned` tells
     * whether the body ended in `return`.
     */
    method Invoke(f: Obj, self: Ref, a: Tree, aid: NodeId, fuel: nat) returns (r: Outcome<Ref>, ghost returned: bool)
      requires Valid() && f.FunctionObj?
      modifies this, heap
      ensures Keeps(old(heap.objs), old(inFunction), r)
      ensures var argpos := ArgCount(|old(ArgNodes(a, aid))|, self != Null, f.starParam, f.paramLen);
        argpos != f.paramLen ==> r == Error(Mismatch(f.paramLen, argpos))
      ensures r.Done? ==> r.value == CallValue(returned, diveValue) && !inFunction && loopCount == 0
      decreases fuel, a, 3
    {
      returned := false;
      ghost var vals, list;
      var m;
      m, vals, list := BuildLocals(f, a, aid, self, fuel);
      if !m.Done? {
        return PassOn(m), returned;
      }
      if fuel == 0 {
        return Diverged, returned;
      }
      r, returned := CallFunction(f, m.value, fuel - 1);
    }

    /**
     * `callFunction`: the body runs in a new frame with `inFunction` set.
     * Completing, returning or panicking at run time all leave the frame,
     * clear `inFunction` and `loopCount`, and give `Semantics.CallValue`:
     * the returned value, else nil. A blue error passes on unrecovered.
     */
    method CallFunction(f: Obj, newLocals: map<string, Ref>, fuel: nat) returns (r: Outcome<Ref>, ghost returned: bool)
      requires Valid() && f.FunctionObj?
      modifies this, heap
      ensures Keeps(old(heap.objs), old(inFunction), r) && !r.Returned?
      ensures r.Done? ==>
        && r.value == CallValue(returned, diveValue) && locals == old(locals)
        && !inFunction && loopCount == 0
      decreases fuel
    {
      var saved := locals;
      inFunction := true;
      locals := Some(newLocals);
      var x := Exec(f.block, f.blockId, fuel);
      var ret := x.Returned?;
      returned := ret;
      if x.Error? || x.Diverged? {
        return PassOn(x), returned;
      }
      locals := saved;
      inFunction := false;
      loopCount := 0;
      return Done(CallValue(ret, diveValue)), returned;
    }

    /**
     * MAKE_INSTANCE: a class makes an instance (`NewInstanceOf`), a type
     * object calls its `Init` (`CallType`), anything else gives Go nil.
     */
    method MakeInstance(t: Tree, id: NodeId, fuel: nat)
      returns (r: Outcome<Ref>, ghost callee: Option<(Ref, seq<Obj>)>, ghost args: Option<(seq<Ref>, seq<Obj>)>)
      requires Valid()
      modifies this, heap
      ensures Keeps(old(heap.objs), old(inFunction), r)
      ensures r.Done? ==> callee.Some?
      ensures callee.Some? ==> var (f, h) := callee.value;
        && (!(f.TypeRef? || (Deref(h, f).Some? && Deref(h, f).value.ClassObj?)) ==> r == Done(Null) && heap.objs == h)
        && (f.TypeRef? && r.Done? ==> args.Some?)
        && (f.TypeRef? && args.Some? ==> InitGave(f.tag, args.value, r))
        && (f.Ptr? && Deref(h, f).Some? && Deref(h, f).value.ClassObj? && r.Done? ==>
              r.value == Ptr(|h|) && |h| < |heap.objs| && heap.objs[|h|].InstanceObj?)
      decreases fuel, t, 2
    {
      callee, args := None, None;
      var x := Operand(t, id, 0, fuel);
      if !x.Done? {
        return PassOn(x), callee, args;
      }
      var obj := x.value;
      callee := Some((obj, heap.objs));
      var o := Deref(heap.objs, obj);
      if !((o.Some? && o.value.ClassObj?) || obj.TypeRef?) {
        return Done(Null), callee, args;
      }
      if |t.Children| < 2 {
        return Fault(OUT_OF_RANGE), callee, args;
      }
      if obj.TypeRef? {
        r, args := CallType(obj.tag, t.Children[1], ChildId(id, 1), fuel);
      } else {
        r := NewInstanceOf(obj.addr, t.Children[1], ChildId(id, 1), fuel);
      }
    }

    /**
     * `newInstance`: the instance is made first; an `__init__` the class
     * resolves must be a user method, and runs with the instance as
     * receiver; a lookup that finds nothing means there is no initialiser.
     */
    method NewInstanceOf(c: nat, a: Tree, aid: NodeId, fuel: nat) returns (r: Outcome<Ref>)
      requires Valid() && Members.ClassAt(heap.objs, c)
      modifies this, heap
      ensures Keeps(old(heap.objs), old(inFunction), r)
      ensures r.Done? ==> r.value == Ptr(|old(heap.objs)|) && r.value.addr < |heap.objs| && heap.objs[r.value.addr].InstanceObj?
      ensures GetMemberOf(old(heap.objs) + [Members.NewInstance(Ptr(c))], Ptr(c), "__init__").Error? ==>
        r == Done(Ptr(|old(heap.objs)|)) && heap.objs == old(heap.objs) + [Members.NewInstance(Ptr(c))]
      decreases fuel, a, 5
    {
      var inst := heap.Alloc(Members.NewInstance(Ptr(c)));
      StillValid(old(heap.objs));
      ghost var objs1 := heap.objs;
      var x := RunInit(inst, c, a, aid, fuel);
      if !x.Done? {
        return PassOn(x);
      }
      ExtendsKeepsInstances(objs1, heap.objs, inst.addr);
      return Done(inst);
    }

    /**
     * The initialiser half of `newInstance`: `__init__` looked up through
     * the class with the new instance `inst` as receiver; no such member
     * means nothing runs.
     */
    method RunInit(inst: Ref, c: nat, a: Tree, aid: NodeId, fuel: nat) returns (r: Outcome<()>)
      requires Valid() && Members.ClassAt(heap.objs, c)
      requires inst.Ptr? && inst.addr < |heap.objs| && heap.objs[inst.addr].InstanceObj?
      modifies this, heap
      ensures Keeps(old(heap.objs), old(inFunction), r)
      ensures GetMemberOf(old(heap.objs), Ptr(c), "__init__").Error? ==> r == Done(()) && heap.objs == old(heap.objs)
      decreases fuel, a, 4
    {
      var init := GetMemberOf(heap.objs, Ptr(c), "__init__");
      if init.Error? {
        return Done(());
      }
      if !init.Done? {
        return PassOn(init);
      }
      heap.Update(init.value.0);
      StillValid(old(heap.objs));
      var v := init.value.1;
      if v == Existing(Null) {
        return Done(());
      }
      var mo := if v.Fresh? then Some(v.o) else Deref(heap.objs, v.r);
      if !(mo.Some? && mo.value.MethodObj?) {
        return Fault(BAD_ASSERTION);
      }
      var fo := Deref(heap.objs, mo.value.f);
      if !(fo.Some? && fo.value.FunctionObj?) {
        return Fault(NIL_DEREF);
      }
      ghost var returned;
      var ret;
      ret, returned := Invoke(fo.value, inst, a, aid, fuel);
      if !ret.Done? {
        return PassOn(ret);
      }
      return Done(());
    }

    /** `callType`: the arguments evaluated, then the type's `Init` (`Protocol.TypeInit`); a nil result is an error. */
    method CallType(tag: Tag, a: Tree, aid: NodeId, fuel: nat) returns (r: Outcome<Ref>, ghost args: Option<(seq<Ref>, seq<Obj>)>)
      requires Valid()
      modifies this, heap
      ensures Keeps(old(heap.objs), old(inFunction), r)
      ensures r.Done? ==> r.value != Null && args.Some?
      ensures args.Some? ==> |args.value.0| == |old(ArgNodes(a, aid))| && InitGave(tag, args.value, r)
      decreases fuel, a, 3
    {
      args := None;
      var vals := EvalArgs(a, aid, fuel);
      if !vals.Done? {
        return PassOn(vals), args;
      }
      args := Some((vals.value, heap.objs));
      var v := TypeInit(heap.objs, tag, vals.value);
      if !v.Done? {
        return PassOn(v), args;
      }
      var x := heap.Put(v.value);
      StillValid(old(heap.objs));
      if x == Null {
        return Error(STALE), args;
      }
      return Done(x), args;
    }
  }
}
