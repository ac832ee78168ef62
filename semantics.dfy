/**
 * The rules of blue/eval.go that do not depend on running code: where a
 * name is looked up and written, how arguments are bound to parameters,
 * which branch of an `if` runs, how the loop flags and a call's result are
 * read, which operator a node kind selects, and what a literal evaluates
 * to. The evaluator class of eval.dfy is proved to follow them.
 */
module Semantics {
  import opened Common
  import opened Values
  import opened Protocol
  import opened Interm
  import opened Tokens
  import SyntaxFacts
  import Members
  import SmallTypes
  import Literals
  import Lists = ListObjects

  // ----- names -----

  /** The builtins map `blInitBuiltins` fills: one type object per name. */
  const BUILTINS: map<string, Ref> := map[
    "string" := TypeRef(StringType), "float" := TypeRef(FloatType), "list" := TypeRef(ListType),
    "bool" := TypeRef(BoolType), "int" := TypeRef(IntType), "nil" := TypeRef(NilType)]

  function Unresolved(name: string): string
  {
    "failed to resolve variable '" + name + "'"
  }

  /** A Go map read: a missing key gives nil. */
  function Entry(m: map<string, Ref>, name: string): Ref
  {
    if name in m then m[name] else Null
  }

  /** The lookup after the first place: globals, then builtins. */
  function Fallback(objs: seq<Obj>, globals: map<string, Ref>, name: string): (r: Outcome<(seq<Obj>, Val)>)
    ensures r.Done? || r == Error(Unresolved(name))
  {
    if Entry(globals, name) != Null then Done((objs, Existing(Entry(globals, name))))
    else if Entry(BUILTINS, name) != Null then Done((objs, Existing(Entry(BUILTINS, name))))
    else Error(Unresolved(name))
  }

  /**
   * `get`: the open class's members when a class body is running (a
   * failed member lookup falls through), otherwise the frame's locals when
   * the frame has them; then globals, then builtins. A nil found anywhere
   * counts as absent.
   */
  function Resolve(objs: seq<Obj>, cobj: Ref, locals: Option<map<string, Ref>>, globals: map<string, Ref>,
                   name: string): (r: Outcome<(seq<Obj>, Val)>)
    requires WellFormed(objs)
    ensures r.Done? ==> (|r.value.0| == |objs| && Extends(objs, r.value.0) && WellFormed(r.value.0)
                         && FreshOk(r.value.1) && r.value.1 != Existing(Null))
    ensures r.Error? ==> r.msg == Unresolved(name)
    ensures !r.Returned?
  {
    if cobj != Null then
      var m := GetMemberOf(objs, cobj, name);
      if m.Done? then
        if m.value.1 != Existing(Null) then m else Fallback(m.value.0, globals, name)
      else if m.Error? then Fallback(objs, globals, name)
      else PassOn(m)
    else
      var v := if locals.Some? then Entry(locals.value, name) else Null;
      if v != Null then Done((objs, Existing(v))) else Fallback(objs, globals, name)
  }

  /**
   * Outside a class body a lookup fails exactly when the name is bound
   * (to something other than nil) nowhere: not in the frame's locals, not
   * in globals, not among the builtins; the nearest binding wins.
   */
  lemma ResolveOutsideClass(objs: seq<Obj>, locals: Option<map<string, Ref>>, globals: map<string, Ref>, name: string)
    requires WellFormed(objs)
    ensures var r := Resolve(objs, Null, locals, globals, name);
      && (r.Error? <==> (locals.None? || Entry(locals.value, name) == Null)
                        && Entry(globals, name) == Null && name !in BUILTINS)
      && (locals.Some? && Entry(locals.value, name) != Null ==> r == Done((objs, Existing(locals.value[name]))))
      && ((locals.None? || Entry(locals.value, name) == Null) && Entry(globals, name) != Null ==>
            r == Done((objs, Existing(globals[name]))))
      && !r.Fault?
  {
    assert forall n :: n in BUILTINS ==> BUILTINS[n] != Null;
  }

  /**
   * Inside a class body the frame's locals are never consulted, and a
   * member of the class shadows every global.
   */
  lemma ClassBodySkipsLocals(objs: seq<Obj>, cobj: Ref, l1: Option<map<string, Ref>>, l2: Option<map<string, Ref>>,
                             globals: map<string, Ref>, name: string)
    requires WellFormed(objs) && cobj != Null
    ensures Resolve(objs, cobj, l1, globals, name) == Resolve(objs, cobj, l2, globals, name)
    ensures var m := GetMemberOf(objs, cobj, name);
      m.Done? && m.value.1 != Existing(Null) ==> Resolve(objs, cobj, l1, globals, name) == m
  {
  }

  /** `set` outside a class body: the frame's locals when it has them, otherwise globals. */
  function Bind(locals: Option<map<string, Ref>>, globals: map<string, Ref>, name: string, v: Ref)
    : (s: (Option<map<string, Ref>>, map<string, Ref>))
  {
    if locals.Some? then (Some(locals.value[name := v]), globals) else (locals, globals[name := v])
  }

  /**
   * A lookup right after a write outside a class body finds the value
   * written (unless it is nil), and every other name resolves as before.
   */
  lemma ResolveAfterBind(objs: seq<Obj>, locals: Option<map<string, Ref>>, globals: map<string, Ref>,
                         name: string, v: Ref, other: string)
    requires WellFormed(objs) && other != name
    ensures var s := Bind(locals, globals, name, v);
      && (v != Null ==> Resolve(objs, Null, s.0, s.1, name) == Done((objs, Existing(v))))
      && Resolve(objs, Null, s.0, s.1, other) == Resolve(objs, Null, locals, globals, other)
  {
    var s := Bind(locals, globals, name, v);
    assert Entry(s.1, other) == Entry(globals, other);
    if locals.Some? {
      assert Entry(s.0.value, other) == Entry(locals.value, other);
    }
  }

  // ----- argument binding -----

  /** Whether the receiver takes the first parameter (rather than the star list). */
  predicate ReceiverFirst(hasSelf: bool, star: bool, paramLen: int)
  {
    hasSelf && !(star && paramLen == 0)
  }

  /**
   * `argpos` of `buildLocals`: the argument count, one more for a receiver
   * bound to the first parameter, cut down to `ParamLen` for a starred function.
   */
  function ArgCount(nargs: nat, hasSelf: bool, star: bool, paramLen: int): int
  {
    var n := if ReceiverFirst(hasSelf, star, paramLen) then nargs + 1 else nargs;
    if star && n > paramLen then paramLen else n
  }

  function Mismatch(params: int, args: int): string
  {
    "argument mismatch. Expected (" + IntText(params) + "), got (" + IntText(args) + ")"
  }

  /**
   * `verifyParamArgCount` passes exactly when a plain function gets one
   * value per parameter and a starred one at least that many; a receiver
   * counts as a value unless it goes to the star list.
   */
  lemma ArityRule(nargs: nat, hasSelf: bool, star: bool, paramLen: int)
    ensures var given := nargs + (if ReceiverFirst(hasSelf, star, paramLen) then 1 else 0);
      ArgCount(nargs, hasSelf, star, paramLen) == paramLen <==> (if star then given >= paramLen else given == paramLen)
  {
  }

  /** The parameter indices a binding writes exist. */
  predicate Bindable(params: seq<string>, star: bool, first: bool, argpos: int)
  {
    (first ==> |params| > 0) && argpos <= |params| && (star ==> 0 <= argpos < |params|)
  }

  /** The writes `buildLocals` makes, in order: receiver, fixed arguments, star list. */
  function Writes(params: seq<string>, star: bool, first: bool, self: Ref, argpos: int, vals: seq<Ref>, list: Ref)
    : (w: seq<(string, Ref)>)
    requires Bindable(params, star, first, argpos)
    requires (if first then 1 else 0) <= argpos ==> argpos - (if first then 1 else 0) <= |vals|
  {
    var off := if first then 1 else 0;
    (if first then [(params[0], self)] else [])
    + (if off <= argpos then seq(argpos - off, j requires 0 <= j < argpos - off => (params[off + j], vals[j])) else [])
    + (if star then [(params[argpos], list)] else [])
  }

  /** Map writes carried out left to right; a later write to the same name wins. */
  function Apply(m: map<string, Ref>, w: seq<(string, Ref)>): map<string, Ref>
    decreases |w|
  {
    if |w| == 0 then m else Apply(m, w[..|w| - 1])[w[|w| - 1].0 := w[|w| - 1].1]
  }

  /** No name is written twice. */
  predicate Distinct(w: seq<(string, Ref)>)
  {
    forall i, j :: 0 <= i < j < |w| ==> w[i].0 != w[j].0
  }

  /** The names written. */
  function Written(w: seq<(string, Ref)>): set<string>
  {
    set l | 0 <= l < |w| :: w[l].0
  }

  /** The writes add exactly the names written. */
  lemma {:induction false} ApplyKeys(m: map<string, Ref>, w: seq<(string, Ref)>)
    ensures Apply(m, w).Keys == m.Keys + Written(w)
    decreases |w|
  {
    if |w| > 0 {
      var f := w[..|w| - 1];
      ApplyKeys(m, f);
      assert Written(w) == Written(f) + {w[|w| - 1].0} by {
        forall x | x in Written(w) ensures x in Written(f) + {w[|w| - 1].0} {
          var l :| 0 <= l < |w| && w[l].0 == x;
          if l < |w| - 1 { assert f[l] == w[l]; }
        }
        forall x | x in Written(f) ensures x in Written(w) {
          var l :| 0 <= l < |f| && f[l].0 == x;
          assert f[l] == w[l];
        }
      }
    }
  }

  /** When no name is written twice, each name holds the value written to it. */
  lemma {:induction false} ApplyHolds(m: map<string, Ref>, w: seq<(string, Ref)>, k: int)
    requires Distinct(w) && 0 <= k < |w|
    ensures w[k].0 in Apply(m, w) && Apply(m, w)[w[k].0] == w[k].1
    decreases |w|
  {
    if k < |w| - 1 {
      var f := w[..|w| - 1];
      assert f[k] == w[k];
      assert Distinct(f) by {
        forall i, j | 0 <= i < j < |f| ensures f[i].0 != f[j].0 {
          assert f[i] == w[i] && f[j] == w[j];
        }
      }
      ApplyHolds(m, f, k);
    }
  }

  /** What the star list ends up holding: the receiver when it goes there, then the unbound arguments. */
  function StarItems(self: Ref, first: bool, vals: seq<Ref>, fixed: nat): seq<Ref>
    requires fixed <= |vals|
  {
    (if self != Null && !first then [self] else []) + vals[fixed..]
  }

  /** One more fixed argument adds its write at the end. */
  lemma WritesSnoc(params: seq<string>, first: bool, self: Ref, argpos: int, vals: seq<Ref>, x: Ref)
    requires Bindable(params, false, first, argpos + 1)
    requires argpos - (if first then 1 else 0) == |vals|
    ensures Bindable(params, false, first, argpos)
    ensures Writes(params, false, first, self, argpos + 1, vals + [x], Null)
         == Writes(params, false, first, self, argpos, vals, Null) + [(params[argpos], x)]
  {
    var off := if first then 1 else 0;
    var head: seq<(string, Ref)> := if first then [(params[0], self)] else [];
    var long := seq(argpos + 1 - off, j requires 0 <= j < argpos + 1 - off => (params[off + j], (vals + [x])[j]));
    var short := seq(argpos - off, j requires 0 <= j < argpos - off => (params[off + j], vals[j]));
    assert long == short + [(params[argpos], x)];
    assert Writes(params, false, first, self, argpos + 1, vals + [x], Null) == head + long + [];
    assert Writes(params, false, first, self, argpos, vals, Null) == head + short + [];
  }

  /** Binding one more fixed argument adds exactly that name to the locals. */
  lemma ApplyWritesSnoc(params: seq<string>, first: bool, self: Ref, argpos: int, vals: seq<Ref>, x: Ref)
    requires Bindable(params, false, first, argpos + 1)
    requires argpos - (if first then 1 else 0) == |vals|
    ensures 0 <= argpos < |params|
    ensures Apply(map[], Writes(params, false, first, self, argpos + 1, vals + [x], Null))
         == Apply(map[], Writes(params, false, first, self, argpos, vals, Null))[params[argpos] := x]
  {
    WritesSnoc(params, first, self, argpos, vals, x);
    var w := Writes(params, false, first, self, argpos, vals, Null) + [(params[argpos], x)];
    assert w[..|w| - 1] == Writes(params, false, first, self, argpos, vals, Null);
  }

  /** A starred function's writes end with the list bound to the starred name. */
  lemma WritesStar(params: seq<string>, first: bool, self: Ref, argpos: int, vals: seq<Ref>, list: Ref)
    requires Bindable(params, true, first, argpos)
    requires (if first then 1 else 0) <= argpos <= |vals| + (if first then 1 else 0)
    ensures Bindable(params, false, first, argpos)
    ensures Writes(params, true, first, self, argpos, vals, list)
         == Writes(params, false, first, self, argpos, vals, Null) + [(params[argpos], list)]
  {
  }

  /** Values past the fixed parameters are not written to the map. */
  lemma WritesPrefix(params: seq<string>, star: bool, first: bool, self: Ref, argpos: int,
                     vals: seq<Ref>, more: seq<Ref>, list: Ref)
    requires Bindable(params, star, first, argpos)
    requires (if first then 1 else 0) <= argpos <= |vals| + (if first then 1 else 0)
    ensures Writes(params, star, first, self, argpos, vals + more, list) == Writes(params, star, first, self, argpos, vals, list)
  {
    var off := if first then 1 else 0;
    var a := seq(argpos - off, j requires 0 <= j < argpos - off => (params[off + j], (vals + more)[j]));
    var b := seq(argpos - off, j requires 0 <= j < argpos - off => (params[off + j], vals[j]));
    assert a == b;
  }

  /** The writes, one per parameter slot up to the starred one. */
  lemma WritesLayout(params: seq<string>, star: bool, first: bool, self: Ref, argpos: int, vals: seq<Ref>, list: Ref)
    requires Bindable(params, star, first, argpos)
    requires (if first then 1 else 0) <= argpos <= |vals| + (if first then 1 else 0)
    ensures var w := Writes(params, star, first, self, argpos, vals, list);
      && |w| == argpos + (if star then 1 else 0)
      && (forall k :: 0 <= k < |w| ==> w[k].0 == params[k])
      && (first ==> w[0].1 == self)
      && (forall j :: (if first then 1 else 0) <= j < argpos ==> w[j].1 == vals[j - (if first then 1 else 0)])
      && (star ==> w[argpos].1 == list)
  {
  }

  /** What writes laid out slot by slot leave in an empty map. */
  lemma LayoutMeaning(params: seq<string>, star: bool, off: int, self: Ref, argpos: int, vals: seq<Ref>, list: Ref,
                      w: seq<(string, Ref)>)
    requires 0 <= off <= 1 && off <= argpos <= |vals| + off && argpos + (if star then 1 else 0) <= |params|
    requires forall i, j :: 0 <= i < j < |params| ==> params[i] != params[j]
    requires |w| == argpos + (if star then 1 else 0) && forall k :: 0 <= k < |w| ==> w[k].0 == params[k]
    requires off == 1 ==> w[0].1 == self
    requires forall j :: off <= j < argpos ==> w[j].1 == vals[j - off]
    requires star ==> w[argpos].1 == list
    ensures var m := Apply(map[], w);
      && (off == 1 ==> params[0] in m && m[params[0]] == self)
      && (forall j :: off <= j < argpos ==> params[j] in m && m[params[j]] == vals[j - off])
      && (star ==> params[argpos] in m && m[params[argpos]] == list)
      && m.Keys == (set j | 0 <= j < argpos :: params[j]) + (if star then {params[argpos]} else {})
  {
    assert Distinct(w);
    LayoutKeys(params, star, argpos, w);
    if off == 1 {
      ApplyHolds(map[], w, 0);
    }
    forall j | off <= j < argpos ensures params[j] in Apply(map[], w) && Apply(map[], w)[params[j]] == vals[j - off] {
      ApplyHolds(map[], w, j);
    }
    if star {
      ApplyHolds(map[], w, argpos);
    }
  }

  /** The names such writes leave in an empty map: the slots' parameters. */
  lemma LayoutKeys(params: seq<string>, star: bool, argpos: int, w: seq<(string, Ref)>)
    requires 0 <= argpos && argpos + (if star then 1 else 0) <= |params|
    requires |w| == argpos + (if star then 1 else 0) && forall k :: 0 <= k < |w| ==> w[k].0 == params[k]
    ensures Apply(map[], w).Keys == (set j | 0 <= j < argpos :: params[j]) + (if star then {params[argpos]} else {})
  {
    ApplyKeys(map[], w);
    var expected := (set j | 0 <= j < argpos :: params[j]) + (if star then {params[argpos]} else {});
    forall x | x in Written(w) ensures x in expected {
      var l :| 0 <= l < |w| && w[l].0 == x;
    }
    forall x | x in expected ensures x in Written(w) {
      if star && x == params[argpos] {
        assert w[argpos].0 == x;
      } else {
        var l :| 0 <= l < argpos && params[l] == x;
        assert w[l].0 == x;
      }
    }
  }

  /**
   * With distinct parameter names: the receiver is bound to the first
   * parameter, the fixed arguments to the following ones in order, and the
   * starred name to the list; nothing else is bound.
   */
  lemma BindingMeaning(params: seq<string>, star: bool, first: bool, self: Ref, argpos: int, vals: seq<Ref>, list: Ref)
    requires Bindable(params, star, first, argpos)
    requires (if first then 1 else 0) <= argpos <= |vals| + (if first then 1 else 0)
    requires forall i, j :: 0 <= i < j < |params| ==> params[i] != params[j]
    ensures var m := Apply(map[], Writes(params, star, first, self, argpos, vals, list));
      && (first ==> params[0] in m && m[params[0]] == self)
      && (forall j :: (if first then 1 else 0) <= j < argpos ==> params[j] in m && m[params[j]] == vals[j - (if first then 1 else 0)])
      && (star ==> params[argpos] in m && m[params[argpos]] == list)
      && m.Keys == (set j | 0 <= j < argpos :: params[j]) + (if star then {params[argpos]} else {})
  {
    WritesLayout(params, star, first, self, argpos, vals, list);
    LayoutMeaning(params, star, if first then 1 else 0, self, argpos, vals, list, Writes(params, star, first, self, argpos, vals, list));
  }

  // ----- if statements -----

  /** How many conditions `ifStmt`'s loop can test: one per index `0, 3, 6, ...` below `n`. */
  function Conditions(n: nat): nat
  {
    (n + 2) / 3
  }

  /** The index of the first true value, or the length when there is none. */
  function FirstTrue(truths: seq<bool>): (k: nat)
    ensures k <= |truths| && (k < |truths| ==> truths[k]) && forall i :: 0 <= i < k ==> !truths[i]
  {
    if |truths| == 0 then 0 else if truths[0] then 0 else 1 + FirstTrue(truths[1..])
  }

  /**
   * The child `ifStmt` runs after testing conditions with results
   * `truths`: the block after the first true one; otherwise, when the loop
   * index lands exactly on the child count, the last child (the else
   * block); otherwise none. `-1` stands for the index Go would panic on.
   */
  function IfChoice(n: nat, truths: seq<bool>): Option<int>
  {
    var k := FirstTrue(truths);
    if k < |truths| then Some(3 * k + 1)
    else if n % 3 == 0 then Some(n - 1)
    else None
  }

  /** The loop's exit index `i` equals the child count exactly when the count is a multiple of three. */
  lemma LoopExitIndex(n: nat)
    ensures 3 * Conditions(n) >= n && 3 * Conditions(n) < n + 3
    ensures 3 * Conditions(n) == n <==> n % 3 == 0
  {
  }

  /** `ifStmt` leaving its loop on a true condition, after `|truths|` false ones. */
  lemma IfTaken(n: nat, truths: seq<bool>)
    requires 3 * |truths| < n && forall j :: 0 <= j < |truths| ==> !truths[j]
    ensures FirstTrue(truths + [true]) == |truths| && IfChoice(n, truths + [true]) == Some(3 * |truths| + 1)
    ensures |truths + [true]| <= Conditions(n)
  {
    assert (truths + [true])[|truths|];
  }

  /** `ifStmt` leaving its loop with every condition false: the else block runs exactly when the index lands on `n`. */
  lemma IfExhausted(n: nat, truths: seq<bool>)
    requires n <= 3 * |truths| <= n + 2 && forall j :: 0 <= j < |truths| ==> !truths[j]
    ensures FirstTrue(truths) == |truths| && |truths| == Conditions(n)
    ensures IfChoice(n, truths) == if 3 * |truths| == n then Some(n - 1) else None
  {
  }

  /** The children after an `if`'s condition and block: their count and where conditions and blocks sit. */
  lemma {:induction false} IfTailStride(cs: seq<Tree>)
    requires SyntaxFacts.IfTail(cs)
    ensures |cs| % 3 == 0 || (|cs| % 3 == 1 && cs[|cs| - 1].NodeType == BLOCK)
    ensures forall k :: 0 <= k && 3 * k + 2 < |cs| ==> cs[3 * k].NodeType == ELIF && cs[3 * k + 2].NodeType == BLOCK
    decreases |cs|
  {
    if |cs| >= 3 && cs[0].NodeType == ELIF && cs[2].NodeType == BLOCK && SyntaxFacts.IfTail(cs[3..]) {
      IfTailStride(cs[3..]);
      forall k | 1 <= k && 3 * k + 2 < |cs| ensures cs[3 * k].NodeType == ELIF && cs[3 * k + 2].NodeType == BLOCK {
        assert cs[3..][3 * (k - 1)] == cs[3 * k];
        assert cs[3..][3 * (k - 1) + 2] == cs[3 * k + 2];
      }
    }
  }

  /**
   * On the trees the parser builds, `ifStmt`'s stride of three meets the
   * layout: every index it tests is a condition, the child after it is a
   * block, and the loop lands on the child count exactly when an else
   * block closes the list, so the else runs only when every condition
   * was false and only when it exists.
   */
  lemma IfChoiceOnParsedTree(t: Tree, truths: seq<bool>)
    requires |t.Children| >= 2 && t.Children[1].NodeType == BLOCK && SyntaxFacts.IfTail(t.Children[2..])
    requires |truths| <= Conditions(|t.Children|)
    ensures forall k :: 0 <= k < Conditions(|t.Children|) ==> 3 * k + 1 < |t.Children| && t.Children[3 * k + 1].NodeType == BLOCK
    ensures var c := IfChoice(|t.Children|, truths);
      && (c.Some? ==> 0 <= c.value < |t.Children| && t.Children[c.value].NodeType == BLOCK)
      && (c == Some(|t.Children| - 1) && FirstTrue(truths) == |truths| ==>
            |t.Children| % 3 == 0 && forall i :: 0 <= i < |truths| ==> !truths[i])
      && (FirstTrue(truths) == |truths| && |t.Children| % 3 != 0 ==> c.None?)
  {
    IfBlocks(t);
    var k := FirstTrue(truths);
    if k < |truths| {
      assert 3 * k + 1 < |t.Children|;
    }
  }

  /** Where the blocks of a parsed `if` sit: after every condition, and last when the count is a multiple of three. */
  lemma IfBlocks(t: Tree)
    requires |t.Children| >= 2 && t.Children[1].NodeType == BLOCK && SyntaxFacts.IfTail(t.Children[2..])
    ensures forall k :: 0 <= k < Conditions(|t.Children|) ==> 3 * k + 1 < |t.Children| && t.Children[3 * k + 1].NodeType == BLOCK
    ensures |t.Children| % 3 == 0 ==> t.Children[|t.Children| - 1].NodeType == BLOCK
  {
    var cs := t.Children[2..];
    IfTailStride(cs);
    var n := |t.Children|;
    forall k | 0 <= k < Conditions(n) ensures 3 * k + 1 < n && t.Children[3 * k + 1].NodeType == BLOCK {
      if k > 0 {
        assert cs[3 * (k - 1) + 2] == t.Children[3 * k + 1];
      }
    }
    if n % 3 == 0 {
      assert cs[|cs| - 1] == t.Children[n - 1];
    }
  }

  // ----- loop flags and calls -----

  const DIVEOUT_RETURN: int := 0
  const DIVEOUT_CONTINUE: int := 1
  const DIVEOUT_BREAK: int := 2
  const DIVEOUT_NONE: int := 3

  const RETURN_OUTSIDE: string := "return outside function"
  const BREAK_OUTSIDE: string := "break outside loop"
  const CONTINUE_OUTSIDE: string := "continue outside loop"

  /** What `whileStmt` does after each body statement, by the flag it finds. */
  datatype LoopStep = Proceed | NextRound | LeaveLoop

  function AfterStatement(dive: int): (s: LoopStep)
    ensures s == LeaveLoop <==> dive == DIVEOUT_BREAK
    ensures s == NextRound <==> dive == DIVEOUT_CONTINUE
  {
    if dive == DIVEOUT_BREAK then LeaveLoop
    else if dive == DIVEOUT_CONTINUE then NextRound
    else Proceed
  }

  /** The flag after that step: a break or continue is consumed. */
  function Consumed(dive: int): (d: int)
    ensures d != DIVEOUT_BREAK && d != DIVEOUT_CONTINUE
    ensures AfterStatement(dive) == Proceed ==> d == dive
  {
    if dive == DIVEOUT_BREAK || dive == DIVEOUT_CONTINUE then DIVEOUT_NONE else dive
  }

  /**
   * The value of a call of a blue function, from how its body ended: the
   * recorded return value when the body unwound with `return` and a value
   * is recorded (even one recorded by an earlier `return`), nil otherwise,
   * a recovered Go panic included.
   */
  function CallValue(returned: bool, diveValue: Ref): (v: Ref)
    ensures v != Null
    ensures returned && diveValue != Null ==> v == diveValue
    ensures !returned ==> v == NilRef
  {
    if returned && diveValue != Null then diveValue else NilRef
  }

  // ----- operators -----

  /** The number operation and its error text for each binary operator node. */
  function BinOp(k: Kind): (r: Option<(NumOp, string)>)
    ensures r.Some? ==> r.value.0 != NumNeg && r.value.0 != NumCompl
  {
    if k == BITWISE_OR then Some((NumOr, "|"))
    else if k == BITWISE_AND then Some((NumAnd, "&"))
    else if k == XOR then Some((NumXor, "^"))
    else if k == LEFTSHIFT then Some((NumLshift, "<<"))
    else if k == RIGHTSHIFT then Some((NumRshift, ">>"))
    else if k == ADD then Some((NumAdd, "+"))
    else if k == SUB then Some((NumSub, "-"))
    else if k == MUL then Some((NumMul, "*"))
    else if k == DIV then Some((NumDiv, "/"))
    else if k == MODULO then Some((NumMod, "%"))
    else None
  }

  /** The number operation and its error text for each compound assignment node. */
  function AugOp(k: Kind): (r: Option<(NumOp, string)>)
    ensures r.Some? ==> r.value.0 != NumNeg && r.value.0 != NumCompl
  {
    if k == ASS_BITWISE_OR then Some((NumOr, "|="))
    else if k == ASS_BITWISE_AND then Some((NumAnd, "&="))
    else if k == ASS_XOR then Some((NumXor, "^="))
    else if k == ASS_LEFTSHIFT then Some((NumLshift, "<<="))
    else if k == ASS_RIGHTSHIFT then Some((NumRshift, ">>="))
    else if k == ASS_ADD then Some((NumAdd, "+="))
    else if k == ASS_SUB then Some((NumSub, "-="))
    else if k == ASS_MUL then Some((NumMul, "*="))
    else if k == ASS_DIV then Some((NumDiv, "/="))
    else if k == ASS_MODULO then Some((NumMod, "%="))
    else None
  }

  /** The binary operator a compound assignment kind stands for (`ASS_x` is 109 to 118). */
  function AugBase(k: Kind): Kind
  {
    if k == ASS_BITWISE_OR then BITWISE_OR
    else if k == ASS_BITWISE_AND then BITWISE_AND
    else if k == ASS_XOR then XOR
    else if k == ASS_LEFTSHIFT then LEFTSHIFT
    else if k == ASS_RIGHTSHIFT then RIGHTSHIFT
    else if k == ASS_ADD then ADD
    else if k == ASS_SUB then SUB
    else if k == ASS_MUL then MUL
    else if k == ASS_DIV then DIV
    else MODULO
  }

  /**
   * `x op= y` computes what `x op y` does, under the text with `=`
   * appended; exactly the ten kinds from `ASS_BITWISE_OR` to `ASS_MODULO`
   * have an operation.
   */
  lemma AugOpIsBinOp(k: Kind)
    ensures AugOp(k).Some? <==> ASS_BITWISE_OR <= k <= ASS_MODULO
    ensures AugOp(k).Some? ==>
      (BinOp(AugBase(k)).Some? && AugOp(k).value == (BinOp(AugBase(k)).value.0, BinOp(AugBase(k)).value.1 + "="))
  {
    assert "|" + "=" == "|=" && "&" + "=" == "&=" && "^" + "=" == "^=" && "<<" + "=" == "<<=" && ">>" + "=" == ">>=";
    assert "+" + "=" == "+=" && "-" + "=" == "-=" && "*" + "=" == "*=" && "/" + "=" == "/=" && "%" + "=" == "%=";
  }

  // ----- literals, ranges, printing -----

  /**
   * An INTEGER node: the parsed value, except that -1, the failure value
   * `parseInt` shares with real results, is reported as an error with the
   * previous message.
   */
  function IntLiteral(p: Result<int64>): (r: Outcome<Obj>)
    ensures r.Done? <==> p.Ok? && p.value != -1
    ensures r.Done? ==> r.value == IntObj(p.value)
    ensures !r.Returned?
  {
    match p
    case Ok(v) => if v == -1 then Error(STALE) else Done(IntObj(v))
    case Failure(m) => Error(m)
  }

  /** A STRING node: the decoded text; a bad `\x` escape is an error; a cut-off escape panics. */
  function StringLiteral(d: Literals.Decoded): (r: Outcome<Obj>)
    ensures r.Done? <==> d.Text?
    ensures r.Done? ==> r.value == StringObj(d.s)
    ensures !r.Returned?
  {
    match d
    case Text(s) => Done(StringObj(s))
    case BadEscape => Error(Literals.BAD_ESCAPE_MSG)
    case Panic => Fault(OUT_OF_RANGE)
  }

  const RANGE_TYPES: string := "types of the range construct must be integers"

  /** A RANGE node over two evaluated bounds: both must be ints. */
  function RangeOf(objs: seq<Obj>, a: Ref, b: Ref): (r: Outcome<Obj>)
    ensures r.Done? <==> IntValue(objs, a).Some? && IntValue(objs, b).Some?
    ensures r.Done? ==> r.value.RangeObj? && r.value.s == IntValue(objs, a).value && r.value.e == IntValue(objs, b).value
    ensures r.Error? <==> !r.Done?
  {
    match (IntValue(objs, a), IntValue(objs, b))
    case (Some(s), Some(e)) => Done(SmallTypes.NewRange(s, e))
    case _ => Error(RANGE_TYPES)
  }

  function NoRepr(owner: string): string
  {
    "'" + owner + "' object has no representation"
  }

  /** The heap addresses not yet on the path of lists being printed. */
  function Unvisited(objs: seq<Obj>, visiting: set<nat>): set<nat>
  {
    set a | 0 <= a < |objs| && a !in visiting
  }

  /**
   * The representation of a method or builtin method, which can panic on
   * a broken one; every other type with a `Repr` hook shows its own
   * fields and always gets through.
   */
  function FlatReprStatus(objs: seq<Obj>, obj: Ref): (r: Outcome<()>)
    ensures r.Done? || r.Fault?
  {
    if obj.Ptr? && obj.addr < |objs| && objs[obj.addr].MethodObj? then
      var s := SmallTypes.MethodRepr(objs[obj.addr], objs);
      if s.Done? then Done(()) else PassOn(s)
    else if obj.Ptr? && obj.addr < |objs| && objs[obj.addr].GMethodObj? then
      var s := SmallTypes.GMethodRepr(objs[obj.addr]);
      if s.Done? then Done(()) else PassOn(s)
    else Done(())
  }

  /**
   * Whether the `Repr` hook of a value gets through when called directly,
   * as `blListRepr` calls it on each element: Go nil and a type without
   * the hook (a module) panic; a list walks its elements, and a list
   * already on the path being printed recurses without end. `visiting`
   * holds the addresses of the lists being printed.
   */
  function ReprStatus(objs: seq<Obj>, obj: Ref, visiting: set<nat>): (r: Outcome<()>)
    ensures r.Done? || r.Fault? || r.Diverged?
    decreases Unvisited(objs, visiting), 0
  {
    match TypeOf(objs, obj)
    case None => Fault(NIL_DEREF)
    case Some(t) =>
      if !HasHook(t, Repr) then Fault(NIL_DEREF)
      else if obj.Ptr? && objs[obj.addr].ListObj? then
        if obj.addr in visiting then Diverged
        else
          assert Unvisited(objs, visiting + {obj.addr}) < Unvisited(objs, visiting) by {
            assert obj.addr in Unvisited(objs, visiting) - Unvisited(objs, visiting + {obj.addr});
          }
          ElemsStatus(objs, objs[obj.addr].list, 0, visiting + {obj.addr})
      else FlatReprStatus(objs, obj)
  }

  /** `blListRepr`'s loop from element `i` on: the first element whose representation does not get through decides. */
  function ElemsStatus(objs: seq<Obj>, items: seq<Ref>, i: nat, visiting: set<nat>): (r: Outcome<()>)
    requires i <= |items|
    ensures r.Done? || r.Fault? || r.Diverged?
    decreases Unvisited(objs, visiting), 1, |items| - i
  {
    if i == |items| then Done(())
    else
      var s := ReprStatus(objs, items[i], visiting);
      if s.Done? then ElemsStatus(objs, items, i + 1, visiting) else s
  }

  /**
   * Whether `blPrint` gets through: a type without `Repr` is an error;
   * otherwise the representation is made as `ReprStatus` says. The text
   * printed is not part of the model.
   */
  function PrintStatus(objs: seq<Obj>, obj: Ref): (r: Outcome<()>)
    ensures r.Error? <==> TypeOf(objs, obj).Some? && !HasHook(TypeOf(objs, obj).value, Repr)
    ensures !r.Error? ==> r == ReprStatus(objs, obj, {})
  {
    match TypeOf(objs, obj)
    case None => Fault(NIL_DEREF)
    case Some(t) =>
      if !HasHook(t, Repr) then Error(NoRepr(TypeName(t)))
      else ReprStatus(objs, obj, {})
  }

  /**
   * The elements of a list are all shown: the walk gets through exactly
   * when every element's representation does (`ElemsStopAt` says which
   * outcome it ends with otherwise).
   */
  lemma {:induction false} ElemsAllShown(objs: seq<Obj>, items: seq<Ref>, i: nat, visiting: set<nat>)
    requires i <= |items|
    ensures ElemsStatus(objs, items, i, visiting).Done? <==>
      forall j :: i <= j < |items| ==> ReprStatus(objs, items[j], visiting).Done?
    decreases |items| - i
  {
    if i < |items| && ReprStatus(objs, items[i], visiting).Done? {
      ElemsAllShown(objs, items, i + 1, visiting);
    }
  }

  /**
   * Printing a list whose `j`-th element is Go nil, all earlier elements
   * printable, panics: the list methods that store nothing (`append`,
   * `prepend`, `insert`) leave such slots.
   */
  lemma PrintNilElementFaults(objs: seq<Obj>, a: nat, j: nat)
    requires a < |objs| && objs[a].ListObj? && j < |objs[a].list| && objs[a].list[j] == Null
    requires forall k :: 0 <= k < j ==> ReprStatus(objs, objs[a].list[k], {a}).Done?
    ensures PrintStatus(objs, Ptr(a)) == Fault(NIL_DEREF)
  {
    ListReprWalks(objs, a);
    ElemsStopAt(objs, objs[a].list, 0, j, {a});
  }

  /** Printing a list that holds itself, all earlier elements printable, does not end. */
  lemma PrintSelfContainingDiverges(objs: seq<Obj>, a: nat, j: nat)
    requires a < |objs| && objs[a].ListObj? && j < |objs[a].list| && objs[a].list[j] == Ptr(a)
    requires forall k :: 0 <= k < j ==> ReprStatus(objs, objs[a].list[k], {a}).Done?
    ensures PrintStatus(objs, Ptr(a)) == Diverged
  {
    ListReprWalks(objs, a);
    ElemsStopAt(objs, objs[a].list, 0, j, {a});
  }

  /** Printing a list walks its elements with the list itself on the path. */
  lemma ListReprWalks(objs: seq<Obj>, a: nat)
    requires a < |objs| && objs[a].ListObj?
    ensures PrintStatus(objs, Ptr(a)) == ElemsStatus(objs, objs[a].list, 0, {a})
  {
    assert TypeOf(objs, Ptr(a)) == Some(ListType);
    ReprOwners(ListType);
    assert PrintStatus(objs, Ptr(a)) == ReprStatus(objs, Ptr(a), {});
    assert {} + {a} == {a};
  }

  /** The walk from `i` ends with the outcome of element `j` when that one fails and those between get through. */
  lemma {:induction false} ElemsStopAt(objs: seq<Obj>, items: seq<Ref>, i: nat, j: nat, visiting: set<nat>)
    requires i <= j < |items| && !ReprStatus(objs, items[j], visiting).Done?
    requires forall k :: i <= k < j ==> ReprStatus(objs, items[k], visiting).Done?
    ensures ElemsStatus(objs, items, i, visiting) == ReprStatus(objs, items[j], visiting)
    decreases j - i
  {
    if i < j {
      ElemsStopAt(objs, items, i + 1, j, visiting);
    }
  }

  /**
   * Printing is refused only for modules, whose type was never filled in,
   * and then with an empty type name.
   */
  lemma PrintRefusesModules(objs: seq<Obj>, obj: Ref)
    ensures PrintStatus(objs, obj).Error? <==> Deref(objs, obj).Some? && Deref(objs, obj).value.ModuleObj?
    ensures PrintStatus(objs, obj).Error? ==> PrintStatus(objs, obj).msg == NoRepr("")
  {
    TypeOfModule(objs, obj);
    if TypeOf(objs, obj).Some? {
      ReprOwners(TypeOf(objs, obj).value);
    }
  }

  // ----- calls -----

  function NotCallable(owner: string): string
  {
    "'" + owner + "' object is not callable"
  }

  function NeedsReceiver(name: string, owner: string): string
  {
    "method '" + name + "' requires a '" + owner + "' object as receiver"
  }

  function NoArguments(name: string): string
  {
    name + "() takes no arguments"
  }

  /**
   * A list method called on `self` with evaluated arguments: the new
   * contents of the receiver, which keeps `lsize == len(list)`.
   */
  function ListCall(cb: Builtin, self: Ref, args: seq<Ref>, objs: seq<Obj>): (r: Outcome<Obj>)
    requires cb in {ListAppend, ListPrepend, ListInsert, ListTrunc, ListReverse}
    requires WellFormed(objs)
    ensures r.Done? ==> Deref(objs, self).Some? && Deref(objs, self).value.ListObj? && Lists.IsList(r.value)
    ensures r.Done? || r.Error? || r.Fault?
  {
    var r := if cb == ListAppend then Lists.AppendMethod(self, args, objs)
             else if cb == ListPrepend then Lists.PrependMethod(self, args, objs)
             else if cb == ListInsert then Lists.InsertMethod(self, args, objs)
             else if cb == ListTrunc then Lists.TruncMethod(self, objs)
             else Lists.ReverseMethod(self, objs);
    if Deref(objs, self).Some? && Deref(objs, self).value.ListObj? then
      Lists.MethodsKeepSize(self, args, objs);
      r
    else r
  }

  function Unrecognized(k: Kind): string
  {
    "unrecognized node type (" + IntText(k as int) + ")"
  }
}
