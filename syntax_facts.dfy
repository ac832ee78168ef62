/**
 * Shape properties of the trees the grammar of syntax.dfy builds: left
 * associativity of every binary level, the COMP_OP wrapping of comparisons,
 * the child layout of `if`, the star-parameter rule, and the assignment
 * targets and compound assignment nodes.
 */
module SyntaxFacts {
  import opened Common
  import opened Tokens
  import opened Interm
  import opened Syntax

  // ----- binary levels -----

  /** The operator node kinds of binary level `lv`. */
  function LevelKinds(lv: nat): set<Kind>
  {
    if lv == 10 then {RANGE}
    else if lv == 9 then {LOGICAL_OR}
    else if lv == 8 then {LOGICAL_AND}
    else if lv == 7 then {NE, EQ}
    else if lv == 6 then {LT, LE, GT, GE}
    else if lv == 5 then {BITWISE_OR}
    else if lv == 4 then {XOR}
    else if lv == 3 then {BITWISE_AND}
    else if lv == 2 then {LEFTSHIFT}
    else if lv == 1 then {ADD, SUB}
    else if lv == 0 then {MUL, DIV, MODULO}
    else {}
  }

  /** Every operator a level recognises builds a node of one of that level's kinds. */
  lemma LevelOpKinds(lv: nat, t: Kind)
    requires LevelOp(lv, t).Some?
    ensures LevelOp(lv, t).value in LevelKinds(lv)
  {
  }

  /** `<<` and `>>` both build a LEFTSHIFT node: the direction of a shift is lost. */
  lemma ShiftDirectionLost()
    ensures LevelOp(2, LEFTSHIFT) == LevelOp(2, RIGHTSHIFT) == Some(LEFTSHIFT)
  {
  }

  /**
   * `t` is `first` with operators of level `lv` applied on the left: either
   * `t` is `first` itself, or it is an operator node of the level (inside a
   * COMP_OP node at the comparison levels) whose first child is again such a
   * tree. So the first operand sits at the bottom of the left spine.
   */
  predicate LeftFold(lv: nat, t: Tree, first: Tree)
    decreases t, 1
  {
    t == first ||
    if Wrapped(lv) then t.NodeType == COMP_OP && |t.Children| == 1 && OpNode(lv, t.Children[0], first)
    else OpNode(lv, t, first)
  }

  /** An operator node of level `lv` with two children, the first a left fold of `first`. */
  predicate OpNode(lv: nat, t: Tree, first: Tree)
    decreases t, 0
  {
    t.NodeType in LevelKinds(lv) && |t.Children| == 2 && LeftFold(lv, t.Children[0], first)
  }

  /** A left fold of a left fold of `first` is a left fold of `first`. */
  lemma {:induction false} LeftFoldTrans(lv: nat, t: Tree, m: Tree, first: Tree)
    requires LeftFold(lv, t, m) && LeftFold(lv, m, first)
    ensures LeftFold(lv, t, first)
    decreases t
  {
    if t != m {
      var op := if Wrapped(lv) then t.Children[0] else t;
      LeftFoldTrans(lv, op.Children[0], m, first);
    }
  }

  /** One turn of a level's loop puts the tree so far under a new operator node. */
  lemma OneStep(s: Input, k: nat, lv: nat, left: Tree, kind: Kind, y: Tree, k2: nat)
    requires Ready(s, k) && Ready(s, k2) && kind in LevelKinds(lv)
    ensures var node := AddChild(AddChild(NodeAt(s, k, Cur(s, k).Str, kind), left), y);
      LeftFold(lv, if Wrapped(lv) then AddChild(NodeAt(s, k2, "COMP_OP", COMP_OP), node) else node, left)
  {
    var node := AddChild(AddChild(NodeAt(s, k, Cur(s, k).Str, kind), left), y);
    assert node.Children[0] == left;
    assert LeftFold(lv, left, left);
    if Wrapped(lv) {
      var w := AddChild(NodeAt(s, k2, "COMP_OP", COMP_OP), node);
      assert w.Children[0] == node;
    }
  }

  /**
   * Left associativity: the loop of a level returns a left fold of the tree it
   * started from, each turn making the tree so far the first child of the new
   * operator node.
   */
  lemma {:induction false} BinaryLoopLeftFold(s: Input, k: nat, lv: nat, left: Tree)
    requires Ready(s, k) && lv <= RANGE_LEVEL
    ensures var r := BinaryLoop(s, k, lv, left);
      r.Ok? ==> LeftFold(lv, r.value.0, left)
    decreases Remaining(s, k)
  {
    var r := BinaryLoop(s, k, lv, left);
    var t := Cur(s, k);
    var op := LevelOp(lv, t.T);
    if r.Ok? && op.Some? {
      var k1 := Advance(s, k).value;
      var y := Operand(s, k1, lv).value;
      var node := AddChild(AddChild(NodeAt(s, k, t.Str, op.value), left), y.0);
      var next := if Wrapped(lv) then AddChild(NodeAt(s, y.1, "COMP_OP", COMP_OP), node) else node;
      assert r == BinaryLoop(s, y.1, lv, next);
      LevelOpKinds(lv, t.T);
      OneStep(s, k, lv, left, op.value, y.0, y.1);
      BinaryLoopLeftFold(s, y.1, lv, next);
      LeftFoldTrans(lv, r.value.0, next, left);
    }
  }

  /** A whole level is a left fold of its first operand. */
  lemma BinaryLeftAssoc(s: Input, k: nat, lv: nat)
    requires Ready(s, k) && lv <= RANGE_LEVEL
    ensures var r := Binary(s, k, lv);
      r.Ok? ==> Operand(s, k, lv).Ok? && LeftFold(lv, r.value.0, Operand(s, k, lv).value.0)
  {
    var x := Operand(s, k, lv);
    if x.Ok? {
      BinaryLoopLeftFold(s, x.value.1, lv, x.value.0);
    }
  }

  /** At the comparison levels every operator node a turn builds is the only child of a COMP_OP node. */
  lemma ComparisonsWrapped(s: Input, k: nat, lv: nat, left: Tree)
    requires Ready(s, k) && Wrapped(lv)
    ensures var r := BinaryLoop(s, k, lv, left);
      r.Ok? && r.value.0 != left ==>
        (r.value.0.NodeType == COMP_OP && |r.value.0.Children| == 1
         && r.value.0.Children[0].NodeType in LevelKinds(lv))
  {
    BinaryLoopLeftFold(s, k, lv, left);
  }

  // ----- if statements -----

  /**
   * The children an `if` node has after its condition and block: one
   * (ELIF marker, condition, BLOCK) triple per elif, then at most one BLOCK.
   */
  predicate IfTail(cs: seq<Tree>)
    decreases |cs|
  {
    |cs| == 0
    || (|cs| == 1 && cs[0].NodeType == BLOCK)
    || (|cs| >= 3 && cs[0].NodeType == ELIF && cs[2].NodeType == BLOCK && IfTail(cs[3..]))
  }

  /** `t` is `root` with an if tail appended to its children. */
  predicate TailAdded(root: Tree, t: Tree)
  {
    t.NodeType == root.NodeType && |root.Children| <= |t.Children|
    && t.Children[..|root.Children|] == root.Children
    && IfTail(t.Children[|root.Children|..])
  }

  /** Appending an (ELIF, condition, BLOCK) triple in front of an if tail gives an if tail. */
  lemma TailAddedElif(root: Tree, e: Tree, c: Tree, b: Tree, t: Tree)
    requires e.NodeType == ELIF && b.NodeType == BLOCK
    requires TailAdded(AddChild(AddChild(AddChild(root, e), c), b), t)
    ensures TailAdded(root, t)
  {
    var n := |root.Children|;
    var cs := t.Children;
    assert cs[..n + 3] == root.Children + [e, c, b];
    assert cs[..n] == (cs[..n + 3])[..n];
    var tail := cs[n..];
    assert tail[0] == e && tail[2] == b;
    assert tail[3..] == cs[n + 3..];
  }

  /** The elif loop appends an if tail to the children it was given. */
  lemma {:induction false} IfRestLayout(s: Input, k: nat, root: Tree)
    requires Ready(s, k)
    ensures IfRest(s, k, root).Ok? ==> TailAdded(root, IfRest(s, k, root).value.0)
    decreases Remaining(s, k)
  {
    var r := IfRest(s, k, root);
    var t := Cur(s, k);
    if r.Ok? {
      if t.T == ELIF {
        var elif := NodeAt(s, k, t.Str, t.T);
        var k1 := Advance(s, k).value;
        var c := Expr(s, k1).value;
        var k2 := MatchToken(s, c.1, DO, "expected 'do' to open block").value;
        var b := StmtBlock(s, k2).value;
        var root' := AddChild(AddChild(AddChild(root, elif), c.0), b.0);
        assert r == IfRest(s, b.1, root');
        IfRestLayout(s, b.1, root');
        TailAddedElif(root, elif, c.0, b.0, r.value.0);
      } else if t.T == ELSE {
        var k1 := Advance(s, k).value;
        var b := StmtBlock(s, k1).value;
        assert r.value.0.Children == root.Children + [b.0];
        assert r.value.0.Children[|root.Children|..] == [b.0];
      } else {
        assert r.value.0 == root;
      }
    }
  }

  /** An `if` node's children: condition, BLOCK, then an if tail. */
  lemma IfLayout(s: Input, k: nat)
    requires Ready(s, k) && Cur(s, k).T == IF
    ensures var r := IfStmt(s, k);
      r.Ok? ==>
        (r.value.0.NodeType == IF && |r.value.0.Children| >= 2
         && r.value.0.Children[1].NodeType == BLOCK && IfTail(r.value.0.Children[2..]))
  {
    var r := IfStmt(s, k);
    if r.Ok? {
      var root := NodeAt(s, k, Cur(s, k).Str, Cur(s, k).T);
      var k1 := Advance(s, k).value;
      var c := Expr(s, k1).value;
      var k2 := MatchToken(s, c.1, DO, "expected 'do' to open block").value;
      var b := StmtBlock(s, k2).value;
      var root' := AddChild(AddChild(root, c.0), b.0);
      assert r == IfRest(s, b.1, root');
      IfRestLayout(s, b.1, root');
      IfHead(root, c.0, b.0, r.value.0);
    }
  }

  lemma IfHead(root: Tree, c: Tree, b: Tree, t: Tree)
    requires root.Children == [] && b.NodeType == BLOCK
    requires TailAdded(AddChild(AddChild(root, c), b), t)
    ensures t.NodeType == root.NodeType && |t.Children| >= 2
    ensures t.Children[1].NodeType == BLOCK && IfTail(t.Children[2..])
  {
    assert t.Children[..2] == [c, b];
    assert t.Children[1] == b;
  }

  // ----- parameters -----

  /** `t` is `params` (flags aside) with one or more NAME nodes appended. */
  predicate NamesAdded(params: Tree, t: Tree)
  {
    t.NodeType == params.NodeType
    && |params.Children| < |t.Children|
    && t.Children[..|params.Children|] == params.Children
    && forall i :: |params.Children| <= i < |t.Children| ==> t.Children[i].NodeType == NAME
  }

  lemma NamesAddedStep(params: Tree, flagged: Tree, name: Tree, t: Tree)
    requires flagged.NodeType == params.NodeType && flagged.Children == params.Children
    requires name.NodeType == NAME
    requires NamesAdded(AddChild(flagged, name), t)
    ensures NamesAdded(params, t)
  {
    var n := |params.Children|;
    assert t.Children[..n + 1] == params.Children + [name];
    assert t.Children[..n] == (t.Children[..n + 1])[..n];
  }

  /**
   * The parameter loop adds only NAME nodes, keeps what it was given, stops
   * at a token other than ',', and fails when continued past a starred
   * parameter ("star parameter must be the last param").
   */
  lemma {:induction false} DefParamsShape(s: Input, k: nat, params: Tree)
    requires Ready(s, k) && (Cur(s, k).T == LPAREN || Cur(s, k).T == COMMA)
    ensures var r := DefParams(s, k, params);
      (StarFlagged(params.Flags) ==> r.Failure?)
      && (r.Ok? ==> Cur(s, r.value.1).T != COMMA && NamesAdded(params, r.value.0))
    decreases Remaining(s, k)
  {
    var r := DefParams(s, k, params);
    if r.Ok? {
      var k1 := NextAndSkipNL(s, k).value;
      var star := Cur(s, k1).T == STAR;
      var flagged := if star then params.(Flags := WithStar(params.Flags)) else params;
      var k2 := if star then Advance(s, k1).value else k1;
      var name := NodeAt(s, k2, Cur(s, k2).Str, NAME);
      var named := AddChild(flagged, name);
      var k3 := NextAndSkipNL(s, k2).value;
      if Cur(s, k3).T == COMMA {
        assert r == DefParams(s, k3, named);
        DefParamsShape(s, k3, named);
        NamesAddedStep(params, flagged, name, r.value.0);
      } else {
        assert r.value.0 == named;
      }
    }
  }

  /** A starred parameter sets the star flag of the PARAMETERS node. */
  lemma StarSetsFlag(s: Input, k: nat, params: Tree)
    requires Ready(s, k) && (Cur(s, k).T == LPAREN || Cur(s, k).T == COMMA)
    requires !StarFlagged(params.Flags) && params.Flags >= 0
    requires NextAndSkipNL(s, k).Ok? && Cur(s, NextAndSkipNL(s, k).value).T == STAR
    ensures var r := DefParams(s, k, params);
      r.Ok? ==> StarFlagged(r.value.0.Flags) && Cur(s, r.value.1).T != COMMA
  {
    var r := DefParams(s, k, params);
    if r.Ok? {
      var k1 := NextAndSkipNL(s, k).value;
      var flagged := params.(Flags := WithStar(params.Flags));
      var k2 := Advance(s, k1).value;
      var named := AddChild(flagged, NodeAt(s, k2, Cur(s, k2).Str, NAME));
      assert StarFlagged(named.Flags);
      var k3 := NextAndSkipNL(s, k2).value;
      if Cur(s, k3).T == COMMA {
        assert r == DefParams(s, k3, named);
        DefParamsShape(s, k3, named);
        assert false;
      }
      assert r == Ok((named, k3));
    }
  }

  // ----- assignment -----

  /** Different compound assignment tokens give different ASS_* node kinds. */
  lemma AugKindInjective(a: Kind, b: Kind)
    requires IsAugAssign(a) && IsAugAssign(b) && a != b
    ensures AugKind(a) != AugKind(b)
  {
  }

  /** `augAssign` builds AUGASSIGN over one ASS_* node whose children are the target and the value. */
  lemma AugAssignShape(s: Input, k: nat, target: Tree)
    requires Ready(s, k) && IsAugAssign(Cur(s, k).T)
    ensures var r := AugAssign(s, k, target);
      r.Ok? ==>
        (r.value.0.NodeType == AUGASSIGN && |r.value.0.Children| == 1
         && r.value.0.Children[0].NodeType == AugKind(Cur(s, k).T)
         && |r.value.0.Children[0].Children| == 2 && r.value.0.Children[0].Children[0] == target)
  {
  }

  /**
   * `new C(...)` builds a MAKE_INSTANCE node, which checkLHS reports as an
   * operator: its constructor case is never reached.
   */
  lemma ConstructorTargetIsOperator(s: Input, k: nat)
    requires Ready(s, k) && Cur(s, k).T == NEW
    ensures NewStmt(s, k).Ok? ==> NewStmt(s, k).value.0.NodeType == MAKE_INSTANCE
    ensures LHSError(MAKE_INSTANCE) == Some("cant assign to operator")
  {
  }
}
