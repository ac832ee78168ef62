/**
 * The generic n-ary syntax tree built by the parser (interm/node.go).
 *
 * `Node` is the mutable object the parser grows in place with `Add` and
 * `GiveRootTo`; `Tree` is its value, used to state what the parser builds
 * and what `ListTree` prints.
 */
module Interm {
  import opened Common
  import opened Tokens

  /** Flag set on a PARAMETERS node whose last parameter is starred. */
  const FLAG_STARPARAM: int := 1

  /** `flags & FLAG_STARPARAM != 0` (for two's-complement words, the low bit is the Euclidean remainder). */
  predicate StarFlagged(flags: int)
  {
    flags % 2 == 1
  }

  /** `flags | FLAG_STARPARAM`: sets the low bit. */
  function WithStar(flags: int): int
  {
    if StarFlagged(flags) then flags else flags + 1
  }

  /** The value of a node: its fields and the values of its children, in order. */
  datatype Tree = Tree(Str: string, Line: string, NodeType: Kind, LineNum: int, Flags: int, Children: seq<Tree>)

  function Leaf(str: string, line: string, kind: Kind, lineNum: int): (t: Tree)
    ensures t.Children == [] && t.Flags == 0
    ensures t.Str == str && t.Line == line && t.NodeType == kind && t.LineNum == lineNum
  {
    Tree(str, line, kind, lineNum, 0, [])
  }

  /** `t` with `c` appended as its last child. */
  function AddChild(t: Tree, c: Tree): (r: Tree)
    ensures r.Children == t.Children + [c]
    ensures r.Str == t.Str && r.Line == t.Line && r.NodeType == t.NodeType
    ensures r.LineNum == t.LineNum && r.Flags == t.Flags
  {
    t.(Children := t.Children + [c])
  }

  // ----- printing -----

  /** The printed forms of a sequence of trees. */
  function TreeTexts(ts: seq<Tree>): (r: seq<string>)
    ensures |r| == |ts|
    decreases ts, 0
  {
    if |ts| == 0 then [] else [TreeText(ts[0])] + TreeTexts(ts[1..])
  }

  /**
   * The Lisp-like rendering: a childless node prints its text, any other node
   * prints "(" text " " children separated by single spaces ")".
   */
  function TreeText(t: Tree): string
    decreases t, 1
  {
    if |t.Children| == 0 then t.Str
    else "(" + t.Str + " " + Join(TreeTexts(t.Children), " ") + ")"
  }

  /** No node text of the tree contains `c`. */
  predicate NoChar(t: Tree, c: char)
  {
    Count(t.Str, c) == 0 && forall i :: 0 <= i < |t.Children| ==> NoChar(t.Children[i], c)
  }

  /**
   * When no node text contains a parenthesis, the rendering has as many
   * opening as closing parentheses: every internal node contributes one pair.
   */
  lemma {:induction false} TreeTextBalanced(t: Tree)
    requires NoChar(t, '(') && NoChar(t, ')')
    ensures Count(TreeText(t), '(') == Count(TreeText(t), ')')
    decreases t, 1
  {
    if |t.Children| > 0 {
      var inner := Join(TreeTexts(t.Children), " ");
      TextsBalanced(t.Children);
      var a := "(" + t.Str;
      var b := a + " ";
      var c := b + inner;
      assert TreeText(t) == c + ")";
      CountAppend(c, ")", '(');
      CountAppend(c, ")", ')');
      CountAppend(b, inner, '(');
      CountAppend(b, inner, ')');
      CountAppend(a, " ", '(');
      CountAppend(a, " ", ')');
      CountAppend("(", t.Str, '(');
      CountAppend("(", t.Str, ')');
    }
  }

  lemma {:induction false} TextsBalanced(ts: seq<Tree>)
    requires forall i :: 0 <= i < |ts| ==> NoChar(ts[i], '(') && NoChar(ts[i], ')')
    ensures Count(Join(TreeTexts(ts), " "), '(') == Count(Join(TreeTexts(ts), " "), ')')
    decreases ts, 0
  {
    if |ts| == 1 {
      TreeTextBalanced(ts[0]);
    } else if |ts| > 1 {
      TreeTextBalanced(ts[0]);
      TextsBalanced(ts[1..]);
      var first := TreeText(ts[0]);
      var rest := Join(TreeTexts(ts[1..]), " ");
      assert TreeTexts(ts)[1..] == TreeTexts(ts[1..]);
      assert Join(TreeTexts(ts), " ") == first + " " + rest;
      CountAppend(first + " ", rest, '(');
      CountAppend(first + " ", rest, ')');
      CountAppend(first, " ", '(');
      CountAppend(first, " ", ')');
    }
  }

  // ----- the mutable node -----

  class Node {
    var Str: string
    var Line: string
    var NodeType: Kind
    var LineNum: int
    var Nchildren: int
    var Flags: int
    var Children: seq<Node>

    /** This node and every node below it. */
    ghost var Repr: set<Node>
    /** The value of the subtree rooted here. */
    ghost var Value: Tree

    ghost predicate Valid()
      reads this, Repr
      decreases Repr
    {
      this in Repr && Nchildren == |Children| &&
      Value.Str == Str && Value.Line == Line && Value.NodeType == NodeType &&
      Value.LineNum == LineNum && Value.Flags == Flags && |Value.Children| == |Children| &&
      forall i :: 0 <= i < |Children| ==>
        Children[i] in Repr && Children[i].Repr <= Repr && this !in Children[i].Repr &&
        Children[i].Valid() && Value.Children[i] == Children[i].Value
    }

    /** A childless node with no flags (interm/node.go `New`). */
    constructor (str: string, line: string, nodeType: Kind, lineNum: int)
      ensures Valid() && fresh(Repr)
      ensures Value == Leaf(str, line, nodeType, lineNum)
      ensures Children == [] && Nchildren == 0 && Flags == 0
    {
      Str, Line, NodeType, LineNum := str, line, nodeType, lineNum;
      Nchildren, Flags, Children := 0, 0, [];
      Repr := {this};
      Value := Leaf(str, line, nodeType, lineNum);
    }

    /** Appends `node` as the last child. */
    method Add(node: Node)
      requires Valid() && node.Valid() && this !in node.Repr
      modifies this
      ensures Valid() && Repr == old(Repr) + node.Repr
      ensures Children == old(Children) + [node] && Nchildren == old(Nchildren) + 1
      ensures Value == AddChild(old(Value), node.Value)
      ensures Str == old(Str) && Line == old(Line) && NodeType == old(NodeType)
      ensures LineNum == old(LineNum) && Flags == old(Flags)
    {
      Children := Children + [node];
      Nchildren := Nchildren + 1;
      Repr := Repr + node.Repr;
      Value := AddChild(Value, node.Value);
    }

    /** Makes this node the last child of `node` and returns `node`. */
    method GiveRootTo(node: Node) returns (r: Node)
      requires Valid() && node.Valid() && node !in Repr
      modifies node
      ensures r == node && r.Valid() && r.Repr == old(node.Repr) + Repr
      ensures r.Children == old(node.Children) + [this]
      ensures r.Value == AddChild(old(node.Value), Value)
    {
      node.Add(this);
      return node;
    }

    /** Sets the flags word (the parser marks a starred parameter list). */
    method SetFlags(flags: int)
      requires Valid()
      modifies this
      ensures Valid() && Repr == old(Repr) && Children == old(Children)
      ensures Value == old(Value).(Flags := flags)
    {
      Flags := flags;
      Value := Value.(Flags := flags);
    }

    lemma ChildValid(i: int)
      requires Valid() && 0 <= i < |Children|
      ensures Children[i].Valid() && Children[i].Repr < Repr
      ensures Value.Children[i] == Children[i].Value
    {
    }

    /** The Lisp-like rendering of the subtree, built in a buffer. */
    method ListTree() returns (s: string)
      requires Valid()
      ensures s == TreeText(Value)
      decreases Repr
    {
      if Nchildren == 0 {
        return Str;
      }
      ghost var m := Value;
      ghost var head := "(" + Str + " ";
      var buf := "(" + Str + " ";
      var i := 0;
      while i < Nchildren
        invariant 0 <= i <= Nchildren
        invariant buf == head + JoinedTexts(m.Children, i)
      {
        ChildValid(i);
        var child := Children[i].ListTree();
        BufferStep(m.Children, i, head, buf, child);
        if i > 0 {
          buf := buf + " ";
        }
        buf := buf + child;
        i := i + 1;
      }
      JoinedTextsAll(m.Children);
      buf := buf + ")";
      return buf;
    }
  }

  /** The renderings of the first `i` trees, separated by single spaces. */
  function JoinedTexts(ts: seq<Tree>, i: nat): string
    requires i <= |ts|
  {
    if i == 0 then ""
    else if i == 1 then TreeText(ts[0])
    else JoinedTexts(ts, i - 1) + " " + TreeText(ts[i - 1])
  }

  lemma BufferStep(ts: seq<Tree>, i: nat, head: string, buf: string, child: string)
    requires i < |ts| && buf == head + JoinedTexts(ts, i) && child == TreeText(ts[i])
    ensures (if i > 0 then buf + " " else buf) + child == head + JoinedTexts(ts, i + 1)
  {
  }

  lemma {:induction false} JoinedTextsPrefix(ts: seq<Tree>, i: nat)
    requires i <= |ts|
    ensures JoinedTexts(ts, i) == Join(TreeTexts(ts[..i]), " ")
  {
    if i > 0 {
      JoinedTextsPrefix(ts, i - 1);
      assert ts[..i] == ts[..i - 1] + [ts[i - 1]];
      TreeTextsSnoc(ts[..i - 1], ts[i - 1]);
      JoinSnoc(TreeTexts(ts[..i - 1]), TreeText(ts[i - 1]), " ");
    }
  }

  lemma JoinedTextsAll(ts: seq<Tree>)
    ensures JoinedTexts(ts, |ts|) == Join(TreeTexts(ts), " ")
  {
    JoinedTextsPrefix(ts, |ts|);
    assert ts[..|ts|] == ts;
  }

  lemma {:induction false} TreeTextsSnoc(ts: seq<Tree>, t: Tree)
    ensures TreeTexts(ts + [t]) == TreeTexts(ts) + [TreeText(t)]
  {
    if |ts| > 0 {
      assert (ts + [t])[1..] == ts[1..] + [t];
      TreeTextsSnoc(ts[1..], t);
    }
  }

  lemma {:induction false} JoinSnoc(parts: seq<string>, p: string, sep: string)
    ensures Join(parts + [p], sep) == (if |parts| == 0 then p else Join(parts, sep) + sep + p)
  {
    if |parts| > 1 {
      assert (parts + [p])[1..] == parts[1..] + [p];
      JoinSnoc(parts[1..], p, sep);
    } else if |parts| == 1 {
      assert (parts + [p])[1..] == [p];
    }
  }
}
