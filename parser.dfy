/**
 * The recursive-descent parser of parser/parser.go as an object: it holds
 * the scanner and two tokens (current and next) and advances them in place.
 * The trees it builds are the values `Tree` of interm/node.go's nodes:
 * `createNode` is a leaf, `Add` and `GiveRootTo` are `AddChild` (node.dfy
 * proves the in-place `Node` operations update `Node.Value` exactly so).
 *
 * Every parse method is proved to build exactly the tree (and to stop at
 * exactly the token) that the grammar function of the same name in
 * syntax.dfy gives, or to raise the same error. The ghost field `inp` is the
 * whole stream the scanner will deliver and `k` the index of the current
 * token in it.
 */
module Parsing {
  import opened Common
  import opened Tokens
  import opened Interm
  import opened Syntax
  import Scanning

  /** A parse method's outcome as a grammar result: the tree built and the index reached. */
  ghost function Built(r: Result<Tree>, k: nat): Parse
  {
    if r.Ok? then Ok((r.value, k)) else Failure(r.msg)
  }

  /** The outcome of a method that only moves over tokens. */
  ghost function Reached(r: Result<()>, k: nat): Result<nat>
  {
    if r.Ok? then Ok(k) else Failure(r.msg)
  }

  /** One pull from the scanner moves the parser one token along the stream, or fails as the stream does. */
  lemma PullStep(inp: Input, k: nat, src: string, path: string, st: Scanning.ScanState,
                 t: Result<Token>, st': Scanning.ScanState)
    requires Ready(inp, k) && 0 <= st.pos && Lex(src, path, st) == Tail(inp.toks, k + 2)
    requires Scanning.Agrees(t, Scanning.NextTokenSpec(src, path, st), st')
    ensures t.Failure? ==> Advance(inp, k) == Failure(t.msg)
    ensures t.Ok? ==> Advance(inp, k) == Ok(k + 1) && Ready(inp, k + 1) && t.value == ValueAt(inp.toks, k + 2).value
    ensures t.Ok? ==> Lex(src, path, st') == Tail(inp.toks, k + 3)
  {
    LexStep(src, path, st, inp.toks, k + 2);
  }

  class Parser {
    const scanner: Scanning.Scanner
    const pathname: string
    var current: Token
    var next: Token

    /** The tokens the scanner delivers, from the first on. */
    ghost const inp: Input
    /** The index of `current` in `inp`. */
    ghost var k: nat

    /**
     * `current` and `next` are tokens `k` and `k + 1` of the stream, and what
     * the scanner delivers from here on is the stream from `k + 2`.
     */
    ghost predicate Valid()
      reads this, scanner
    {
      scanner.Valid() && scanner.pathname == pathname && inp.path == pathname
      && Ready(inp, k) && current == Cur(inp, k) && next == ValueAt(inp.toks, k + 1).value
      && Lex(scanner.sourceProgram, pathname, scanner.State()) == Tail(inp.toks, k + 2)
    }

    /** A parser over `sc`, whose first two tokens have been pulled. */
    constructor (sc: Scanning.Scanner, cur: Token, nxt: Token, ghost toks: seq<Result<Token>>)
      requires sc.Valid() && Stream(toks)
      requires ValueAt(toks, 0) == Ok(cur) && ValueAt(toks, 1) == Ok(nxt)
      requires Lex(sc.sourceProgram, sc.pathname, sc.State()) == Tail(toks, 2)
      ensures Valid() && scanner == sc && inp == Input(toks, sc.pathname) && k == 0
    {
      scanner, pathname := sc, sc.pathname;
      current, next := cur, nxt;
      inp, k := Input(toks, sc.pathname), 0;
    }

    /** `createNode`: a childless node on the current token's line. */
    function CreateNode(str: string, nodeType: Kind): Tree
      reads this
    {
      Leaf(str, current.Line, nodeType, current.LineNum)
    }

    /** The message `postError` raises at the current token. */
    function PostError(message: string): string
      reads this
    {
      ErrorMessage(pathname, current, message)
    }

    // ----- moving over tokens -----

    /** `nextToken`: `next` becomes current and the scanner yields the new next token. */
    method NextToken() returns (r: Result<()>)
      requires Valid()
      modifies this, scanner
      ensures Reached(r, k) == Advance(inp, old(k))
      ensures r.Ok? ==> Valid()
    {
      ghost var st := scanner.State();
      ghost var k1 := k + 1;
      current := next;
      var t := scanner.NextToken();
      PullStep(inp, k1 - 1, scanner.sourceProgram, pathname, st, t, scanner.State());
      if t.Failure? {
        return Failure(t.msg);
      }
      next := t.value;
      k := k1;
      return Ok(());
    }

    /** `matchToken`: raises `message` unless the current token has kind `kind`, then advances. */
    method MatchToken(kind: Kind, message: string) returns (r: Result<()>)
      requires Valid()
      modifies this, scanner
      ensures Reached(r, k) == Syntax.MatchToken(inp, old(k), kind, message)
      ensures r.Ok? ==> Valid()
    {
      if current.T != kind {
        return Failure(PostError(message));
      }
      r := NextToken();
    }

    /** `skipNL`: advances while the current token is a newline. */
    method SkipNL() returns (r: Result<()>)
      requires Valid()
      modifies this, scanner
      ensures Reached(r, k) == Syntax.SkipNL(inp, old(k))
      ensures r.Ok? ==> Valid()
    {
      while current.T == NEWLINE
        invariant Valid()
        invariant Syntax.SkipNL(inp, k) == Syntax.SkipNL(inp, old(k))
        decreases Remaining(inp, k)
      {
        r := NextToken();
        if r.Failure? {
          return;
        }
      }
      return Ok(());
    }

    method NextAndSkipNL() returns (r: Result<()>)
      requires Valid()
      modifies this, scanner
      ensures Reached(r, k) == Syntax.NextAndSkipNL(inp, old(k))
      ensures r.Ok? ==> Valid()
    {
      r := NextToken();
      if r.Failure? {
        return;
      }
      r := SkipNL();
    }

    method MatchNewline(message: string) returns (r: Result<()>)
      requires Valid()
      modifies this, scanner
      ensures Reached(r, k) == Syntax.MatchNewline(inp, old(k), message)
      ensures r.Ok? ==> Valid()
    {
      r := MatchToken(NEWLINE, message);
      if r.Failure? {
        return;
      }
      r := SkipNL();
    }

    /** `stmtTrailer`: ';' or newlines end a statement, or else the end of input must follow. */
    method StmtTrailer() returns (r: Result<()>)
      requires Valid()
      modifies this, scanner
      ensures Reached(r, k) == Syntax.StmtTrailer(inp, old(k))
      ensures r.Ok? ==> Valid()
    {
      if current.T == SEMICOLON || current.T == NEWLINE {
        r := NextAndSkipNL();
      } else {
        r := MatchToken(EOF, "expected end-of-file");
      }
    }

    // ----- programs and statements -----

    /** `Program`: adds statements to `root` until the end of input. */
    method Program(file: Tree) returns (r: Result<Tree>)
      requires Valid()
      modifies this, scanner
      ensures Built(r, k) == Syntax.Program(inp, old(k), file)
      ensures r.Ok? ==> Valid()
    {
      ghost var spec := Syntax.Program(inp, k, file);
      var root := file;
      var x := SkipNL();
      if x.Failure? {
        return Failure(x.msg);
      }
      while current.T != EOF
        invariant Valid()
        invariant ProgramLoop(inp, k, root) == spec
        decreases Remaining(inp, k)
      {
        var st;
        if current.T == CLASS {
          st := ClassStmt();
        } else if current.T == DEF {
          st := DefStmt();
        } else {
          st := Stmt();
        }
        if st.Failure? {
          return Failure(st.msg);
        }
        root := AddChild(root, st.value);
        x := StmtTrailer();
        if x.Failure? {
          return Failure(x.msg);
        }
      }
      return Ok(root);
    }

    method Stmt() returns (r: Result<Tree>)
      requires Valid()
      modifies this, scanner
      ensures Built(r, k) == Syntax.Stmt(inp, old(k))
      ensures r.Ok? ==> Valid()
      decreases Remaining(inp, k), 70, 0
    {
      var t := current;
      if t.T == WHILE {
        r := ControlStmt();
      } else if t.T == FOR {
        r := ForStmt();
      } else if t.T == CONTINUE || t.T == BREAK {
        var node := CreateNode(t.Str, t.T);
        var x := NextToken();
        if x.Failure? {
          return Failure(x.msg);
        }
        r := Ok(node);
      } else if t.T == IF {
        r := IfStmt();
      } else if t.T == RETURN {
        r := ReturnStmt();
      } else if t.T == IMPORT {
        r := ImportStmt();
      } else if t.T == PRINT {
        var node := CreateNode(t.Str, t.T);
        var x := NextToken();
        if x.Failure? {
          return Failure(x.msg);
        }
        var e := Expr();
        if e.Failure? {
          return Failure(e.msg);
        }
        node := AddChild(node, e.value);
        r := Ok(node);
      } else {
        r := ExprStmt();
      }
    }

    /** The import case of `stmt`: a PATH per comma-separated path. */
    method ImportStmt() returns (r: Result<Tree>)
      requires Valid() && current.T == IMPORT
      modifies this, scanner
      ensures Built(r, k) == ImportList(inp, old(k), NodeAt(inp, old(k), old(current).Str, old(current).T))
      ensures r.Ok? ==> Valid()
    {
      var node := CreateNode(current.Str, current.T);
      ghost var spec := ImportList(inp, k, node);
      while true
        invariant Valid()
        invariant current.T == IMPORT || current.T == COMMA
        invariant ImportList(inp, k, node) == spec
        decreases Remaining(inp, k)
      {
        var p := ImportPath();
        if p.Failure? {
          return Failure(p.msg);
        }
        node := AddChild(node, p.value);
        if current.T != COMMA {
          return Ok(node);
        }
      }
    }

    /** `importPath`: a PATH node with one NAME per dotted component. */
    method ImportPath() returns (r: Result<Tree>)
      requires Valid() && (current.T == IMPORT || current.T == COMMA)
      modifies this, scanner
      ensures Built(r, k) == Syntax.ImportPath(inp, old(k))
      ensures r.Ok? ==> Valid()
    {
      var root := CreateNode("PATH", PATH);
      var x := NextToken();
      if x.Failure? {
        return Failure(x.msg);
      }
      ghost var spec := PathNames(inp, k, root);
      while true
        invariant Valid()
        invariant PathNames(inp, k, root) == spec
        decreases Remaining(inp, k)
      {
        if current.T != NAME {
          return Failure(PostError("expected name"));
        }
        var name := CreateNode(current.Str, current.T);
        root := AddChild(root, name);
        x := NextToken();
        if x.Failure? {
          return Failure(x.msg);
        }
        if current.T != DOT {
          return Ok(root);
        }
        x := NextToken();
        if x.Failure? {
          return Failure(x.msg);
        }
      }
    }
    /** `classStmt`: MAKE_CLASS with children name, EXTENDS (holding the base, if any) and the class block. */
    method ClassStmt() returns (r: Result<Tree>)
      requires Valid() && current.T == CLASS
      modifies this, scanner
      ensures Built(r, k) == Syntax.ClassStmt(inp, old(k))
      ensures r.Ok? ==> Valid()
    {
      var root := CreateNode("MAKE_CLASS", MAKE_CLASS);
      var x := NextToken();
      if x.Failure? {
        return Failure(x.msg);
      }
      if current.T != NAME {
        return Failure(PostError("expected name after 'class'"));
      }
      var name := CreateNode(current.Str, current.T);
      var ext := CreateNode("EXTENDS", EXTENDS);
      x := NextToken();
      if x.Failure? {
        return Failure(x.msg);
      }
      if current.T == COLON {
        var b := BaseClass(ext);
        if b.Failure? {
          return Failure(b.msg);
        }
        ext := b.value;
      }
      var blk := ClassBlock();
      if blk.Failure? {
        return Failure(blk.msg);
      }
      root := AddChild(root, name);
      root := AddChild(root, ext);
      root := AddChild(root, blk.value);
      return Ok(root);
    }

    /** `baseClass`: the name after ':' becomes the child of `node`. */
    method BaseClass(node: Tree) returns (r: Result<Tree>)
      requires Valid() && current.T == COLON
      modifies this, scanner
      ensures Built(r, k) == Syntax.BaseClass(inp, old(k), node)
      ensures r.Ok? ==> Valid()
    {
      var x := NextToken();
      if x.Failure? {
        return Failure(x.msg);
      }
      if current.T != NAME {
        return Failure(PostError("expected name after ':'"));
      }
      var name := CreateNode(current.Str, current.T);
      x := NextToken();
      if x.Failure? {
        return Failure(x.msg);
      }
      return Ok(AddChild(node, name));
    }

    /** `classBlock`: a newline, then definitions and statements until 'end'. */
    method ClassBlock() returns (r: Result<Tree>)
      requires Valid()
      modifies this, scanner
      ensures Built(r, k) == Syntax.ClassBlock(inp, old(k))
      ensures r.Ok? ==> Valid()
    {
      var x := MatchNewline("expected newline to open class");
      if x.Failure? {
        return Failure(x.msg);
      }
      var root := CreateNode("CLASSBLOCK", CLASSBLOCK);
      ghost var spec := ClassBody(inp, k, root);
      while current.T != END && current.T != EOF
        invariant Valid()
        invariant ClassBody(inp, k, root) == spec
        decreases Remaining(inp, k)
      {
        var st;
        if current.T == DEF {
          st := DefStmt();
        } else {
          st := Stmt();
        }
        if st.Failure? {
          return Failure(st.msg);
        }
        root := AddChild(root, st.value);
        if current.T == SEMICOLON {
          x := NextAndSkipNL();
        } else {
          x := MatchNewline("expected newline");
        }
        if x.Failure? {
          return Failure(x.msg);
        }
      }
      x := MatchToken(END, "expected 'end' to close class");
      if x.Failure? {
        return Failure(x.msg);
      }
      return Ok(root);
    }

    /** `defStmt`: MAKE_FUNC with children name, PARAMETERS and the body block. */
    method DefStmt() returns (r: Result<Tree>)
      requires Valid() && current.T == DEF
      modifies this, scanner
      ensures Built(r, k) == Syntax.DefStmt(inp, old(k))
      ensures r.Ok? ==> Valid()
    {
      var root := CreateNode("MAKE_FUNC", MAKE_FUNC);
      var x := NextToken();
      if x.Failure? {
        return Failure(x.msg);
      }
      if current.T != NAME {
        return Failure(PostError("expected name after 'def'"));
      }
      var name := CreateNode(current.Str, current.T);
      x := NextToken();
      if x.Failure? {
        return Failure(x.msg);
      }
      if current.T != LPAREN {
        return Failure(PostError("expected '(' to open parameter list"));
      }
      var params := ParamList(CreateNode("PARAMETERS", PARAMETERS));
      if params.Failure? {
        return Failure(params.msg);
      }
      x := MatchNewline("expected newline");
      if x.Failure? {
        return Failure(x.msg);
      }
      var blk := StmtBlock();
      if blk.Failure? {
        return Failure(blk.msg);
      }
      x := MatchToken(END, "expected 'end' to close function");
      if x.Failure? {
        return Failure(x.msg);
      }
      root := AddChild(root, name);
      root := AddChild(root, params.value);
      root := AddChild(root, blk.value);
      return Ok(root);
    }

    /** The parenthesised parameter list of `defStmt`: `()` directly, or `defParams` and ')'. */
    method ParamList(params: Tree) returns (r: Result<Tree>)
      requires Valid() && current.T == LPAREN
      modifies this, scanner
      ensures Built(r, k) == Syntax.ParamList(inp, old(k), params)
      ensures r.Ok? ==> Valid()
    {
      var x;
      if next.T == RPAREN {
        x := NextToken();
        if x.Failure? {
          return Failure(x.msg);
        }
        x := NextToken();
        r := Ok(params);
      } else {
        r := DefParams(params);
        if r.Failure? {
          return;
        }
        x := MatchToken(RPAREN, "expected ')' to close parameter list");
      }
      if x.Failure? {
        return Failure(x.msg);
      }
    }

    /**
     * `defParams`: names separated by commas; a '*' before a name sets the
     * star flag, and a parameter after a starred one is an error.
     */
    method DefParams(params: Tree) returns (r: Result<Tree>)
      requires Valid() && (current.T == LPAREN || current.T == COMMA)
      modifies this, scanner
      ensures Built(r, k) == Syntax.DefParams(inp, old(k), params)
      ensures r.Ok? ==> Valid()
    {
      ghost var spec := Syntax.DefParams(inp, k, params);
      var root := params;
      while true
        invariant Valid()
        invariant current.T == LPAREN || current.T == COMMA
        invariant Syntax.DefParams(inp, k, root) == spec
        decreases Remaining(inp, k)
      {
        var x := NextAndSkipNL();
        if x.Failure? {
          return Failure(x.msg);
        }
        if StarFlagged(root.Flags) {
          return Failure(PostError("star parameter must be the last param"));
        }
        if current.T == STAR {
          root := root.(Flags := WithStar(root.Flags));
          x := NextToken();
          if x.Failure? {
            return Failure(x.msg);
          }
        }
        if current.T != NAME {
          return Failure(PostError("expected name as argument"));
        }
        var name := CreateNode(current.Str, current.T);
        root := AddChild(root, name);
        x := NextAndSkipNL();
        if x.Failure? {
          return Failure(x.msg);
        }
        if current.T != COMMA {
          return Ok(root);
        }
      }
    }

    /** `stmtBlock`: a BLOCK of statements, each ended by ';' or a newline, up to a block-ending token. */
    method StmtBlock() returns (r: Result<Tree>)
      requires Valid()
      modifies this, scanner
      ensures Built(r, k) == Syntax.StmtBlock(inp, old(k))
      ensures r.Ok? ==> Valid()
      decreases Remaining(inp, k), 80, 1
    {
      var root := CreateNode("BLOCK", BLOCK);
      var x := SkipNL();
      if x.Failure? {
        return Failure(x.msg);
      }
      ghost var spec := BlockBody(inp, k, root);
      while !BlockFollows(current.T)
        invariant Valid()
        invariant BlockBody(inp, k, root) == spec
        invariant Remaining(inp, k) <= Remaining(inp, old(k))
        decreases Remaining(inp, k)
      {
        var st := Stmt();
        if st.Failure? {
          return Failure(st.msg);
        }
        root := AddChild(root, st.value);
        if current.T == SEMICOLON {
          x := NextAndSkipNL();
        } else {
          x := MatchNewline("expected newline");
        }
        if x.Failure? {
          return Failure(x.msg);
        }
      }
      return Ok(root);
    }

    /** `controlStmt` (while): children condition and block. */
    method ControlStmt() returns (r: Result<Tree>)
      requires Valid() && current.T == WHILE
      modifies this, scanner
      ensures Built(r, k) == Syntax.ControlStmt(inp, old(k))
      ensures r.Ok? ==> Valid()
      decreases Remaining(inp, k), 65, 0
    {
      var root := CreateNode(current.Str, current.T);
      var x := NextToken();
      if x.Failure? {
        return Failure(x.msg);
      }
      var c := Expr();
      if c.Failure? {
        return Failure(c.msg);
      }
      root := AddChild(root, c.value);
      x := MatchToken(DO, "expected 'do' to open block");
      if x.Failure? {
        return Failure(x.msg);
      }
      var b := StmtBlock();
      if b.Failure? {
        return Failure(b.msg);
      }
      root := AddChild(root, b.value);
      x := MatchToken(END, "expected 'end' to close block");
      if x.Failure? {
        return Failure(x.msg);
      }
      return Ok(root);
    }

    /** `forStmt`: children ARGUMENTS (one or two names), the iterated expression and the block. */
    method ForStmt() returns (r: Result<Tree>)
      requires Valid() && current.T == FOR
      modifies this, scanner
      ensures Built(r, k) == Syntax.ForStmt(inp, old(k))
      ensures r.Ok? ==> Valid()
      decreases Remaining(inp, k), 65, 0
    {
      var root := CreateNode(current.Str, current.T);
      var x := NextToken();
      if x.Failure? {
        return Failure(x.msg);
      }
      var args := LoopVariables();
      if args.Failure? {
        return Failure(args.msg);
      }
      root := AddChild(root, args.value);
      x := MatchToken(IN, "expected 'in'");
      if x.Failure? {
        return Failure(x.msg);
      }
      var e := Expr();
      if e.Failure? {
        return Failure(e.msg);
      }
      root := AddChild(root, e.value);
      x := MatchToken(DO, "expected 'do' to open block");
      if x.Failure? {
        return Failure(x.msg);
      }
      var b := StmtBlock();
      if b.Failure? {
        return Failure(b.msg);
      }
      root := AddChild(root, b.value);
      x := MatchToken(END, "expected 'end' to close block");
      if x.Failure? {
        return Failure(x.msg);
      }
      return Ok(root);
    }

    /** The loop variables of `forStmt`: one name, or two separated by a comma, under ARGUMENTS. */
    method LoopVariables() returns (r: Result<Tree>)
      requires Valid()
      modifies this, scanner
      ensures Built(r, k) == ForNames(inp, old(k), NodeAt(inp, old(k), "ARGUMENTS", ARGUMENTS), 0)
      ensures r.Ok? ==> Valid()
    {
      var args := CreateNode("ARGUMENTS", ARGUMENTS);
      ghost var names := ForNames(inp, k, args, 0);
      var i := 0;
      while i < 2
        invariant 0 <= i <= 2 && Valid()
        invariant i < 2 ==> ForNames(inp, k, args, i) == names
        invariant i == 2 ==> names == Ok((args, k))
        decreases 2 - i
      {
        if current.T != NAME {
          return Failure(PostError("expected name"));
        }
        var name := CreateNode(current.Str, current.T);
        args := AddChild(args, name);
        var x := NextToken();
        if x.Failure? {
          return Failure(x.msg);
        }
        if current.T != COMMA {
          return Ok(args);
        }
        x := NextToken();
        if x.Failure? {
          return Failure(x.msg);
        }
        i := i + 1;
      }
      return Ok(args);
    }

    /** `ifStmt`: condition and block, then (ELIF, condition, block) per elif, then the else block. */
    method IfStmt() returns (r: Result<Tree>)
      requires Valid() && current.T == IF
      modifies this, scanner
      ensures Built(r, k) == Syntax.IfStmt(inp, old(k))
      ensures r.Ok? ==> Valid()
      decreases Remaining(inp, k), 65, 0
    {
      var root := CreateNode(current.Str, current.T);
      var x := NextToken();
      if x.Failure? {
        return Failure(x.msg);
      }
      var c := Expr();
      if c.Failure? {
        return Failure(c.msg);
      }
      root := AddChild(root, c.value);
      x := MatchToken(DO, "expected 'do' to open block");
      if x.Failure? {
        return Failure(x.msg);
      }
      var b := StmtBlock();
      if b.Failure? {
        return Failure(b.msg);
      }
      root := AddChild(root, b.value);
      ghost var spec := IfRest(inp, k, root);
      while current.T == ELIF
        invariant Valid()
        invariant IfRest(inp, k, root) == spec
        invariant Remaining(inp, k) < Remaining(inp, old(k))
        decreases Remaining(inp, k)
      {
        var e := ElifClause(root);
        if e.Failure? {
          return e;
        }
        root := e.value;
      }
      r := IfEnd(root);
    }

    /** One pass of `ifStmt`'s elif loop: the ELIF node, its condition and its block. */
    method ElifClause(root: Tree) returns (r: Result<Tree>)
      requires Valid() && current.T == ELIF
      modifies this, scanner
      ensures r.Failure? ==> IfRest(inp, old(k), root) == Failure(r.msg)
      ensures r.Ok? ==> Valid() && IfRest(inp, k, r.value) == IfRest(inp, old(k), root)
      ensures r.Ok? ==> Remaining(inp, k) < Remaining(inp, old(k))
      decreases Remaining(inp, k), 64, 1
    {
      var elif := CreateNode(current.Str, current.T);
      var x := NextToken();
      if x.Failure? {
        return Failure(x.msg);
      }
      var c := Expr();
      if c.Failure? {
        return Failure(c.msg);
      }
      x := MatchToken(DO, "expected 'do' to open block");
      if x.Failure? {
        return Failure(x.msg);
      }
      var b := StmtBlock();
      if b.Failure? {
        return Failure(b.msg);
      }
      return Ok(AddChild(AddChild(AddChild(root, elif), c.value), b.value));
    }

    /** The end of `ifStmt`: the else block when there is one, then 'end'. */
    method IfEnd(root: Tree) returns (r: Result<Tree>)
      requires Valid() && current.T != ELIF
      modifies this, scanner
      ensures Built(r, k) == IfRest(inp, old(k), root)
      ensures r.Ok? ==> Valid()
      decreases Remaining(inp, k), 64, 1
    {
      var root' := root;
      if current.T == ELSE {
        var x := NextToken();
        if x.Failure? {
          return Failure(x.msg);
        }
        var b := StmtBlock();
        if b.Failure? {
          return Failure(b.msg);
        }
        root' := AddChild(root, b.value);
      }
      var x := MatchToken(END, "expected 'end' to close block");
      if x.Failure? {
        return Failure(x.msg);
      }
      return Ok(root');
    }

    /** `returnStmt`: the value is parsed unless a newline, ';' or EOF follows 'return'. */
    method ReturnStmt() returns (r: Result<Tree>)
      requires Valid() && current.T == RETURN
      modifies this, scanner
      ensures Built(r, k) == Syntax.ReturnStmt(inp, old(k))
      ensures r.Ok? ==> Valid()
      decreases Remaining(inp, k), 65, 0
    {
      var root := CreateNode(current.Str, current.T);
      var x := NextToken();
      if x.Failure? {
        return Failure(x.msg);
      }
      var t := current.T;
      if t != NEWLINE && t != SEMICOLON && t != EOF {
        var e := Expr();
        if e.Failure? {
          return Failure(e.msg);
        }
        root := AddChild(root, e.value);
      }
      return Ok(root);
    }

    // ----- assignment -----

    /** `exprStmt`: an expression, or an assignment or compound assignment to it. */
    method ExprStmt() returns (r: Result<Tree>)
      requires Valid()
      modifies this, scanner
      ensures Built(r, k) == Syntax.ExprStmt(inp, old(k))
      ensures r.Ok? ==> Valid()
      decreases Remaining(inp, k), 65, 0
    {
      var lhs := Expr();
      if lhs.Failure? {
        return lhs;
      }
      if IsAugAssign(current.T) {
        var ok := CheckLHS(lhs.value.NodeType);
        if ok.Failure? {
          return Failure(ok.msg);
        }
        r := AugAssign(lhs.value);
      } else if current.T == EQ {
        var ok := CheckLHS(lhs.value.NodeType);
        if ok.Failure? {
          return Failure(ok.msg);
        }
        var op := CreateNode(current.Str, ASSIGN);
        var root := AddChild(op, lhs.value);
        var x := NextToken();
        if x.Failure? {
          return Failure(x.msg);
        }
        var rhs := Expr();
        if rhs.Failure? {
          return Failure(rhs.msg);
        }
        root := AddChild(root, rhs.value);
        r := Ok(root);
      } else {
        r := lhs;
      }
    }

    /** `augAssign`: AUGASSIGN over the ASS_* node whose children are `node` and the value. */
    method AugAssign(node: Tree) returns (r: Result<Tree>)
      requires Valid() && IsAugAssign(current.T)
      modifies this, scanner
      ensures Built(r, k) == Syntax.AugAssign(inp, old(k), node)
      ensures r.Ok? ==> Valid()
    {
      var root := CreateNode("AUGASSIGN", AUGASSIGN);
      var op := CreateNode(current.Str, AugKind(current.T));
      var n := AddChild(op, node);
      var x := NextToken();
      if x.Failure? {
        return Failure(x.msg);
      }
      var e := Expr();
      if e.Failure? {
        return Failure(e.msg);
      }
      n := AddChild(n, e.value);
      root := AddChild(root, n);
      return Ok(root);
    }

    /** `checkLHS`: raises an error unless the target is a name, subscript or member. */
    method CheckLHS(nodeType: Kind) returns (r: Result<()>)
      requires Valid()
      ensures r == Syntax.CheckLHS(inp, k, nodeType)
    {
      if nodeType == LIST {
        return Failure(PostError("cant assign to list"));
      } else if nodeType == HASH {
        return Failure(PostError("cant assign to hash"));
      } else if nodeType == CALL {
        return Failure(PostError("cant assign to function call"));
      } else if nodeType == NEW {
        return Failure(PostError("cant assign to constructor"));
      } else if nodeType == NAME || nodeType == SUBSCRIPT || nodeType == MEMBER {
        return Ok(());
      } else if IsLiteral(nodeType) {
        return Failure(PostError("cant assign to literal"));
      }
      return Failure(PostError("cant assign to operator"));
    }

    // ----- expressions -----

    /** `expr`, the loosest level. */
    method Expr() returns (r: Result<Tree>)
      requires Valid()
      modifies this, scanner
      ensures Built(r, k) == Syntax.Expr(inp, old(k))
      ensures r.Ok? ==> Valid()
      decreases Remaining(inp, k), 60, 0
    {
      r := Binary(RANGE_LEVEL);
    }

    /**
     * The binary levels from `rangeExpr` (10) down to `termExpr` (0): an
     * operand of the next tighter level, then while an operator of this level
     * is current, the tree so far is given to a new operator node (and, at the
     * comparison levels, that node to a COMP_OP node).
     */
    method Binary(lv: nat) returns (r: Result<Tree>)
      requires Valid() && lv <= RANGE_LEVEL
      modifies this, scanner
      ensures Built(r, k) == Syntax.Binary(inp, old(k), lv)
      ensures r.Ok? ==> Valid()
      decreases Remaining(inp, k), 40 + lv, 3
    {
      var x := Operand(lv);
      if x.Failure? {
        return x;
      }
      var root := x.value;
      ghost var spec := BinaryLoop(inp, k, lv, root);
      while LevelOp(lv, current.T).Some?
        invariant Valid()
        invariant BinaryLoop(inp, k, lv, root) == spec
        invariant Remaining(inp, k) <= Remaining(inp, old(k))
        decreases Remaining(inp, k)
      {
        var st := BinaryStep(lv, root);
        if st.Failure? {
          return st;
        }
        root := st.value;
      }
      return Ok(root);
    }

    /** An operand of binary level `lv`: a factor at the tightest level, else an expression of the next tighter level. */
    method Operand(lv: nat) returns (r: Result<Tree>)
      requires Valid() && lv <= RANGE_LEVEL
      modifies this, scanner
      ensures Built(r, k) == Syntax.Operand(inp, old(k), lv)
      ensures r.Ok? ==> Valid()
      decreases Remaining(inp, k), 40 + lv, 1
    {
      if lv == 0 {
        r := Factor();
      } else {
        r := Binary(lv - 1);
      }
    }

    /** One pass of a binary level's loop: the operator node over the tree so far and the next operand. */
    method BinaryStep(lv: nat, root: Tree) returns (r: Result<Tree>)
      requires Valid() && lv <= RANGE_LEVEL && LevelOp(lv, current.T).Some?
      modifies this, scanner
      ensures r.Failure? ==> BinaryLoop(inp, old(k), lv, root) == Failure(r.msg)
      ensures r.Ok? ==> Valid() && BinaryLoop(inp, k, lv, r.value) == BinaryLoop(inp, old(k), lv, root)
      ensures r.Ok? ==> Remaining(inp, k) < Remaining(inp, old(k))
      decreases Remaining(inp, k), 40 + lv, 2
    {
      var op := CreateNode(current.Str, LevelOp(lv, current.T).value);
      var node := AddChild(op, root);
      var t := NextToken();
      if t.Failure? {
        return Failure(t.msg);
      }
      var y := Operand(lv);
      if y.Failure? {
        return y;
      }
      node := AddChild(node, y.value);
      if Wrapped(lv) {
        var comp := CreateNode("COMP_OP", COMP_OP);
        node := AddChild(comp, node);
      }
      return Ok(node);
    }

    /** `factorExpr`: prefix '-', '!' and '~' nest to the right over a trailer expression. */
    method Factor() returns (r: Result<Tree>)
      requires Valid()
      modifies this, scanner
      ensures Built(r, k) == Syntax.Factor(inp, old(k))
      ensures r.Ok? ==> Valid()
      decreases Remaining(inp, k), 39, 0
    {
      if IsFactor(current.T) {
        var root := CreateNode(current.Str, UnaryKind(current.T));
        var x := NextToken();
        if x.Failure? {
          return Failure(x.msg);
        }
        var arg;
        if IsFactor(current.T) {
          arg := Factor();
        } else {
          arg := Trailer();
        }
        if arg.Failure? {
          return arg;
        }
        root := AddChild(root, arg.value);
        return Ok(root);
      }
      r := Trailer();
    }

    /** `trailerExpr`: an atom followed by any number of subscripts, calls and member accesses. */
    method Trailer() returns (r: Result<Tree>)
      requires Valid()
      modifies this, scanner
      ensures Built(r, k) == Syntax.Trailer(inp, old(k))
      ensures r.Ok? ==> Valid()
      decreases Remaining(inp, k), 38, 0
    {
      var a := Atom();
      if a.Failure? {
        return a;
      }
      var root := a.value;
      ghost var spec := TrailerLoop(inp, k, root);
      while true
        invariant Valid()
        invariant TrailerLoop(inp, k, root) == spec
        invariant Remaining(inp, k) <= Remaining(inp, old(k))
        decreases Remaining(inp, k)
      {
        var st;
        if current.T == LBRACK {
          st := Subscript(root);
        } else if current.T == LPAREN {
          st := CallFunction(root);
        } else if current.T == DOT {
          st := InstanceAttr(root);
        } else {
          return Ok(root);
        }
        if st.Failure? {
          return st;
        }
        root := st.value;
      }
    }

    /** `atom`: a literal or name, a list or hash literal, a parenthesised expression or `new`. */
    method Atom() returns (r: Result<Tree>)
      requires Valid()
      modifies this, scanner
      ensures Built(r, k) == Syntax.Atom(inp, old(k))
      ensures r.Ok? ==> Valid()
      decreases Remaining(inp, k), 37, 0
    {
      var t := current.T;
      if IsLiteral(t) || t == NAME {
        var node := CreateNode(current.Str, t);
        var x := NextToken();
        if x.Failure? {
          return Failure(x.msg);
        }
        r := Ok(node);
      } else if t == LBRACK {
        r := ArrayLiteral();
      } else if t == LBRACE {
        r := HashLiteral();
      } else if t == LPAREN {
        var x := NextToken();
        if x.Failure? {
          return Failure(x.msg);
        }
        r := Expr();
        if r.Failure? {
          return;
        }
        x := MatchToken(RPAREN, "expected ')' to close group");
        if x.Failure? {
          return Failure(x.msg);
        }
      } else if t == NEW {
        r := NewStmt();
      } else {
        r := Failure(PostError("expected expression"));
      }
    }

    /** `arrayLiteral`: a LIST node over the elements. */
    method ArrayLiteral() returns (r: Result<Tree>)
      requires Valid() && current.T == LBRACK
      modifies this, scanner
      ensures Built(r, k) == Syntax.ArrayLiteral(inp, old(k))
      ensures r.Ok? ==> Valid()
      decreases Remaining(inp, k), 35, 0
    {
      var root := CreateNode("LIST", LIST);
      var x := NextAndSkipNL();
      if x.Failure? {
        return Failure(x.msg);
      }
      var l := ExpressionList(root, RBRACK);
      if l.Failure? {
        return Failure(l.msg);
      }
      x := SkipNL();
      if x.Failure? {
        return Failure(x.msg);
      }
      x := MatchToken(RBRACK, "expected ']' to close array literal");
      if x.Failure? {
        return Failure(x.msg);
      }
      return l;
    }

    /** `hashLiteral`: a HASH node over HASH_ELEM (key, value) nodes. */
    method HashLiteral() returns (r: Result<Tree>)
      requires Valid() && current.T == LBRACE
      modifies this, scanner
      ensures Built(r, k) == Syntax.HashLiteral(inp, old(k))
      ensures r.Ok? ==> Valid()
      decreases Remaining(inp, k), 35, 0
    {
      var root := CreateNode("HASH", HASH);
      var x;
      if next.T == RBRACE {
        x := NextToken();
        if x.Failure? {
          return Failure(x.msg);
        }
        x := NextToken();
        if x.Failure? {
          return Failure(x.msg);
        }
        return Ok(root);
      }
      ghost var spec := HashElems(inp, k, root);
      while true
        invariant Valid()
        invariant current.T == LBRACE || current.T == COMMA
        invariant HashElems(inp, k, root) == spec
        invariant Remaining(inp, k) <= Remaining(inp, old(k))
        decreases Remaining(inp, k)
      {
        var e := HashElem(root);
        if e.Failure? {
          return e;
        }
        root := e.value;
        if current.T != COMMA {
          break;
        }
      }
      x := MatchToken(RBRACE, "expected '}' to close hash literal");
      if x.Failure? {
        return Failure(x.msg);
      }
      return Ok(root);
    }

    /** One pass of `hashLiteral`'s loop: a HASH_ELEM node over the key and the value. */
    method HashElem(root: Tree) returns (r: Result<Tree>)
      requires Valid() && (current.T == LBRACE || current.T == COMMA)
      modifies this, scanner
      ensures Built(r, k) == Syntax.HashElem(inp, old(k), root)
      ensures r.Ok? ==> Valid()
      decreases Remaining(inp, k), 34, 0
    {
      var elem := CreateNode("HASH_ELEM", HASH_ELEM);
      var key := HashKey();
      if key.Failure? {
        return key;
      }
      elem := AddChild(elem, key.value);
      var val := Expr();
      if val.Failure? {
        return val;
      }
      elem := AddChild(elem, val.value);
      var x := SkipNL();
      if x.Failure? {
        return Failure(x.msg);
      }
      return Ok(AddChild(root, elem));
    }

    /** The key of a hash pair and the '=>' after it. */
    method HashKey() returns (r: Result<Tree>)
      requires Valid() && (current.T == LBRACE || current.T == COMMA)
      modifies this, scanner
      ensures Built(r, k) == Syntax.HashKey(inp, old(k))
      ensures r.Ok? ==> Valid()
      decreases Remaining(inp, k), 33, 0
    {
      var x := NextAndSkipNL();
      if x.Failure? {
        return Failure(x.msg);
      }
      r := Expr();
      if r.Failure? {
        return;
      }
      x := SkipNL();
      if x.Failure? {
        return Failure(x.msg);
      }
      x := MatchToken(EQGT, "expected '=>' between key and value");
      if x.Failure? {
        return Failure(x.msg);
      }
      x := SkipNL();
      if x.Failure? {
        return Failure(x.msg);
      }
    }

    /** `newStmt`: MAKE_INSTANCE with children the class name and ARGUMENTS. */
    method NewStmt() returns (r: Result<Tree>)
      requires Valid() && current.T == NEW
      modifies this, scanner
      ensures Built(r, k) == Syntax.NewStmt(inp, old(k))
      ensures r.Ok? ==> Valid()
      decreases Remaining(inp, k), 35, 0
    {
      var root := CreateNode(current.Str, MAKE_INSTANCE);
      var x := NextToken();
      if x.Failure? {
        return Failure(x.msg);
      }
      if current.T != NAME {
        return Failure(PostError("expected name after 'new'"));
      }
      var name := CreateNode(current.Str, current.T);
      root := AddChild(root, name);
      x := NextToken();
      if x.Failure? {
        return Failure(x.msg);
      }
      x := MatchToken(LPAREN, "expected '('");
      if x.Failure? {
        return Failure(x.msg);
      }
      var args := ExpressionList(CreateNode("ARGUMENTS", ARGUMENTS), RPAREN);
      if args.Failure? {
        return Failure(args.msg);
      }
      root := AddChild(root, args.value);
      x := MatchToken(RPAREN, "expected ')'");
      if x.Failure? {
        return Failure(x.msg);
      }
      return Ok(root);
    }

    /** `subscript`: SUBSCRIPT with children `node` and the index. */
    method Subscript(node: Tree) returns (r: Result<Tree>)
      requires Valid() && current.T == LBRACK
      modifies this, scanner
      ensures Built(r, k) == Syntax.Subscript(inp, old(k), node)
      ensures r.Ok? ==> Valid()
      decreases Remaining(inp, k), 36, 0
    {
      var root := CreateNode("SUBSCRIPT", SUBSCRIPT);
      root := AddChild(root, node);
      var x := NextAndSkipNL();
      if x.Failure? {
        return Failure(x.msg);
      }
      var e := Expr();
      if e.Failure? {
        return e;
      }
      root := AddChild(root, e.value);
      x := SkipNL();
      if x.Failure? {
        return Failure(x.msg);
      }
      x := MatchToken(RBRACK, "expected ']' to close subscript");
      if x.Failure? {
        return Failure(x.msg);
      }
      return Ok(root);
    }

    /** `callFunction`: CALL with children `node` and ARGUMENTS. */
    method CallFunction(node: Tree) returns (r: Result<Tree>)
      requires Valid() && current.T == LPAREN
      modifies this, scanner
      ensures Built(r, k) == Syntax.CallFunction(inp, old(k), node)
      ensures r.Ok? ==> Valid()
      decreases Remaining(inp, k), 36, 0
    {
      var root := CreateNode("CALL", CALL);
      root := AddChild(root, node);
      var x := NextAndSkipNL();
      if x.Failure? {
        return Failure(x.msg);
      }
      var args := ExpressionList(CreateNode("ARGUMENTS", ARGUMENTS), RPAREN);
      if args.Failure? {
        return Failure(args.msg);
      }
      root := AddChild(root, args.value);
      x := SkipNL();
      if x.Failure? {
        return Failure(x.msg);
      }
      x := MatchToken(RPAREN, "expected ')' to close func call");
      if x.Failure? {
        return Failure(x.msg);
      }
      return Ok(root);
    }

    /** `instanceAttr`: MEMBER with children `node` and the member name. */
    method InstanceAttr(node: Tree) returns (r: Result<Tree>)
      requires Valid() && current.T == DOT
      modifies this, scanner
      ensures Built(r, k) == Syntax.InstanceAttr(inp, old(k), node)
      ensures r.Ok? ==> Valid()
      decreases Remaining(inp, k), 36, 0
    {
      var root := CreateNode(current.Str, MEMBER);
      root := AddChild(root, node);
      var x := NextToken();
      if x.Failure? {
        return Failure(x.msg);
      }
      if current.T != NAME {
        return Failure(PostError("expected name after '.'"));
      }
      var name := CreateNode(current.Str, current.T);
      root := AddChild(root, name);
      x := NextToken();
      if x.Failure? {
        return Failure(x.msg);
      }
      return Ok(root);
    }

    /** `expressionList`: comma-separated expressions added to `node`, none when `end` is current. */
    method ExpressionList(node: Tree, end: Kind) returns (r: Result<Tree>)
      requires Valid()
      modifies this, scanner
      ensures Built(r, k) == ExprList(inp, old(k), node, end)
      ensures r.Ok? ==> Valid()
      decreases Remaining(inp, k), 62, 0
    {
      if current.T == end {
        return Ok(node);
      }
      ghost var spec := ExprItems(inp, k, node);
      var root := node;
      while true
        invariant Valid()
        invariant ExprItems(inp, k, root) == spec
        invariant Remaining(inp, k) <= Remaining(inp, old(k))
        decreases Remaining(inp, k)
      {
        var e := Expr();
        if e.Failure? {
          return Failure(e.msg);
        }
        root := AddChild(root, e.value);
        var x := SkipNL();
        if x.Failure? {
          return Failure(x.msg);
        }
        if current.T != COMMA {
          return Ok(root);
        }
        x := NextAndSkipNL();
        if x.Failure? {
          return Failure(x.msg);
        }
      }
    }
  }

  /**
   * `ParseFromFile` and `ParseFromRepl`: a scanner over the program text,
   * its first two tokens pulled, and the program parsed under a FILE_INPUT
   * (or, for the interactive prompt, INTERACTIVE) root.
   */
  method Parse(pathname: string, program: string, interactive: bool) returns (r: Result<Tree>)
    ensures r == ParseSource(program, pathname, interactive)
  {
    ghost var toks := SourceTokens(program, pathname);
    var sc := new Scanning.Scanner(program, pathname);
    LexStep(program, pathname, sc.State(), toks, 0);
    var t0 := sc.NextToken();
    if t0.Failure? {
      return Failure(t0.msg);
    }
    LexStep(program, pathname, sc.State(), toks, 1);
    var t1 := sc.NextToken();
    if t1.Failure? {
      return Failure(t1.msg);
    }
    var p := new Parser(sc, t0.value, t1.value, toks);
    var root := if interactive then Leaf("INTERACTIVE", "", INTERACTIVE, 0) else Leaf("FILE_INPUT", "", FILE_INPUT, 0);
    r := p.Program(root);
  }
}
