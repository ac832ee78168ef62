/**
 * The grammar of blue as the recursive-descent parser (parser/parser.go)
 * recognises it, written as functions over the scanner's token stream.
 *
 * A parse function takes the stream and the index `k` of the parser's
 * current token and returns the tree it builds with the index of the token
 * current afterwards, or the error message the parser raises. The parser
 * always holds two tokens (current and next), so advancing past token `k`
 * pulls token `k + 2` from the scanner, and a scanner error surfaces at that
 * moment.
 */
module Syntax {
  import opened Common
  import opened Tokens
  import opened Interm
  import Scanning

  // ----- the token stream -----

  /**
   * A stream as the scanner delivers it ends either with the error the
   * scanner raised or with the end-of-input token, which the scanner then
   * repeats for ever.
   */
  predicate Stream(ts: seq<Result<Token>>)
  {
    |ts| > 0 && (ts[|ts| - 1].Ok? ==> ts[|ts| - 1].value.T == EOF)
  }

  /**
   * The tokens nextToken yields from scanner state `st` on. A NUL byte inside
   * the text also yields an EOF token, after which scanning goes on; the
   * stream ends at the EOF token found past the end of the text.
   */
  function Lex(src: string, path: string, st: Scanning.ScanState): (ts: seq<Result<Token>>)
    requires 0 <= st.pos
    ensures Stream(ts)
    decreases Scanning.Rest(src, st.pos)
  {
    var r := Scanning.NextTokenSpec(src, path, st);
    if r.Failure? then [Failure(r.msg)]
    else
      var t := r.value.0;
      var after := r.value.1;
      Scanning.NextTokenProgress(src, path, st);
      if t.T == EOF && Scanning.Rest(src, after.pos) == 0 then [Ok(t)]
      else [Ok(t)] + Lex(src, path, after)
  }

  /** Past the end of the text the scanner yields the same EOF token again. */
  lemma EofRepeats(src: string, path: string, st: Scanning.ScanState)
    requires 0 <= st.pos
    requires Scanning.NextTokenSpec(src, path, st).Ok?
    requires Scanning.NextTokenSpec(src, path, st).value.0.T == EOF
    requires Scanning.Rest(src, Scanning.NextTokenSpec(src, path, st).value.1.pos) == 0
    ensures Lex(src, path, Scanning.NextTokenSpec(src, path, st).value.1) == [Ok(Scanning.NextTokenSpec(src, path, st).value.0)]
  {
    var after := Scanning.NextTokenSpec(src, path, st).value.1;
    assert Scanning.SkipOne(src, after.pos, after.lineNum) == Scanning.AtToken;
    assert Scanning.SkipSpec(src, after.pos, after.lineNum) == Scanning.Stop(after.pos, after.lineNum);
  }

  /** The stream from index `i` on; past its end, the final token alone. */
  function Tail(ts: seq<Result<Token>>, i: nat): seq<Result<Token>>
    requires |ts| > 0
  {
    if i < |ts| then ts[i..] else [ts[|ts| - 1]]
  }

  /**
   * One pull from a scanner whose remaining stream is the tail of `ts` at
   * `i` yields token `i`, and the scanner's remaining stream is then the
   * tail at `i + 1`.
   */
  lemma LexStep(src: string, path: string, st: Scanning.ScanState, ts: seq<Result<Token>>, i: nat)
    requires 0 <= st.pos && Stream(ts) && Lex(src, path, st) == Tail(ts, i)
    ensures var r := Scanning.NextTokenSpec(src, path, st);
      if r.Failure? then ValueAt(ts, i) == Failure(r.msg)
      else ValueAt(ts, i) == Ok(r.value.0) && Lex(src, path, r.value.1) == Tail(ts, i + 1)
  {
    var r := Scanning.NextTokenSpec(src, path, st);
    if r.Failure? {
      assert Lex(src, path, st) == [Failure(r.msg)];
    } else {
      var t := r.value.0;
      var after := r.value.1;
      Scanning.NextTokenProgress(src, path, st);
      if t.T == EOF && Scanning.Rest(src, after.pos) == 0 {
        assert Lex(src, path, st) == [Ok(t)];
        EofRepeats(src, path, st);
      } else {
        var rest := Lex(src, path, after);
        assert Lex(src, path, st) == [Ok(t)] + rest;
        assert i < |ts| && ts[i..] == [Ok(t)] + rest;
        assert ts[i + 1..] == rest;
      }
    }
  }

  /** Token `i` of the stream; past its end, the final token. */
  function ValueAt(ts: seq<Result<Token>>, i: nat): Result<Token>
    requires |ts| > 0
  {
    if i < |ts| then ts[i] else ts[|ts| - 1]
  }

  // ----- positions in the stream -----

  /** The stream and the file name error messages start with. */
  datatype Input = Input(toks: seq<Result<Token>>, path: string)

  /** The parser holds token `k` as current and token `k + 1` as next. */
  predicate Ready(s: Input, k: nat)
  {
    Stream(s.toks) && ValueAt(s.toks, k).Ok? && ValueAt(s.toks, k + 1).Ok?
  }

  /** The current token. */
  function Cur(s: Input, k: nat): Token
    requires Ready(s, k)
  {
    ValueAt(s.toks, k).value
  }

  /** The kind of the next token (`peekNext`). */
  function PeekNext(s: Input, k: nat): Kind
    requires Ready(s, k)
  {
    ValueAt(s.toks, k + 1).value.T
  }

  /** How many tokens are left before the final one: what every parse loop decreases. */
  function Remaining(s: Input, k: nat): nat
  {
    if k < |s.toks| then |s.toks| - k else 0
  }

  /** A tree and the index of the token current after it. */
  type Parse = Result<(Tree, nat)>

  /** On success the parser is ready at the new index and has not moved back. */
  predicate Moved(s: Input, k: nat, r: Parse)
  {
    r.Ok? ==> Ready(s, r.value.1) && Remaining(s, r.value.1) <= Remaining(s, k)
  }

  /** On success the parser has consumed at least one token that was not the final one. */
  predicate Consumed(s: Input, k: nat, r: Parse)
  {
    r.Ok? ==> Ready(s, r.value.1) && Remaining(s, r.value.1) < Remaining(s, k)
  }

  predicate MovedTo(s: Input, k: nat, r: Result<nat>)
  {
    r.Ok? ==> Ready(s, r.value) && Remaining(s, r.value) <= Remaining(s, k)
  }

  /** The leaf `createNode` makes: the text and kind given, the current token's line. */
  function NodeAt(s: Input, k: nat, str: string, kind: Kind): Tree
    requires Ready(s, k)
  {
    Leaf(str, Cur(s, k).Line, kind, Cur(s, k).LineNum)
  }

  // ----- errors -----

  /** What `postError` says about the current token before its message. */
  function Near(t: Token): string
  {
    if t.T == NEWLINE then "unexpected newline, "
    else if t.T == EOF then "unexpected end-of-file, "
    else if t.T == NAME then "unexpected name near '" + t.Str + "', "
    else if IsLiteral(t.T) then "unexpected literal near '" + t.Str + "', "
    else if IsKeyword(t.T) then "unexpected keyword near '" + t.Str + ", "
    else "unexpected symbol near '" + t.Str + "', "
  }

  /** The text of a parse error raised at token `t` (parser.go `postError`). */
  function ErrorMessage(path: string, t: Token, message: string): string
  {
    path + ":" + IntText(t.LineNum) + " => " + Near(t) + message + "\n   " + t.Line
  }

  function Fail<T>(s: Input, k: nat, message: string): Result<T>
    requires Ready(s, k)
  {
    Failure(ErrorMessage(s.path, Cur(s, k), message))
  }

  // ----- moving over tokens -----

  /** `nextToken`: the next token becomes current and a new one is pulled. */
  function Advance(s: Input, k: nat): (r: Result<nat>)
    requires Ready(s, k)
    ensures r.Ok? ==> r.value == k + 1 && Ready(s, k + 1)
    ensures r.Ok? ==> Remaining(s, k + 1) <= Remaining(s, k)
    ensures r.Ok? && Cur(s, k).T != EOF ==> Remaining(s, k + 1) < Remaining(s, k)
    ensures r.Failure? <==> ValueAt(s.toks, k + 2).Failure?
  {
    match ValueAt(s.toks, k + 2)
    case Failure(m) => Failure(m)
    case Ok(_) => Ok(k + 1)
  }

  /** `matchToken`: the current token must have the kind, and is passed. */
  function MatchToken(s: Input, k: nat, kind: Kind, message: string): (r: Result<nat>)
    requires Ready(s, k)
    ensures r.Ok? ==> Cur(s, k).T == kind && r.value == k + 1
    ensures MovedTo(s, k, r)
  {
    if Cur(s, k).T != kind then Fail(s, k, message) else Advance(s, k)
  }

  /** `skipNL`: passes newline tokens. */
  function SkipNL(s: Input, k: nat): (r: Result<nat>)
    requires Ready(s, k)
    ensures MovedTo(s, k, r) && (r.Ok? ==> k <= r.value && Cur(s, r.value).T != NEWLINE)
    decreases Remaining(s, k)
  {
    if Cur(s, k).T == NEWLINE then
      var k1 :- Advance(s, k);
      SkipNL(s, k1)
    else Ok(k)
  }

  function NextAndSkipNL(s: Input, k: nat): (r: Result<nat>)
    requires Ready(s, k)
    ensures MovedTo(s, k, r)
    ensures r.Ok? && Cur(s, k).T != EOF ==> Remaining(s, r.value) < Remaining(s, k)
  {
    var k1 :- Advance(s, k);
    SkipNL(s, k1)
  }

  function MatchNewline(s: Input, k: nat, message: string): (r: Result<nat>)
    requires Ready(s, k)
    ensures MovedTo(s, k, r)
    ensures r.Ok? ==> Cur(s, k).T == NEWLINE && Remaining(s, r.value) < Remaining(s, k)
  {
    var k1 :- MatchToken(s, k, NEWLINE, message);
    SkipNL(s, k1)
  }

  // ----- programs and statements -----

  /** `stmtTrailer`: a statement ends with ';' or newlines, or else at the end of input. */
  function StmtTrailer(s: Input, k: nat): (r: Result<nat>)
    requires Ready(s, k)
    ensures MovedTo(s, k, r)
  {
    var t := Cur(s, k).T;
    if t == SEMICOLON || t == NEWLINE then NextAndSkipNL(s, k)
    else MatchToken(s, k, EOF, "expected end-of-file")
  }

  /** `Program`: statements, class and function definitions added to `root` until EOF. */
  function Program(s: Input, k: nat, root: Tree): (r: Parse)
    requires Ready(s, k)
    ensures Moved(s, k, r)
    ensures r.Ok? ==> Cur(s, r.value.1).T == EOF && r.value.0.NodeType == root.NodeType
  {
    var k1 :- SkipNL(s, k);
    ProgramLoop(s, k1, root)
  }

  function ProgramLoop(s: Input, k: nat, root: Tree): (r: Parse)
    requires Ready(s, k)
    ensures Moved(s, k, r)
    ensures r.Ok? ==> Cur(s, r.value.1).T == EOF && r.value.0.NodeType == root.NodeType
    decreases Remaining(s, k)
  {
    var t := Cur(s, k).T;
    if t == EOF then Ok((root, k))
    else
      var st :- if t == CLASS then ClassStmt(s, k) else if t == DEF then DefStmt(s, k) else Stmt(s, k);
      var k2 :- StmtTrailer(s, st.1);
      ProgramLoop(s, k2, AddChild(root, st.0))
  }

  function Stmt(s: Input, k: nat): (r: Parse)
    requires Ready(s, k)
    ensures Consumed(s, k, r)
    decreases Remaining(s, k), 70, 0
  {
    var t := Cur(s, k);
    if t.T == WHILE then ControlStmt(s, k)
    else if t.T == FOR then ForStmt(s, k)
    else if t.T == CONTINUE || t.T == BREAK then
      var k1 :- Advance(s, k);
      Ok((NodeAt(s, k, t.Str, t.T), k1))
    else if t.T == IF then IfStmt(s, k)
    else if t.T == RETURN then ReturnStmt(s, k)
    else if t.T == IMPORT then ImportList(s, k, NodeAt(s, k, t.Str, t.T))
    else if t.T == PRINT then
      var k1 :- Advance(s, k);
      var e :- Expr(s, k1);
      Ok((AddChild(NodeAt(s, k, t.Str, t.T), e.0), e.1))
    else ExprStmt(s, k)
  }

  /** `classStmt`: MAKE_CLASS with children name, EXTENDS (holding the base, if any) and the class block. */
  function ClassStmt(s: Input, k: nat): (r: Parse)
    requires Ready(s, k) && Cur(s, k).T == CLASS
    ensures Consumed(s, k, r)
  {
    var root := NodeAt(s, k, "MAKE_CLASS", MAKE_CLASS);
    var k1 :- Advance(s, k);
    if Cur(s, k1).T != NAME then Fail(s, k1, "expected name after 'class'")
    else
      var name := NodeAt(s, k1, Cur(s, k1).Str, NAME);
      var ext := NodeAt(s, k1, "EXTENDS", EXTENDS);
      var k2 :- Advance(s, k1);
      var b :- if Cur(s, k2).T == COLON then BaseClass(s, k2, ext) else Ok((ext, k2));
      var blk :- ClassBlock(s, b.1);
      Ok((AddChild(AddChild(AddChild(root, name), b.0), blk.0), blk.1))
  }

  /** `baseClass`: the name after ':' becomes the only child of EXTENDS. */
  function BaseClass(s: Input, k: nat, ext: Tree): (r: Parse)
    requires Ready(s, k) && Cur(s, k).T == COLON
    ensures Consumed(s, k, r)
  {
    var k1 :- Advance(s, k);
    if Cur(s, k1).T != NAME then Fail(s, k1, "expected name after ':'")
    else
      var k2 :- Advance(s, k1);
      Ok((AddChild(ext, NodeAt(s, k1, Cur(s, k1).Str, NAME)), k2))
  }

  /** `classBlock`: a newline, then definitions and statements until 'end'. */
  function ClassBlock(s: Input, k: nat): (r: Parse)
    requires Ready(s, k)
    ensures Consumed(s, k, r)
  {
    var k1 :- MatchNewline(s, k, "expected newline to open class");
    ClassBody(s, k1, NodeAt(s, k1, "CLASSBLOCK", CLASSBLOCK))
  }

  function ClassBody(s: Input, k: nat, root: Tree): (r: Parse)
    requires Ready(s, k)
    ensures Moved(s, k, r)
    decreases Remaining(s, k)
  {
    var t := Cur(s, k).T;
    if t == END || t == EOF then
      var k1 :- MatchToken(s, k, END, "expected 'end' to close class");
      Ok((root, k1))
    else
      var st :- if t == DEF then DefStmt(s, k) else Stmt(s, k);
      var k2 :- if Cur(s, st.1).T == SEMICOLON then NextAndSkipNL(s, st.1)
                else MatchNewline(s, st.1, "expected newline");
      ClassBody(s, k2, AddChild(root, st.0))
  }

  /** `defStmt`: MAKE_FUNC with children name, PARAMETERS and the body block. */
  function DefStmt(s: Input, k: nat): (r: Parse)
    requires Ready(s, k) && Cur(s, k).T == DEF
    ensures Consumed(s, k, r)
  {
    var root := NodeAt(s, k, "MAKE_FUNC", MAKE_FUNC);
    var k1 :- Advance(s, k);
    if Cur(s, k1).T != NAME then Fail(s, k1, "expected name after 'def'")
    else
      var name := NodeAt(s, k1, Cur(s, k1).Str, NAME);
      var k2 :- Advance(s, k1);
      if Cur(s, k2).T != LPAREN then Fail(s, k2, "expected '(' to open parameter list")
      else
        var ps :- ParamList(s, k2, NodeAt(s, k2, "PARAMETERS", PARAMETERS));
        var k5 :- MatchNewline(s, ps.1, "expected newline");
        var blk :- StmtBlock(s, k5);
        var k6 :- MatchToken(s, blk.1, END, "expected 'end' to close function");
        Ok((AddChild(AddChild(AddChild(root, name), ps.0), blk.0), k6))
  }

  /** The parenthesised parameter list of defStmt: `()` directly, or defParams and ')'. */
  function ParamList(s: Input, k: nat, params: Tree): (r: Parse)
    requires Ready(s, k) && Cur(s, k).T == LPAREN
    ensures Consumed(s, k, r)
  {
    if PeekNext(s, k) == RPAREN then
      var k3 :- Advance(s, k);
      var k4 :- Advance(s, k3);
      Ok((params, k4))
    else
      var d :- DefParams(s, k, params);
      var k4 :- MatchToken(s, d.1, RPAREN, "expected ')' to close parameter list");
      Ok((d.0, k4))
  }

  /**
   * `defParams`: names separated by commas; a '*' before a name sets the
   * star flag, and any parameter after a starred one is an error.
   */
  function DefParams(s: Input, k: nat, params: Tree): (r: Parse)
    requires Ready(s, k) && (Cur(s, k).T == LPAREN || Cur(s, k).T == COMMA)
    ensures Consumed(s, k, r)
    decreases Remaining(s, k)
  {
    var k1 :- NextAndSkipNL(s, k);
    if StarFlagged(params.Flags) then Fail(s, k1, "star parameter must be the last param")
    else
      var star := Cur(s, k1).T == STAR;
      var flagged := if star then params.(Flags := WithStar(params.Flags)) else params;
      var k2 :- if star then Advance(s, k1) else Ok(k1);
      if Cur(s, k2).T != NAME then Fail(s, k2, "expected name as argument")
      else
        var named := AddChild(flagged, NodeAt(s, k2, Cur(s, k2).Str, NAME));
        var k3 :- NextAndSkipNL(s, k2);
        if Cur(s, k3).T != COMMA then Ok((named, k3))
        else DefParams(s, k3, named)
  }

  /** The tokens that end a block (`blockFollows`). */
  predicate BlockFollows(t: Kind)
  {
    t == ELIF || t == ELSE || t == END || t == EOF
  }

  /** `stmtBlock`: a BLOCK of statements, each ended by ';' or a newline. */
  function StmtBlock(s: Input, k: nat): (r: Parse)
    requires Ready(s, k)
    ensures Moved(s, k, r)
    ensures r.Ok? ==> r.value.0.NodeType == BLOCK
    decreases Remaining(s, k), 80, 1
  {
    var k1 :- SkipNL(s, k);
    BlockBody(s, k1, NodeAt(s, k, "BLOCK", BLOCK))
  }

  function BlockBody(s: Input, k: nat, root: Tree): (r: Parse)
    requires Ready(s, k)
    ensures Moved(s, k, r)
    ensures r.Ok? ==> r.value.0.NodeType == root.NodeType && BlockFollows(Cur(s, r.value.1).T)
    decreases Remaining(s, k), 80, 0
  {
    if BlockFollows(Cur(s, k).T) then Ok((root, k))
    else
      var st :- Stmt(s, k);
      var k2 :- if Cur(s, st.1).T == SEMICOLON then NextAndSkipNL(s, st.1)
                else MatchNewline(s, st.1, "expected newline");
      BlockBody(s, k2, AddChild(root, st.0))
  }

  /** `controlStmt` (while): children condition and block. */
  function ControlStmt(s: Input, k: nat): (r: Parse)
    requires Ready(s, k) && Cur(s, k).T == WHILE
    ensures Consumed(s, k, r)
    decreases Remaining(s, k), 65, 0
  {
    var root := NodeAt(s, k, Cur(s, k).Str, Cur(s, k).T);
    var k1 :- Advance(s, k);
    var c :- Expr(s, k1);
    var k2 :- MatchToken(s, c.1, DO, "expected 'do' to open block");
    var b :- StmtBlock(s, k2);
    var k3 :- MatchToken(s, b.1, END, "expected 'end' to close block");
    Ok((AddChild(AddChild(root, c.0), b.0), k3))
  }

  /** `forStmt`: children ARGUMENTS (one or two names), the iterated expression and the block. */
  function ForStmt(s: Input, k: nat): (r: Parse)
    requires Ready(s, k) && Cur(s, k).T == FOR
    ensures Consumed(s, k, r)
    decreases Remaining(s, k), 65, 0
  {
    var root := NodeAt(s, k, Cur(s, k).Str, Cur(s, k).T);
    var k1 :- Advance(s, k);
    var a :- ForNames(s, k1, NodeAt(s, k1, "ARGUMENTS", ARGUMENTS), 0);
    var k2 :- MatchToken(s, a.1, IN, "expected 'in'");
    var e :- Expr(s, k2);
    var k3 :- MatchToken(s, e.1, DO, "expected 'do' to open block");
    var b :- StmtBlock(s, k3);
    var k4 :- MatchToken(s, b.1, END, "expected 'end' to close block");
    Ok((AddChild(AddChild(AddChild(root, a.0), e.0), b.0), k4))
  }

  /** Turn `i` of forStmt's two-turn loop over the loop variables. */
  function ForNames(s: Input, k: nat, args: Tree, i: nat): (r: Parse)
    requires Ready(s, k) && i < 2
    ensures Consumed(s, k, r)
    decreases 2 - i
  {
    if Cur(s, k).T != NAME then Fail(s, k, "expected name")
    else
      var named := AddChild(args, NodeAt(s, k, Cur(s, k).Str, NAME));
      var k1 :- Advance(s, k);
      if Cur(s, k1).T != COMMA then Ok((named, k1))
      else
        var k2 :- Advance(s, k1);
        if i + 1 < 2 then ForNames(s, k2, named, i + 1) else Ok((named, k2))
  }

  /** `ifStmt`: children condition and block, then (ELIF, condition, block) per elif, then the else block. */
  function IfStmt(s: Input, k: nat): (r: Parse)
    requires Ready(s, k) && Cur(s, k).T == IF
    ensures Consumed(s, k, r)
    decreases Remaining(s, k), 65, 0
  {
    var root := NodeAt(s, k, Cur(s, k).Str, Cur(s, k).T);
    var k1 :- Advance(s, k);
    var c :- Expr(s, k1);
    var k2 :- MatchToken(s, c.1, DO, "expected 'do' to open block");
    var b :- StmtBlock(s, k2);
    IfRest(s, b.1, AddChild(AddChild(root, c.0), b.0))
  }

  /** The elif loop of ifStmt, the optional else block and the closing 'end'. */
  function IfRest(s: Input, k: nat, root: Tree): (r: Parse)
    requires Ready(s, k)
    ensures Consumed(s, k, r)
    decreases Remaining(s, k), 64, 0
  {
    var t := Cur(s, k);
    if t.T == ELIF then
      var elif := NodeAt(s, k, t.Str, t.T);
      var k1 :- Advance(s, k);
      var c :- Expr(s, k1);
      var k2 :- MatchToken(s, c.1, DO, "expected 'do' to open block");
      var b :- StmtBlock(s, k2);
      IfRest(s, b.1, AddChild(AddChild(AddChild(root, elif), c.0), b.0))
    else if t.T == ELSE then
      var k1 :- Advance(s, k);
      var b :- StmtBlock(s, k1);
      var k2 :- MatchToken(s, b.1, END, "expected 'end' to close block");
      Ok((AddChild(root, b.0), k2))
    else
      var k2 :- MatchToken(s, k, END, "expected 'end' to close block");
      Ok((root, k2))
  }

  /** `returnStmt`: the value is parsed unless a newline, ';' or EOF follows 'return'. */
  function ReturnStmt(s: Input, k: nat): (r: Parse)
    requires Ready(s, k) && Cur(s, k).T == RETURN
    ensures Consumed(s, k, r)
    decreases Remaining(s, k), 65, 0
  {
    var root := NodeAt(s, k, Cur(s, k).Str, Cur(s, k).T);
    var k1 :- Advance(s, k);
    var t := Cur(s, k1).T;
    if t != NEWLINE && t != SEMICOLON && t != EOF then
      var e :- Expr(s, k1);
      Ok((AddChild(root, e.0), e.1))
    else Ok((root, k1))
  }

  /** The import case of stmt: PATH children while a comma follows. */
  function ImportList(s: Input, k: nat, node: Tree): (r: Parse)
    requires Ready(s, k) && (Cur(s, k).T == IMPORT || Cur(s, k).T == COMMA)
    ensures Consumed(s, k, r)
    decreases Remaining(s, k)
  {
    var p :- ImportPath(s, k);
    var added := AddChild(node, p.0);
    if Cur(s, p.1).T != COMMA then Ok((added, p.1))
    else ImportList(s, p.1, added)
  }

  /** `importPath`: a PATH node with one NAME child per dotted component. */
  function ImportPath(s: Input, k: nat): (r: Parse)
    requires Ready(s, k) && (Cur(s, k).T == IMPORT || Cur(s, k).T == COMMA)
    ensures Consumed(s, k, r)
  {
    var k1 :- Advance(s, k);
    PathNames(s, k1, NodeAt(s, k, "PATH", PATH))
  }

  function PathNames(s: Input, k: nat, root: Tree): (r: Parse)
    requires Ready(s, k)
    ensures Consumed(s, k, r)
    decreases Remaining(s, k)
  {
    if Cur(s, k).T != NAME then Fail(s, k, "expected name")
    else
      var named := AddChild(root, NodeAt(s, k, Cur(s, k).Str, NAME));
      var k1 :- Advance(s, k);
      if Cur(s, k1).T == DOT then
        var k2 :- Advance(s, k1);
        PathNames(s, k2, named)
      else Ok((named, k1))
  }

  // ----- assignment -----

  /** The node kind augAssign gives each compound assignment token. */
  function AugKind(t: Kind): Kind
  {
    if t == PIPEEQ then ASS_BITWISE_OR
    else if t == AMPEQ then ASS_BITWISE_AND
    else if t == CARETEQ then ASS_XOR
    else if t == LEFTSHIFTEQ then ASS_LEFTSHIFT
    else if t == RIGHTSHIFTEQ then ASS_RIGHTSHIFT
    else if t == PLUSEQ then ASS_ADD
    else if t == MINUSEQ then ASS_SUB
    else if t == STAREQ then ASS_MUL
    else if t == SLASHEQ then ASS_DIV
    else if t == PERCENTEQ then ASS_MODULO
    else STRING
  }

  /** `exprStmt`: an expression, or an assignment or compound assignment to it. */
  function ExprStmt(s: Input, k: nat): (r: Parse)
    requires Ready(s, k)
    ensures Consumed(s, k, r)
    decreases Remaining(s, k), 65, 0
  {
    var lhs :- Expr(s, k);
    var t := Cur(s, lhs.1);
    if IsAugAssign(t.T) then
      var ok :- CheckLHS(s, lhs.1, lhs.0.NodeType);
      AugAssign(s, lhs.1, lhs.0)
    else if t.T == EQ then
      var ok :- CheckLHS(s, lhs.1, lhs.0.NodeType);
      var k1 :- Advance(s, lhs.1);
      var rhs :- Expr(s, k1);
      Ok((AddChild(AddChild(NodeAt(s, lhs.1, t.Str, ASSIGN), lhs.0), rhs.0), rhs.1))
    else Ok(lhs)
  }

  /** `augAssign`: AUGASSIGN over the ASS_* node whose children are target and value. */
  function AugAssign(s: Input, k: nat, target: Tree): (r: Parse)
    requires Ready(s, k) && IsAugAssign(Cur(s, k).T)
    ensures Consumed(s, k, r)
  {
    var t := Cur(s, k);
    var op := AddChild(NodeAt(s, k, t.Str, AugKind(t.T)), target);
    var k1 :- Advance(s, k);
    var rhs :- Expr(s, k1);
    Ok((AddChild(NodeAt(s, k, "AUGASSIGN", AUGASSIGN), AddChild(op, rhs.0)), rhs.1))
  }

  /** The message checkLHS raises for an assignment target of kind `kind`, if any. */
  function LHSError(kind: Kind): Option<string>
  {
    if kind == LIST then Some("cant assign to list")
    else if kind == HASH then Some("cant assign to hash")
    else if kind == CALL then Some("cant assign to function call")
    else if kind == NEW then Some("cant assign to constructor")
    else if kind == NAME || kind == SUBSCRIPT || kind == MEMBER then None
    else if IsLiteral(kind) then Some("cant assign to literal")
    else Some("cant assign to operator")
  }

  /** `checkLHS`: raises its message at the assignment token. */
  function CheckLHS(s: Input, k: nat, kind: Kind): (r: Result<()>)
    requires Ready(s, k)
    ensures r.Ok? <==> kind == NAME || kind == SUBSCRIPT || kind == MEMBER
  {
    match LHSError(kind)
    case Some(m) => Fail(s, k, m)
    case None => Ok(())
  }

  // ----- expressions -----

  /** `expr`, the loosest level. */
  function Expr(s: Input, k: nat): (r: Parse)
    requires Ready(s, k)
    ensures Consumed(s, k, r)
    decreases Remaining(s, k), 60, 0
  {
    Binary(s, k, RANGE_LEVEL)
  }

  /** The binary levels, numbered from the tightest (0: `* / %`) to the loosest (10: `..`). */
  const RANGE_LEVEL: nat := 10

  /**
   * The node kind an operator token gets at level `lv`, or None when the token
   * does not continue that level. Both shift tokens give LEFTSHIFT.
   */
  function LevelOp(lv: nat, t: Kind): Option<Kind>
  {
    if lv == 10 then (if t == DOTDOT then Some(RANGE) else None)
    else if lv == 9 then (if t == PIPEPIPE then Some(LOGICAL_OR) else None)
    else if lv == 8 then (if t == AMPAMP then Some(LOGICAL_AND) else None)
    else if lv == 7 then (if t == BANGEQ then Some(NE) else if t == EQEQ then Some(EQ) else None)
    else if lv == 6 then
      (if t == LT then Some(LT) else if t == LTEQ then Some(LE)
       else if t == GT then Some(GT) else if t == GTEQ then Some(GE) else None)
    else if lv == 5 then (if t == PIPE then Some(BITWISE_OR) else None)
    else if lv == 4 then (if t == CARET then Some(XOR) else None)
    else if lv == 3 then (if t == AMP then Some(BITWISE_AND) else None)
    else if lv == 2 then (if t == LEFTSHIFT || t == RIGHTSHIFT then Some(LEFTSHIFT) else None)
    else if lv == 1 then (if t == PLUS then Some(ADD) else if t == MINUS then Some(SUB) else None)
    else if lv == 0 then
      (if t == STAR then Some(MUL) else if t == SLASH then Some(DIV)
       else if t == PERCENT then Some(MODULO) else None)
    else None
  }

  /** The equality and relational levels wrap each operator node in a COMP_OP node. */
  predicate Wrapped(lv: nat)
  {
    lv == 6 || lv == 7
  }

  /** One binary level: an operand, then operator-operand pairs folded to the left. */
  function Binary(s: Input, k: nat, lv: nat): (r: Parse)
    requires Ready(s, k) && lv <= RANGE_LEVEL
    ensures Consumed(s, k, r)
    decreases Remaining(s, k), 40 + lv, 2
  {
    var x :- Operand(s, k, lv);
    BinaryLoop(s, x.1, lv, x.0)
  }

  /** The operands of level `lv`: the next tighter level, or unary factors below level 0. */
  function Operand(s: Input, k: nat, lv: nat): (r: Parse)
    requires Ready(s, k) && lv <= RANGE_LEVEL
    ensures Consumed(s, k, r)
    decreases Remaining(s, k), 40 + lv, 1
  {
    if lv == 0 then Factor(s, k) else Binary(s, k, lv - 1)
  }

  /** The loop of a binary level: the tree so far becomes the first child of the operator node. */
  function BinaryLoop(s: Input, k: nat, lv: nat, left: Tree): (r: Parse)
    requires Ready(s, k) && lv <= RANGE_LEVEL
    ensures Moved(s, k, r)
    decreases Remaining(s, k), 40 + lv, 0
  {
    var t := Cur(s, k);
    match LevelOp(lv, t.T)
    case None => Ok((left, k))
    case Some(kind) =>
      var k1 :- Advance(s, k);
      var y :- Operand(s, k1, lv);
      var node := AddChild(AddChild(NodeAt(s, k, t.Str, kind), left), y.0);
      BinaryLoop(s, y.1, lv, if Wrapped(lv) then AddChild(NodeAt(s, y.1, "COMP_OP", COMP_OP), node) else node)
  }

  predicate IsFactor(t: Kind)
  {
    t == MINUS || t == BANG || t == TILDE
  }

  function UnaryKind(t: Kind): Kind
  {
    if t == MINUS then NEGATE else if t == BANG then NOT else COMPL
  }

  /** `factorExpr`: prefix '-', '!' and '~' nest to the right over a trailer expression. */
  function Factor(s: Input, k: nat): (r: Parse)
    requires Ready(s, k)
    ensures Consumed(s, k, r)
    decreases Remaining(s, k), 39, 0
  {
    var t := Cur(s, k);
    if IsFactor(t.T) then
      var k1 :- Advance(s, k);
      var arg :- if IsFactor(Cur(s, k1).T) then Factor(s, k1) else Trailer(s, k1);
      Ok((AddChild(NodeAt(s, k, t.Str, UnaryKind(t.T)), arg.0), arg.1))
    else Trailer(s, k)
  }

  /** `trailerExpr`: an atom followed by any number of subscripts, calls and member accesses. */
  function Trailer(s: Input, k: nat): (r: Parse)
    requires Ready(s, k)
    ensures Consumed(s, k, r)
    decreases Remaining(s, k), 38, 0
  {
    var a :- Atom(s, k);
    TrailerLoop(s, a.1, a.0)
  }

  function TrailerLoop(s: Input, k: nat, root: Tree): (r: Parse)
    requires Ready(s, k)
    ensures Moved(s, k, r)
    decreases Remaining(s, k), 36, 1
  {
    var t := Cur(s, k).T;
    if t == LBRACK then
      var st :- Subscript(s, k, root);
      TrailerLoop(s, st.1, st.0)
    else if t == LPAREN then
      var st :- CallFunction(s, k, root);
      TrailerLoop(s, st.1, st.0)
    else if t == DOT then
      var st :- InstanceAttr(s, k, root);
      TrailerLoop(s, st.1, st.0)
    else Ok((root, k))
  }

  /** `atom`: a literal or name, a list or hash literal, a parenthesised expression or `new`. */
  function Atom(s: Input, k: nat): (r: Parse)
    requires Ready(s, k)
    ensures Consumed(s, k, r)
    decreases Remaining(s, k), 37, 0
  {
    var t := Cur(s, k);
    if IsLiteral(t.T) || t.T == NAME then
      var k1 :- Advance(s, k);
      Ok((NodeAt(s, k, t.Str, t.T), k1))
    else if t.T == LBRACK then ArrayLiteral(s, k)
    else if t.T == LBRACE then HashLiteral(s, k)
    else if t.T == LPAREN then
      var k1 :- Advance(s, k);
      var e :- Expr(s, k1);
      var k2 :- MatchToken(s, e.1, RPAREN, "expected ')' to close group");
      Ok((e.0, k2))
    else if t.T == NEW then NewStmt(s, k)
    else Fail(s, k, "expected expression")
  }

  /** `arrayLiteral`: a LIST node over the elements. */
  function ArrayLiteral(s: Input, k: nat): (r: Parse)
    requires Ready(s, k) && Cur(s, k).T == LBRACK
    ensures Consumed(s, k, r)
    decreases Remaining(s, k), 35, 0
  {
    var k1 :- NextAndSkipNL(s, k);
    var l :- ExprList(s, k1, NodeAt(s, k, "LIST", LIST), RBRACK);
    var k2 :- SkipNL(s, l.1);
    var k3 :- MatchToken(s, k2, RBRACK, "expected ']' to close array literal");
    Ok((l.0, k3))
  }

  /** `hashLiteral`: a HASH node over HASH_ELEM (key, value) nodes. */
  function HashLiteral(s: Input, k: nat): (r: Parse)
    requires Ready(s, k) && Cur(s, k).T == LBRACE
    ensures Consumed(s, k, r)
    decreases Remaining(s, k), 35, 0
  {
    var root := NodeAt(s, k, "HASH", HASH);
    if PeekNext(s, k) == RBRACE then
      var k1 :- Advance(s, k);
      var k2 :- Advance(s, k1);
      Ok((root, k2))
    else
      var h :- HashElems(s, k, root);
      var k3 :- MatchToken(s, h.1, RBRACE, "expected '}' to close hash literal");
      Ok((h.0, k3))
  }

  /** The (key, value) pairs of a hash literal, each led by '{' or ','. */
  function HashElems(s: Input, k: nat, root: Tree): (r: Parse)
    requires Ready(s, k) && (Cur(s, k).T == LBRACE || Cur(s, k).T == COMMA)
    ensures Consumed(s, k, r)
    decreases Remaining(s, k), 34, 1
  {
    var e :- HashElem(s, k, root);
    if Cur(s, e.1).T != COMMA then Ok(e)
    else HashElems(s, e.1, e.0)
  }

  /** One HASH_ELEM node over a key and a value, added to `root`. */
  function HashElem(s: Input, k: nat, root: Tree): (r: Parse)
    requires Ready(s, k) && (Cur(s, k).T == LBRACE || Cur(s, k).T == COMMA)
    ensures Consumed(s, k, r)
    decreases Remaining(s, k), 34, 0
  {
    var elem := NodeAt(s, k, "HASH_ELEM", HASH_ELEM);
    var key :- HashKey(s, k);
    var val :- Expr(s, key.1);
    var k5 :- SkipNL(s, val.1);
    Ok((AddChild(root, AddChild(AddChild(elem, key.0), val.0)), k5))
  }

  /** The key of a hash pair and the '=>' after it, with the newlines around them. */
  function HashKey(s: Input, k: nat): (r: Parse)
    requires Ready(s, k) && (Cur(s, k).T == LBRACE || Cur(s, k).T == COMMA)
    ensures Consumed(s, k, r)
    decreases Remaining(s, k), 33, 0
  {
    var k1 :- NextAndSkipNL(s, k);
    var key :- Expr(s, k1);
    var k2 :- SkipNL(s, key.1);
    var k3 :- MatchToken(s, k2, EQGT, "expected '=>' between key and value");
    var k4 :- SkipNL(s, k3);
    Ok((key.0, k4))
  }

  /** `newStmt`: MAKE_INSTANCE with children the class name and ARGUMENTS. */
  function NewStmt(s: Input, k: nat): (r: Parse)
    requires Ready(s, k) && Cur(s, k).T == NEW
    ensures Consumed(s, k, r)
    decreases Remaining(s, k), 35, 0
  {
    var root := NodeAt(s, k, Cur(s, k).Str, MAKE_INSTANCE);
    var k1 :- Advance(s, k);
    if Cur(s, k1).T != NAME then Fail(s, k1, "expected name after 'new'")
    else
      var name := NodeAt(s, k1, Cur(s, k1).Str, NAME);
      var k2 :- Advance(s, k1);
      var k3 :- MatchToken(s, k2, LPAREN, "expected '('");
      var l :- ExprList(s, k3, NodeAt(s, k3, "ARGUMENTS", ARGUMENTS), RPAREN);
      var k4 :- MatchToken(s, l.1, RPAREN, "expected ')'");
      Ok((AddChild(AddChild(root, name), l.0), k4))
  }

  /** `subscript`: SUBSCRIPT with children the subscripted tree and the index. */
  function Subscript(s: Input, k: nat, node: Tree): (r: Parse)
    requires Ready(s, k) && Cur(s, k).T == LBRACK
    ensures Consumed(s, k, r)
    decreases Remaining(s, k), 36, 0
  {
    var root := AddChild(NodeAt(s, k, "SUBSCRIPT", SUBSCRIPT), node);
    var k1 :- NextAndSkipNL(s, k);
    var e :- Expr(s, k1);
    var k2 :- SkipNL(s, e.1);
    var k3 :- MatchToken(s, k2, RBRACK, "expected ']' to close subscript");
    Ok((AddChild(root, e.0), k3))
  }

  /** `callFunction`: CALL with children the callee and ARGUMENTS. */
  function CallFunction(s: Input, k: nat, node: Tree): (r: Parse)
    requires Ready(s, k) && Cur(s, k).T == LPAREN
    ensures Consumed(s, k, r)
    decreases Remaining(s, k), 36, 0
  {
    var root := AddChild(NodeAt(s, k, "CALL", CALL), node);
    var k1 :- NextAndSkipNL(s, k);
    var l :- ExprList(s, k1, NodeAt(s, k1, "ARGUMENTS", ARGUMENTS), RPAREN);
    var k2 :- SkipNL(s, l.1);
    var k3 :- MatchToken(s, k2, RPAREN, "expected ')' to close func call");
    Ok((AddChild(root, l.0), k3))
  }

  /** `instanceAttr`: MEMBER with children the object and the member name. */
  function InstanceAttr(s: Input, k: nat, node: Tree): (r: Parse)
    requires Ready(s, k) && Cur(s, k).T == DOT
    ensures Consumed(s, k, r)
    decreases Remaining(s, k), 36, 0
  {
    var root := AddChild(NodeAt(s, k, Cur(s, k).Str, MEMBER), node);
    var k1 :- Advance(s, k);
    if Cur(s, k1).T != NAME then Fail(s, k1, "expected name after '.'")
    else
      var k2 :- Advance(s, k1);
      Ok((AddChild(root, NodeAt(s, k1, Cur(s, k1).Str, NAME)), k2))
  }

  /** `expressionList`: comma-separated expressions added to `node`, none when `end` is current. */
  function ExprList(s: Input, k: nat, node: Tree, end: Kind): (r: Parse)
    requires Ready(s, k)
    ensures Moved(s, k, r)
    decreases Remaining(s, k), 62, 0
  {
    if Cur(s, k).T == end then Ok((node, k)) else ExprItems(s, k, node)
  }

  function ExprItems(s: Input, k: nat, node: Tree): (r: Parse)
    requires Ready(s, k)
    ensures Consumed(s, k, r)
    decreases Remaining(s, k), 61, 0
  {
    var e :- Expr(s, k);
    var added := AddChild(node, e.0);
    var k1 :- SkipNL(s, e.1);
    if Cur(s, k1).T != COMMA then Ok((added, k1))
    else
      var k2 :- NextAndSkipNL(s, k1);
      ExprItems(s, k2, added)
  }

  // ----- whole sources -----

  /** The stream the parser reads: everything nextToken yields from a fresh scanner. */
  function SourceTokens(src: string, path: string): seq<Result<Token>>
  {
    Lex(src, path, Scanning.ScanState(0, 1, Scanning.ReadLineSpec(src, 0)))
  }

  /**
   * `ParseFromFile` (or `ParseFromRepl` when `interactive`): the first two
   * tokens are pulled, then the program is parsed under a FILE_INPUT (or
   * INTERACTIVE) root.
   */
  function ParseSource(src: string, path: string, interactive: bool): Result<Tree>
  {
    var ts := SourceTokens(src, path);
    if ValueAt(ts, 0).Failure? then Failure(ValueAt(ts, 0).msg)
    else if ValueAt(ts, 1).Failure? then Failure(ValueAt(ts, 1).msg)
    else
      var root := if interactive then Leaf("INTERACTIVE", "", INTERACTIVE, 0)
                  else Leaf("FILE_INPUT", "", FILE_INPUT, 0);
      var p :- Program(Input(ts, path), 0, root);
      Ok(p.0)
  }
}
