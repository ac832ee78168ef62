/**
 * The byte scanner of the blue front end (parser/scanner.go).
 *
 * The source text is a `string` whose characters stand for bytes. The
 * scanner's position moves one byte at a time; reading past the end yields
 * the NUL byte, which the scanner treats as end of input (so does a NUL byte
 * inside the text).
 *
 * The pure functions below describe, position by position, what the scanner
 * skips (`SkipSpec`), which token starts at a position (`TokenAt`) and what
 * one call of `nextToken` returns (`NextTokenSpec`); the `Scanner` class
 * runs the source's loops and is proved to agree with them.
 */
module Scanning {
  import opened Common
  import opened Tokens

  /** The byte the scanner reports at and after the end of input. */
  const NUL: char := '\0'

  /** The byte at position `i`, or NUL outside the text (`peekChar`). */
  function At(src: string, i: int): (c: char)
    ensures 0 <= i < |src| ==> c == src[i]
    ensures c != NUL ==> 0 <= i < |src|
  {
    if 0 <= i < |src| then src[i] else NUL
  }

  predicate IsLetter(c: char) { 'A' <= c <= 'Z' || 'a' <= c <= 'z' }
  predicate IsDigit(c: char) { '0' <= c <= '9' }
  predicate IsXDigit(c: char) { '0' <= c <= '9' || 'A' <= c <= 'F' || 'a' <= c <= 'f' }
  predicate IsQuote(c: char) { c == '"' || c == '\'' }

  /** The byte classes the scanner's inner loops run over. */
  datatype CharClass =
    | Digits      // digits of a number
    | HexDigits   // digits of a hex number
    | WordChars   // letters, digits and '_' of a word
    | Blanks      // ' ', '\r', '\t' after a space
    | Indent      // leading ' ' and '\t' dropped from a line buffer
    | NotNewline  // the body of a '#' comment

  predicate InClass(c: char, cl: CharClass)
  {
    match cl
    case Digits => IsDigit(c)
    case HexDigits => IsXDigit(c)
    case WordChars => IsLetter(c) || IsDigit(c) || c == '_'
    case Blanks => c == ' ' || c == '\r' || c == '\t'
    case Indent => c == ' ' || c == '\t'
    case NotNewline => c != '\n' && c != NUL
  }

  /** The end of the longest run of bytes of class `cl` starting at `i`. */
  function RunEnd(src: string, i: int, cl: CharClass): (e: int)
    ensures i <= e
    ensures 0 <= i <= |src| ==> e <= |src|
    ensures forall k :: i <= k < e ==> InClass(At(src, k), cl)
    ensures !InClass(At(src, e), cl)
    decreases if i < |src| then |src| - i else 0
  {
    if InClass(At(src, i), cl) then RunEnd(src, i + 1, cl) else i
  }

  // ----- what nextToken skips -----

  /** Three '=' bytes at `i`: the delimiter of a long comment. */
  predicate Triple(src: string, i: int)
  {
    At(src, i) == '=' && At(src, i + 1) == '=' && At(src, i + 2) == '='
  }

  /** Where skipping stopped, with the line number reached, or the error met. */
  datatype Skip = Stop(pos: int, lineNum: int) | Fail(message: string, lineNum: int)

  /**
   * The body of a long comment from `i`: the position just after the closing
   * `===`, counting the newlines passed, or an error at end of input.
   */
  function LongCommentEnd(src: string, i: int, lineNum: int): (r: Skip)
    ensures r.Stop? ==> i + 3 <= r.pos && Triple(src, r.pos - 3) && lineNum <= r.lineNum
    ensures r.Stop? ==> forall j :: i <= j < r.pos - 3 ==> !Triple(src, j)
    ensures r.Stop? && 0 <= i ==> r.pos <= |src|
    ensures r.Fail? ==> r.message == "unterminated long comment"
    decreases if i < |src| then |src| - i else 0
  {
    if At(src, i) == NUL then Fail("unterminated long comment", lineNum)
    else if Triple(src, i) then Stop(i + 3, lineNum)
    else LongCommentEnd(src, i + 1, if At(src, i) == '\n' then lineNum + 1 else lineNum)
  }

  /** What one turn of nextToken's outer loop does before a token. */
  datatype SkipMove =
    | AtToken                                  // the byte here decides the token
    | PassTo(pos: int, lineNum: int)           // something was passed over
    | Raise(message: string, lineNum: int)     // an error

  /**
   * One turn of the outer loop: a long comment, a run of blanks that starts
   * with a space, a '#' comment or a line continuation is passed over.
   */
  function SkipOne(src: string, i: int, lineNum: int): (r: SkipMove)
    requires 0 <= i
    ensures r.PassTo? ==> i < r.pos <= |src| && lineNum <= r.lineNum
    ensures r.AtToken? ==> !Triple(src, i) && var c := At(src, i); c != ' ' && c != '#' && c != '\\'
  {
    var c := At(src, i);
    if c == NUL then AtToken
    else if Triple(src, i) then
      match LongCommentEnd(src, i + 3, lineNum)
      case Fail(m, l) => Raise(m, l)
      case Stop(p, l) => PassTo(p, l)
    else if c == ' ' then PassTo(RunEnd(src, i, Blanks), lineNum)
    else if c == '#' then PassTo(RunEnd(src, i, NotNewline), lineNum)
    else if c == '\\' then
      if At(src, i + 1) != '\n' then Raise("missing newline after line-continuation character", lineNum)
      else PassTo(i + 2, lineNum)
    else AtToken
  }

  /** The outer loop of nextToken, turned until a token's first byte, a newline, the end or an error. */
  function SkipSpec(src: string, i: int, lineNum: int): (r: Skip)
    requires 0 <= i
    ensures r.Stop? ==> i <= r.pos
    ensures r.Stop? ==> lineNum <= r.lineNum
    ensures r.Stop? ==> !Triple(src, r.pos)
    ensures r.Stop? ==> var c := At(src, r.pos); c != ' ' && c != '#' && c != '\\'
    decreases if i < |src| then |src| - i else 0
  {
    match SkipOne(src, i, lineNum)
    case AtToken => Stop(i, lineNum)
    case Raise(m, l) => Fail(m, l)
    case PassTo(p, l) => SkipSpec(src, p, l)
  }

  // ----- the token at a position -----

  /**
   * The one-, two- and three-byte symbols, chosen as the source's switch
   * does: for each first byte the longer spellings are tried first. The
   * colon is given the text "(".
   */
  function SymbolAt(src: string, i: int): Option<(string, Kind)>
  {
    var n := At(src, i + 1);
    match At(src, i)
    case '~' => Some(("~", TILDE))
    case '(' => Some(("(", LPAREN))
    case ')' => Some((")", RPAREN))
    case '[' => Some(("[", LBRACK))
    case ']' => Some(("]", RBRACK))
    case '{' => Some(("{", LBRACE))
    case '}' => Some(("}", RBRACE))
    case ',' => Some((",", COMMA))
    case ';' => Some((";", SEMICOLON))
    case ':' => Some(("(", COLON))
    case '.' => if n == '.' then Some(("..", DOTDOT)) else Some((".", DOT))
    case '+' => if n == '=' then Some(("+=", PLUSEQ)) else Some(("+", PLUS))
    case '-' => if n == '=' then Some(("-=", MINUSEQ)) else Some(("-", MINUS))
    case '*' => if n == '=' then Some(("*=", STAREQ)) else Some(("*", STAR))
    case '/' => if n == '=' then Some(("/=", SLASHEQ)) else Some(("/", SLASH))
    case '%' => if n == '=' then Some(("%=", PERCENTEQ)) else Some(("%", PERCENT))
    case '!' => if n == '=' then Some(("!=", BANGEQ)) else Some(("!", BANG))
    case '=' =>
      if n == '=' then Some(("==", EQEQ))
      else if n == '>' then Some(("=>", EQGT))
      else Some(("=", EQ))
    case '|' =>
      if n == '|' then Some(("||", PIPEPIPE))
      else if n == '=' then Some(("|=", PIPEEQ))
      else Some(("|", PIPE))
    case '&' =>
      if n == '&' then Some(("&&", AMPAMP))
      else if n == '=' then Some(("&=", AMPEQ))
      else Some(("&", AMP))
    case '^' => if n == '=' then Some(("^=", CARETEQ)) else Some(("^", CARET))
    case '<' =>
      if n == '<' then (if At(src, i + 2) == '=' then Some(("<<=", LEFTSHIFTEQ)) else Some(("<<", LEFTSHIFT)))
      else if n == '=' then Some(("<=", LTEQ))
      else Some(("<", LT))
    case '>' =>
      if n == '>' then (if At(src, i + 2) == '=' then Some((">>=", RIGHTSHIFTEQ)) else Some((">>", RIGHTSHIFT)))
      else if n == '=' then Some((">=", GTEQ))
      else Some((">", GT))
    case _ => None
  }

  /** Every operator spelling the scanner knows, with its kind. */
  const OPERATORS: seq<(string, Kind)> := [
    ("~", TILDE), ("(", LPAREN), (")", RPAREN), ("[", LBRACK), ("]", RBRACK),
    ("{", LBRACE), ("}", RBRACE), (",", COMMA), (";", SEMICOLON),
    ("..", DOTDOT), (".", DOT), ("+=", PLUSEQ), ("+", PLUS), ("-=", MINUSEQ), ("-", MINUS),
    ("*=", STAREQ), ("*", STAR), ("/=", SLASHEQ), ("/", SLASH), ("%=", PERCENTEQ), ("%", PERCENT),
    ("!=", BANGEQ), ("!", BANG), ("==", EQEQ), ("=>", EQGT), ("=", EQ),
    ("||", PIPEPIPE), ("|=", PIPEEQ), ("|", PIPE), ("&&", AMPAMP), ("&=", AMPEQ), ("&", AMP),
    ("^=", CARETEQ), ("^", CARET),
    ("<<=", LEFTSHIFTEQ), ("<<", LEFTSHIFT), ("<=", LTEQ), ("<", LT),
    (">>=", RIGHTSHIFTEQ), (">>", RIGHTSHIFT), (">=", GTEQ), (">", GT)
  ]

  /** The text `t` occurs in `src` at position `i`. */
  predicate PrefixAt(src: string, i: int, t: string)
    decreases |t|
  {
    |t| == 0 || (At(src, i) == t[0] && PrefixAt(src, i + 1, t[1..]))
  }

  /** What the token starting at a position is: its kind, text and end, or the error. */
  datatype Lexed = Lexeme(kind: Kind, text: string, end: int) | LexError(message: string)

  /** Go's `string(b)` for a byte: the UTF-8 encoding of the code point `b`. */
  function RuneText(c: char): (s: string)
    ensures c as int < 0x80 ==> s == [c]
    ensures 0x80 <= c as int < 0x100 ==> |s| == 2
  {
    if c as int < 0x80 then [c]
    else [(0xC0 + c as int / 64) as char, (0x80 + c as int % 64) as char]
  }

  /**
   * A string literal whose (optional raw prefix starts at `start` and whose)
   * opening quote is at `q`: it runs to the matching quote; a backslash hides
   * the byte after it.
   */
  function StringLexeme(src: string, start: int, q: int): (r: Lexed)
    requires 0 <= start <= q < |src| && IsQuote(src[q])
    ensures r.Lexeme? ==> r.kind == STRING && start < r.end <= |src| && r.text == src[start..r.end]
    ensures r.Lexeme? ==> q + 2 <= r.end && src[r.end - 1] == src[q]
    ensures r.LexError? ==> r.message == "unterminated string literal"
  {
    match StrEnd(src, q + 1, src[q])
    case None => LexError("unterminated string literal")
    case Some(k) => Lexeme(STRING, src[start..k + 1], k + 1)
  }

  /**
   * The position of the closing quote `quote` of a string body starting at
   * `i`, or None when the input ends first.
   */
  function StrEnd(src: string, i: int, quote: char): (r: Option<int>)
    requires 0 <= i && quote != NUL
    ensures r.Some? ==> i <= r.value < |src| && src[r.value] == quote
    decreases |src| + 1 - i
  {
    var c := At(src, i);
    if c == quote then Some(i)
    else if c == NUL then None
    else StrEnd(src, if c == '\\' then i + 2 else i + 1, quote)
  }

  /** A hex number at `i`: `0x` or `0X` and the hex digits after it. */
  function HexLexeme(src: string, i: int): (r: Lexed)
    requires 0 <= i && i + 2 <= |src|
    ensures r.Lexeme? && r.kind == INTEGER && i + 2 <= r.end <= |src| && r.text == src[i..r.end]
    ensures forall k :: i + 2 <= k < r.end ==> IsXDigit(At(src, k))
    ensures !IsXDigit(At(src, r.end))
  {
    var e := RunEnd(src, i + 2, HexDigits);
    Lexeme(INTEGER, src[i..e], e)
  }

  /** A word at `i`: a reserved word's kind, or NAME. */
  function WordLexeme(src: string, i: int): (r: Lexed)
    requires 0 <= i <= |src|
    ensures r.Lexeme? && i <= r.end <= |src| && r.text == src[i..r.end]
    ensures r.kind == (if r.text in RES_WORDS then RES_WORDS[r.text] else NAME)
    ensures forall k :: i <= k < r.end ==> InClass(At(src, k), WordChars)
    ensures !InClass(At(src, r.end), WordChars)
  {
    var e := RunEnd(src, i, WordChars);
    var text := src[i..e];
    Lexeme(if text in RES_WORDS then RES_WORDS[text] else NAME, text, e)
  }

  /** A decimal number at `i`: INTEGER, or FLOAT when a '.' not followed by '.' ends the digits. */
  function NumberLexeme(src: string, i: int): (r: Lexed)
    requires 0 <= i <= |src|
    ensures r.Lexeme? && i <= r.end <= |src| && r.text == src[i..r.end]
    ensures r.kind == INTEGER || r.kind == FLOAT
  {
    var e := RunEnd(src, i, Digits);
    if At(src, e) == '.' && At(src, e + 1) != '.' then
      var f := RunEnd(src, e + 1, Digits);
      Lexeme(FLOAT, src[i..f], f)
    else Lexeme(INTEGER, src[i..e], e)
  }

  /** The token that starts at `i`, once the skipping loop has stopped there. */
  function TokenAt(src: string, i: int): (r: Lexed)
    requires 0 <= i
    ensures r.Lexeme? ==> i < r.end
    ensures r.Lexeme? ==> 0 <= i < |src|
    ensures r.Lexeme? ==> r.end <= |src|
  {
    var sym := SymbolAt(src, i);
    if sym.Some? then Lexeme(sym.value.1, sym.value.0, i + |sym.value.0|)
    else LiteralAt(src, i)
  }

  /** The token at `i` when no symbol starts there: a number, a string, a word, or an error. */
  function LiteralAt(src: string, i: int): (r: Lexed)
    requires 0 <= i
    ensures r.Lexeme? ==> i < r.end
    ensures r.Lexeme? ==> 0 <= i < |src|
    ensures r.Lexeme? ==> r.end <= |src|
  {
    var c := At(src, i);
    if c == '0' && (At(src, i + 1) == 'X' || At(src, i + 1) == 'x') then HexLexeme(src, i)
    else if IsQuote(c) then StringLexeme(src, i, i)
    else if (c == 'R' || c == 'r') && IsQuote(At(src, i + 1)) then StringLexeme(src, i, i + 1)
    else if IsLetter(c) || c == '_' then WordLexeme(src, i)
    else if IsDigit(c) then NumberLexeme(src, i)
    else LexError("unrecognized character '" + RuneText(c) + "'")
  }

  // ----- one call of nextToken -----

  /** The end of the line starting at `i` (a newline or the end of the text). */
  function LineEnd(src: string, i: int): (e: int)
    requires 0 <= i <= |src|
    ensures i <= e <= |src|
    ensures forall k :: i <= k < e ==> src[k] != '\n'
    ensures e == |src| || src[e] == '\n'
    decreases |src| - i
  {
    if i < |src| && src[i] != '\n' then LineEnd(src, i + 1) else i
  }

  /** The line buffer loaded from position `i`: the rest of the line without its indentation. */
  function ReadLineSpec(src: string, i: int): (line: string)
    requires 0 <= i
    ensures forall k :: 0 <= k < |line| ==> line[k] != '\n'
    ensures |line| > 0 ==> line[0] != ' ' && line[0] != '\t'
  {
    var b := RunEnd(src, i, Indent);
    if b < |src| then src[b..LineEnd(src, b)] else ""
  }

  /** The scanner's position, line number and line buffer. */
  datatype ScanState = ScanState(pos: int, lineNum: int, lineBuf: string)

  /** The message of a scanner error (`postError`). */
  function ErrorText(pathname: string, lineNum: int, message: string, lineBuf: string): string
  {
    pathname + ":" + IntText(lineNum) + " => " + message + "\n   " + lineBuf
  }

  /** The token a lexeme becomes on the current line, or the error it raises. */
  function Emit(lx: Lexed, pathname: string, lineBuf: string, lineNum: int): Result<Token>
  {
    match lx
    case Lexeme(k, text, _) => Ok(Token(text, lineBuf, k, lineNum))
    case LexError(m) => Failure(ErrorText(pathname, lineNum, m, lineBuf))
  }

  /**
   * One call of nextToken: skip, then return the token found with the
   * state after it, or the error message. A newline token carries the line
   * it ends; the line buffer is then reloaded and the line number advanced.
   * The end-of-input token advances the position by three, the length of
   * its text.
   */
  function NextTokenSpec(src: string, pathname: string, st: ScanState): Result<(Token, ScanState)>
    requires 0 <= st.pos
  {
    match SkipSpec(src, st.pos, st.lineNum)
    case Fail(m, l) => Failure(ErrorText(pathname, l, m, st.lineBuf))
    case Stop(p, l) => TokenFrom(src, pathname, st.lineBuf, p, l)
  }

  /** The token at position `p`, where skipping stopped on line `l`, and the state after it. */
  function TokenFrom(src: string, pathname: string, lineBuf: string, p: int, l: int): Result<(Token, ScanState)>
    requires 0 <= p
  {
    if At(src, p) == NUL then
      Ok((Token("EOF", lineBuf, EOF, l), ScanState(p + 3, l, lineBuf)))
    else if At(src, p) == '\n' then
      Ok((Token("NL", lineBuf, NEWLINE, l), ScanState(p + 1, l + 1, ReadLineSpec(src, p + 1))))
    else
      match TokenAt(src, p)
      case LexError(m) => Failure(ErrorText(pathname, l, m, lineBuf))
      case Lexeme(k, text, e) => Ok((Token(text, lineBuf, k, l), ScanState(e, l, lineBuf)))
  }

  /** A token returned by a method and the new state agree with what a specification function computes. */
  predicate Agrees(r: Result<Token>, spec: Result<(Token, ScanState)>, st: ScanState)
  {
    match r
    case Ok(t) => spec == Ok((t, st))
    case Failure(m) => spec == Failure(m)
  }

  /** The input not yet consumed: the measure the parser's loops decrease. */
  function Rest(src: string, pos: int): nat
  {
    if pos < |src| then |src| - pos else 0
  }

  lemma StrEndStep(src: string, i: int, quote: char)
    requires 0 <= i && quote != NUL && At(src, i) != quote && At(src, i) != NUL
    ensures StrEnd(src, i, quote) == StrEnd(src, if At(src, i) == '\\' then i + 2 else i + 1, quote)
  {
  }

  // ----- properties of the token rules -----

  /** The symbol chosen at `i` is spelled there, the colon excepted. */
  lemma SymbolSpelled(src: string, i: int)
    requires SymbolAt(src, i).Some? && SymbolAt(src, i).value.1 != COLON
    ensures PrefixAt(src, i, SymbolAt(src, i).value.0)
  {
    var c := At(src, i);
    if c in {'~', '(', ')', '[', ']', '{', '}', ',', ';'} {
      SpelledSingle(src, i);
    } else if c in {'.', '+', '-', '*'} {
      SpelledPair1(src, i);
    } else if c in {'/', '%', '!', '^'} {
      SpelledPair2(src, i);
    } else if c in {'=', '|', '&'} {
      SpelledTriple(src, i);
    } else if c in {'<', '>'} {
      SpelledShift(src, i);
    }
  }

  lemma SpelledSingle(src: string, i: int)
    requires SymbolAt(src, i).Some? && At(src, i) in {'~', '(', ')', '[', ']', '{', '}', ',', ';'}
    ensures PrefixAt(src, i, SymbolAt(src, i).value.0)
  {
  }

  lemma SpelledPair1(src: string, i: int)
    requires SymbolAt(src, i).Some? && At(src, i) in {'.', '+', '-', '*'}
    ensures PrefixAt(src, i, SymbolAt(src, i).value.0)
  {
  }

  lemma SpelledPair2(src: string, i: int)
    requires SymbolAt(src, i).Some? && At(src, i) in {'/', '%', '!', '^'}
    ensures PrefixAt(src, i, SymbolAt(src, i).value.0)
  {
  }

  lemma SpelledTriple(src: string, i: int)
    requires SymbolAt(src, i).Some? && At(src, i) in {'=', '|', '&'}
    ensures PrefixAt(src, i, SymbolAt(src, i).value.0)
  {
  }

  lemma SpelledShift(src: string, i: int)
    requires SymbolAt(src, i).Some? && At(src, i) in {'<', '>'}
    ensures PrefixAt(src, i, SymbolAt(src, i).value.0)
  {
  }

  /** Longest match: no known operator spelled at `i` is longer than the symbol chosen there. */
  lemma SymbolLongest(src: string, i: int)
    ensures forall j :: 0 <= j < |OPERATORS| && PrefixAt(src, i, OPERATORS[j].0) ==>
      SymbolAt(src, i).Some? && |OPERATORS[j].0| <= |SymbolAt(src, i).value.0|
  {
    LongestAmong0(src, i);
    LongestAmong11(src, i);
    LongestAmong21(src, i);
    LongestAmong32(src, i);
  }

  lemma LongestAmong0(src: string, i: int)
    ensures forall j :: 0 <= j < 11 && PrefixAt(src, i, OPERATORS[j].0) ==>
      SymbolAt(src, i).Some? && |OPERATORS[j].0| <= |SymbolAt(src, i).value.0|
  {
  }

  lemma LongestAmong11(src: string, i: int)
    ensures forall j :: 11 <= j < 21 && PrefixAt(src, i, OPERATORS[j].0) ==>
      SymbolAt(src, i).Some? && |OPERATORS[j].0| <= |SymbolAt(src, i).value.0|
  {
  }

  lemma LongestAmong21(src: string, i: int)
    ensures forall j :: 21 <= j < 32 && PrefixAt(src, i, OPERATORS[j].0) ==>
      SymbolAt(src, i).Some? && |OPERATORS[j].0| <= |SymbolAt(src, i).value.0|
  {
  }

  lemma LongestAmong32(src: string, i: int)
    ensures forall j :: 32 <= j < 42 && PrefixAt(src, i, OPERATORS[j].0) ==>
      SymbolAt(src, i).Some? && |OPERATORS[j].0| <= |SymbolAt(src, i).value.0|
  {
  }

  /** A digit run followed by `..` stays an INTEGER, and the `..` after it is one DOTDOT. */
  lemma NumberBeforeRange(src: string, i: int)
    requires 0 <= i && IsDigit(At(src, i))
    requires var e := RunEnd(src, i, Digits); At(src, e) == '.' && At(src, e + 1) == '.'
    ensures var e := RunEnd(src, i, Digits);
      TokenAt(src, i) == Lexeme(INTEGER, src[i..e], e) && TokenAt(src, e) == Lexeme(DOTDOT, "..", e + 2)
  {
  }

  /** `1..3` lexes as INTEGER, DOTDOT, INTEGER. */
  lemma RangeLiteral()
    ensures TokenAt("1..3", 0) == Lexeme(INTEGER, "1", 1)
    ensures TokenAt("1..3", 1) == Lexeme(DOTDOT, "..", 3)
    ensures TokenAt("1..3", 3) == Lexeme(INTEGER, "3", 4)
  {
    NumberBeforeRange("1..3", 0);
    assert RunEnd("1..3", 0, Digits) == 1;
    assert RunEnd("1..3", 3, Digits) == 4;
  }

  /** Inside a string body every quote byte of the delimiting kind is escaped by the byte before it. */
  lemma {:induction false} StrEndEscaped(src: string, i: int, quote: char)
    requires 0 <= i && quote != NUL && StrEnd(src, i, quote).Some?
    ensures forall j :: i <= j < StrEnd(src, i, quote).value && src[j] == quote ==> i < j && src[j - 1] == '\\'
    decreases |src| + 1 - i
  {
    var c := At(src, i);
    if c != quote {
      var n := if c == '\\' then i + 2 else i + 1;
      StrEndEscaped(src, n, quote);
    }
  }

  /** A '#' comment runs to the end of its line: the next token is a NEWLINE or the end of input. */
  lemma CommentEndsLine(src: string, pathname: string, st: ScanState)
    requires 0 <= st.pos && At(src, st.pos) == '#'
    ensures NextTokenSpec(src, pathname, st).Ok?
    ensures NextTokenSpec(src, pathname, st).value.0.T in {NEWLINE, EOF}
  {
    var e := RunEnd(src, st.pos, NotNewline);
    assert At(src, e) == '\n' || At(src, e) == NUL;
    assert SkipOne(src, st.pos, st.lineNum) == PassTo(e, st.lineNum);
    assert SkipOne(src, e, st.lineNum) == AtToken;
    assert SkipSpec(src, st.pos, st.lineNum) == Stop(e, st.lineNum);
  }

  lemma {:induction false} LongCommentEndFails(src: string, i: int, lineNum: int)
    requires 0 <= i && forall j :: i <= j < |src| ==> !Triple(src, j)
    ensures LongCommentEnd(src, i, lineNum) == Fail("unterminated long comment", LongCommentEnd(src, i, lineNum).lineNum)
    decreases if i < |src| then |src| - i else 0
  {
    if At(src, i) != NUL {
      LongCommentEndFails(src, i + 1, if At(src, i) == '\n' then lineNum + 1 else lineNum);
    }
  }

  /** A long comment with no closing `===` makes nextToken fail. */
  lemma UnterminatedLongComment(src: string, pathname: string, st: ScanState)
    requires 0 <= st.pos && Triple(src, st.pos)
    requires forall j :: st.pos + 3 <= j < |src| ==> !Triple(src, j)
    ensures NextTokenSpec(src, pathname, st).Failure?
  {
    LongCommentEndFails(src, st.pos + 3, st.lineNum);
  }

  /** nextToken never moves backwards, and every token but EOF consumes input. */
  lemma NextTokenProgress(src: string, pathname: string, st: ScanState)
    requires 0 <= st.pos && NextTokenSpec(src, pathname, st).Ok?
    ensures var (t, st') := NextTokenSpec(src, pathname, st).value;
      st.pos < st'.pos && st.lineNum <= st'.lineNum &&
      (t.T != EOF ==> Rest(src, st'.pos) < Rest(src, st.pos))
  {
  }

  // ----- the scanner object -----

  class Scanner {
    const sourceProgram: string
    const pathname: string
    var lineBuf: string
    var charPointer: char
    var sourcePos: int
    var lineNum: int

    /** `charPointer` caches the byte at `sourcePos`. */
    ghost predicate Valid()
      reads this
    {
      0 <= sourcePos && charPointer == At(sourceProgram, sourcePos)
    }

    function State(): ScanState
      reads this
    {
      ScanState(sourcePos, lineNum, lineBuf)
    }

    /** `newScanner`: loads the first line and reads the first byte, on line 1. */
    constructor (src: string, path: string)
      ensures Valid() && sourceProgram == src && pathname == path
      ensures State() == ScanState(0, 1, ReadLineSpec(src, 0))
    {
      sourceProgram, pathname := src, path;
      sourcePos, lineNum := -1, 1;
      lineBuf, charPointer := "", NUL;
      new;
      ReadLine();
      var _ := NextChar();
    }

    /** The error message `postError` raises, for the current line. */
    function PostError(message: string): string
      reads this
    {
      ErrorText(pathname, lineNum, message, lineBuf)
    }

    /** Reloads the line buffer from the byte after the current position. */
    method ReadLine()
      requires -1 <= sourcePos
      modifies this
      ensures lineBuf == ReadLineSpec(sourceProgram, old(sourcePos) + 1)
      ensures sourcePos == old(sourcePos) && charPointer == old(charPointer) && lineNum == old(lineNum)
    {
      lineBuf := "";
      var i := sourcePos + 1;
      while i < |sourceProgram| && (sourceProgram[i] == ' ' || sourceProgram[i] == '\t')
        invariant sourcePos + 1 <= i
        invariant sourcePos == old(sourcePos) && charPointer == old(charPointer) && lineNum == old(lineNum)
        invariant RunEnd(sourceProgram, i, Indent) == RunEnd(sourceProgram, sourcePos + 1, Indent)
        decreases |sourceProgram| - i
      {
        i := i + 1;
      }
      if i < |sourceProgram| {
        var b := i;
        while i < |sourceProgram| && sourceProgram[i] != '\n'
          invariant b <= i <= |sourceProgram|
          invariant sourcePos == old(sourcePos) && charPointer == old(charPointer) && lineNum == old(lineNum)
          invariant lineBuf == sourceProgram[b..i]
          invariant LineEnd(sourceProgram, i) == LineEnd(sourceProgram, b)
          decreases |sourceProgram| - i
        {
          lineBuf := lineBuf + [sourceProgram[i]];
          i := i + 1;
        }
      }
    }

    /** Advances one byte and returns the byte now current (NUL past the end). */
    method NextChar() returns (c: char)
      requires -1 <= sourcePos
      modifies this
      ensures sourcePos == old(sourcePos) + 1 && Valid() && c == charPointer
      ensures lineNum == old(lineNum) && lineBuf == old(lineBuf)
    {
      sourcePos := sourcePos + 1;
      if sourcePos >= |sourceProgram| {
        charPointer := NUL;
      } else {
        charPointer := sourceProgram[sourcePos];
      }
      return charPointer;
    }

    /** The byte `num` positions ahead, without moving. */
    function PeekChar(num: nat): (c: char)
      reads this
      requires Valid()
      ensures c == At(sourceProgram, sourcePos + num)
    {
      if sourcePos + num >= |sourceProgram| then NUL else sourceProgram[sourcePos + num]
    }

    method NextCharx(num: nat)
      requires Valid()
      modifies this
      ensures Valid() && sourcePos == old(sourcePos) + num
      ensures lineNum == old(lineNum) && lineBuf == old(lineBuf)
    {
      for i := 0 to num
        invariant Valid() && sourcePos == old(sourcePos) + i
        invariant lineNum == old(lineNum) && lineBuf == old(lineBuf)
      {
        var _ := NextChar();
      }
    }

    /** The text from `spos` up to the current position. */
    function GetSlice(spos: int): (s: string)
      reads this
      requires 0 <= spos <= sourcePos <= |sourceProgram|
      ensures |s| == sourcePos - spos
    {
      sourceProgram[spos..sourcePos]
    }

    /** A token of the current line and line number (`makeToken`). */
    function MakeToken(str: string, kind: Kind): (t: Token)
      reads this
      ensures t.Str == str && t.T == kind && t.Line == lineBuf && t.LineNum == lineNum
    {
      Token(str, lineBuf, kind, lineNum)
    }

    /** A symbol token: advances past its one to three bytes first (`makeSymToken`). */
    method MakeSymToken(str: string, kind: Kind) returns (t: Token)
      requires Valid()
      modifies this
      ensures Valid() && sourcePos == old(sourcePos) + (if 1 <= |str| <= 3 then |str| else 0)
      ensures lineNum == old(lineNum) && lineBuf == old(lineBuf)
      ensures t == Token(str, lineBuf, kind, lineNum)
    {
      if 1 <= |str| <= 3 {
        NextCharx(|str|);
      }
      return MakeToken(str, kind);
    }

    /** Advances over the run of bytes of class `cl`. */
    method SkipRun(cl: CharClass)
      requires Valid()
      modifies this
      ensures Valid() && sourcePos == RunEnd(sourceProgram, old(sourcePos), cl)
      ensures lineNum == old(lineNum) && lineBuf == old(lineBuf)
    {
      while InClass(charPointer, cl)
        invariant Valid() && old(sourcePos) <= sourcePos
        invariant RunEnd(sourceProgram, sourcePos, cl) == RunEnd(sourceProgram, old(sourcePos), cl)
        invariant lineNum == old(lineNum) && lineBuf == old(lineBuf)
        decreases |sourceProgram| - sourcePos
      {
        var _ := NextChar();
      }
    }

    method NextToken() returns (r: Result<Token>)
      requires Valid()
      modifies this
      ensures Valid()
      ensures Agrees(r, NextTokenSpec(sourceProgram, pathname, old(State())), State())
    {
      var err := Skip();
      if err.Some? {
        return Failure(err.value);
      }
      r := TokenHere();
    }

    /** The switch of nextToken on the byte where skipping stopped. */
    method TokenHere() returns (r: Result<Token>)
      requires Valid()
      modifies this
      ensures Valid()
      ensures Agrees(r, TokenFrom(sourceProgram, pathname, old(lineBuf), old(sourcePos), old(lineNum)), State())
    {
      if charPointer == NUL {
        var t := MakeSymToken("EOF", EOF);
        return Ok(t);
      } else if charPointer == '\n' {
        var t := NewLine();
        return Ok(t);
      }
      r := LexToken();
    }

    /** The newline case: a NEWLINE token on the old line, then the next line is loaded. */
    method NewLine() returns (t: Token)
      requires Valid() && charPointer == '\n'
      modifies this
      ensures Valid() && t == Token("NL", old(lineBuf), NEWLINE, old(lineNum))
      ensures State() == ScanState(old(sourcePos) + 1, old(lineNum) + 1, ReadLineSpec(sourceProgram, old(sourcePos) + 1))
    {
      t := MakeToken("NL", NEWLINE);
      ReadLine();
      var _ := NextChar();
      lineNum := lineNum + 1;
    }

    /**
     * The part of nextToken's loop that passes over long comments, blanks,
     * '#' comments and line continuations, up to the byte that decides the
     * token.
     */
    method Skip() returns (err: Option<string>)
      requires Valid()
      modifies this
      ensures Valid() && lineBuf == old(lineBuf)
      ensures match SkipSpec(sourceProgram, old(sourcePos), old(lineNum))
        case Fail(m, l) => err == Some(ErrorText(pathname, l, m, lineBuf))
        case Stop(p, l) => err == None && sourcePos == p && lineNum == l
    {
      while charPointer != NUL
        invariant Valid() && lineBuf == old(lineBuf)
        invariant SkipSpec(sourceProgram, sourcePos, lineNum) == SkipSpec(sourceProgram, old(sourcePos), old(lineNum))
        decreases |sourceProgram| - sourcePos
      {
        var done;
        err, done := SkipOnce();
        if done {
          return;
        }
      }
      return None;
    }

    /** One turn of the skipping loop. */
    method SkipOnce() returns (err: Option<string>, done: bool)
      requires Valid()
      modifies this
      ensures Valid() && lineBuf == old(lineBuf)
      ensures match SkipOne(sourceProgram, old(sourcePos), old(lineNum))
        case AtToken => err == None && done && sourcePos == old(sourcePos) && lineNum == old(lineNum)
        case PassTo(p, l) => err == None && !done && sourcePos == p && lineNum == l
        case Raise(m, l) => err == Some(ErrorText(pathname, l, m, lineBuf)) && done
    {
      if charPointer == '=' && PeekChar(1) == '=' && PeekChar(2) == '=' {
        err := LongComment();
        return err, err.Some?;
      } else if charPointer == ' ' {
        SkipRun(Blanks);
      } else if charPointer == '#' {
        SkipRun(NotNewline);
      } else if charPointer == '\\' {
        if PeekChar(1) != '\n' {
          return Some(PostError("missing newline after line-continuation character")), true;
        }
        NextCharx(2);
      } else {
        return None, true;
      }
      return None, false;
    }

    /** The cases of nextToken's switch that produce a token from the current byte. */
    method LexToken() returns (r: Result<Token>)
      requires Valid()
      modifies this
      ensures Valid() && lineNum == old(lineNum) && lineBuf == old(lineBuf)
      ensures r == Emit(TokenAt(sourceProgram, old(sourcePos)), pathname, lineBuf, lineNum)
      ensures TokenAt(sourceProgram, old(sourcePos)).Lexeme? ==> sourcePos == TokenAt(sourceProgram, old(sourcePos)).end
    {
      var sym := SymbolAt(sourceProgram, sourcePos);
      if sym.Some? {
        var t := MakeSymToken(sym.value.0, sym.value.1);
        return Ok(t);
      }
      r := LexLiteral();
    }

    /** The cases of nextToken's switch after the symbols. */
    method LexLiteral() returns (r: Result<Token>)
      requires Valid()
      modifies this
      ensures Valid() && lineNum == old(lineNum) && lineBuf == old(lineBuf)
      ensures r == Emit(LiteralAt(sourceProgram, old(sourcePos)), pathname, lineBuf, lineNum)
      ensures LiteralAt(sourceProgram, old(sourcePos)).Lexeme? ==> sourcePos == LiteralAt(sourceProgram, old(sourcePos)).end
    {
      if charPointer == '0' {
        var next := PeekChar(1);
        if next == 'X' || next == 'x' {
          r := ParseHex();
          return;
        }
        r := ParseNumber();
        return;
      }
      if IsQuote(charPointer) {
        r := ParseString();
        return;
      }
      if IsLetter(charPointer) || charPointer == '_' {
        r := ParseWord();
      } else if IsDigit(charPointer) {
        r := ParseNumber();
      } else {
        r := Failure(PostError("unrecognized character '" + RuneText(charPointer) + "'"));
      }
    }

    /** A word: a raw string when `r`/`R` precedes a quote, else a keyword or a name. */
    method ParseWord() returns (r: Result<Token>)
      requires Valid() && (IsLetter(charPointer) || charPointer == '_')
      modifies this
      ensures Valid() && lineNum == old(lineNum) && lineBuf == old(lineBuf)
      ensures var lx := if (old(charPointer) == 'R' || old(charPointer) == 'r') && IsQuote(At(sourceProgram, old(sourcePos) + 1))
          then StringLexeme(sourceProgram, old(sourcePos), old(sourcePos) + 1)
          else WordLexeme(sourceProgram, old(sourcePos));
        r == Emit(lx, pathname, lineBuf, lineNum) && (lx.Lexeme? ==> sourcePos == lx.end)
    {
      var ch := PeekChar(1);
      if (charPointer == 'R' || charPointer == 'r') && (ch == '"' || ch == '\'') {
        r := ParseString();
        return;
      }
      var pos := sourcePos;
      SkipRun(WordChars);
      var buf := GetSlice(pos);
      if buf in RES_WORDS {
        return Ok(MakeToken(buf, RES_WORDS[buf]));
      }
      return Ok(MakeToken(buf, NAME));
    }

    /** A decimal number: INTEGER, or FLOAT when a '.' not followed by '.' comes after the digits. */
    method ParseNumber() returns (r: Result<Token>)
      requires Valid() && IsDigit(charPointer)
      modifies this
      ensures Valid() && lineNum == old(lineNum) && lineBuf == old(lineBuf)
      ensures r == Emit(NumberLexeme(sourceProgram, old(sourcePos)), pathname, lineBuf, lineNum)
      ensures sourcePos == NumberLexeme(sourceProgram, old(sourcePos)).end
    {
      var pos := sourcePos;
      SkipRun(Digits);
      if charPointer == '.' && PeekChar(1) != '.' {
        var _ := NextChar();
        SkipRun(Digits);
        return Ok(MakeToken(GetSlice(pos), FLOAT));
      }
      return Ok(MakeToken(GetSlice(pos), INTEGER));
    }

    /** A hex number: `0x` or `0X` and the hex digits after it, as an INTEGER token. */
    method ParseHex() returns (r: Result<Token>)
      requires Valid() && charPointer == '0'
      requires PeekChar(1) == 'x' || PeekChar(1) == 'X'
      modifies this
      ensures Valid() && lineNum == old(lineNum) && lineBuf == old(lineBuf)
      ensures r == Emit(HexLexeme(sourceProgram, old(sourcePos)), pathname, lineBuf, lineNum)
      ensures sourcePos == HexLexeme(sourceProgram, old(sourcePos)).end
    {
      var pos := sourcePos;
      NextCharx(2);
      SkipRun(HexDigits);
      return Ok(MakeToken(GetSlice(pos), INTEGER));
    }

    /** A string literal, with its optional raw prefix, through the closing quote. */
    method ParseString() returns (r: Result<Token>)
      requires Valid()
      requires IsQuote(charPointer) || ((charPointer == 'R' || charPointer == 'r') && IsQuote(PeekChar(1)))
      modifies this
      ensures Valid() && lineNum == old(lineNum) && lineBuf == old(lineBuf)
      ensures var lx := StringLexeme(sourceProgram, old(sourcePos), if IsQuote(old(charPointer)) then old(sourcePos) else old(sourcePos) + 1);
        r == Emit(lx, pathname, lineBuf, lineNum) && (lx.Lexeme? ==> sourcePos == lx.end)
    {
      var pos := sourcePos;
      if charPointer == 'R' || charPointer == 'r' {
        var _ := NextChar();
      }
      ghost var lx := StringLexeme(sourceProgram, pos, sourcePos);
      var quote := charPointer;
      var _ := NextChar();
      StringBody(quote);
      if charPointer == NUL {
        assert lx == LexError("unterminated string literal");
        return Failure(PostError("unterminated string literal"));
      }
      var _ := NextChar();
      assert lx == Lexeme(STRING, sourceProgram[pos..sourcePos], sourcePos);
      return Ok(MakeToken(GetSlice(pos), STRING));
    }

    /** The loop of parseString: up to the closing `quote` or the end of input. */
    method StringBody(quote: char)
      requires Valid() && quote != NUL
      modifies this
      ensures Valid() && lineNum == old(lineNum) && lineBuf == old(lineBuf)
      ensures match StrEnd(sourceProgram, old(sourcePos), quote)
        case None => charPointer == NUL
        case Some(k) => sourcePos == k && charPointer == quote
    {
      while charPointer != quote && charPointer != NUL
        invariant Valid() && old(sourcePos) <= sourcePos
        invariant lineNum == old(lineNum) && lineBuf == old(lineBuf)
        invariant StrEnd(sourceProgram, sourcePos, quote) == StrEnd(sourceProgram, old(sourcePos), quote)
        decreases |sourceProgram| + 1 - sourcePos
      {
        StrEndStep(sourceProgram, sourcePos, quote);
        if charPointer == '\\' {
          var _ := NextChar();
        }
        var _ := NextChar();
      }
    }

    /** Passes over a `===` long comment, counting its newlines. */
    method LongComment() returns (err: Option<string>)
      requires Valid() && Triple(sourceProgram, sourcePos)
      modifies this
      ensures Valid() && lineBuf == old(lineBuf)
      ensures match LongCommentEnd(sourceProgram, old(sourcePos) + 3, old(lineNum))
        case Fail(m, l) => err == Some(ErrorText(pathname, l, m, lineBuf))
        case Stop(p, l) => err == None && sourcePos == p && lineNum == l
    {
      NextCharx(3);
      while charPointer != NUL
        invariant Valid() && lineBuf == old(lineBuf) && old(sourcePos) + 3 <= sourcePos
        invariant LongCommentEnd(sourceProgram, sourcePos, lineNum) == LongCommentEnd(sourceProgram, old(sourcePos) + 3, old(lineNum))
        decreases |sourceProgram| - sourcePos
      {
        if charPointer == '=' {
          if PeekChar(1) == '=' && PeekChar(2) == '=' {
            break;
          }
        }
        if charPointer == '\n' {
          lineNum := lineNum + 1;
        }
        var _ := NextChar();
      }
      if charPointer == NUL {
        return Some(PostError("unterminated long comment"));
      }
      NextCharx(3);
      return None;
    }
  }
}
