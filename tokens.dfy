/**
 * Token and node kinds of the blue front end. The scanner's token types and
 * the parser's imaginary node types share one enumeration, in the same order
 * as the source (token/token_type.go), whose parser tests kinds by ordinal
 * range.
 */
module Tokens {
  /** A token or node kind: its position in the enumeration (Go's `iota` value). */
  newtype Kind = x: int | 0 <= x < 121

  const STRING: Kind := 0
  const INTEGER: Kind := 1
  const FLOAT: Kind := 2
  const TRUE: Kind := 3
  const FALSE: Kind := 4
  const NIL: Kind := 5
  const DEF: Kind := 6
  const IF: Kind := 7
  const ELIF: Kind := 8
  const ELSE: Kind := 9
  const DO: Kind := 10
  const END: Kind := 11
  const FOR: Kind := 12
  const WHILE: Kind := 13
  const SWITCH: Kind := 14
  const CASE: Kind := 15
  const DEFAULT: Kind := 16
  const IN: Kind := 17
  const RETURN: Kind := 18
  const THEN: Kind := 19
  const PRINT: Kind := 20
  const CONTINUE: Kind := 21
  const BREAK: Kind := 22
  const IMPORT: Kind := 23
  const FROM: Kind := 24
  const CLASS: Kind := 25
  const EXTENDS: Kind := 26
  const NEW: Kind := 27
  const LT: Kind := 28
  const LTEQ: Kind := 29
  const GT: Kind := 30
  const GTEQ: Kind := 31
  const LEFTSHIFT: Kind := 32
  const RIGHTSHIFT: Kind := 33
  const DOT: Kind := 34
  const DOTDOT: Kind := 35
  const PLUS: Kind := 36
  const MINUS: Kind := 37
  const STAR: Kind := 38
  const SLASH: Kind := 39
  const PERCENT: Kind := 40
  const BANG: Kind := 41
  const TILDE: Kind := 42
  const LPAREN: Kind := 43
  const RPAREN: Kind := 44
  const LBRACK: Kind := 45
  const RBRACK: Kind := 46
  const LBRACE: Kind := 47
  const RBRACE: Kind := 48
  const COMMA: Kind := 49
  const SEMICOLON: Kind := 50
  const EQEQ: Kind := 51
  const BANGEQ: Kind := 52
  const PIPE: Kind := 53
  const PIPEPIPE: Kind := 54
  const AMP: Kind := 55
  const AMPAMP: Kind := 56
  const CARET: Kind := 57
  const EQGT: Kind := 58
  const NEWLINE: Kind := 59
  const COLON: Kind := 60
  const EQ: Kind := 61
  const PIPEEQ: Kind := 62
  const CARETEQ: Kind := 63
  const AMPEQ: Kind := 64
  const LEFTSHIFTEQ: Kind := 65
  const RIGHTSHIFTEQ: Kind := 66
  const PLUSEQ: Kind := 67
  const MINUSEQ: Kind := 68
  const STAREQ: Kind := 69
  const SLASHEQ: Kind := 70
  const PERCENTEQ: Kind := 71
  const NAME: Kind := 72
  const EOF: Kind := 73
  const BLOCK: Kind := 74
  const LIST: Kind := 75
  const HASH: Kind := 76
  const HASH_ELEM: Kind := 77
  const CALL: Kind := 78
  const MAKE_CLASS: Kind := 79
  const SUBSCRIPT: Kind := 80
  const NEGATE: Kind := 81
  const AUGASSIGN: Kind := 82
  const COMP_OP: Kind := 83
  const MAKE_FUNC: Kind := 84
  const MAKE_INSTANCE: Kind := 85
  const PATH: Kind := 86
  const SLICE: Kind := 87
  const CLASSBLOCK: Kind := 88
  const PARAMETERS: Kind := 89
  const ARGUMENTS: Kind := 90
  const LE: Kind := 91
  const GE: Kind := 92
  const MEMBER: Kind := 93
  const RANGE: Kind := 94
  const ADD: Kind := 95
  const SUB: Kind := 96
  const MUL: Kind := 97
  const DIV: Kind := 98
  const MODULO: Kind := 99
  const COMPL: Kind := 100
  const ASSIGN: Kind := 101
  const NE: Kind := 102
  const LOGICAL_OR: Kind := 103
  const LOGICAL_AND: Kind := 104
  const BITWISE_OR: Kind := 105
  const BITWISE_AND: Kind := 106
  const XOR: Kind := 107
  const NOT: Kind := 108
  const ASS_BITWISE_OR: Kind := 109
  const ASS_BITWISE_AND: Kind := 110
  const ASS_XOR: Kind := 111
  const ASS_LEFTSHIFT: Kind := 112
  const ASS_RIGHTSHIFT: Kind := 113
  const ASS_ADD: Kind := 114
  const ASS_SUB: Kind := 115
  const ASS_MUL: Kind := 116
  const ASS_DIV: Kind := 117
  const ASS_MODULO: Kind := 118
  const FILE_INPUT: Kind := 119
  const INTERACTIVE: Kind := 120

  /** Literal token kinds: `STRING` through `NIL`. */
  predicate IsLiteral(k: Kind)
  {
    k <= NIL
  }

  /** Reserved-word token kinds: `DEF` through `NEW`. */
  predicate IsKeyword(k: Kind)
  {
    DEF <= k <= NEW
  }

  /** The compound assignment symbols: `|=` through `%=`. */
  predicate IsAugAssign(k: Kind)
  {
    PIPEEQ <= k <= PERCENTEQ
  }

  /** The reserved words and the token kind each one lexes to. */
  const RES_WORDS: map<string, Kind> := map[
    "true" := TRUE,
    "false" := FALSE,
    "nil" := NIL,
    "def" := DEF,
    "if" := IF,
    "elif" := ELIF,
    "else" := ELSE,
    "do" := DO,
    "then" := THEN,
    "end" := END,
    "for" := FOR,
    "while" := WHILE,
    "switch" := SWITCH,
    "case" := CASE,
    "default" := DEFAULT,
    "in" := IN,
    "return" := RETURN,
    "print" := PRINT,
    "continue" := CONTINUE,
    "break" := BREAK,
    "import" := IMPORT,
    "from" := FROM,
    "class" := CLASS,
    "extends" := EXTENDS,
    "new" := NEW
  ]

  /** A token: its text, the source line it was read from, its kind and line number. */
  datatype Token = Token(Str: string, Line: string, T: Kind, LineNum: int)
}
