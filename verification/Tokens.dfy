/** Tokens (include/assembler/tokens.h), with the meaning of literals, registers and opcodes already worked out. */
module Tokens {
  import opened Words
  import opened Instructions

  /** The text of a token. The parser compares it with its keywords; other spellings matter up to equality only. */
  datatype Name = KwSection | KwText | KwData | KwBss
    | KwDword | KwWord | KwHalfword | KwByte | KwFloat | KwDouble | KwZero | KwString
    | Spelled(spelling: string)

  type CsrAddress = a: nat | a < 0x1000
  type RoundingMode = m: nat | m < 8

  /** `Invalid` stands for the types no format accepts. A register can be spelled like a keyword: x0 is `zero`. */
  datatype Lexeme =
    | Eof | Invalid(name: Name) | Directive(name: Name) | Opcode(op: Op)
    | Gpr(reg: Reg, name: Name) | Fpr(reg: Reg) | CsrRegister(csr: CsrAddress) | Rm(mode: RoundingMode)
    | Num(number: int) | FloatNum(single: U32, double: U64) | Str(name: Name, bytes: seq<U8>)
    | Label(name: Name) | LabelRef(name: Name) | Comma | LParen | RParen

  datatype Token = Token(lexeme: Lexeme, line: nat)

  /** What every accessor returns past the end of the token list. */
  const END := Token(Eof, 1)

  predicate Spells(t: Token, name: Name) {
    match t.lexeme
    case Invalid(n) => n == name
    case Directive(n) => n == name
    case Gpr(_, n) => n == name
    case Str(n, _) => n == name
    case Label(n) => n == name
    case LabelRef(n) => n == name
    case _ => false
  }

  function Peek(tokens: seq<Token>, i: nat): Token { if i < |tokens| then tokens[i] else END }

  /** The first position from `pos` on that is off the line, or the end of the file. */
  function SkipLine(tokens: seq<Token>, pos: nat, line: nat): (end: nat)
    requires pos <= |tokens|
    ensures pos <= end <= |tokens|
    ensures end > pos || !(pos < |tokens| && tokens[pos].line == line && !tokens[pos].lexeme.Eof?)
    ensures end < |tokens| ==> tokens[end].line != line || tokens[end].lexeme.Eof?
    ensures forall i | pos <= i < end :: tokens[i].line == line && !tokens[i].lexeme.Eof?
    decreases |tokens| - pos
  {
    if pos < |tokens| && tokens[pos].line == line && !tokens[pos].lexeme.Eof? then SkipLine(tokens, pos + 1, line)
      else pos
  }

  /** The rest of a line: what the format matchers look at. */
  function RestOfLine(tokens: seq<Token>, pos: nat, line: nat): seq<Lexeme>
    requires pos <= |tokens|
    decreases |tokens| - pos
  {
    if pos < |tokens| && tokens[pos].line == line && !tokens[pos].lexeme.Eof?
    then [tokens[pos].lexeme] + RestOfLine(tokens, pos + 1, line) else []
  }
}
