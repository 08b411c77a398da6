/** Assembly syntax as it is printed, and the proof that the format matchers read it back: which instructions can be
    written in the assembler's language, and that their operands arrive where they belong. */
module Printing {
  import opened Wrappers
  import opened Instructions
  import opened Tokens
  import opened CodeGenerator
  import opened ParseFormats
  import Decoder

  function OpOf(i: Inst): Op {
    match i
    case InstR(op, _, _, _) => R(op)
    case InstI1(op, _, _, _) => I1(op)
    case InstI2(op, _, _, _) => I2(op)
    case InstEcall => Ecall
    case InstS(op, _, _, _) => S(op)
    case InstB(op, _, _, _) => B(op)
    case InstU(op, _, _) => U(op)
    case InstJal(_, _) => Jal
    case InstCsrR(op, _, _, _) => CsrR(op)
    case InstCsrI(op, _, _, _) => CsrI(op)
    case InstFR(op, _, _, _) => FR(op)
    case InstFR1(op, _, _, _, _) => FR1(op)
    case InstFR2(op, _, _, _) => FR2(op)
    case InstFR3(op, _, _) => FR3(op)
    case InstFR4(op, _, _, _, _, _) => FR4(op)
    case InstFI(op, _, _, _) => FI(op)
    case InstFS(op, _, _, _) => FS(op)
  }

  function X(r: Reg): Lexeme { Gpr(r, Spelled("x")) }

  function Separated(a: seq<Lexeme>): (l: seq<Lexeme>)
    requires a != []
    ensures l != []
  {
    if |a| == 1 then a else [a[0], Comma] + Separated(a[1..])
  }

  function MemoryOperand(r: Lexeme, imm: int, base: Reg): seq<Lexeme> { [r, Comma, Num(imm), LParen, X(base), RParen] }

  /** A dynamic rounding mode is left out. */
  function Rounded(a: seq<Lexeme>, rm: RoundingMode): seq<Lexeme> { if rm == 7 then a else a + [Lexeme.Rm(rm)] }

  predicate IsMemory(op: I1Op) { op in {Lb, Lh, Lw, Ld, Lbu, Lhu, Lwu, Jalr} }

  /** The register operands of a conversion or move, by the kinds the ISA gives them. */
  function ConversionOperands(op: FR2Op, rd: Reg, rs1: Reg): seq<Lexeme> {
    if op in {FcvtWS, FcvtWuS, FcvtLS, FcvtLuS, FcvtWD, FcvtWuD, FcvtLD, FcvtLuD} then [X(rd), Fpr(rs1)]
    else if op in {FsqrtS, FsqrtD, FcvtSD, FcvtDS} then [Fpr(rd), Fpr(rs1)]
    else [Fpr(rd), X(rs1)]
  }

  /** The operands of an instruction as they follow its mnemonic on a line. */
  function Print(i: Inst): seq<Lexeme>
    requires WellFormed(i)
  {
    match i
    case InstR(_, rd, rs1, rs2) => Separated([X(rd), X(rs1), X(rs2)])
    case InstI1(op, rd, rs1, imm) =>
      if IsMemory(op) then MemoryOperand(X(rd), imm, rs1) else Separated([X(rd), X(rs1), Num(imm)])
    case InstI2(_, rd, rs1, imm) => Separated([X(rd), X(rs1), Num(imm)])
    case InstEcall => []
    case InstS(_, rs1, rs2, imm) => MemoryOperand(X(rs2), imm, rs1)
    case InstB(_, rs1, rs2, imm) => Separated([X(rs1), X(rs2), Num(imm)])
    case InstU(_, rd, imm) => Separated([X(rd), Num(imm)])
    case InstJal(rd, imm) => Separated([X(rd), Num(imm)])
    case InstCsrR(_, rd, rs1, csr) => Separated([X(rd), CsrRegister(csr), X(rs1)])
    case InstCsrI(_, rd, imm, csr) => Separated([X(rd), CsrRegister(csr), Num(imm)])
    case InstFR(op, rd, rs1, rs2) =>
      Separated([if op in {FeqS, FltS, FleS, FeqD, FltD, FleD} then X(rd) else Fpr(rd), Fpr(rs1), Fpr(rs2)])
    case InstFR1(_, rd, rs1, rs2, rm) => Separated(Rounded([Fpr(rd), Fpr(rs1), Fpr(rs2)], rm))
    case InstFR2(op, rd, rs1, rm) => Separated(Rounded(ConversionOperands(op, rd, rs1), rm))
    case InstFR3(op, rd, rs1) => Separated(if op in {FmvWX, FmvDX} then [Fpr(rd), X(rs1)] else [X(rd), Fpr(rs1)])
    case InstFR4(_, rd, rs1, rs2, rs3, rm) => Separated(Rounded([Fpr(rd), Fpr(rs1), Fpr(rs2), Fpr(rs3)], rm))
    case InstFI(_, rd, rs1, imm) => MemoryOperand(Fpr(rd), imm, rs1)
    case InstFS(_, rs1, rs2, imm) => MemoryOperand(Fpr(rs2), imm, rs1)
  }

  /** What the syntax table leaves out: the 32-bit forms of the base set, shift amounts above 31, branch offsets that
      are not multiples of 4, and a rounding mode on the conversions to or from double precision for which the table
      lists the wrong register kinds. */
  predicate Writable(i: Inst) {
    match i
    case InstR(op, _, _, _) => op !in {Addw, Subw, Sllw, Srlw, Sraw}
    case InstI1(op, _, _, _) => op != Addiw
    case InstI2(op, _, _, imm) => op in {Slli, Srli, Srai} && imm <= 31
    case InstB(_, _, _, imm) => imm % 4 == 0
    case InstFR2(op, _, _, rm) =>
      rm == 7 || op !in {FcvtWD, FcvtWuD, FcvtLD, FcvtLuD, FcvtDW, FcvtDWu, FcvtSD, FcvtDS}
    case _ => true
  }

  /** The outcome of assembling a line. */
  function AssembledLine(op: Op, l: seq<Lexeme>, line: nat, index: nat, symbols: SymbolTable, o: Options): Outcome {
    FirstMatch(Syntaxes(op), Unit(op, line), l, index, symbols, o)
  }

  predicate Denotes(outcome: Outcome, i: Inst) {
    outcome.Emitted? && |outcome.units| == 1 && Instruction(outcome.units[0]) == Ok(i) && outcome.units[0].target.None?
  }

  lemma {:induction false} OperandsOfSeparated(a: seq<Lexeme>)
    requires a != []
    ensures Operands(Separated(a)) == a && (|a| > 1 ==> |Separated(a)| % 2 == 1 && |Separated(a)| >= 3)
  {
    if |a| > 1 {
      OperandsOfSeparated(a[1..]);
      assert Separated(a)[2..] == Separated(a[1..]);
    }
  }

  /** Matching goes by the formats of the opcode, in order. */
  lemma Matches(xs: seq<Syntax>, u: ICUnit, l: seq<Lexeme>, index: nat, symbols: SymbolTable, o: Options)
    requires |xs| <= 2
    ensures FirstMatch(xs, u, l, index, symbols, o)
      == if |xs| == 0 then NoMatch
         else if |xs| == 1 || !Format(xs[0], u, l, index, symbols, o).NoMatch?
           then Format(xs[0], u, l, index, symbols, o)
         else Format(xs[1], u, l, index, symbols, o)
  {
    hide Format;
  }

  /** Printing `i` and assembling the line gives `i` back exactly if it is writable. */
  predicate ReadsBack(i: Inst, line: nat, index: nat, symbols: SymbolTable, o: Options)
    requires WellFormed(i)
  {
    var outcome := AssembledLine(OpOf(i), Print(i), line, index, symbols, o);
    if Writable(i) then Denotes(outcome, i) else !outcome.Emitted? && !outcome.Deferred?
  }

  lemma ReadsBackR(i: Inst, line: nat, index: nat, symbols: SymbolTable, o: Options)
    requires i.InstR?
    ensures ReadsBack(i, line, index, symbols, o)
  {
    hide Operands, Separated;
    OperandsOfSeparated([X(i.rd), X(i.rs1), X(i.rs2)]);
    Matches(Syntaxes(OpOf(i)), Unit(OpOf(i), line), Print(i), index, symbols, o);
    hide FirstMatch;
  }

  lemma ReadsBackI(i: Inst, line: nat, index: nat, symbols: SymbolTable, o: Options)
    requires (i.InstI1? || i.InstI2?) && WellFormed(i)
    ensures ReadsBack(i, line, index, symbols, o)
  {
    hide Operands, Separated;
    OperandsOfSeparated([X(i.rd), X(i.rs1), Num(i.imm)]);
    Matches(Syntaxes(OpOf(i)), Unit(OpOf(i), line), Print(i), index, symbols, o);
    hide FirstMatch, PcRelative;
  }

  lemma ReadsBackStore(i: Inst, line: nat, index: nat, symbols: SymbolTable, o: Options)
    requires (i.InstS? || i.InstFS? || i.InstFI?) && WellFormed(i)
    ensures ReadsBack(i, line, index, symbols, o)
  {
    hide Operands, Separated;
    Matches(Syntaxes(OpOf(i)), Unit(OpOf(i), line), Print(i), index, symbols, o);
    hide FirstMatch;
  }

  lemma ReadsBackB(i: Inst, line: nat, index: nat, symbols: SymbolTable, o: Options)
    requires i.InstB? && WellFormed(i)
    ensures ReadsBack(i, line, index, symbols, o)
  {
    hide Operands, Separated;
    OperandsOfSeparated([X(i.rs1), X(i.rs2), Num(i.imm)]);
    Matches(Syntaxes(OpOf(i)), Unit(OpOf(i), line), Print(i), index, symbols, o);
    hide FirstMatch, ToLabel;
  }

  lemma ReadsBackU(i: Inst, line: nat, index: nat, symbols: SymbolTable, o: Options)
    requires (i.InstU? || i.InstJal?) && WellFormed(i)
    ensures ReadsBack(i, line, index, symbols, o)
  {
    hide Operands, Separated;
    OperandsOfSeparated([X(i.rd), Num(i.imm)]);
    Matches(Syntaxes(OpOf(i)), Unit(OpOf(i), line), Print(i), index, symbols, o);
    hide FirstMatch, ToLabel;
  }

  lemma ReadsBackSystem(i: Inst, line: nat, index: nat, symbols: SymbolTable, o: Options)
    requires (i.InstCsrR? || i.InstCsrI? || i.InstEcall?) && WellFormed(i)
    ensures ReadsBack(i, line, index, symbols, o)
  {
    hide Operands, Separated;
    if i.InstCsrR? { OperandsOfSeparated([X(i.rd), CsrRegister(i.csr), X(i.rs1)]); }
    if i.InstCsrI? { OperandsOfSeparated([X(i.rd), CsrRegister(i.csr), Num(i.imm)]); }
    Matches(Syntaxes(OpOf(i)), Unit(OpOf(i), line), Print(i), index, symbols, o);
    hide FirstMatch;
  }

  lemma ReadsBackFR(i: Inst, line: nat, index: nat, symbols: SymbolTable, o: Options)
    requires i.InstFR?
    ensures ReadsBack(i, line, index, symbols, o)
  {
    hide Operands, Separated;
    OperandsOfSeparated([if i.fr in {FeqS, FltS, FleS, FeqD, FltD, FleD} then X(i.rd)
      else Fpr(i.rd), Fpr(i.rs1), Fpr(i.rs2)]);
    Matches(Syntaxes(OpOf(i)), Unit(OpOf(i), line), Print(i), index, symbols, o);
    hide FirstMatch;
  }

  lemma ReadsBackMove(i: Inst, line: nat, index: nat, symbols: SymbolTable, o: Options)
    requires i.InstFR3?
    ensures ReadsBack(i, line, index, symbols, o)
  {
    hide Operands, Separated;
    OperandsOfSeparated(if i.fr3 in {FmvWX, FmvDX} then [Fpr(i.rd), X(i.rs1)] else [X(i.rd), Fpr(i.rs1)]);
    Matches(Syntaxes(OpOf(i)), Unit(OpOf(i), line), Print(i), index, symbols, o);
    hide FirstMatch;
  }

  lemma ReadsBackRounded(i: Inst, line: nat, index: nat, symbols: SymbolTable, o: Options)
    requires (i.InstFR1? || i.InstFR4?) && WellFormed(i)
    ensures ReadsBack(i, line, index, symbols, o)
  {
    hide Operands, Separated;
    if i.InstFR1? { OperandsOfSeparated(Rounded([Fpr(i.rd), Fpr(i.rs1), Fpr(i.rs2)], i.rm)); }
    else { OperandsOfSeparated(Rounded([Fpr(i.rd), Fpr(i.rs1), Fpr(i.rs2), Fpr(i.rs3)], i.rm)); }
    Matches(Syntaxes(OpOf(i)), Unit(OpOf(i), line), Print(i), index, symbols, o);
    hide FirstMatch;
  }

  lemma ReadsBackDynamic(i: Inst, line: nat, index: nat, symbols: SymbolTable, o: Options)
    requires i.InstFR2? && i.rm == 7
    ensures ReadsBack(i, line, index, symbols, o)
  {
    hide Operands, Separated, FirstMatch;
    OperandsOfSeparated(ConversionOperands(i.fr2, i.rd, i.rs1));
    Matches(Syntaxes(OpOf(i)), Unit(OpOf(i), line), Print(i), index, symbols, o);
  }

  lemma ReadsBackConversion(i: Inst, line: nat, index: nat, symbols: SymbolTable, o: Options)
    requires i.InstFR2? && WellFormed(i) && i.rm != 7
    ensures ReadsBack(i, line, index, symbols, o)
  {
    hide Operands, Separated;
    OperandsOfSeparated(ConversionOperands(i.fr2, i.rd, i.rs1) + [Lexeme.Rm(i.rm)]);
    Matches(Syntaxes(OpOf(i)), Unit(OpOf(i), line), Print(i), index, symbols, o);
    hide FirstMatch;
  }

  /** Every well-formed instruction, printed in assembly syntax, assembles to itself if it is writable, and otherwise
      is a syntax or range error. */
  lemma PrintThenAssemble(i: Inst, line: nat, index: nat, symbols: SymbolTable, o: Options)
    requires WellFormed(i)
    ensures ReadsBack(i, line, index, symbols, o)
  {
    hide ReadsBack;
    match i
    case InstR(_, _, _, _) => ReadsBackR(i, line, index, symbols, o);
    case InstI1(_, _, _, _) => ReadsBackI(i, line, index, symbols, o);
    case InstI2(_, _, _, _) => ReadsBackI(i, line, index, symbols, o);
    case InstB(_, _, _, _) => ReadsBackB(i, line, index, symbols, o);
    case InstU(_, _, _) => ReadsBackU(i, line, index, symbols, o);
    case InstJal(_, _) => ReadsBackU(i, line, index, symbols, o);
    case InstEcall => ReadsBackSystem(i, line, index, symbols, o);
    case InstCsrR(_, _, _, _) => ReadsBackSystem(i, line, index, symbols, o);
    case InstCsrI(_, _, _, _) => ReadsBackSystem(i, line, index, symbols, o);
    case InstFR(_, _, _, _) => ReadsBackFR(i, line, index, symbols, o);
    case InstFR3(_, _, _) => ReadsBackMove(i, line, index, symbols, o);
    case InstFR2(_, _, _, rm) =>
      if rm == 7 { ReadsBackDynamic(i, line, index, symbols, o); }
        else { ReadsBackConversion(i, line, index, symbols, o); }
    case InstFR1(_, _, _, _, _) => ReadsBackRounded(i, line, index, symbols, o);
    case InstFR4(_, _, _, _, _, _) => ReadsBackRounded(i, line, index, symbols, o);
    case _ => ReadsBackStore(i, line, index, symbols, o);
  }

  /** From the printed line to the word and back: what a writable instruction assembles to decodes to it. */
  lemma PrintAssembleDecode(i: Inst, line: nat, index: nat, symbols: SymbolTable, o: Options)
    requires WellFormed(i) && Writable(i)
    ensures var outcome := AssembledLine(OpOf(i), Print(i), line, index, symbols, o);
      Denotes(outcome, i) && Generable(outcome.units[0])
        && Decoder.Decode(Generate(Instruction(outcome.units[0]).value)) == Some(i)
  {
    PrintThenAssemble(i, line, index, symbols, o);
    Decoder.DecodeInvertsGenerate(i);
    hide AssembledLine, Print, Generate, Instruction, Decoder.Decode, WellFormed, Writable;
  }
}
