/** What each instruction format accepts and emits (src/assembler/parse_formats), and which formats an opcode
    has (`instruction_syntax_map` in src/common/instructions.cpp). */
module ParseFormats {
  import opened Words
  import opened Wrappers
  import opened Instructions
  import opened Tokens
  import opened CodeGenerator

  /** Assembler settings: enabled extensions and the start of the data section. */
  datatype Options = Options(m: bool, f: bool, d: bool, dataStart: U64)

  /** `isData` symbols are offsets into the data section, the others text addresses. */
  datatype Symbol = Symbol(address: U64, line: nat, isData: bool)

  type SymbolTable = map<Name, Symbol>

  datatype Syntax =
    | OGprGprGpr | OGprGprI | OGprI | OGprGprIL | OGprIL | OGprDL | OGprILpGprRp | O | OPseudo
    | OGprCsrGpr | OGprCsrI
    | OFprFprFprFpr | OFprFprFprFprRm | OFprFprFpr | OFprFprFprRm | OFprFpr | OFprFprRm
    | OFprGpr | OFprGprRm | OGprFpr | OGprFprRm | OGprFprFpr | OFprILpGprRp

  function Syntaxes(op: Op): seq<Syntax> {
    match op
    case R(r) => if r in {Addw, Subw, Sllw, Srlw, Sraw} then [] else [OGprGprGpr]
    case I1(i) =>
      if i == Addiw then []
      else if i in {Lb, Lh, Lw, Ld} then [OGprILpGprRp, OGprDL]
      else if i in {Lbu, Lhu, Lwu, Jalr} then [OGprILpGprRp]
      else [OGprGprI]
    case I2(i) => if i in {Slli, Srli, Srai} then [OGprGprI] else []
    case S(_) => [OGprILpGprRp]
    case B(_) => [OGprGprI, OGprGprIL]
    case U(_) => [OGprI]
    case Jal => [OGprI, OGprIL]
    case Ecall => [O]
    case Fence => [O]
    case FenceI => [O]
    case CsrR(_) => [OGprCsrGpr]
    case CsrI(_) => [OGprCsrI]
    case Pseudo(_) => [OPseudo]
    case FI(_) => [OFprILpGprRp]
    case FS(_) => [OFprILpGprRp]
    case FR4(_) => [OFprFprFprFpr, OFprFprFprFprRm]
    case FR1(_) => [OFprFprFpr, OFprFprFprRm]
    case FR(f) => if f in {FeqS, FltS, FleS, FeqD, FltD, FleD} then [OGprFprFpr] else [OFprFprFpr]
    case FR3(f) => if f in {FmvWX, FmvDX} then [OFprGpr] else [OGprFpr]
    case FR2(f) =>
      if f in {FsqrtS, FsqrtD} then [OFprFpr, OFprFprRm]
      else if f in {FcvtSD, FcvtDS} then [OFprFpr, OGprFprRm]
      else if f in {FcvtWS, FcvtWuS, FcvtLS, FcvtLuS} then [OGprFpr, OGprFprRm]
      else if f in {FcvtWD, FcvtWuD, FcvtLD, FcvtLuD} then [OGprFpr, OFprGprRm]
      else if f in {FcvtDW, FcvtDWu} then [OFprGpr, OGprFprRm]
      else [OFprGpr, OFprGprRm]
  }

  /** What a format makes of a line: `Deferred` units wait for their label until the end of the parse. */
  datatype Outcome = NoMatch | Rejected | Emitted(units: seq<ICUnit>) | Deferred(unit: ICUnit)

  /** The operands between commas; empty when the line is not a comma-separated list. */
  function Operands(l: seq<Lexeme>): seq<Lexeme> {
    if |l| == 1 then l
    else if |l| >= 3 && l[1].Comma? && Operands(l[2..]) != [] then [l[0]] + Operands(l[2..])
    else []
  }

  /** `disp(base)` after a first register. */
  predicate IsMemoryOperand(l: seq<Lexeme>) {
    |l| == 6 && l[1].Comma? && l[2].Num? && l[3].LParen? && l[4].Gpr? && l[5].RParen?
  }

  function Format(x: Syntax, unit: ICUnit, l: seq<Lexeme>, index: nat, symbols: SymbolTable, o: Options): Outcome {
    var a := Operands(l);
    match x
    case O => if l == [] then Emitted([unit]) else NoMatch
    case OPseudo => if unit.op.Pseudo? then FormatPseudo(unit, l, index, symbols, o) else NoMatch
    case OGprGprGpr =>
      if |a| == 3 && a[0].Gpr? && a[1].Gpr? && a[2].Gpr?
      then Emitted([unit.(rd := Some(a[0].reg), rs1 := Some(a[1].reg), rs2 := Some(a[2].reg))]) else NoMatch
    case OGprGprI => if |a| == 3 && a[0].Gpr? && a[1].Gpr? && a[2].Num?
      then FormatGprGprI(unit, a[0].reg, a[1].reg, a[2].number) else NoMatch
    case OGprI => if |a| == 2 && a[0].Gpr? && a[1].Num? then FormatGprI(unit, a[0].reg, a[1].number) else NoMatch
    case OGprGprIL =>
      if |a| == 3 && a[0].Gpr? && a[1].Gpr? && a[2].LabelRef? then
        if unit.op.B?
          then ToLabel(unit.(rs1 := Some(a[0].reg), rs2 := Some(a[1].reg)), a[2].name, index, symbols, 0x1000)
          else Emitted([unit])
      else NoMatch
    case OGprIL =>
      if |a| == 2 && a[0].Gpr? && a[1].LabelRef? then
        if unit.op.Jal? then ToLabel(unit.(rd := Some(a[0].reg)), a[1].name, index, symbols, 0x10_0000)
          else Emitted([unit])
      else NoMatch
    case OGprDL =>
      if |a| == 2 && a[0].Gpr? && a[1].LabelRef? then PcRelative(unit, a[0].reg, a[1].name, index, symbols, o)
        else NoMatch
    case OGprILpGprRp =>
      if IsMemoryOperand(l) && l[0].Gpr? then
        var isLoad := unit.op.I1? || unit.op.I2? || unit.op.Ecall?;
        FormatMemory(unit, l[0].reg, l[2].number, l[4].reg, isLoad, unit.op.S?)
      else NoMatch
    case OFprILpGprRp =>
      if IsMemoryOperand(l) && l[0].Fpr?
        then FormatMemory(unit, l[0].reg, l[2].number, l[4].reg, unit.op.FI?, unit.op.FS?) else NoMatch
    case OGprCsrGpr =>
      if |a| == 3 && a[0].Gpr? && a[1].CsrRegister? && a[2].Gpr?
      then Emitted([unit.(rd := Some(a[0].reg), csr := a[1].csr, rs1 := Some(a[2].reg))]) else NoMatch
    case OGprCsrI =>
      if |a| == 3 && a[0].Gpr? && a[1].CsrRegister? && a[2].Num? then
        if 0 <= a[2].number <= 31
          then Emitted([unit.(rd := Some(a[0].reg), csr := a[1].csr, imm := Some(a[2].number))]) else Rejected
      else NoMatch
    case _ => FormatFloat(x, unit, a)
  }

  /** The floating-point register formats; without a rounding mode it is dynamic (7). */
  function FormatFloat(x: Syntax, unit: ICUnit, a: seq<Lexeme>): Outcome {
    match x
    case OFprFprFprFpr =>
      if |a| == 4 && a[0].Fpr? && a[1].Fpr? && a[2].Fpr? && a[3].Fpr?
      then Emitted([unit.(rd := Some(a[0].reg), rs1 := Some(a[1].reg), rs2 := Some(a[2].reg), rs3 := Some(a[3].reg),
        rm := 7)]) else NoMatch
    case OFprFprFprFprRm =>
      if |a| == 5 && a[0].Fpr? && a[1].Fpr? && a[2].Fpr? && a[3].Fpr? && a[4].Rm?
      then Emitted([unit.(rd := Some(a[0].reg), rs1 := Some(a[1].reg), rs2 := Some(a[2].reg), rs3 := Some(a[3].reg),
        rm := a[4].mode)]) else NoMatch
    case OFprFprFpr =>
      if |a| == 3 && a[0].Fpr? && a[1].Fpr? && a[2].Fpr?
      then Emitted([unit.(rd := Some(a[0].reg), rs1 := Some(a[1].reg), rs2 := Some(a[2].reg), rm := 7)]) else NoMatch
    case OFprFprFprRm =>
      if |a| == 4 && a[0].Fpr? && a[1].Fpr? && a[2].Fpr? && a[3].Rm?
      then Emitted([unit.(rd := Some(a[0].reg), rs1 := Some(a[1].reg), rs2 := Some(a[2].reg), rm := a[3].mode)])
        else NoMatch
    case OGprFprFpr =>
      if |a| == 3 && a[0].Gpr? && a[1].Fpr? && a[2].Fpr?
      then Emitted([unit.(rd := Some(a[0].reg), rs1 := Some(a[1].reg), rs2 := Some(a[2].reg))]) else NoMatch
    case OFprFpr => if |a| == 2 && a[0].Fpr? && a[1].Fpr?
      then Emitted([unit.(rd := Some(a[0].reg), rs1 := Some(a[1].reg), rm := 7)]) else NoMatch
    case OFprGpr => if |a| == 2 && a[0].Fpr? && a[1].Gpr?
      then Emitted([unit.(rd := Some(a[0].reg), rs1 := Some(a[1].reg), rm := 7)]) else NoMatch
    case OGprFpr => if |a| == 2 && a[0].Gpr? && a[1].Fpr?
      then Emitted([unit.(rd := Some(a[0].reg), rs1 := Some(a[1].reg), rm := 7)]) else NoMatch
    case OFprFprRm =>
      if |a| == 3 && a[0].Fpr? && a[1].Fpr? && a[2].Rm?
        then Emitted([unit.(rd := Some(a[0].reg), rs1 := Some(a[1].reg), rm := a[2].mode)]) else NoMatch
    case OFprGprRm =>
      if |a| == 3 && a[0].Fpr? && a[1].Gpr? && a[2].Rm?
        then Emitted([unit.(rd := Some(a[0].reg), rs1 := Some(a[1].reg), rm := a[2].mode)]) else NoMatch
    case OGprFprRm =>
      if |a| == 3 && a[0].Gpr? && a[1].Fpr? && a[2].Rm?
        then Emitted([unit.(rd := Some(a[0].reg), rs1 := Some(a[1].reg), rm := a[2].mode)]) else NoMatch
    case _ => NoMatch
  }

  function FormatGprGprI(unit: ICUnit, first: Reg, second: Reg, imm: int): Outcome {
    if unit.op.I1? || unit.op.I2? || unit.op.Ecall? then
      var inRange := if unit.op.I2? then 0 <= imm <= 31 else -2048 <= imm <= 2047;
      if inRange then Emitted([unit.(rd := Some(first), rs1 := Some(second), imm := Some(imm))]) else Rejected
    else if unit.op.B? then
      if -4096 <= imm <= 4095 && imm % 4 == 0
        then Emitted([unit.(rs1 := Some(first), rs2 := Some(second), imm := Some(imm))]) else Rejected
    else Emitted([unit])
  }

  function FormatGprI(unit: ICUnit, rd: Reg, imm: int): Outcome {
    if unit.op.U? then
      if 0 <= imm <= 1048575 then Emitted([unit.(rd := Some(rd), imm := Some(imm))]) else Rejected
    else if unit.op.Jal? then
      if -1048576 <= imm <= 1048575 && imm % 2 == 0 then Emitted([unit.(rd := Some(rd), imm := Some(imm))])
        else Rejected
    else Emitted([unit])
  }

  function FormatMemory(unit: ICUnit, reg: Reg, imm: int, base: Reg, isLoad: bool, isStore: bool): Outcome {
    if (isLoad || isStore) && !(-2048 <= imm <= 2047) then Rejected
    else if isLoad then Emitted([unit.(rd := Some(reg), imm := Some(imm), rs1 := Some(base))])
    else if isStore then Emitted([unit.(rs2 := Some(reg), imm := Some(imm), rs1 := Some(base))])
    else Emitted([unit])
  }

  /** The byte address of instruction `index`, in the source's 32-bit arithmetic. */
  function TextAddress(index: nat): U32 { Wrap32(4 * index) }

  /** `static_cast<int64_t>(address - index*4)`. */
  function Offset(address: U64, index: nat): int { Signed64(Wrap64(address - TextAddress(index))) }

  /** A branch or jump to a label: resolved now if the label is a known text label. */
  function ToLabel(unit: ICUnit, name: Name, index: nat, symbols: SymbolTable, limit: int): Outcome {
    if name in symbols && !symbols[name].isData then
      var offset := Offset(symbols[name].address, index);
      if -limit <= offset < limit then Emitted([unit.(imm := Some(offset), target := Some(name))]) else Rejected
    else Deferred(unit.(target := Some(name)))
  }

  /** The high and low parts of the distance from instruction `index` to a data symbol, truncated to `int32_t`. */
  function PcRelativeParts(o: Options, address: U64, index: nat): (int, int) {
    var offset := Signed64(Wrap64(o.dataStart + address)) - TextAddress(index);
    var hi20 := Signed32(Wrap32((offset + 0x800) / 0x1000));
    (hi20, Signed32(Wrap32(offset - Signed32(Wrap32(hi20 * 0x1000)))))
  }

  /** `auipc` followed by `unit` on the low part: loads from a data label, and `la`. */
  function PcRelative(unit: ICUnit, reg: Reg, name: Name, index: nat, symbols: SymbolTable, o: Options): Outcome {
    if name in symbols && symbols[name].isData then
      var (hi20, lo12) := PcRelativeParts(o, symbols[name].address, index);
      Emitted([Unit(U(Auipc), unit.line).(rd := Some(reg), imm := Some(hi20)),
               unit.(rd := Some(reg), rs1 := Some(reg), imm := Some(lo12))])
    else Rejected
  }

  function FormatPseudo(unit: ICUnit, l: seq<Lexeme>, index: nat, symbols: SymbolTable, o: Options): Outcome
    requires unit.op.Pseudo?
  {
    var a := Operands(l);
    match unit.op.p
    case La =>
      if |a| == 2 && a[0].Gpr? && a[1].LabelRef?
        then PcRelative(unit.(op := I1(Addi)), a[0].reg, a[1].name, index, symbols, o) else NoMatch
    case Nop => if l == [] then Emitted([AddImmediate(unit, 0, 0, 0)]) else NoMatch
    case Li => if |a| == 2 && a[0].Gpr? && a[1].Num? then LoadImmediate(unit, a[0].reg, a[1].number) else NoMatch
    case Mv =>
      if |a| == 2 && a[0].Gpr? && a[1].Gpr?
      then Emitted([unit.(op := R(Add), rd := Some(a[0].reg), rs1 := Some(a[1].reg), rs2 := Some(0))]) else NoMatch
    case Not =>
      if |a| == 2 && a[0].Gpr? && a[1].Gpr?
      then Emitted([unit.(op := I1(Xori), rd := Some(a[0].reg), rs1 := Some(a[1].reg), imm := Some(-1))]) else NoMatch
    case Ret =>
      if l == [] then Emitted([unit.(op := I1(Jalr), rd := Some(0), rs1 := Some(1), imm := Some(0))]) else NoMatch
    case OtherPseudo => NoMatch
  }

  function AddImmediate(unit: ICUnit, rd: Reg, rs1: Reg, imm: int): ICUnit {
    unit.(op := I1(Addi), rd := Some(rd), rs1 := Some(rs1), imm := Some(imm))
  }

  /** The upper part of an `li` operand, rounded so that the rest fits a signed 12-bit immediate. */
  function Upper(imm: int): int { (imm + 0x800) / 0x1000 }

  function LoadImmediate(unit: ICUnit, rd: Reg, imm: int): Outcome {
    if -2048 <= imm <= 2047 then Emitted([AddImmediate(unit, rd, 0, imm)])
    else if -B31 <= imm < B31 then
      var lui := unit.(op := U(Lui), rd := Some(rd), imm := Some(Upper(imm)));
      var lower := imm - Upper(imm) * 0x1000;
      Emitted(if lower != 0 then [lui, AddImmediate(unit, rd, rd, lower)] else [lui])
    else Rejected
  }

  /** The outcome of the first format that matches. */
  function FirstMatch(xs: seq<Syntax>, unit: ICUnit, l: seq<Lexeme>, index: nat, symbols: SymbolTable,
    o: Options): Outcome {
    if xs == [] then NoMatch
    else
      var outcome := Format(xs[0], unit, l, index, symbols, o);
      if outcome.NoMatch? then FirstMatch(xs[1..], unit, l, index, symbols, o) else outcome
  }

  // ----- extensions (`isValidMExtensionInstruction` and its siblings) -----

  predicate IsM(op: Op) {
    op.R? && op.r in {Mul, Mulh, Mulhsu, Mulhu, Div, Divu, Rem, Remu, Mulw, Divw, Divuw, Remw, Remuw}
  }

  predicate IsF(op: Op) {
    match op
    case FR(f) => f in {FsgnjS, FsgnjnS, FsgnjxS, FminS, FmaxS, FeqS, FltS, FleS}
    case FR1(f) => f in {FaddS, FsubS, FmulS, FdivS}
    case FR2(f) => f in {FsqrtS, FcvtWS, FcvtWuS, FcvtLS, FcvtLuS, FcvtSW, FcvtSWu, FcvtSL, FcvtSLu, FcvtSD, FcvtDS}
    case FR3(f) => f in {FmvWX, FmvXW, FclassS}
    case FR4(f) => f in {FmaddS, FmsubS, FnmsubS, FnmaddS}
    case FI(f) => f == Flw
    case FS(f) => f == Fsw
    case _ => false
  }

  /** The conversions between the two precisions need both extensions. */
  predicate IsD(op: Op) {
    match op
    case FR2(f) => f in {FcvtSD, FcvtDS} || !IsF(op)
    case FR(_) => !IsF(op)
    case FR1(_) => !IsF(op)
    case FR3(_) => !IsF(op)
    case FR4(_) => !IsF(op)
    case FI(_) => !IsF(op)
    case FS(_) => !IsF(op)
    case _ => false
  }

  predicate Enabled(op: Op, o: Options) { (IsM(op) ==> o.m) && (IsF(op) ==> o.f) && (IsD(op) ==> o.d) }
}
