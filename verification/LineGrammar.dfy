/** The assembly language, line by line: what the operands behind a mnemonic say, and that the assembler makes of every
    line what it says, or reports an error. */
module LineGrammar {
  import opened Words
  import opened Wrappers
  import opened Instructions
  import opened Tokens
  import opened CodeGenerator
  import opened ParseFormats
  import opened ParserProof
  import opened Printing

  /** An instruction with all its operands, one that names a label, a load from a data label, or one of the two
      pseudo-instructions that may take two instructions. `fence` has no encoding. */
  datatype Statement =
    | Complete(inst: Inst)
    | BranchTo(b: BOp, rs1: Reg, rs2: Reg, target: Name)
    | JumpTo(rd: Reg, target: Name)
    | LoadFrom(i1: I1Op, rd: Reg, target: Name)
    | AddressOf(rd: Reg, target: Name)
    | Constant(rd: Reg, imm: int)
    | AFence

  // ----- the shape of a line -----

  predicate Two(l: seq<Lexeme>) { |l| == 3 && l[1].Comma? }

  predicate Three(l: seq<Lexeme>) { |l| == 5 && l[1].Comma? && l[3].Comma? }

  predicate Four(l: seq<Lexeme>) { |l| == 7 && l[1].Comma? && l[3].Comma? && l[5].Comma? }

  predicate Five(l: seq<Lexeme>) { |l| == 9 && l[1].Comma? && l[3].Comma? && l[5].Comma? && l[7].Comma? }

  /** Operands are what stands between commas. */
  lemma {:induction false} OperandsBetween(l: seq<Lexeme>)
    ensures |Operands(l)| == 1 <==> |l| == 1
    ensures |Operands(l)| == 1 ==> Operands(l) == l
    ensures |Operands(l)| == 2 <==> Two(l)
    ensures Two(l) ==> Operands(l) == [l[0], l[2]]
    ensures |Operands(l)| == 3 <==> Three(l)
    ensures Three(l) ==> Operands(l) == [l[0], l[2], l[4]]
    ensures |Operands(l)| == 4 <==> Four(l)
    ensures Four(l) ==> Operands(l) == [l[0], l[2], l[4], l[6]]
    ensures |Operands(l)| == 5 <==> Five(l)
    ensures Five(l) ==> Operands(l) == [l[0], l[2], l[4], l[6], l[8]]
    decreases |l|
  {
    if |l| >= 3 { OperandsBetween(l[2..]); }
  }

  // ----- what a line says -----

  predicate Registers3(l: seq<Lexeme>) { Three(l) && l[0].Gpr? && l[2].Gpr? && l[4].Gpr? }

  predicate RegistersNumber(l: seq<Lexeme>) { Three(l) && l[0].Gpr? && l[2].Gpr? && l[4].Num? }

  predicate RegisterNumber(l: seq<Lexeme>) { Two(l) && l[0].Gpr? && l[1].Comma? && l[2].Num? }

  predicate RegisterLabel(l: seq<Lexeme>) { Two(l) && l[0].Gpr? && l[2].LabelRef? }

  /** `reg, number(base)`. */
  predicate Memory(l: seq<Lexeme>) {
    |l| == 6 && l[1].Comma? && l[2].Num? && l[3].LParen? && l[4].Gpr? && l[5].RParen?
  }

  /** The word forms of the base instruction set have no syntax. */
  function Read(op: Op, l: seq<Lexeme>): Option<Statement> {
    match op
    case R(r) =>
      if r !in {Addw, Subw, Sllw, Srlw, Sraw} && Registers3(l)
      then Some(Complete(InstR(r, l[0].reg, l[2].reg, l[4].reg))) else None
    case I1(i) =>
      if i == Addiw then None
      else if IsMemory(i) then
        if Memory(l) && l[0].Gpr? then Some(Complete(InstI1(i, l[0].reg, l[4].reg, l[2].number)))
        else if i in {Lb, Lh, Lw, Ld} && RegisterLabel(l) then Some(LoadFrom(i, l[0].reg, l[2].name))
        else None
      else if RegistersNumber(l) then Some(Complete(InstI1(i, l[0].reg, l[2].reg, l[4].number)))
      else None
    case I2(i) =>
      if i in {Slli, Srli, Srai} && RegistersNumber(l)
      then Some(Complete(InstI2(i, l[0].reg, l[2].reg, l[4].number))) else None
    case S(s) => if Memory(l) && l[0].Gpr? then Some(Complete(InstS(s, l[4].reg, l[0].reg, l[2].number))) else None
    case B(b) =>
      if RegistersNumber(l) then Some(Complete(InstB(b, l[0].reg, l[2].reg, l[4].number)))
      else if Three(l) && l[0].Gpr? && l[2].Gpr? && l[4].LabelRef?
        then Some(BranchTo(b, l[0].reg, l[2].reg, l[4].name))
      else None
    case U(u) => if RegisterNumber(l) then Some(Complete(InstU(u, l[0].reg, l[2].number))) else None
    case Jal =>
      if RegisterNumber(l) then Some(Complete(InstJal(l[0].reg, l[2].number)))
      else if RegisterLabel(l) then Some(JumpTo(l[0].reg, l[2].name))
      else None
    case Ecall => if l == [] then Some(Complete(InstEcall)) else None
    case Fence => if l == [] then Some(AFence) else None
    case FenceI => if l == [] then Some(AFence) else None
    case CsrR(c) =>
      if Three(l) && l[0].Gpr? && l[2].CsrRegister? && l[4].Gpr?
      then Some(Complete(InstCsrR(c, l[0].reg, l[4].reg, l[2].csr))) else None
    case CsrI(c) =>
      if Three(l) && l[0].Gpr? && l[2].CsrRegister? && l[4].Num?
      then Some(Complete(InstCsrI(c, l[0].reg, l[4].number, l[2].csr))) else None
    case Pseudo(p) => ReadPseudo(p, l)
    case FI(f) => if Memory(l) && l[0].Fpr? then Some(Complete(InstFI(f, l[0].reg, l[4].reg, l[2].number))) else None
    case FS(f) => if Memory(l) && l[0].Fpr? then Some(Complete(InstFS(f, l[4].reg, l[0].reg, l[2].number))) else None
    case _ => ReadFloat(op, l)
  }

  function ReadPseudo(p: PseudoOp, l: seq<Lexeme>): Option<Statement> {
    match p
    case La => if RegisterLabel(l) then Some(AddressOf(l[0].reg, l[2].name)) else None
    case Nop => if l == [] then Some(Complete(InstI1(Addi, 0, 0, 0))) else None
    case Li => if RegisterNumber(l) then Some(Constant(l[0].reg, l[2].number)) else None
    case Mv =>
      if Two(l) && l[0].Gpr? && l[2].Gpr? then Some(Complete(InstR(Add, l[0].reg, l[2].reg, 0))) else None
    case Not =>
      if Two(l) && l[0].Gpr? && l[2].Gpr? then Some(Complete(InstI1(Xori, l[0].reg, l[2].reg, -1))) else None
    case Ret => if l == [] then Some(Complete(InstI1(Jalr, 0, 1, 0))) else None
    case OtherPseudo => None
  }

  /** The register kinds of a conversion without a rounding mode: a floating-point register, or an integer one. */
  function Kinds(f: FR2Op): (bool, bool) {
    if f in {FsqrtS, FsqrtD, FcvtSD, FcvtDS} then (true, true)
    else if f in {FcvtWS, FcvtWuS, FcvtLS, FcvtLuS, FcvtWD, FcvtWuD, FcvtLD, FcvtLuD} then (false, true)
    else (true, false)
  }

  /** With one, the syntax table has other kinds for eight of them. */
  function RoundedKinds(f: FR2Op): (bool, bool) {
    if f in {FcvtSD, FcvtDS, FcvtDW, FcvtDWu} then (false, true)
    else if f in {FcvtWD, FcvtWuD, FcvtLD, FcvtLuD} then (true, false)
    else Kinds(f)
  }

  predicate IsRegister(x: Lexeme, float: bool) { if float then x.Fpr? else x.Gpr? }

  function RegisterOf(x: Lexeme): Reg
    requires x.Fpr? || x.Gpr?
  {
    x.reg
  }

  /** A rounding mode that is left out is the dynamic one, 7. */
  function ReadFloat(op: Op, l: seq<Lexeme>): Option<Statement> {
    match op
    case FR(f) =>
      if Three(l) && IsRegister(l[0], f !in {FeqS, FltS, FleS, FeqD, FltD, FleD}) && l[2].Fpr? && l[4].Fpr?
      then Some(Complete(InstFR(f, RegisterOf(l[0]), l[2].reg, l[4].reg))) else None
    case FR1(f) =>
      if Three(l) && l[0].Fpr? && l[2].Fpr? && l[4].Fpr?
      then Some(Complete(InstFR1(f, l[0].reg, l[2].reg, l[4].reg, 7)))
      else if Four(l) && l[0].Fpr? && l[2].Fpr? && l[4].Fpr? && l[6].Rm?
      then Some(Complete(InstFR1(f, l[0].reg, l[2].reg, l[4].reg, l[6].mode))) else None
    case FR4(f) =>
      if Four(l) && l[0].Fpr? && l[2].Fpr? && l[4].Fpr? && l[6].Fpr?
      then Some(Complete(InstFR4(f, l[0].reg, l[2].reg, l[4].reg, l[6].reg, 7)))
      else if Five(l) && l[0].Fpr? && l[2].Fpr? && l[4].Fpr? && l[6].Fpr? && l[8].Rm?
      then Some(Complete(InstFR4(f, l[0].reg, l[2].reg, l[4].reg, l[6].reg, l[8].mode))) else None
    case FR3(f) =>
      if Two(l) && IsRegister(l[0], f in {FmvWX, FmvDX}) && IsRegister(l[2], f !in {FmvWX, FmvDX})
      then Some(Complete(InstFR3(f, RegisterOf(l[0]), RegisterOf(l[2])))) else None
    case FR2(f) =>
      if Two(l) && IsRegister(l[0], Kinds(f).0) && IsRegister(l[2], Kinds(f).1)
      then Some(Complete(InstFR2(f, RegisterOf(l[0]), RegisterOf(l[2]), 7)))
      else if Three(l) && IsRegister(l[0], RoundedKinds(f).0) && IsRegister(l[2], RoundedKinds(f).1) && l[4].Rm?
      then Some(Complete(InstFR2(f, RegisterOf(l[0]), RegisterOf(l[2]), l[4].mode))) else None
    case _ => None
  }

  // ----- what the assembler makes of it -----

  /** The ranges of the source: besides those of the encoding, shift amounts up to 31 and branch offsets in fours. */
  predicate Admitted(i: Inst) {
    WellFormed(i) && (i.InstI2? ==> i.imm <= 31) && (i.InstB? ==> i.imm % 4 == 0)
  }

  predicate Fails(outcome: Outcome) { outcome.NoMatch? || outcome.Rejected? }

  /** The outcome is one unit, complete, for `i`. */
  predicate Yields(outcome: Outcome, i: Inst, target: Option<Name>) {
    && outcome.Emitted? && |outcome.units| == 1 && Instruction(outcome.units[0]) == Ok(i)
    && outcome.units[0].target == target
  }

  /** The instruction of a transfer with offset `d`. */
  function Aimed(st: Statement, d: int): Inst
    requires st.BranchTo? || st.JumpTo?
  {
    if st.BranchTo? then InstB(st.b, st.rs1, st.rs2, d) else InstJal(st.rd, d)
  }

  /** The outcome is one unit that waits for the offset to its label, and with an offset is complete. */
  ghost predicate Awaits(u: ICUnit, st: Statement)
    requires st.BranchTo? || st.JumpTo?
  {
    && u.imm.None? && u.target == Some(st.target)
    && forall d: int | -B31 <= d < B31 :: Instruction(u.(imm := Some(d))) == Ok(Aimed(st, d))
  }

  /** A transfer to a label: complete at once, if it is a known text label in reach, and else when all labels are
      known. */
  ghost predicate Transfers(outcome: Outcome, st: Statement, index: nat, symbols: SymbolTable)
    requires st.BranchTo? || st.JumpTo?
  {
    if st.target in symbols && !symbols[st.target].isData then
      var offset, limit := Offset(symbols[st.target].address, index), if st.BranchTo? then 0x1000 else 0x10_0000;
      if -limit <= offset < limit then Yields(outcome, Aimed(st, offset), Some(st.target)) else Fails(outcome)
    else outcome.Deferred? && Awaits(outcome.unit, st)
  }

  /** The distance from instruction `index` to a data symbol. */
  function Distance(o: Options, address: U64, index: nat): int {
    Signed64(Wrap64(o.dataStart + address)) - TextAddress(index)
  }

  /** `auipc` with the high part of a distance, and `op` with the rest, which fits twelve signed bits; together they are
      the distance modulo 2^32. */
  predicate ApproachesBy(outcome: Outcome, rd: Reg, op: I1Op, distance: int, hi: int, lo: int) {
    && outcome.Emitted? && |outcome.units| == 2
    && outcome.units[0].target.None? && outcome.units[1].target.None?
    && Instruction(outcome.units[0]) == Ok(InstU(Auipc, rd, hi))
    && Instruction(outcome.units[1]) == Ok(InstI1(op, rd, rd, lo))
    && -2048 <= lo <= 2047 && -B31 <= hi < B31 && Wrap32(hi * 0x1000 + lo) == Wrap32(distance)
  }

  ghost predicate Approaches(outcome: Outcome, rd: Reg, op: I1Op, distance: int) {
    exists hi, lo :: ApproachesBy(outcome, rd, op, distance, hi, lo)
  }

  /** `lui` with the high part, and unless the rest is zero `addi` with it; they add up to the constant. */
  predicate BuildsBy(outcome: Outcome, rd: Reg, imm: int, hi: int, lo: int) {
    && -2048 <= lo <= 2047 && hi * 0x1000 + lo == imm
    && if lo == 0 then Yields(outcome, InstU(Lui, rd, hi), None)
       else
         && outcome.Emitted? && |outcome.units| == 2
         && outcome.units[0].target.None? && outcome.units[1].target.None?
         && Instruction(outcome.units[0]) == Ok(InstU(Lui, rd, hi))
         && Instruction(outcome.units[1]) == Ok(InstI1(Addi, rd, rd, lo))
  }

  /** A constant that fits twelve signed bits takes one instruction. */
  ghost predicate Builds(outcome: Outcome, rd: Reg, imm: int) {
    if -2048 <= imm <= 2047 then Yields(outcome, InstI1(Addi, rd, 0, imm), None)
    else if !(-B31 <= imm < B31) then Fails(outcome)
    else exists hi, lo :: BuildsBy(outcome, rd, imm, hi, lo)
  }

  /** What the assembler makes of a line that says `st`. */
  ghost predicate Says(outcome: Outcome, st: Statement, index: nat, symbols: SymbolTable, o: Options) {
    match st
    case Complete(i) => if Admitted(i) then Yields(outcome, i, None) else Fails(outcome)
    case BranchTo(_, _, _, _) => Transfers(outcome, st, index, symbols)
    case JumpTo(_, _) => Transfers(outcome, st, index, symbols)
    case LoadFrom(i, rd, target) =>
      if target in symbols && symbols[target].isData
      then Approaches(outcome, rd, i, Distance(o, symbols[target].address, index)) else Fails(outcome)
    case AddressOf(rd, target) =>
      if target in symbols && symbols[target].isData
      then Approaches(outcome, rd, Addi, Distance(o, symbols[target].address, index)) else Fails(outcome)
    case Constant(rd, imm) => Builds(outcome, rd, imm)
    case AFence =>
      && outcome.Emitted? && |outcome.units| == 1 && outcome.units[0].target.None?
      && (outcome.units[0].op.Fence? || outcome.units[0].op.FenceI?)
  }

  ghost predicate AsRead(op: Op, l: seq<Lexeme>, line: nat, index: nat, symbols: SymbolTable, o: Options) {
    var st, outcome := Read(op, l), AssembledLine(op, l, line, index, symbols, o);
    if st.None? then Fails(outcome) else Says(outcome, st.value, index, symbols, o)
  }

  lemma FormatsInTurn(op: Op, l: seq<Lexeme>, line: nat, index: nat, symbols: SymbolTable, o: Options)
    ensures |Syntaxes(op)| <= 2
    ensures var (xs, u) := (Syntaxes(op), Unit(op, line));
      AssembledLine(op, l, line, index, symbols, o)
        == if |xs| == 0 then NoMatch
           else if |xs| == 1 || !Format(xs[0], u, l, index, symbols, o).NoMatch?
             then Format(xs[0], u, l, index, symbols, o)
           else Format(xs[1], u, l, index, symbols, o)
  {
    assert |Syntaxes(op)| <= 2;
    hide Syntaxes, Format, FirstMatch;
    Matches(Syntaxes(op), Unit(op, line), l, index, symbols, o);
  }

  lemma RegisterLine(op: Op, l: seq<Lexeme>, line: nat, index: nat, symbols: SymbolTable, o: Options)
    requires op.R?
    ensures AsRead(op, l, line, index, symbols, o)
  {
    hide Operands, AssembledLine;
    OperandsBetween(l);
    FormatsInTurn(op, l, line, index, symbols, o);
  }

  lemma ImmediateLine(op: Op, l: seq<Lexeme>, line: nat, index: nat, symbols: SymbolTable, o: Options)
    requires op.I2? || (op.I1? && !IsMemory(op.i1))
    ensures AsRead(op, l, line, index, symbols, o)
  {
    hide Operands, AssembledLine;
    OperandsBetween(l);
    FormatsInTurn(op, l, line, index, symbols, o);
  }

  lemma StoreLine(op: Op, l: seq<Lexeme>, line: nat, index: nat, symbols: SymbolTable, o: Options)
    requires op.S? || op.FI? || op.FS?
    ensures AsRead(op, l, line, index, symbols, o)
  {
    hide Operands, AssembledLine;
    FormatsInTurn(op, l, line, index, symbols, o);
  }

  lemma PartsApproach(rd: Reg, u: ICUnit, name: Name, index: nat, symbols: SymbolTable, o: Options)
    requires u == Unit(u.op, u.line) && u.op.I1? && name in symbols && symbols[name].isData
    ensures Approaches(PcRelative(u, rd, name, index, symbols, o), rd, u.op.i1,
                       Distance(o, symbols[name].address, index))
  {
    var address := symbols[name].address;
    LowPartFits(o, address, index);
    PartRange(o, address, index);
    var (hi, lo) := PcRelativeParts(o, address, index);
    PartsAddUp(o, address, index);
    hide PcRelativeParts, Distance;
    var us := PcRelative(u, rd, name, index, symbols, o).units;
    assert Instruction(us[0]) == Ok(InstU(Auipc, rd, hi)) && Instruction(us[1]) == Ok(InstI1(u.op.i1, rd, rd, lo));
    assert ApproachesBy(PcRelative(u, rd, name, index, symbols, o), rd, u.op.i1, Distance(o, address, index), hi, lo);
  }

  /** High and low part of a distance are it, modulo 2^32. */
  lemma PartsAddUp(o: Options, address: U64, index: nat)
    ensures var (hi, lo) := PcRelativeParts(o, address, index);
      Wrap32(hi * 0x1000 + lo) == Wrap32(Distance(o, address, index))
  {
    var d := Distance(o, address, index);
    var (hi, lo) := PcRelativeParts(o, address, index);
    var k := Cycles((d + 0x800) / 0x1000);
    LowPartFits(o, address, index);
    assert hi == Signed32(Wrap32((d + 0x800) / 0x1000));
    hide PcRelativeParts, Distance, Signed32;
    assert d == hi * 0x1000 + lo + k * 0x1000 * B32;
    SameResidue32(d, hi * 0x1000 + lo, k * 0x1000);
  }

  lemma SameResidue32(a: int, b: int, k: int)
    requires a == b + k * B32
    ensures Wrap32(a) == Wrap32(b)
  {
    DivUnique(a, b / B32 + k, b % B32, B32);
  }

  lemma MemoryLine(op: Op, l: seq<Lexeme>, line: nat, index: nat, symbols: SymbolTable, o: Options)
    requires op.I1? && IsMemory(op.i1)
    ensures AsRead(op, l, line, index, symbols, o)
  {
    hide Operands, AssembledLine, PcRelative, Approaches;
    OperandsBetween(l);
    FormatsInTurn(op, l, line, index, symbols, o);
    if RegisterLabel(l) && l[2].name in symbols && symbols[l[2].name].isData {
      PartsApproach(l[0].reg, Unit(op, line), l[2].name, index, symbols, o);
    }
    OnlyData(Unit(op, line), l, index, symbols, o);
  }

  lemma OnlyData(u: ICUnit, l: seq<Lexeme>, index: nat, symbols: SymbolTable, o: Options)
    ensures RegisterLabel(l) && !(l[2].name in symbols && symbols[l[2].name].isData) ==>
      PcRelative(u, l[0].reg, l[2].name, index, symbols, o).Rejected?
  {}

  /** A branch to a number is in range exactly if it is admitted. */
  lemma BranchToNumber(b: BOp, u: ICUnit, rs1: Reg, rs2: Reg, imm: int)
    requires u == Unit(B(b), u.line)
    ensures var (outcome, i) := (FormatGprGprI(u, rs1, rs2, imm), InstB(b, rs1, rs2, imm));
      if Admitted(i) then Yields(outcome, i, None) else Fails(outcome)
  {
    if imm % 4 == 0 { MultipleOfFour(imm); }
  }

  lemma ToLabelTransfers(st: Statement, u: ICUnit, index: nat, symbols: SymbolTable)
    requires st.BranchTo? || st.JumpTo?
    requires u == if st.BranchTo? then Unit(B(st.b), u.line).(rs1 := Some(st.rs1), rs2 := Some(st.rs2))
                  else Unit(Jal, u.line).(rd := Some(st.rd))
    ensures Transfers(ToLabel(u, st.target, index, symbols, if st.BranchTo? then 0x1000 else 0x10_0000), st, index,
                      symbols)
  {
    hide Offset;
  }

  lemma BranchLine(op: Op, l: seq<Lexeme>, line: nat, index: nat, symbols: SymbolTable, o: Options)
    requires op.B?
    ensures AsRead(op, l, line, index, symbols, o)
  {
    hide Operands, AssembledLine, FormatGprGprI, ToLabel, Transfers, Admitted, Yields;
    OperandsBetween(l);
    FormatsInTurn(op, l, line, index, symbols, o);
    var u := Unit(op, line);
    if RegistersNumber(l) { BranchToNumber(op.b, u, l[0].reg, l[2].reg, l[4].number); }
    else if Three(l) && l[0].Gpr? && l[2].Gpr? && l[4].LabelRef? {
      ToLabelTransfers(BranchTo(op.b, l[0].reg, l[2].reg, l[4].name),
                       u.(rs1 := Some(l[0].reg), rs2 := Some(l[2].reg)), index, symbols);
    }
  }

  lemma UpperLine(op: Op, l: seq<Lexeme>, line: nat, index: nat, symbols: SymbolTable, o: Options)
    requires op.U? || op.Jal?
    ensures AsRead(op, l, line, index, symbols, o)
  {
    hide Operands, AssembledLine, Offset;
    OperandsBetween(l);
    FormatsInTurn(op, l, line, index, symbols, o);
  }

  lemma SystemLine(op: Op, l: seq<Lexeme>, line: nat, index: nat, symbols: SymbolTable, o: Options)
    requires op.Ecall? || op.Fence? || op.FenceI? || op.CsrR? || op.CsrI?
    ensures AsRead(op, l, line, index, symbols, o)
  {
    hide Operands, AssembledLine;
    OperandsBetween(l);
    FormatsInTurn(op, l, line, index, symbols, o);
  }

  lemma ConstantBuilds(u: ICUnit, rd: Reg, imm: int)
    requires u.target.None?
    ensures Builds(LoadImmediate(u, rd, imm), rd, imm)
  {
    var hi, lo := Upper(imm), imm - Upper(imm) * 0x1000;
    if !(-2048 <= imm <= 2047) && -B31 <= imm < B31 { assert BuildsBy(LoadImmediate(u, rd, imm), rd, imm, hi, lo); }
  }

  lemma PseudoLine(op: Op, l: seq<Lexeme>, line: nat, index: nat, symbols: SymbolTable, o: Options)
    requires op.Pseudo?
    ensures AsRead(op, l, line, index, symbols, o)
  {
    hide Operands, AssembledLine, PcRelative, Approaches, LoadImmediate, Builds;
    OperandsBetween(l);
    FormatsInTurn(op, l, line, index, symbols, o);
    if RegisterLabel(l) && l[2].name in symbols && symbols[l[2].name].isData {
      PartsApproach(l[0].reg, Unit(I1(Addi), line), l[2].name, index, symbols, o);
    }
    OnlyData(Unit(I1(Addi), line), l, index, symbols, o);
    if RegisterNumber(l) { ConstantBuilds(Unit(op, line), l[0].reg, l[2].number); }
  }

  lemma FloatFormat(x: Syntax, u: ICUnit, l: seq<Lexeme>, index: nat, symbols: SymbolTable, o: Options)
    requires x in Syntaxes(u.op) && (u.op.FR? || u.op.FR1? || u.op.FR2? || u.op.FR3? || u.op.FR4?)
    ensures Format(x, u, l, index, symbols, o) == FormatFloat(x, u, Operands(l))
  {
    hide Operands, FormatFloat;
  }

  lemma FloatLine(op: Op, l: seq<Lexeme>, line: nat, index: nat, symbols: SymbolTable, o: Options)
    requires op.FR? || op.FR3?
    ensures AsRead(op, l, line, index, symbols, o)
  {
    hide Operands, AssembledLine, Format;
    OperandsBetween(l);
    FormatsInTurn(op, l, line, index, symbols, o);
    FloatFormat(Syntaxes(op)[0], Unit(op, line), l, index, symbols, o);
  }

  lemma ArithmeticLine(op: Op, l: seq<Lexeme>, line: nat, index: nat, symbols: SymbolTable, o: Options)
    requires op.FR1?
    ensures AsRead(op, l, line, index, symbols, o)
  {
    hide Operands, AssembledLine, Format;
    OperandsBetween(l);
    FormatsInTurn(op, l, line, index, symbols, o);
    FloatFormat(OFprFprFpr, Unit(op, line), l, index, symbols, o);
    FloatFormat(OFprFprFprRm, Unit(op, line), l, index, symbols, o);
  }

  lemma FusedLine(op: Op, l: seq<Lexeme>, line: nat, index: nat, symbols: SymbolTable, o: Options)
    requires op.FR4?
    ensures AsRead(op, l, line, index, symbols, o)
  {
    hide Operands, AssembledLine, Format;
    OperandsBetween(l);
    FormatsInTurn(op, l, line, index, symbols, o);
    FloatFormat(OFprFprFprFpr, Unit(op, line), l, index, symbols, o);
    FloatFormat(OFprFprFprFprRm, Unit(op, line), l, index, symbols, o);
  }

  lemma PlainConversion(f: FR2Op, line: nat, l: seq<Lexeme>)
    ensures var outcome := FormatFloat(Syntaxes(FR2(f))[0], Unit(FR2(f), line), Operands(l));
      if Two(l) && IsRegister(l[0], Kinds(f).0) && IsRegister(l[2], Kinds(f).1)
      then Yields(outcome, InstFR2(f, RegisterOf(l[0]), RegisterOf(l[2]), 7), None) else outcome.NoMatch?
  {
    PlainSyntax(f);
    hide Operands, FormatFloat, Syntaxes, Kinds, IsRegister, RegisterOf, Yields;
    PlainBy(Kinds(f), f, line, l);
  }

  /** The format that takes registers of these kinds alone. */
  function PlainOf(k: (bool, bool)): Syntax { if k.0 && k.1 then OFprFpr else if k.0 then OFprGpr else OGprFpr }

  lemma PlainSyntax(f: FR2Op)
    ensures |Syntaxes(FR2(f))| == 2 && Syntaxes(FR2(f))[0] == PlainOf(Kinds(f)) && (Kinds(f).0 || Kinds(f).1)
  {}

  lemma PlainBy(k: (bool, bool), f: FR2Op, line: nat, l: seq<Lexeme>)
    requires k.0 || k.1
    ensures var outcome := FormatFloat(PlainOf(k), Unit(FR2(f), line), Operands(l));
      if Two(l) && IsRegister(l[0], k.0) && IsRegister(l[2], k.1)
      then Yields(outcome, InstFR2(f, RegisterOf(l[0]), RegisterOf(l[2]), 7), None) else outcome.NoMatch?
  {
    hide Operands;
    OperandsBetween(l);
  }

  lemma RoundedConversion(f: FR2Op, line: nat, l: seq<Lexeme>)
    ensures var outcome := FormatFloat(Syntaxes(FR2(f))[1], Unit(FR2(f), line), Operands(l));
      if Three(l) && IsRegister(l[0], RoundedKinds(f).0) && IsRegister(l[2], RoundedKinds(f).1) && l[4].Rm?
      then Yields(outcome, InstFR2(f, RegisterOf(l[0]), RegisterOf(l[2]), l[4].mode), None) else outcome.NoMatch?
  {
    RoundedSyntax(f);
    hide Operands, FormatFloat, Syntaxes, RoundedKinds, IsRegister, RegisterOf, Yields;
    RoundedBy(RoundedKinds(f), f, line, l);
  }

  /** The format that takes registers of these kinds and a rounding mode. */
  function FormatOf(k: (bool, bool)): Syntax {
    if k.0 && k.1 then OFprFprRm else if k.0 then OFprGprRm else OGprFprRm
  }

  lemma RoundedSyntax(f: FR2Op)
    ensures |Syntaxes(FR2(f))| == 2 && Syntaxes(FR2(f))[1] == FormatOf(RoundedKinds(f))
    ensures RoundedKinds(f).0 || RoundedKinds(f).1
  {}

  lemma RoundedBy(k: (bool, bool), f: FR2Op, line: nat, l: seq<Lexeme>)
    requires k.0 || k.1
    ensures var outcome := FormatFloat(FormatOf(k), Unit(FR2(f), line), Operands(l));
      if Three(l) && IsRegister(l[0], k.0) && IsRegister(l[2], k.1) && l[4].Rm?
      then Yields(outcome, InstFR2(f, RegisterOf(l[0]), RegisterOf(l[2]), l[4].mode), None) else outcome.NoMatch?
  {
    hide Operands;
    OperandsBetween(l);
  }

  lemma ConversionLine(op: Op, l: seq<Lexeme>, line: nat, index: nat, symbols: SymbolTable, o: Options)
    requires op.FR2?
    ensures AsRead(op, l, line, index, symbols, o)
  {
    assert |Syntaxes(op)| == 2;
    hide Operands, AssembledLine, Format, FormatFloat, Syntaxes, Kinds, RoundedKinds, Instruction, IsRegister;
    FormatsInTurn(op, l, line, index, symbols, o);
    FloatFormat(Syntaxes(op)[0], Unit(op, line), l, index, symbols, o);
    FloatFormat(Syntaxes(op)[1], Unit(op, line), l, index, symbols, o);
    PlainConversion(op.fr2, line, l);
    RoundedConversion(op.fr2, line, l);
  }

  /** The assembler makes of every line what it says, and reports an error exactly if it says nothing, is out of range
      or names a label that it must not. */
  lemma LineAssembles(op: Op, l: seq<Lexeme>, line: nat, index: nat, symbols: SymbolTable, o: Options)
    ensures AsRead(op, l, line, index, symbols, o)
  {
    hide AsRead;
    match op
    case R(_) => RegisterLine(op, l, line, index, symbols, o);
    case I1(i) =>
      if IsMemory(i) { MemoryLine(op, l, line, index, symbols, o); }
      else { ImmediateLine(op, l, line, index, symbols, o); }
    case I2(_) => ImmediateLine(op, l, line, index, symbols, o);
    case S(_) => StoreLine(op, l, line, index, symbols, o);
    case FI(_) => StoreLine(op, l, line, index, symbols, o);
    case FS(_) => StoreLine(op, l, line, index, symbols, o);
    case B(_) => BranchLine(op, l, line, index, symbols, o);
    case U(_) => UpperLine(op, l, line, index, symbols, o);
    case Jal => UpperLine(op, l, line, index, symbols, o);
    case Pseudo(_) => PseudoLine(op, l, line, index, symbols, o);
    case FR2(_) => ConversionLine(op, l, line, index, symbols, o);
    case FR(_) => FloatLine(op, l, line, index, symbols, o);
    case FR1(_) => ArithmeticLine(op, l, line, index, symbols, o);
    case FR3(_) => FloatLine(op, l, line, index, symbols, o);
    case FR4(_) => FusedLine(op, l, line, index, symbols, o);
    case _ => SystemLine(op, l, line, index, symbols, o);
  }
}
