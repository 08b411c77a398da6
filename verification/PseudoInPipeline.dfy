/** What the pseudo-instructions compute on RV5SEXVM, in the sequential semantics that the pipeline implements. The
    pipeline takes bit 29 of an upper immediate for a sign as well as bit 31, so `li` and `la` go wrong on other
    operands than in the single-cycle VM. */
module PseudoInPipeline {
  import opened Words
  import opened Wrappers
  import opened Instructions
  import Tokens
  import opened CodeGenerator
  import opened ImmGenerator
  import opened Datapath
  import opened ParseFormats
  import opened Pipeline
  import opened Sequential
  import opened RvssAgrees
  import opened PseudoExpansion
  import Rvss

  /** The units performed one after the other. */
  ghost function PerformUnits(a: Arch, v: Machine, units: seq<ICUnit>): Arch
    requires forall i | 0 <= i < |units| :: Generable(units[i])
    decreases |units|
  {
    if units == [] then a else
    assert Generable(units[0]);
    PerformUnits(Perform(a, Generate(Instruction(units[0]).value), v), v, units[1..])
  }

  /** `b` differs from `a` only in `rd` and the program counter. */
  ghost predicate Gets(a: Arch, b: Arch, rd: Reg, x: U64) {
    (b.regs, b.mem, b.fault) == (WriteGpr(a.regs, rd, x), a.mem, false)
  }

  const NO_LATCHES := Rvss.Latches(false, 0)

  // ----- single instructions -----

  lemma PerformsAddi(s: Rvss.Core, v: Machine, rd: Reg, rs1: Reg, imm: int)
    requires -0x800 <= imm < 0x800
    ensures Gets(ArchOf(s), Perform(ArchOf(s), GenerateI1(Addi, rd, rs1, imm), v), rd,
      Wrap64(ReadGpr(s.regs, rs1) + imm))
  {
    var w := GenerateI1(Addi, rd, rs1, imm);
    ImmediateWord(Addi, rd, rs1, imm);
    RunsAddi(s, NO_LATCHES, w, rs1, imm);
    AluAgrees(s, NO_LATCHES, w, v);
    hide GenerateI1, Perform, Rvss.Performed, Immediate, Opcode, Funct3, Rd, Rs1, Wrap64, ReadGpr, WriteGpr;
  }

  /** The state after `lui` or `auipc`. */
  ghost function AfterUpper(s: Rvss.Core, op: UOp, rd: Reg, upper: int): Rvss.Core {
    s.(pc := Wrap64(s.pc + 4), regs := WriteGpr(s.regs, rd, UpperWritten(s, op, rd, upper)))
  }

  function UpperWritten(s: Rvss.Core, op: UOp, rd: Reg, upper: int): U64 {
    Wrap64((if op == Lui then 0 else s.pc) + UpperOperand(Immediate(GenerateU(op, rd, upper))))
  }

  lemma PerformsUpper(s: Rvss.Core, v: Machine, op: UOp, rd: Reg, upper: int)
    ensures Perform(ArchOf(s), GenerateU(op, rd, upper), v) == ArchOf(AfterUpper(s, op, rd, upper))
  {
    UpperWord(op, rd, upper);
    UpperPipelined(s, GenerateU(op, rd, upper), v);
    hide GenerateU, Perform, Immediate, Opcode, Rd, Wrap64, WriteGpr, UpperOperand;
  }

  lemma PerformsPair(s: Rvss.Core, v: Machine, op: UOp, rd: Reg, upper: int, lower: int)
    requires -0x800 <= lower < 0x800 && rd != 0
    ensures var (w1, w2) := (GenerateU(op, rd, upper), GenerateI1(Addi, rd, rd, lower));
      Gets(ArchOf(s), Perform(Perform(ArchOf(s), w1, v), w2, v), rd,
           Wrap64((if op == Lui then 0 else s.pc) + UpperOperand(Immediate(w1)) + lower))
  {
    hide Perform, GenerateU, GenerateI1, UpperOperand, Immediate, Wrap64, WriteGpr, ReadGpr;
    PerformsUpper(s, v, op, rd, upper);
    var t, x := AfterUpper(s, op, rd, upper), UpperWritten(s, op, rd, upper);
    PerformsAddi(t, v, rd, rd, lower);
    SetTwice(s.regs, rd, x, Wrap64(x + lower));
    WrapSum((if op == Lui then 0 else s.pc) + UpperOperand(Immediate(GenerateU(op, rd, upper))), lower);
  }

  // ----- the upper operand as the pipeline reads it -----

  /** The low 20 bits, taken as negative when bit 19 or bit 17 is set. */
  function ReadUpper(upper: int): int {
    var c := upper % 0x10_0000;
    if c >= 0x8_0000 || c / 0x2_0000 % 2 == 1 then c - 0x10_0000 else c
  }

  lemma UpperOperandReads(op: UOp, rd: Reg, upper: int)
    ensures UpperOperand(Immediate(GenerateU(op, rd, upper))) == Wrap64(ReadUpper(upper) * 0x1000)
  {
    UpperWord(op, rd, upper);
    hide GenerateU, Immediate;
    var c := upper % 0x10_0000;
    SameShift(c * 0x1000, c, 0, 0x8_0000);
    SameShift(c * 0x1000, c, 0, 0x2_0000);
    assert Wrap64(c * 0x1000) == c * 0x1000 == c * 0x1000 % B32;
    assert Bits(c * 0x1000, 0x8000_0000, 2) == c / 0x8_0000 % 2;
    assert Bits(c * 0x1000, 0x2000_0000, 2) == c / 0x2_0000 % 2;
    hide Bits;
  }

  /** What the upper instruction contributes is right exactly if the pipeline reads the upper part as it was meant. */
  lemma UpperReadIff(op: UOp, rd: Reg, upper: int, base: int, lower: int)
    requires -0x9_0000_0000_0000 <= upper <= 0x8_0000_0000_0000
    ensures var operand := UpperOperand(Immediate(GenerateU(op, rd, upper)));
      Wrap64(base + operand + lower) == Wrap64(base + upper * 0x1000 + lower) <==> ReadUpper(upper) == upper
  {
    UpperOperandReads(op, rd, upper);
    var read := ReadUpper(upper);
    ReadDiffers(upper);
    hide GenerateU, Immediate, UpperOperand, Wrap64, ReadUpper;
    WrapSum(read * 0x1000, base + lower);
    ApartIff(base + read * 0x1000 + lower, (upper - read) / 0x10_0000);
  }

  lemma ReadDiffers(upper: int)
    ensures (upper - ReadUpper(upper)) % 0x10_0000 == 0 && -0x10_0000 <= ReadUpper(upper) < 0x10_0000
  {}

  /** A rounded operand whose sign the pipeline sees: it is at least -2^32 and below 2^31, and bit 31 or bit 29 is
      set exactly if it is negative. */
  predicate SignSeen(r: int) {
    -B32 <= r < B31 && (r < 0 <==> Bits(Wrap32(r), 0x8000_0000, 2) == 1 || Bits(Wrap32(r), 0x2000_0000, 2) == 1)
  }

  lemma SignSeenIff(r: int)
    ensures ReadUpper(r / 0x1000) == r / 0x1000 <==> SignSeen(r)
  {
    var upper := r / 0x1000;
    var c := upper % 0x10_0000;
    assert Wrap32(r) == c * 0x1000 + r % 0x1000 by { UpperOfWord(r); }
    SameShift(Wrap32(r), c, r % 0x1000, 0x8_0000);
    SameShift(Wrap32(r), c, r % 0x1000, 0x2_0000);
    assert Bits(Wrap32(r), 0x8000_0000, 2) == c / 0x8_0000 % 2;
    assert Bits(Wrap32(r), 0x2000_0000, 2) == c / 0x2_0000 % 2;
    hide Bits, Wrap32;
    if -B32 <= r < 0 { DivUnique(upper, -1, upper + 0x10_0000, 0x10_0000); }
    else if 0 <= r < B32 { DivUnique(upper, 0, upper, 0x10_0000); }
  }

  lemma UpperOfWord(r: int)
    ensures Wrap32(r) == r / 0x1000 % 0x10_0000 * 0x1000 + r % 0x1000
  {
    var q, h := r / 0x1000, r / 0x1000 / 0x10_0000;
    DivUnique(r, h, q % 0x10_0000 * 0x1000 + r % 0x1000, B32);
  }

  // ----- sequences of units -----

  lemma UnitPerformed(a: Arch, v: Machine, u: ICUnit)
    requires Generable(u)
    ensures PerformUnits(a, v, [u]) == Perform(a, Generate(Instruction(u).value), v)
  {
    hide Perform, Generate, Instruction;
    assert [u][1..] == [];
  }

  lemma PairPerformed(a: Arch, v: Machine, us: seq<ICUnit>)
    requires |us| == 2 && Generable(us[0]) && Generable(us[1])
    ensures PerformUnits(a, v, us)
         == Perform(Perform(a, Generate(Instruction(us[0]).value), v), Generate(Instruction(us[1]).value), v)
  {
    hide Perform, Generate, Instruction;
    assert us[1..] == [us[1]];
    UnitPerformed(Perform(a, Generate(Instruction(us[0]).value), v), v, us[1]);
  }

  // ----- li -----

  /** The units of an accepted `li` can be generated, and load the operand. */
  ghost predicate Loads(s: Rvss.Core, v: Machine, units: seq<ICUnit>, rd: Reg, imm: int)
    requires forall i | 0 <= i < |units| :: Generable(units[i])
  {
    Gets(ArchOf(s), PerformUnits(ArchOf(s), v, units), rd, Wrap64(imm))
  }

  lemma LiValueIff(r: Regs, rd: Reg, imm: int, upper: int, lower: int)
    requires -B31 <= imm < B31 && rd != 0 && upper == Upper(imm) && lower == imm - upper * 0x1000
    ensures var x := Wrap64(0 + UpperOperand(Immediate(GenerateU(Lui, rd, upper))) + lower);
      WriteGpr(r, rd, x) == WriteGpr(r, rd, Wrap64(imm)) <==> SignSeen(imm + 0x800)
  {
    hide UpperOperand, Immediate, GenerateU, SignSeen, ReadUpper, Wrap64, WriteGpr;
    UpperReadIff(Lui, rd, upper, 0, lower);
    SignSeenIff(imm + 0x800);
    SameSet(r, rd, Wrap64(0 + UpperOperand(Immediate(GenerateU(Lui, rd, upper))) + lower), Wrap64(imm));
  }

  lemma LargeLoaded(s: Rvss.Core, v: Machine, unit: ICUnit, rd: Reg, imm: int)
    requires -B31 <= imm < B31 && rd != 0 && !(-2048 <= imm <= 2047)
    ensures var units := LoadImmediate(unit, rd, imm).units;
      && (forall i | 0 <= i < |units| :: Generable(units[i]))
      && (Loads(s, v, units, rd, imm) <==> SignSeen(imm + 0x800))
  {
    hide PerformUnits, UpperOperand, Immediate, GenerateU, Generable, SignSeen, Wrap64, WriteGpr;
    var upper, lower := Upper(imm), imm - Upper(imm) * 0x1000;
    var lui := unit.(op := U(Lui), rd := Some(rd), imm := Some(upper));
    LiValueIff(s.regs, rd, imm, upper, lower);
    if lower == 0 { UpperLoaded(s, v, lui, rd, upper); }
    else { PairLoaded(s, v, [lui, AddImmediate(unit, rd, rd, lower)], Lui, rd, upper, lower); }
  }

  /** `li rd, imm` on RV5SEXVM, for every operand it accepts, loads the operand exactly if it is negative, or below
      2^31 - 2^11 with bit 29 of the rounded operand clear. */
  lemma LoadImmediateIff(s: Rvss.Core, v: Machine, unit: ICUnit, rd: Reg, imm: int)
    requires -B31 <= imm < B31 && rd != 0
    ensures var outcome := LoadImmediate(unit, rd, imm);
      && outcome.Emitted? && (forall i | 0 <= i < |outcome.units| :: Generable(outcome.units[i]))
      && (Loads(s, v, outcome.units, rd, imm)
          <==> imm < 0 || (imm < 0x7FFF_F800 && Bits(imm + 0x800, 0x2000_0000, 2) == 0))
  {
    LiSignSeen(imm);
    if -2048 <= imm <= 2047 { SmallLoaded(s, v, AddImmediate(unit, rd, 0, imm), rd, imm); }
    else { LargeLoaded(s, v, unit, rd, imm); }
    hide Generable, SignSeen, Bits, PerformUnits, WriteGpr, Wrap64;
  }

  lemma LiSignSeen(imm: int)
    requires -B31 <= imm < B31
    ensures SignSeen(imm + 0x800) <==> imm < 0 || (imm < 0x7FFF_F800 && Bits(imm + 0x800, 0x2000_0000, 2) == 0)
    ensures -2048 <= imm <= 2047 ==> SignSeen(imm + 0x800)
  {
    var r := imm + 0x800;
    if r < 0 { DivUnique(r, -1, r + B32, B32); } else { DivUnique(r, 0, r, B32); }
  }

  lemma SmallLoaded(s: Rvss.Core, v: Machine, u: ICUnit, rd: Reg, imm: int)
    requires u == AddImmediate(u, rd, 0, imm) && -2048 <= imm <= 2047
    ensures Generable(u) && Gets(ArchOf(s), PerformUnits(ArchOf(s), v, [u]), rd, Wrap64(imm))
  {
    hide Perform, GenerateI1, PerformUnits;
    PerformsAddi(s, v, rd, 0, imm);
    UnitPerformed(ArchOf(s), v, u);
  }

  lemma UpperLoaded(s: Rvss.Core, v: Machine, u: ICUnit, rd: Reg, upper: int)
    requires u.op == U(Lui) && u.rd == Some(rd) && u.imm == Some(upper) && -B31 <= upper < B31
    ensures Generable(u)
    ensures Gets(ArchOf(s), PerformUnits(ArchOf(s), v, [u]), rd,
                 Wrap64(0 + UpperOperand(Immediate(GenerateU(Lui, rd, upper))) + 0))
  {
    hide Perform, GenerateU, PerformUnits, UpperOperand, Immediate;
    PerformsUpper(s, v, Lui, rd, upper);
    UnitPerformed(ArchOf(s), v, u);
  }

  lemma PairLoaded(s: Rvss.Core, v: Machine, us: seq<ICUnit>, op: UOp, rd: Reg, upper: int, lower: int)
    requires |us| == 2 && us[0].op == U(op) && us[0].rd == Some(rd) && us[0].imm == Some(upper) && -B31 <= upper < B31
    requires us[1].op == I1(Addi) && us[1].rd == Some(rd) && us[1].rs1 == Some(rd) && us[1].imm == Some(lower)
    requires -2048 <= lower <= 2047 && rd != 0
    ensures forall i | 0 <= i < |us| :: Generable(us[i])
    ensures Gets(ArchOf(s), PerformUnits(ArchOf(s), v, us), rd,
                 Wrap64((if op == Lui then 0 else s.pc) + UpperOperand(Immediate(GenerateU(op, rd, upper))) + lower))
  {
    hide Perform, GenerateU, GenerateI1, PerformUnits, UpperOperand, Immediate, Wrap64, WriteGpr;
    assert Instruction(us[0]) == Ok(InstU(op, rd, upper)) && Instruction(us[1]) == Ok(InstI1(Addi, rd, rd, lower));
    PerformsPair(s, v, op, rd, upper, lower);
    PairPerformed(ArchOf(s), v, us);
  }

  // ----- la -----

  lemma LaValueIff(r: Regs, rd: Reg, o: Options, data: U64, index: nat)
    requires rd != 0
    ensures var (hi20, lo12) := PcRelativeParts(o, data, index);
      var address, pc := Wrap64(o.dataStart + data), TextAddress(index);
      var x := Wrap64(pc + UpperOperand(Immediate(GenerateU(Auipc, rd, hi20))) + lo12);
      WriteGpr(r, rd, x) == WriteGpr(r, rd, address) <==> SignSeen(Signed64(address) - pc + 0x800)
  {
    var (hi20, lo12) := PcRelativeParts(o, data, index);
    var address, pc := Wrap64(o.dataStart + data), TextAddress(index);
    var distance := Signed64(address) - pc;
    var upper := (distance + 0x800) / 0x1000;
    PartsAre(o, data, index);
    WrapSigned64(address);
    SameUpper(rd, hi20, upper);
    hide PcRelativeParts, UpperOperand, Immediate, GenerateU, SignSeen, ReadUpper, Wrap64, Wrap32, WriteGpr,
      TextAddress;
    UpperReadIff(Auipc, rd, upper, pc, lo12);
    SignSeenIff(distance + 0x800);
    assert pc + upper * 0x1000 + lo12 == Signed64(address);
    SameSet(r, rd, Wrap64(pc + UpperOperand(Immediate(GenerateU(Auipc, rd, hi20))) + lo12), address);
  }

  lemma LaUnits(unit: ICUnit, rd: Reg, name: Tokens.Name, index: nat, symbols: SymbolTable, o: Options)
    requires unit.op == I1(Addi) && name in symbols && symbols[name].isData
    ensures var (hi20, lo12) := PcRelativeParts(o, symbols[name].address, index);
      var outcome := PcRelative(unit, rd, name, index, symbols, o);
      && outcome.Emitted? && |outcome.units| == 2 && -B31 <= hi20 < B31 && -2048 <= lo12 <= 2047
      && var (u1, u2) := (outcome.units[0], outcome.units[1]);
      && u1.op == U(Auipc) && u1.rd == Some(rd) && u1.imm == Some(hi20)
      && u2.op == I1(Addi) && u2.rd == Some(rd) && u2.rs1 == Some(rd) && u2.imm == Some(lo12)
  {
    PartsAre(o, symbols[name].address, index);
    hide PcRelativeParts, Wrap64, Wrap32, Signed32, Signed64, TextAddress;
  }

  /** `la rd, label` on RV5SEXVM, performed at the address it is assembled for, loads the label's address in memory
      exactly if the pipeline sees the sign of the rounded distance. */
  lemma LoadAddressIff(s: Rvss.Core, v: Machine, unit: ICUnit, rd: Reg, name: Tokens.Name, index: nat,
                       symbols: SymbolTable, o: Options)
    requires unit.op == I1(Addi) && rd != 0 && name in symbols && symbols[name].isData && s.pc == TextAddress(index)
    ensures var outcome := PcRelative(unit, rd, name, index, symbols, o);
      var address := Wrap64(o.dataStart + symbols[name].address);
      && outcome.Emitted? && (forall i | 0 <= i < |outcome.units| :: Generable(outcome.units[i]))
      && (Gets(ArchOf(s), PerformUnits(ArchOf(s), v, outcome.units), rd, address)
          <==> SignSeen(Signed64(address) - TextAddress(index) + 0x800))
  {
    hide *;
    LaUnits(unit, rd, name, index, symbols, o);
    var us := PcRelative(unit, rd, name, index, symbols, o).units;
    var (hi20, lo12) := PcRelativeParts(o, symbols[name].address, index);
    LaValueIff(s.regs, rd, o, symbols[name].address, index);
    PairLoadsIff(s, v, us, Auipc, rd, hi20, lo12, Wrap64(o.dataStart + symbols[name].address));
  }

  lemma PairLoadsIff(s: Rvss.Core, v: Machine, us: seq<ICUnit>, op: UOp, rd: Reg, upper: int, lower: int, y: U64)
    requires |us| == 2 && us[0].op == U(op) && us[0].rd == Some(rd) && us[0].imm == Some(upper) && -B31 <= upper < B31
    requires us[1].op == I1(Addi) && us[1].rd == Some(rd) && us[1].rs1 == Some(rd) && us[1].imm == Some(lower)
    requires -2048 <= lower <= 2047 && rd != 0
    ensures forall i | 0 <= i < |us| :: Generable(us[i])
    ensures var x := Wrap64((if op == Lui then 0 else s.pc) + UpperOperand(Immediate(GenerateU(op, rd, upper)))
      + lower);
      Gets(ArchOf(s), PerformUnits(ArchOf(s), v, us), rd, y) <==> WriteGpr(s.regs, rd, x) == WriteGpr(s.regs, rd, y)
  {
    PairLoaded(s, v, us, op, rd, upper, lower);
    hide PerformUnits, UpperOperand, Immediate, GenerateU, Generable, Wrap64, WriteGpr;
  }

  // ----- mv and not -----

  lemma UnitAgrees(s: Rvss.Core, v: Machine, u: ICUnit, w: U32, x: U64)
    requires Generable(u) && w == Generate(Instruction(u).value) && (Opcode(w) == 0x33 || Opcode(w) == 0x13)
    requires Sets(s, Rvss.Performed(s, NO_LATCHES, w), Rd(w), x)
    ensures Gets(ArchOf(s), PerformUnits(ArchOf(s), v, [u]), Rd(w), x)
  {
    AluAgrees(s, NO_LATCHES, w, v);
    UnitPerformed(ArchOf(s), v, u);
    hide Perform, Rvss.Performed, PerformUnits, Generable, Generate, Instruction, Opcode, Rd, WriteGpr;
  }

  lemma OneUnit(unit: ICUnit, a: seq<Tokens.Lexeme>, index: nat, symbols: SymbolTable, o: Options)
    requires unit.op in {Pseudo(Mv), Pseudo(Not)}
    requires |Operands(a)| == 2 && Operands(a)[0].Gpr? && Operands(a)[1].Gpr?
    ensures var (rd, rs) := (Operands(a)[0].reg, Operands(a)[1].reg);
      FormatPseudo(unit, a, index, symbols, o) == Emitted([
        if unit.op.p == Mv then unit.(op := R(Add), rd := Some(rd), rs1 := Some(rs), rs2 := Some(0))
        else unit.(op := I1(Xori), rd := Some(rd), rs1 := Some(rs), imm := Some(-1))])
  {
    hide Operands, PcRelative, LoadImmediate, AddImmediate;
  }

  lemma MoveUnit(u: ICUnit, rd: Reg, rs: Reg)
    requires u.op == R(Add) && u.rd == Some(rd) && u.rs1 == Some(rs) && u.rs2 == Some(0)
    ensures Generable(u) && Instruction(u) == Ok(InstR(Add, rd, rs, 0))
    ensures Generate(InstR(Add, rd, rs, 0)) == GenerateR(Add, rd, rs, 0)
  {
    hide GenerateR;
  }

  lemma NotUnit(u: ICUnit, rd: Reg, rs: Reg)
    requires u.op == I1(Xori) && u.rd == Some(rd) && u.rs1 == Some(rs) && u.imm == Some(-1)
    ensures Generable(u) && Instruction(u) == Ok(InstI1(Xori, rd, rs, -1))
    ensures Generate(InstI1(Xori, rd, rs, -1)) == GenerateI1(Xori, rd, rs, -1)
  {
    hide GenerateI1;
  }

  lemma NotWord(rd: Reg, rs: Reg)
    ensures var w := GenerateI1(Xori, rd, rs, -1);
      Opcode(w) == 0x13 && Funct3(w) == 4 && Rd(w) == rd && Rs1(w) == rs && Immediate(w) == -1
  {
    hide GenerateI1, Opcode, Funct3, Rd, Rs1, Immediate;
    ImmediateWord(Xori, rd, rs, -1);
  }

  /** `mv rd, rs` copies a register on RV5SEXVM, too. */
  lemma MoveCopies(s: Rvss.Core, v: Machine, unit: ICUnit, a: seq<Tokens.Lexeme>, index: nat, symbols: SymbolTable,
                   o: Options)
    requires unit.op == Pseudo(Mv) && |Operands(a)| == 2 && Operands(a)[0].Gpr? && Operands(a)[1].Gpr?
    ensures var (outcome, rd, rs) := (FormatPseudo(unit, a, index, symbols, o), Operands(a)[0].reg, Operands(a)[1].reg);
      outcome.Emitted? && |outcome.units| == 1 && Generable(outcome.units[0])
      && Gets(ArchOf(s), PerformUnits(ArchOf(s), v, outcome.units), rd, ReadGpr(s.regs, rs))
  {
    var rd, rs := Operands(a)[0].reg, Operands(a)[1].reg;
    var u := unit.(op := R(Add), rd := Some(rd), rs1 := Some(rs), rs2 := Some(0));
    var w := GenerateR(Add, rd, rs, 0);
    hide *;
    MoveUnit(u, rd, rs);
    OneUnit(unit, a, index, symbols, o);
    RegisterWord(Add, rd, rs, 0);
    RunsAdd(s, NO_LATCHES, w);
    UnitAgrees(s, v, u, w, ReadGpr(s.regs, rs));
  }

  /** `not rd, rs` complements every bit on RV5SEXVM, too. */
  lemma NotComplements(s: Rvss.Core, v: Machine, unit: ICUnit, a: seq<Tokens.Lexeme>, index: nat, symbols: SymbolTable,
                       o: Options)
    requires unit.op == Pseudo(Not) && |Operands(a)| == 2 && Operands(a)[0].Gpr? && Operands(a)[1].Gpr?
    ensures var (outcome, rd, rs) := (FormatPseudo(unit, a, index, symbols, o), Operands(a)[0].reg, Operands(a)[1].reg);
      outcome.Emitted? && |outcome.units| == 1 && Generable(outcome.units[0])
      && Gets(ArchOf(s), PerformUnits(ArchOf(s), v, outcome.units), rd, B64 - 1 - ReadGpr(s.regs, rs))
  {
    var rd, rs := Operands(a)[0].reg, Operands(a)[1].reg;
    var u := unit.(op := I1(Xori), rd := Some(rd), rs1 := Some(rs), imm := Some(-1));
    var w := GenerateI1(Xori, rd, rs, -1);
    hide *;
    NotUnit(u, rd, rs);
    OneUnit(unit, a, index, symbols, o);
    NotWord(rd, rs);
    RunsNot(s, NO_LATCHES, w);
    UnitAgrees(s, v, u, w, B64 - 1 - ReadGpr(s.regs, rs));
  }
}
