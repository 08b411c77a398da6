/** What the pseudo-instructions that expand to two instructions compute when they run
    (src/assembler/parse_formats/pseudo_formats.cpp, executed by src/vm/rvss/rvss_vm.cpp). */
module PseudoExpansion {
  import opened Words
  import opened Wrappers
  import opened Instructions
  import Tokens
  import opened CodeGenerator
  import opened ImmGenerator
  import opened Alu
  import opened AluLaws
  import opened Datapath
  import opened ParseFormats
  import opened ParserProof
  import opened Rvss
  import opened RvssAgrees

  /** The units run one after the other. */
  ghost function RunUnits(s: Core, l: Latches, units: seq<ICUnit>): Core
    requires forall i | 0 <= i < |units| :: Generable(units[i])
    decreases |units|
  {
    if units == [] then s else
    assert Generable(units[0]);
    var w := Generate(Instruction(units[0]).value);
    RunUnits(Performed(s, l, w), LatchesAfter(s, l, w), units[1..])
  }

  /** A state that differs only in `rd`, the program counter and the counters. */
  ghost predicate Sets(s: Core, t: Core, rd: Reg, v: U64) {
    (t.regs, t.csrs, t.mem) == (WriteGpr(s.regs, rd, v), s.csrs, s.mem)
  }

  // ----- single instructions -----

  lemma RunsAddi(s: Core, l: Latches, w: U32, rs1: Reg, imm: int)
    requires Opcode(w) == 0x13 && Funct3(w) == 0 && Rs1(w) == rs1 && Immediate(w) == imm
    ensures Sets(s, Performed(s, l, w), Rd(w), Wrap64(ReadGpr(s.regs, rs1) + imm))
  {
    AddWraps(ReadGpr(s.regs, rs1), imm);
    hide Execute, Immediate, Wrap64, ReadGpr, WriteGpr, Rd, Rs1, Funct7;
  }

  lemma UpperWord(op: UOp, rd: Reg, imm: int)
    ensures var w := GenerateU(op, rd, imm);
      Opcode(w) == (if op == Lui then 0x37 else 0x17) && Rd(w) == rd && Immediate(w) == imm % 0x10_0000
  {
    hide Bits, ImmU;
    RoundTripU(op, rd, imm);
  }

  lemma RunsUpper(s: Core, l: Latches, w: U32)
    requires IsUpper(w)
    ensures Sets(s, Performed(s, l, w), Rd(w), RvssUpper(s, w)) && Performed(s, l, w).pc == Wrap64(s.pc + 4)
  {
    hide Execute, Immediate, WriteGpr, Rd, UpperImmediate;
  }

  /** The two instructions `lui` or `auipc`, then `addi` on the same register. */
  lemma RunsPair(s: Core, l: Latches, op: UOp, rd: Reg, upper: int, lower: int)
    requires -0x800 <= lower < 0x800 && rd != 0
    ensures var (w1, w2) := (GenerateU(op, rd, upper), GenerateI1(Addi, rd, rd, lower));
      Sets(s, Performed(Performed(s, l, w1), LatchesAfter(s, l, w1), w2), rd,
           Wrap64((if op == Lui then 0 else s.pc) + UpperImmediate(w1) + lower))
  {
    hide Performed, LatchesAfter, GenerateU, GenerateI1, UpperImmediate, Immediate, Opcode, Funct3, Rd, Rs1, Wrap64;
    var w1, w2 := GenerateU(op, rd, upper), GenerateI1(Addi, rd, rd, lower);
    UpperWord(op, rd, upper);
    ImmediateWord(Addi, rd, rd, lower);
    RunsUpper(s, l, w1);
    var t := Performed(s, l, w1);
    RunsAddi(t, LatchesAfter(s, l, w1), w2, rd, lower);
    SetTwice(s.regs, rd, RvssUpper(s, w1), Wrap64(RvssUpper(s, w1) + lower));
    WrapSum((if op == Lui then 0 else s.pc) + UpperImmediate(w1), lower);
    WrapWord(UpperImmediate(w1));
  }

  lemma SetTwice(r: Regs, rd: Reg, x: U64, y: U64)
    requires rd != 0
    ensures WriteGpr(WriteGpr(r, rd, x), rd, y) == WriteGpr(r, rd, y) && ReadGpr(WriteGpr(r, rd, x), rd) == x
  {}

  lemma WrapSum(x: int, n: int)
    ensures Wrap64(Wrap64(x) + n) == Wrap64(x + n)
  {
    SameWrap(x + n, Wrap64(x) + n, x / B64);
  }

  /** What the upper instruction contributes for an operand whose upper part is `upper`: right exactly if the product
      is an `int32_t`. */
  lemma UpperValueIff(op: UOp, rd: Reg, upper: int, base: int, lower: int)
    requires -0x9_0000_0000_0000 <= upper <= 0x8_0000_0000_0000
    ensures Wrap64(base + UpperImmediate(GenerateU(op, rd, upper)) + lower) == Wrap64(base + upper * 0x1000 + lower)
       <==> -0x8_0000 <= upper < 0x8_0000
  {
    hide GenerateU, UpperImmediate, Wrap64;
    var signed := Cut(upper);
    UpperContributes(op, rd, upper);
    WrapSum(signed * 0x1000, base + lower);
    ApartIff(base + signed * 0x1000 + lower, (upper - signed) / 0x10_0000);
  }

  /** The low 20 bits, read as signed. */
  function Cut(upper: int): (c: int)
    ensures (upper - c) % 0x10_0000 == 0 && -0x8_0000 <= c < 0x8_0000
  {
    if upper % 0x10_0000 < 0x8_0000 then upper % 0x10_0000 else upper % 0x10_0000 - 0x10_0000
  }

  lemma UpperContributes(op: UOp, rd: Reg, upper: int)
    ensures UpperImmediate(GenerateU(op, rd, upper)) == Wrap64(Cut(upper) * 0x1000)
  {
    UpperWord(op, rd, upper);
    UpperSigned(upper % 0x10_0000);
    hide GenerateU, Immediate, Sext32;
  }

  lemma UpperSigned(cut: nat)
    requires cut < 0x10_0000
    ensures Sext32(cut * 0x1000) == Wrap64((if cut < 0x8_0000 then cut else cut - 0x10_0000) * 0x1000)
  {}

  lemma ApartIff(x: int, k: int)
    requires -0xFFFF_FFFF <= k <= 0xFFFF_FFFF
    ensures Wrap64(x) == Wrap64(x + k * 0x1_0000_0000) <==> k == 0
  {
  }

  // ----- li -----

  /** `li rd, imm`, for every operand it accepts, loads the operand exactly if it is below 2^31 - 2^11: above, the
      rounded upper part is 2^31, which RV64 `lui` sign-extends. */
  lemma LoadImmediateIff(s: Core, l: Latches, unit: ICUnit, rd: Reg, imm: int)
    requires -B31 <= imm < B31 && rd != 0
    ensures var outcome := LoadImmediate(unit, rd, imm);
      && outcome.Emitted? && (forall i | 0 <= i < |outcome.units| :: Generable(outcome.units[i]))
      && (Sets(s, RunUnits(s, l, outcome.units), rd, Wrap64(imm)) <==> imm < 0x7FFF_F800)
  {
    hide Performed, LatchesAfter, GenerateU, GenerateI1, UpperImmediate, Immediate, Wrap64, WriteGpr;
    var units := LoadImmediate(unit, rd, imm).units;
    if -2048 <= imm <= 2047 {
      LoadSmall(s, l, units[0], rd, imm);
    } else {
      var upper, lower := Upper(imm), imm - Upper(imm) * 0x1000;
      UpperValueIff(Lui, rd, upper, 0, lower);
      SameSet(s.regs, rd, Wrap64(0 + UpperImmediate(GenerateU(Lui, rd, upper)) + lower), Wrap64(imm));
      if lower == 0 { LoadUpper(s, l, units[0], rd, upper); } else { LoadPair(s, l, units, Lui, rd, upper, lower); }
    }
  }

  lemma SameSet(r: Regs, rd: Reg, x: U64, y: U64)
    requires rd != 0
    ensures WriteGpr(r, rd, x) == WriteGpr(r, rd, y) <==> x == y
  {
    DifferentRegister(r, rd, x, y);
  }

  lemma LoadSmall(s: Core, l: Latches, u: ICUnit, rd: Reg, imm: int)
    requires u == AddImmediate(u, rd, 0, imm) && -2048 <= imm <= 2047
    ensures Generable(u) && Sets(s, RunUnits(s, l, [u]), rd, Wrap64(imm))
  {
    hide Performed, LatchesAfter, GenerateI1, Immediate;
    ImmediateWord(Addi, rd, 0, imm);
    RunsAddi(s, l, GenerateI1(Addi, rd, 0, imm), 0, imm);
    assert RunUnits(s, l, [u]) == Performed(s, l, GenerateI1(Addi, rd, 0, imm));
  }

  lemma LoadUpper(s: Core, l: Latches, u: ICUnit, rd: Reg, upper: int)
    requires u.op == U(Lui) && u.rd == Some(rd) && u.imm == Some(upper) && -B31 <= upper < B31
    ensures Generable(u) && Sets(s, RunUnits(s, l, [u]), rd, Wrap64(0 + UpperImmediate(GenerateU(Lui, rd, upper)) + 0))
  {
    hide Performed, LatchesAfter, GenerateU, UpperImmediate, Immediate;
    UpperWord(Lui, rd, upper);
    RunsUpper(s, l, GenerateU(Lui, rd, upper));
    WrapWord(UpperImmediate(GenerateU(Lui, rd, upper)));
    assert RunUnits(s, l, [u]) == Performed(s, l, GenerateU(Lui, rd, upper));
  }

  lemma LoadPair(s: Core, l: Latches, us: seq<ICUnit>, op: UOp, rd: Reg, upper: int, lower: int)
    requires |us| == 2 && us[0].op == U(op) && us[0].rd == Some(rd) && us[0].imm == Some(upper) && -B31 <= upper < B31
    requires us[1].op == I1(Addi) && us[1].rd == Some(rd) && us[1].rs1 == Some(rd) && us[1].imm == Some(lower)
      && -2048 <= lower <= 2047
    requires rd != 0
    ensures Generable(us[0]) && Generable(us[1])
    ensures Sets(s, RunUnits(s, l, us), rd,
      Wrap64((if op == Lui then 0 else s.pc) + UpperImmediate(GenerateU(op, rd, upper)) + lower))
  {
    hide Performed, LatchesAfter, GenerateU, GenerateI1, UpperImmediate, Wrap64, WriteGpr;
    RunsPair(s, l, op, rd, upper, lower);
    var w1, w2 := GenerateU(op, rd, upper), GenerateI1(Addi, rd, rd, lower);
    assert Instruction(us[0]) == Ok(InstU(op, rd, upper)) && Instruction(us[1]) == Ok(InstI1(Addi, rd, rd, lower));
    assert us[1..] == [us[1]];
    assert RunUnits(Performed(s, l, w1), LatchesAfter(s, l, w1), [us[1]])
      == Performed(Performed(s, l, w1), LatchesAfter(s, l, w1), w2);
  }

  // ----- la -----

  /** `la rd, label`, run from the address it is assembled for, loads the label's address in memory exactly if the
      distance, rounded, is an `int32_t`. */
  lemma LoadAddressIff(s: Core, l: Latches, unit: ICUnit, rd: Reg, name: Tokens.Name, index: nat,
    symbols: SymbolTable, o: Options)
    requires unit.op == I1(Addi) && rd != 0 && name in symbols && symbols[name].isData && s.pc == TextAddress(index)
    ensures var outcome := PcRelative(unit, rd, name, index, symbols, o);
      var distance := Signed64(Wrap64(o.dataStart + symbols[name].address)) - TextAddress(index);
      && outcome.Emitted? && (forall i | 0 <= i < |outcome.units| :: Generable(outcome.units[i]))
      && (Sets(s, RunUnits(s, l, outcome.units), rd, Wrap64(o.dataStart + symbols[name].address))
          <==> -B31 <= distance + 0x800 < B31)
  {
    hide Performed, LatchesAfter, GenerateU, GenerateI1, UpperImmediate, Immediate, Wrap32, WriteGpr;
    var address := Wrap64(o.dataStart + symbols[name].address);
    var distance := Signed64(address) - TextAddress(index);
    var (hi20, lo12) := PcRelativeParts(o, symbols[name].address, index);
    PartsAre(o, symbols[name].address, index);
    var upper := (distance + 0x800) / 0x1000;
    LoadPair(s, l, PcRelative(unit, rd, name, index, symbols, o).units, Auipc, rd, hi20, lo12);
    SameUpper(rd, hi20, upper);
    UpperValueIff(Auipc, rd, upper, s.pc, lo12);
    WrapSigned64(address);
    SameSet(s.regs, rd, Wrap64(s.pc + UpperImmediate(GenerateU(Auipc, rd, hi20)) + lo12), address);
  }

  /** The parts are those of the untruncated distance, the high one modulo 2^32. */
  lemma PartsAre(o: Options, address: U64, index: nat)
    ensures var distance := Signed64(Wrap64(o.dataStart + address)) - TextAddress(index);
      var (hi20, lo12) := PcRelativeParts(o, address, index);
      && -B31 <= hi20 < B31 && -2048 <= lo12 <= 2047
      && hi20 == Signed32(Wrap32((distance + 0x800) / 0x1000))
        && lo12 == distance - (distance + 0x800) / 0x1000 * 0x1000
  {
    LowPartFits(o, address, index);
    PartRange(o, address, index);
    var distance := Signed64(Wrap64(o.dataStart + address)) - TextAddress(index);
    assert PcRelativeParts(o, address, index).0 == Signed32(Wrap32((distance + 0x800) / 0x1000));
    hide PcRelativeParts, Wrap64, Wrap32, Signed32, Signed64, TextAddress;
  }

  lemma SameUpper(rd: Reg, hi20: int, upper: int)
    requires hi20 == Signed32(Wrap32(upper))
    ensures GenerateU(Auipc, rd, hi20) == GenerateU(Auipc, rd, upper)
  {
  }

  // ----- mv and not -----

  lemma RunsOne(s: Core, l: Latches, u: ICUnit)
    requires Generable(u)
    ensures RunUnits(s, l, [u]) == Performed(s, l, Generate(Instruction(u).value))
  {
    hide Performed, LatchesAfter, Generate, Instruction;
    assert [u][1..] == [];
  }

  lemma RunsAdd(s: Core, l: Latches, w: U32)
    requires Opcode(w) == 0x33 && Funct3(w) == 0 && Funct7(w) == 0 && Rs2(w) == 0
    ensures Sets(s, Performed(s, l, w), Rd(w), ReadGpr(s.regs, Rs1(w)))
  {
    AddWraps(ReadGpr(s.regs, Rs1(w)), 0);
    hide Execute, Immediate, WriteGpr, Rd, Rs1;
  }

  /** `mv rd, rs` copies a register. */
  lemma MoveCopies(s: Core, l: Latches, unit: ICUnit, a: seq<Tokens.Lexeme>, index: nat, symbols: SymbolTable,
    o: Options)
    requires unit.op == Pseudo(Mv) && |Operands(a)| == 2 && Operands(a)[0].Gpr? && Operands(a)[1].Gpr?
    ensures var (outcome, rd, rs) := (FormatPseudo(unit, a, index, symbols, o), Operands(a)[0].reg, Operands(a)[1].reg);
      outcome.Emitted? && |outcome.units| == 1 && Generable(outcome.units[0])
      && Sets(s, RunUnits(s, l, outcome.units), rd, ReadGpr(s.regs, rs))
  {
    hide Operands, Performed, GenerateR, RunUnits, PcRelative, LoadImmediate;
    var u := FormatPseudo(unit, a, index, symbols, o).units[0];
    var w := GenerateR(Add, u.rd.value, u.rs1.value, 0);
    RegisterWord(Add, u.rd.value, u.rs1.value, 0);
    RunsOne(s, l, u);
    RunsAdd(s, l, w);
  }

  lemma RunsNot(s: Core, l: Latches, w: U32)
    requires Opcode(w) == 0x13 && Funct3(w) == 4 && Immediate(w) == -1
    ensures Sets(s, Performed(s, l, w), Rd(w), B64 - 1 - ReadGpr(s.regs, Rs1(w)))
  {
    XorWithMinusOne(ReadGpr(s.regs, Rs1(w)));
    hide Execute, Immediate, WriteGpr, Rd, Rs1, Wrap64, Funct7;
  }

  /** `not rd, rs` complements every bit. */
  lemma NotComplements(s: Core, l: Latches, unit: ICUnit, a: seq<Tokens.Lexeme>, index: nat, symbols: SymbolTable,
    o: Options)
    requires unit.op == Pseudo(Not) && |Operands(a)| == 2 && Operands(a)[0].Gpr? && Operands(a)[1].Gpr?
    ensures var (outcome, rd, rs) := (FormatPseudo(unit, a, index, symbols, o), Operands(a)[0].reg, Operands(a)[1].reg);
      outcome.Emitted? && |outcome.units| == 1 && Generable(outcome.units[0])
      && Sets(s, RunUnits(s, l, outcome.units), rd, B64 - 1 - ReadGpr(s.regs, rs))
  {
    hide Operands, Performed, GenerateI1, RunUnits, PcRelative, LoadImmediate;
    var u := FormatPseudo(unit, a, index, symbols, o).units[0];
    ImmediateWord(Xori, u.rd.value, u.rs1.value, -1);
    RunsOne(s, l, u);
    RunsNot(s, l, GenerateI1(Xori, u.rd.value, u.rs1.value, -1));
  }
}
