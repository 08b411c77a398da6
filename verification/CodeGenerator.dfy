/** Machine-code generation (src/assembler/code_generator.cpp). */
module CodeGenerator {
  import opened Words
  import opened Instructions
  import opened Wrappers
  import opened Tokens

  /** An instruction together with the operands its class uses. */
  datatype Inst =
    | InstR(r: ROp, rd: Reg, rs1: Reg, rs2: Reg)
    | InstI1(i1: I1Op, rd: Reg, rs1: Reg, imm: int)
    | InstI2(i2: I2Op, rd: Reg, rs1: Reg, imm: int)
    | InstEcall
    | InstS(s: SOp, rs1: Reg, rs2: Reg, imm: int)
    | InstB(b: BOp, rs1: Reg, rs2: Reg, imm: int)
    | InstU(u: UOp, rd: Reg, imm: int)
    | InstJal(rd: Reg, imm: int)
    | InstCsrR(cr: CsrROp, rd: Reg, rs1: Reg, csr: nat)
    | InstCsrI(ci: CsrIOp, rd: Reg, imm: int, csr: nat)
    | InstFR(fr: FROp, rd: Reg, rs1: Reg, rs2: Reg)
    | InstFR1(fr1: FR1Op, rd: Reg, rs1: Reg, rs2: Reg, rm: nat)
    | InstFR2(fr2: FR2Op, rd: Reg, rs1: Reg, rm: nat)
    | InstFR3(fr3: FR3Op, rd: Reg, rs1: Reg)
    | InstFR4(fr4: FR4Op, rd: Reg, rs1: Reg, rs2: Reg, rs3: Reg, rm: nat)
    | InstFI(fi: FIOp, rd: Reg, rs1: Reg, imm: int)
    | InstFS(fs: FSOp, rs1: Reg, rs2: Reg, imm: int)

  // One generator per class. `x << k` keeps the low 32-k bits of x, and every `|` joins disjoint fields.

  function GenerateR(op: ROp, rd: Reg, rs1: Reg, rs2: Reg): U32 {
    var e := EncodingR(op);
    e.funct7 * 0x200_0000 + rs2 * 0x10_0000 + rs1 * 0x8000 + e.funct3 * 0x1000 + rd * 0x80 + e.opcode
  }

  function GenerateI1(op: I1Op, rd: Reg, rs1: Reg, imm: int): U32 {
    var e := EncodingI1(op);
    Bits(Wrap32(imm), 1, 0x1000) * 0x10_0000 + rs1 * 0x8000 + e.funct3 * 0x1000 + rd * 0x80 + e.opcode
  }

  /** The `|` of funct6, which is 0 or 0x10, and what a shift amount above 63 puts in its place. */
  function JoinFunct6(funct6: nat, above: nat): nat {
    if funct6 == 0 || above / 16 % 2 == 1 then above else above + 16
  }

  function GenerateI2(op: I2Op, rd: Reg, rs1: Reg, imm: int): U32 {
    var e := EncodingI2(op);
    var i := Wrap32(imm);
    JoinFunct6(e.funct6, Bits(i, 0x40, 0x40)) * 0x400_0000 + Bits(i, 1, 0x40) * 0x10_0000 + rs1 * 0x8000
      + e.funct3 * 0x1000
    + rd * 0x80 + e.opcode
  }

  /** A shift amount below 64 does not meet funct6. */
  lemma ShiftField(op: I2Op, rd: Reg, rs1: Reg, shamt: int)
    requires 0 <= shamt < 64
    ensures var e := EncodingI2(op);
      GenerateI2(op, rd, rs1, shamt)
        == e.funct6 * 0x400_0000 + shamt * 0x10_0000 + rs1 * 0x8000 + e.funct3 * 0x1000 + rd * 0x80 + e.opcode
  {
    assert Bits(shamt, 0x40, 0x40) == 0 && Bits(shamt, 1, 0x40) == shamt;
    hide Bits;
  }

  function GenerateI3(): U32 { 0x73 }

  function GenerateStore(e: Code, rs1: Reg, rs2: Reg, imm: int): U32
    requires e.funct3 < 8 && e.opcode < 128
  {
    var i := Wrap32(imm);
    Bits(i, 0x20, 0x80) * 0x200_0000 + rs2 * 0x10_0000 + rs1 * 0x8000 + e.funct3 * 0x1000 + Bits(i, 1, 0x20) * 0x80
      + e.opcode
  }

  function GenerateB(op: BOp, rs1: Reg, rs2: Reg, imm: int): U32 {
    var e := EncodingB(op);
    var i := Wrap32(imm);
    Bits(i, 0x1000, 2) * 0x8000_0000 + Bits(i, 0x20, 0x40) * 0x200_0000 + rs2 * 0x10_0000 + rs1 * 0x8000
    + e.funct3 * 0x1000 + Bits(i, 2, 0x10) * 0x100 + Bits(i, 0x800, 2) * 0x80 + e.opcode
  }

  function GenerateU(op: UOp, rd: Reg, imm: int): U32 {
    Bits(Wrap32(imm), 1, 0x10_0000) * 0x1000 + rd * 0x80 + EncodingU(op).opcode
  }

  function GenerateJ(rd: Reg, imm: int): U32 {
    var i := Wrap32(imm);
    Bits(i, 0x10_0000, 2) * 0x8000_0000 + Bits(i, 2, 0x400) * 0x20_0000 + Bits(i, 0x800, 2) * 0x10_0000
    + Bits(i, 0x1000, 0x100) * 0x1000 + rd * 0x80 + 0x6F
  }

  function GenerateCsrR(op: CsrROp, rd: Reg, rs1: Reg, csr: nat): U32 {
    var e := EncodingCsrR(op);
    Bits(csr, 1, 0x1000) * 0x10_0000 + rs1 * 0x8000 + e.funct3 * 0x1000 + rd * 0x80 + e.opcode
  }

  function GenerateCsrI(op: CsrIOp, rd: Reg, imm: int, csr: nat): U32 {
    var e := EncodingCsrI(op);
    Bits(csr, 1, 0x1000) * 0x10_0000 + Bits(Wrap32(imm), 1, 0x20) * 0x8000 + e.funct3 * 0x1000 + rd * 0x80 + e.opcode
  }

  function GenerateFR(op: FROp, rd: Reg, rs1: Reg, rs2: Reg): U32 {
    var e := EncodingFR(op);
    e.funct7 * 0x200_0000 + rs2 * 0x10_0000 + rs1 * 0x8000 + e.funct3 * 0x1000 + rd * 0x80 + e.opcode
  }

  function GenerateFR1(op: FR1Op, rd: Reg, rs1: Reg, rs2: Reg, rm: nat): U32 {
    var e := EncodingFR1(op);
    e.funct7 * 0x200_0000 + rs2 * 0x10_0000 + rs1 * 0x8000 + Bits(rm, 1, 8) * 0x1000 + rd * 0x80 + e.opcode
  }

  function GenerateFR2(op: FR2Op, rd: Reg, rs1: Reg, rm: nat): U32 {
    var e := EncodingFR2(op);
    e.funct7 * 0x200_0000 + e.funct5 * 0x10_0000 + rs1 * 0x8000 + Bits(rm, 1, 8) * 0x1000 + rd * 0x80 + e.opcode
  }

  function GenerateFR3(op: FR3Op, rd: Reg, rs1: Reg): U32 {
    var e := EncodingFR3(op);
    e.funct7 * 0x200_0000 + e.funct5 * 0x10_0000 + rs1 * 0x8000 + e.funct3 * 0x1000 + rd * 0x80 + e.opcode
  }

  function GenerateFR4(op: FR4Op, rd: Reg, rs1: Reg, rs2: Reg, rs3: Reg, rm: nat): U32 {
    var e := EncodingFR4(op);
    rs3 * 0x800_0000 + e.funct2 * 0x200_0000 + rs2 * 0x10_0000 + rs1 * 0x8000 + Bits(rm, 1, 8) * 0x1000 + rd * 0x80
      + e.opcode
  }

  function GenerateFI(op: FIOp, rd: Reg, rs1: Reg, imm: int): U32 {
    var e := EncodingFI(op);
    Bits(Wrap32(imm), 1, 0x1000) * 0x10_0000 + rs1 * 0x8000 + e.funct3 * 0x1000 + rd * 0x80 + e.opcode
  }

  /** Operands in the ranges the parser admits; branch and jump offsets are even. */
  predicate WellFormed(i: Inst) {
    match i
    case InstI1(_, _, _, imm) => -0x800 <= imm < 0x800
    case InstI2(_, _, _, imm) => 0 <= imm < 64
    case InstS(_, _, _, imm) => -0x800 <= imm < 0x800
    case InstB(_, _, _, imm) => -0x1000 <= imm < 0x1000 && imm % 2 == 0
    case InstU(_, _, imm) => 0 <= imm < 0x10_0000
    case InstJal(_, imm) => -0x10_0000 <= imm < 0x10_0000 && imm % 2 == 0
    case InstCsrR(_, _, _, csr) => csr < 0x1000
    case InstCsrI(_, _, imm, csr) => 0 <= imm < 32 && csr < 0x1000
    case InstFR1(_, _, _, _, rm) => rm < 8
    case InstFR2(_, _, _, rm) => rm < 8
    case InstFR4(_, _, _, _, _, rm) => rm < 8
    case InstFI(_, _, _, imm) => -0x800 <= imm < 0x800
    case InstFS(_, _, _, imm) => -0x800 <= imm < 0x800
    case _ => true
  }

  function Generate(i: Inst): U32 {
    match i
    case InstR(op, rd, rs1, rs2) => GenerateR(op, rd, rs1, rs2)
    case InstI1(op, rd, rs1, imm) => GenerateI1(op, rd, rs1, imm)
    case InstI2(op, rd, rs1, imm) => GenerateI2(op, rd, rs1, imm)
    case InstEcall => GenerateI3()
    case InstS(op, rs1, rs2, imm) => GenerateStore(EncodingS(op), rs1, rs2, imm)
    case InstB(op, rs1, rs2, imm) => GenerateB(op, rs1, rs2, imm)
    case InstU(op, rd, imm) => GenerateU(op, rd, imm)
    case InstJal(rd, imm) => GenerateJ(rd, imm)
    case InstCsrR(op, rd, rs1, csr) => GenerateCsrR(op, rd, rs1, csr)
    case InstCsrI(op, rd, imm, csr) => GenerateCsrI(op, rd, imm, csr)
    case InstFR(op, rd, rs1, rs2) => GenerateFR(op, rd, rs1, rs2)
    case InstFR1(op, rd, rs1, rs2, rm) => GenerateFR1(op, rd, rs1, rs2, rm)
    case InstFR2(op, rd, rs1, rm) => GenerateFR2(op, rd, rs1, rm)
    case InstFR3(op, rd, rs1) => GenerateFR3(op, rd, rs1)
    case InstFR4(op, rd, rs1, rs2, rs3, rm) => GenerateFR4(op, rd, rs1, rs2, rs3, rm)
    case InstFI(op, rd, rs1, imm) => GenerateFI(op, rd, rs1, imm)
    case InstFS(op, rs1, rs2, imm) => GenerateStore(EncodingFS(op), rs1, rs2, imm)
  }

  // ----- intermediate code -----

  /** An instruction as the parser leaves it (`ICUnit` in include/assembler/code_generator.h); a register or
      immediate that was not set is None. */
  datatype ICUnit = Unit(op: Op, line: nat, rd: Option<Reg> := None, rs1: Option<Reg> := None, rs2: Option<Reg> := None,
                         rs3: Option<Reg> := None, imm: Option<int> := None, csr: nat := 0, rm: nat := 0,
                         target: Option<Name> := None)

  /** The instruction a unit denotes. Reading an operand that was not set throws, as does an immediate outside
      `int`, and an opcode of no encoding class. */
  function Instruction(u: ICUnit): Result<Inst> {
    var imm := u.imm.Some? && -B31 <= u.imm.value < B31;
    match u.op
    case R(op) =>
      if u.rd.Some? && u.rs1.Some? && u.rs2.Some? then Ok(InstR(op, u.rd.value, u.rs1.value, u.rs2.value)) else Thrown
    case I1(op) =>
      if u.rd.Some? && u.rs1.Some? && imm then Ok(InstI1(op, u.rd.value, u.rs1.value, u.imm.value)) else Thrown
    case I2(op) =>
      if u.rd.Some? && u.rs1.Some? && imm then Ok(InstI2(op, u.rd.value, u.rs1.value, u.imm.value)) else Thrown
    case Ecall => Ok(InstEcall)
    case S(op) =>
      if u.rs1.Some? && u.rs2.Some? && imm then Ok(InstS(op, u.rs1.value, u.rs2.value, u.imm.value)) else Thrown
    case B(op) =>
      if u.rs1.Some? && u.rs2.Some? && imm then Ok(InstB(op, u.rs1.value, u.rs2.value, u.imm.value)) else Thrown
    case U(op) => if u.rd.Some? && imm then Ok(InstU(op, u.rd.value, u.imm.value)) else Thrown
    case Jal => if u.rd.Some? && imm then Ok(InstJal(u.rd.value, u.imm.value)) else Thrown
    case CsrR(op) => if u.rd.Some? && u.rs1.Some? then Ok(InstCsrR(op, u.rd.value, u.rs1.value, u.csr)) else Thrown
    case CsrI(op) => if u.rd.Some? && imm then Ok(InstCsrI(op, u.rd.value, u.imm.value, u.csr)) else Thrown
    case FR(op) =>
      if u.rd.Some? && u.rs1.Some? && u.rs2.Some? then Ok(InstFR(op, u.rd.value, u.rs1.value, u.rs2.value)) else Thrown
    case FR1(op) => if u.rd.Some? && u.rs1.Some? && u.rs2.Some?
      then Ok(InstFR1(op, u.rd.value, u.rs1.value, u.rs2.value, u.rm)) else Thrown
    case FR2(op) => if u.rd.Some? && u.rs1.Some? then Ok(InstFR2(op, u.rd.value, u.rs1.value, u.rm)) else Thrown
    case FR3(op) => if u.rd.Some? && u.rs1.Some? then Ok(InstFR3(op, u.rd.value, u.rs1.value)) else Thrown
    case FR4(op) =>
      if u.rd.Some? && u.rs1.Some? && u.rs2.Some? && u.rs3.Some?
      then Ok(InstFR4(op, u.rd.value, u.rs1.value, u.rs2.value, u.rs3.value, u.rm)) else Thrown
    case FI(op) =>
      if u.rd.Some? && u.rs1.Some? && imm then Ok(InstFI(op, u.rd.value, u.rs1.value, u.imm.value)) else Thrown
    case FS(op) =>
      if u.rs1.Some? && u.rs2.Some? && imm then Ok(InstFS(op, u.rs1.value, u.rs2.value, u.imm.value)) else Thrown
    case _ => Thrown
  }

  predicate Generable(u: ICUnit) { Instruction(u).Ok? }

  /** `generateMachineCode`. */
  method GenerateMachineCode(code: seq<(ICUnit, bool)>) returns (r: Result<seq<U32>>)
    ensures r.Ok? <==> forall i | 0 <= i < |code| :: Generable(code[i].0)
    ensures r.Ok? ==> |r.value| == |code|
    ensures r.Ok? ==> forall i | 0 <= i < |code| ::
      Generable(code[i].0) && r.value[i] == Generate(Instruction(code[i].0).value)
  {
    hide Instruction, Generate;
    var machineCode: seq<U32> := [];
    for n := 0 to |code|
      invariant |machineCode| == n
      invariant forall i | 0 <= i < n ::
        Generable(code[i].0) && machineCode[i] == Generate(Instruction(code[i].0).value)
    {
      var instruction := Instruction(code[n].0);
      if instruction.Thrown? {
        assert !Generable(code[n].0);
        return Thrown;
      }
      machineCode := machineCode + [Generate(instruction.value)];
    }
    r := Ok(machineCode);
  }
}
