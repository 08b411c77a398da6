/** A reference decoder, organised by opcode and function fields like the instruction listings of the ISA manual
    (chapter 24 "RV32/64G Instruction Set Listings" of the RISC-V Instruction Set Manual, Volume I, 20191213).
    It recovers every generated instruction, so no two instructions share an encoding. */
module Decoder {
  import opened Words
  import opened Wrappers
  import opened Instructions
  import opened CodeGenerator
  import opened ImmGenerator

  function At<T>(table: seq<Option<T>>, k: nat): Option<T> {
    if k < |table| then table[k] else None
  }

  function DecodeR(opcode: nat, f7: nat, f3: nat): Option<ROp> {
    match (opcode, f7)
    case (0x33, 0x00) =>
      At([Some(Add), Some(Sll), Some(Slt), Some(Sltu), Some(Xor), Some(Srl), Some(Or), Some(And)], f3)
    case (0x33, 0x01) =>
      At([Some(Mul), Some(Mulh), Some(Mulhsu), Some(Mulhu), Some(Div), Some(Divu), Some(Rem), Some(Remu)], f3)
    case (0x33, 0x20) => At([Some(Sub), None, None, None, None, Some(Sra)], f3)
    case (0x3B, 0x00) => At([Some(Addw), Some(Sllw), None, None, None, Some(Srlw)], f3)
    case (0x3B, 0x01) => At([Some(Mulw), None, None, None, Some(Divw), Some(Divuw), Some(Remw), Some(Remuw)], f3)
    case (0x3B, 0x20) => At([Some(Subw), None, None, None, None, Some(Sraw)], f3)
    case _ => None
  }

  function DecodeI1(opcode: nat, f3: nat): Option<I1Op> {
    match opcode
    case 0x13 => At([Some(Addi), None, Some(Slti), Some(Sltiu), Some(Xori), None, Some(Ori), Some(Andi)], f3)
    case 0x1B => At([Some(Addiw)], f3)
    case 0x03 => At([Some(Lb), Some(Lh), Some(Lw), Some(Ld), Some(Lbu), Some(Lhu), Some(Lwu)], f3)
    case 0x67 => At([Some(Jalr)], f3)
    case _ => None
  }

  function DecodeI2(opcode: nat, f3: nat, f6: nat): Option<I2Op> {
    match (opcode, f3, f6)
    case (0x13, 1, 0x00) => Some(Slli)
    case (0x13, 5, 0x00) => Some(Srli)
    case (0x13, 5, 0x10) => Some(Srai)
    case (0x1B, 1, 0x00) => Some(Slliw)
    case (0x1B, 5, 0x00) => Some(Srliw)
    case (0x1B, 5, 0x10) => Some(Sraiw)
    case _ => None
  }

  function DecodeFR(f7: nat, f3: nat): Option<FROp> {
    match f7
    case 0x10 => At([Some(FsgnjS), Some(FsgnjnS), Some(FsgnjxS)], f3)
    case 0x11 => At([Some(FsgnjD), Some(FsgnjnD), Some(FsgnjxD)], f3)
    case 0x14 => At([Some(FminS), Some(FmaxS)], f3)
    case 0x15 => At([Some(FminD), Some(FmaxD)], f3)
    case 0x50 => At([Some(FleS), Some(FltS), Some(FeqS)], f3)
    case 0x51 => At([Some(FleD), Some(FltD), Some(FeqD)], f3)
    case _ => None
  }

  function DecodeFR1(f7: nat): Option<FR1Op> {
    match f7
    case 0x00 => Some(FaddS)
    case 0x01 => Some(FaddD)
    case 0x04 => Some(FsubS)
    case 0x05 => Some(FsubD)
    case 0x08 => Some(FmulS)
    case 0x09 => Some(FmulD)
    case 0x0C => Some(FdivS)
    case 0x0D => Some(FdivD)
    case _ => None
  }

  function DecodeFR2(f7: nat, f5: nat): Option<FR2Op> {
    match f7
    case 0x2C => At([Some(FsqrtS)], f5)
    case 0x2D => At([Some(FsqrtD)], f5)
    case 0x20 => At([None, Some(FcvtSD)], f5)
    case 0x21 => At([Some(FcvtDS)], f5)
    case 0x60 => At([Some(FcvtWS), Some(FcvtWuS), Some(FcvtLS), Some(FcvtLuS)], f5)
    case 0x61 => At([Some(FcvtWD), Some(FcvtWuD), Some(FcvtLD), Some(FcvtLuD)], f5)
    case 0x68 => At([Some(FcvtSW), Some(FcvtSWu), Some(FcvtSL), Some(FcvtSLu)], f5)
    case 0x69 => At([Some(FcvtDW), Some(FcvtDWu), Some(FcvtDL), Some(FcvtDLu)], f5)
    case _ => None
  }

  function DecodeFR3(f7: nat, f5: nat, f3: nat): Option<FR3Op> {
    match (f7, f5)
    case (0x70, 0) => At([Some(FmvXW), Some(FclassS)], f3)
    case (0x71, 0) => At([Some(FmvXD), Some(FclassD)], f3)
    case (0x78, 0) => At([Some(FmvWX)], f3)
    case (0x79, 0) => At([Some(FmvDX)], f3)
    case _ => None
  }

  function DecodeFR4(opcode: nat, f2: nat): Option<FR4Op> {
    match (opcode, f2)
    case (0x43, 0) => Some(FmaddS)
    case (0x43, 1) => Some(FmaddD)
    case (0x47, 0) => Some(FmsubS)
    case (0x47, 1) => Some(FmsubD)
    case (0x4B, 0) => Some(FnmsubS)
    case (0x4B, 1) => Some(FnmsubD)
    case (0x4F, 0) => Some(FnmaddS)
    case (0x4F, 1) => Some(FnmaddD)
    case _ => None
  }

  function DecodeFloat(w: int): Option<Inst> {
    var rd, rs1, rs2, f3, f7 := Rd(w), Rs1(w), Rs2(w), Funct3(w), Funct7(w);
    var fr, fr1, fr2, fr3 := DecodeFR(f7, f3), DecodeFR1(f7), DecodeFR2(f7, rs2), DecodeFR3(f7, rs2, f3);
    if fr.Some? then Some(InstFR(fr.value, rd, rs1, rs2))
    else if fr1.Some? then Some(InstFR1(fr1.value, rd, rs1, rs2, f3))
    else if fr2.Some? then Some(InstFR2(fr2.value, rd, rs1, f3))
    else if fr3.Some? then Some(InstFR3(fr3.value, rd, rs1))
    else None
  }

  function DecodeSystem(w: int): Option<Inst> {
    var rd, rs1, f3, csr := Rd(w), Rs1(w), Funct3(w), Bits(w, 0x10_0000, 0x1000);
    var r := At([None, Some(Csrrw), Some(Csrrs), Some(Csrrc)], f3);
    var i := At([None, None, None, None, None, Some(Csrrwi), Some(Csrrsi), Some(Csrrci)], f3);
    if f3 == 0 then Some(InstEcall)
    else if r.Some? then Some(InstCsrR(r.value, rd, rs1, csr))
    else if i.Some? then Some(InstCsrI(i.value, rd, rs1, csr))
    else None
  }

  function DecodeImmediate(w: int): Option<Inst> {
    var i1, i2 := DecodeI1(Opcode(w), Funct3(w)), DecodeI2(Opcode(w), Funct3(w), Funct7(w) / 2);
    if i1.Some? then Some(InstI1(i1.value, Rd(w), Rs1(w), ImmI(w)))
    else if i2.Some? then Some(InstI2(i2.value, Rd(w), Rs1(w), Bits(w, 0x10_0000, 0x1000) % 64))
    else None
  }

  function DecodeRegister(w: int): Option<Inst> {
    var r := DecodeR(Opcode(w), Funct7(w), Funct3(w));
    if r.Some? then Some(InstR(r.value, Rd(w), Rs1(w), Rs2(w))) else None
  }

  function DecodeStore(w: int): Option<Inst> {
    var s := At([Some(Sb), Some(Sh), Some(Sw), Some(Sd)], Funct3(w));
    if s.Some? then Some(InstS(s.value, Rs1(w), Rs2(w), ImmS(w))) else None
  }

  function DecodeFloatMemory(w: int): Option<Inst> {
    match (Opcode(w), Funct3(w))
    case (0x07, 2) => Some(InstFI(Flw, Rd(w), Rs1(w), ImmI(w)))
    case (0x07, 3) => Some(InstFI(Fld, Rd(w), Rs1(w), ImmI(w)))
    case (0x27, 2) => Some(InstFS(Fsw, Rs1(w), Rs2(w), ImmS(w)))
    case (0x27, 3) => Some(InstFS(Fsd, Rs1(w), Rs2(w), ImmS(w)))
    case _ => None
  }

  function DecodeBranch(w: int): Option<Inst> {
    var b := At([Some(Beq), Some(Bne), None, None, Some(Blt), Some(Bge), Some(Bltu), Some(Bgeu)], Funct3(w));
    if b.Some? then Some(InstB(b.value, Rs1(w), Rs2(w), ImmB(w))) else None
  }

  function DecodeFused(w: int): Option<Inst> {
    var r := DecodeFR4(Opcode(w), Funct7(w) % 4);
    if r.Some? then Some(InstFR4(r.value, Rd(w), Rs1(w), Rs2(w), Funct7(w) / 4, Funct3(w))) else None
  }

  function Decode(w: int): Option<Inst> {
    match Opcode(w)
    case 0x33 | 0x3B => DecodeRegister(w)
    case 0x13 | 0x1B | 0x03 | 0x67 => DecodeImmediate(w)
    case 0x23 => DecodeStore(w)
    case 0x63 => DecodeBranch(w)
    case 0x37 => Some(InstU(Lui, Rd(w), ImmU(w)))
    case 0x17 => Some(InstU(Auipc, Rd(w), ImmU(w)))
    case 0x6F => Some(InstJal(Rd(w), ImmJ(w)))
    case 0x73 => DecodeSystem(w)
    case 0x53 => DecodeFloat(w)
    case 0x43 | 0x47 | 0x4B | 0x4F => DecodeFused(w)
    case 0x07 | 0x27 => DecodeFloatMemory(w)
    case _ => None
  }

  // ----- decoding inverts generation, class by class -----

  lemma InverseR(op: ROp, rd: Reg, rs1: Reg, rs2: Reg)
    ensures Decode(GenerateR(op, rd, rs1, rs2)) == Some(InstR(op, rd, rs1, rs2))
  {
    hide Bits;
    var e := EncodingR(op);
    Unpack(GenerateR(op, rd, rs1, rs2), e.funct7, rs2, rs1, e.funct3, rd, e.opcode);
  }

  lemma InverseI1(op: I1Op, rd: Reg, rs1: Reg, imm: int)
    requires -0x800 <= imm < 0x800
    ensures Decode(GenerateI1(op, rd, rs1, imm)) == Some(InstI1(op, rd, rs1, imm))
  {
    hide Bits, ImmI;
    var e := EncodingI1(op);
    RoundTripI(GenerateI1(op, rd, rs1, imm), e.funct3, rs1, rd, e.opcode, imm);
  }

  lemma InverseI2(op: I2Op, rd: Reg, rs1: Reg, imm: int)
    requires 0 <= imm < 64
    ensures Decode(GenerateI2(op, rd, rs1, imm)) == Some(InstI2(op, rd, rs1, imm))
  {
    hide Bits, ImmI;
    var e := EncodingI2(op);
    ShiftField(op, rd, rs1, imm);
    hide GenerateI2;
    Unpack(GenerateI2(op, rd, rs1, imm), e.funct6 * 2 + imm / 32, imm % 32, rs1, e.funct3, rd, e.opcode);
  }

  lemma InverseS(op: SOp, rs1: Reg, rs2: Reg, imm: int)
    requires -0x800 <= imm < 0x800
    ensures Decode(GenerateStore(EncodingS(op), rs1, rs2, imm)) == Some(InstS(op, rs1, rs2, imm))
  {
    hide Bits, ImmS;
    RoundTripS(EncodingS(op), rs1, rs2, imm);
  }

  lemma InverseFS(op: FSOp, rs1: Reg, rs2: Reg, imm: int)
    requires -0x800 <= imm < 0x800
    ensures Decode(GenerateStore(EncodingFS(op), rs1, rs2, imm)) == Some(InstFS(op, rs1, rs2, imm))
  {
    hide Bits, ImmS;
    RoundTripS(EncodingFS(op), rs1, rs2, imm);
  }

  lemma InverseB(op: BOp, rs1: Reg, rs2: Reg, imm: int)
    requires -0x1000 <= imm < 0x1000 && imm % 2 == 0
    ensures Decode(GenerateB(op, rs1, rs2, imm)) == Some(InstB(op, rs1, rs2, imm))
  {
    hide Bits, ImmB;
    RoundTripB(op, rs1, rs2, imm);
  }

  lemma InverseU(op: UOp, rd: Reg, imm: int)
    requires 0 <= imm < 0x10_0000
    ensures Decode(GenerateU(op, rd, imm)) == Some(InstU(op, rd, imm))
  {
    hide Bits, ImmU;
    RoundTripU(op, rd, imm);
  }

  lemma InverseJ(rd: Reg, imm: int)
    requires -0x10_0000 <= imm < 0x10_0000 && imm % 2 == 0
    ensures Decode(GenerateJ(rd, imm)) == Some(InstJal(rd, imm))
  {
    hide Bits, ImmJ;
    RoundTripJ(rd, imm);
  }

  lemma InverseCsrR(op: CsrROp, rd: Reg, rs1: Reg, csr: nat)
    requires csr < 0x1000
    ensures Decode(GenerateCsrR(op, rd, rs1, csr)) == Some(InstCsrR(op, rd, rs1, csr))
  {
    hide Bits;
    BitsOne(csr, 0x1000);
    Unpack(GenerateCsrR(op, rd, rs1, csr), csr / 32, csr % 32, rs1, EncodingCsrR(op).funct3, rd, 0x73);
  }

  lemma InverseCsrI(op: CsrIOp, rd: Reg, imm: int, csr: nat)
    requires 0 <= imm < 32 && csr < 0x1000
    ensures Decode(GenerateCsrI(op, rd, imm, csr)) == Some(InstCsrI(op, rd, imm, csr))
  {
    hide Bits, GenerateCsrI, Opcode, Funct3, Rd, Rs1;
    CsrWord(op, rd, imm, csr);
  }

  lemma CsrWord(op: CsrIOp, rd: Reg, imm: int, csr: nat)
    requires 0 <= imm < 32 && csr < 0x1000
    ensures var w := GenerateCsrI(op, rd, imm, csr);
      && Opcode(w) == 0x73 && Funct3(w) == EncodingCsrI(op).funct3 && Rd(w) == rd && Rs1(w) == imm
      && Bits(w, 0x10_0000, 0x1000) == csr
  {
    hide Bits;
    BitsOne(csr, 0x1000);
    BitsOne(Wrap32(imm), 32);
    Unpack(GenerateCsrI(op, rd, imm, csr), csr / 32, csr % 32, imm, EncodingCsrI(op).funct3, rd, 0x73);
  }

  lemma InverseFR(op: FROp, rd: Reg, rs1: Reg, rs2: Reg)
    ensures Decode(GenerateFR(op, rd, rs1, rs2)) == Some(InstFR(op, rd, rs1, rs2))
  {
    hide Bits;
    var e := EncodingFR(op);
    Unpack(GenerateFR(op, rd, rs1, rs2), e.funct7, rs2, rs1, e.funct3, rd, 0x53);
  }

  lemma InverseFR1(op: FR1Op, rd: Reg, rs1: Reg, rs2: Reg, rm: nat)
    requires rm < 8
    ensures Decode(GenerateFR1(op, rd, rs1, rs2, rm)) == Some(InstFR1(op, rd, rs1, rs2, rm))
  {
    hide Bits;
    BitsOne(rm, 8);
    Unpack(GenerateFR1(op, rd, rs1, rs2, rm), EncodingFR1(op).funct7, rs2, rs1, rm, rd, 0x53);
  }

  lemma InverseFR2(op: FR2Op, rd: Reg, rs1: Reg, rm: nat)
    requires rm < 8
    ensures Decode(GenerateFR2(op, rd, rs1, rm)) == Some(InstFR2(op, rd, rs1, rm))
  {
    hide Bits;
    BitsOne(rm, 8);
    var e := EncodingFR2(op);
    Unpack(GenerateFR2(op, rd, rs1, rm), e.funct7, e.funct5, rs1, rm, rd, 0x53);
  }

  lemma InverseFR3(op: FR3Op, rd: Reg, rs1: Reg)
    ensures Decode(GenerateFR3(op, rd, rs1)) == Some(InstFR3(op, rd, rs1))
  {
    hide Bits;
    var e := EncodingFR3(op);
    Unpack(GenerateFR3(op, rd, rs1), e.funct7, e.funct5, rs1, e.funct3, rd, 0x53);
  }

  lemma InverseFR4(op: FR4Op, rd: Reg, rs1: Reg, rs2: Reg, rs3: Reg, rm: nat)
    requires rm < 8
    ensures Decode(GenerateFR4(op, rd, rs1, rs2, rs3, rm)) == Some(InstFR4(op, rd, rs1, rs2, rs3, rm))
  {
    hide Bits;
    BitsOne(rm, 8);
    var e := EncodingFR4(op);
    Unpack(GenerateFR4(op, rd, rs1, rs2, rs3, rm), rs3 * 4 + e.funct2, rs2, rs1, rm, rd, e.opcode);
  }

  lemma InverseFI(op: FIOp, rd: Reg, rs1: Reg, imm: int)
    requires -0x800 <= imm < 0x800
    ensures Decode(GenerateFI(op, rd, rs1, imm)) == Some(InstFI(op, rd, rs1, imm))
  {
    hide Bits, ImmI;
    var e := EncodingFI(op);
    RoundTripI(GenerateFI(op, rd, rs1, imm), e.funct3, rs1, rd, e.opcode, imm);
  }

  /** Decoding recovers mnemonic and operands from every generated word. */
  lemma DecodeInvertsGenerate(i: Inst)
    requires WellFormed(i)
    ensures Decode(Generate(i)) == Some(i)
  {
    hide Decode;
    match i
    case InstR(op, rd, rs1, rs2) => InverseR(op, rd, rs1, rs2);
    case InstI1(op, rd, rs1, imm) => InverseI1(op, rd, rs1, imm);
    case InstI2(op, rd, rs1, imm) => InverseI2(op, rd, rs1, imm);
    case InstEcall => InverseEcall();
    case InstS(op, rs1, rs2, imm) => InverseS(op, rs1, rs2, imm);
    case InstB(op, rs1, rs2, imm) => InverseB(op, rs1, rs2, imm);
    case InstU(op, rd, imm) => InverseU(op, rd, imm);
    case InstJal(rd, imm) => InverseJ(rd, imm);
    case InstCsrR(op, rd, rs1, csr) => InverseCsrR(op, rd, rs1, csr);
    case InstCsrI(op, rd, imm, csr) => InverseCsrI(op, rd, imm, csr);
    case InstFR(op, rd, rs1, rs2) => InverseFR(op, rd, rs1, rs2);
    case InstFR1(op, rd, rs1, rs2, rm) => InverseFR1(op, rd, rs1, rs2, rm);
    case InstFR2(op, rd, rs1, rm) => InverseFR2(op, rd, rs1, rm);
    case InstFR3(op, rd, rs1) => InverseFR3(op, rd, rs1);
    case InstFR4(op, rd, rs1, rs2, rs3, rm) => InverseFR4(op, rd, rs1, rs2, rs3, rm);
    case InstFI(op, rd, rs1, imm) => InverseFI(op, rd, rs1, imm);
    case InstFS(op, rs1, rs2, imm) => InverseFS(op, rs1, rs2, imm);
  }

  lemma InverseEcall()
    ensures Decode(GenerateI3()) == Some(InstEcall)
  {}

  /** Distinct well-formed instructions never share an encoding. */
  lemma EncodingsAreDistinct(i: Inst, j: Inst)
    requires WellFormed(i) && WellFormed(j)
    ensures Generate(i) == Generate(j) <==> i == j
  {
    hide Decode, Generate;
    DecodeInvertsGenerate(i);
    DecodeInvertsGenerate(j);
  }
}
