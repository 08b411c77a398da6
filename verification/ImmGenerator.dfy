/** Immediate decoding (`VmBase::ImmGenerator` and `sign_extend` in src/vm/vm_base.cpp), and the proof that
    it inverts code generation. */
module ImmGenerator {
  import opened Words
  import opened Instructions
  import opened CodeGenerator

  function Opcode(w: int): nat { w % 0x80 }
  function Rd(w: int): Reg { Bits(w, 0x80, 0x20) }
  function Funct3(w: int): nat { Bits(w, 0x1000, 8) }
  function Rs1(w: int): Reg { Bits(w, 0x8000, 0x20) }
  function Rs2(w: int): Reg { Bits(w, 0x10_0000, 0x20) }
  function Funct7(w: int): nat { Bits(w, 0x200_0000, 0x80) }

  /** `(value ^ mask) - mask` with `mask` the sign bit: the xor adds the bit or removes it. */
  function SignExtend(value: nat, mask: nat): int {
    (if value < mask then value + mask else value - mask) - mask
  }

  function ImmI(w: int): int { SignExtend(Bits(w, 0x10_0000, 0x1000), 0x800) }

  function ImmS(w: int): int { SignExtend(Bits(w, 0x80, 0x20) + Bits(w, 0x200_0000, 0x80) * 0x20, 0x800) }

  function ImmB(w: int): int {
    SignExtend(2 * (Bits(w, 0x100, 0x10) + Bits(w, 0x200_0000, 0x40) * 0x10
                    + Bits(w, 0x80, 2) * 0x400 + Bits(w, 0x8000_0000, 2) * 0x800), 0x1000)
  }

  function ImmU(w: int): int { Bits(w, 0x1000, 0x10_0000) }

  function ImmJ(w: int): int {
    SignExtend(2 * (Bits(w, 0x20_0000, 0x400) + Bits(w, 0x10_0000, 2) * 0x400
                    + Bits(w, 0x1000, 0x100) * 0x800 + Bits(w, 0x8000_0000, 2) * 0x8_0000), 0x10_0000)
  }

  function Immediate(w: U32): int {
    var opcode := Opcode(w);
    if opcode == 0x13 || opcode == 0x03 || opcode == 0x67 || opcode == 0x0F || opcode == 0x07 then ImmI(w)
    else if opcode == 0x23 || opcode == 0x27 then ImmS(w)
    else if opcode == 0x63 then ImmB(w)
    else if opcode == 0x37 || opcode == 0x17 then ImmU(w)
    else if opcode == 0x6F then ImmJ(w)
    else 0
  }

  /** Every generated word has the layout funct7 | rs2 | rs1 | funct3 | rd | opcode. */
  lemma Unpack(w: int, f7: int, rs2: int, rs1: int, f3: int, rd: int, op: int)
    requires 0 <= f7 < 0x80 && 0 <= rs2 < 0x20 && 0 <= rs1 < 0x20 && 0 <= f3 < 8 && 0 <= rd < 0x20 && 0 <= op < 0x80
    requires w == f7 * 0x200_0000 + rs2 * 0x10_0000 + rs1 * 0x8000 + f3 * 0x1000 + rd * 0x80 + op
    ensures Opcode(w) == op && Rd(w) == rd && Funct3(w) == f3 && Rs1(w) == rs1 && Rs2(w) == rs2 && Funct7(w) == f7
    ensures Bits(w, 0x10_0000, 0x1000) == f7 * 0x20 + rs2
  {
    hide Bits;
    BitsAre(w, f7 * 0x4_0000 + rs2 * 0x2000 + rs1 * 0x100 + f3 * 0x20 + rd, op, 0, 1, 0x80);
    DivUnique(w, f7 * 0x4_0000 + rs2 * 0x2000 + rs1 * 0x100 + f3 * 0x20 + rd, op, 0x80);
    BitsAre(w, f7 * 0x2000 + rs2 * 0x100 + rs1 * 8 + f3, rd, op, 0x80, 0x20);
    BitsAre(w, f7 * 0x400 + rs2 * 0x20 + rs1, f3, rd * 0x80 + op, 0x1000, 8);
    BitsAre(w, f7 * 0x20 + rs2, rs1, f3 * 0x1000 + rd * 0x80 + op, 0x8000, 0x20);
    BitsAre(w, f7, rs2, rs1 * 0x8000 + f3 * 0x1000 + rd * 0x80 + op, 0x10_0000, 0x20);
    BitsAre(w, 0, f7, rs2 * 0x10_0000 + rs1 * 0x8000 + f3 * 0x1000 + rd * 0x80 + op, 0x200_0000, 0x80);
    BitsAre(w, 0, f7 * 0x20 + rs2, rs1 * 0x8000 + f3 * 0x1000 + rd * 0x80 + op, 0x10_0000, 0x1000);
  }

  /** Sign extension undoes truncation of a two's complement number to `2 * mask` values. */
  lemma Extended(imm: int, mask: int, period: int, v: nat)
    requires mask > 0 && period == 2 * mask && -mask <= imm < mask && v == imm % period
    ensures SignExtend(v, mask) == imm
  {
    if imm < 0 { DivUnique(imm, -1, imm + period, period); } else { DivUnique(imm, 0, imm, period); }
  }

  lemma WrapLow(imm: int)
    ensures Wrap32(imm) % 0x1000 == imm % 0x1000 && Wrap32(imm) % 0x2000 == imm % 0x2000
    ensures Wrap32(imm) % 0x20_0000 == imm % 0x20_0000 && Wrap32(imm) % 0x10_0000 == imm % 0x10_0000
    ensures Wrap32(imm) % 2 == imm % 2
  {
    ModMod(imm, B32, 0x10_0000, 0x1000);
    ModMod(imm, B32, 0x8_0000, 0x2000);
    ModMod(imm, B32, 0x1000, 0x10_0000);
    ModMod(imm, B32, 0x800, 0x20_0000);
    ModMod(imm, B32, 0x8000_0000, 2);
  }

  lemma ModMod(i: int, m: int, k: int, d: int)
    requires d > 0 && k > 0 && m == k * d && m > 0
    ensures i % m % d == i % d
  {
    var q, r := i / m, i % m;
    var a, b := r / d, r % d;
    assert i == (q * k + a) * d + b by { assert q * m == q * k * d; }
    DivUnique(i, q * k + a, b, d);
  }

  lemma BitsOne(i: int, n: nat)
    requires n > 0
    ensures Bits(i, 1, n) == i % n
  {}

  lemma RoundTripI(w: int, f3: nat, rs1: Reg, rd: Reg, op: nat, imm: int)
    requires f3 < 8 && op < 0x80 && -0x800 <= imm < 0x800
    requires w == Bits(Wrap32(imm), 1, 0x1000) * 0x10_0000 + rs1 * 0x8000 + f3 * 0x1000 + rd * 0x80 + op
    ensures Opcode(w) == op && Rd(w) == rd && Funct3(w) == f3 && Rs1(w) == rs1 && ImmI(w) == imm
  {
    hide Bits;
    var i := Bits(Wrap32(imm), 1, 0x1000);
    Unpack(w, i / 0x20, i % 0x20, rs1, f3, rd, op);
    BitsOne(Wrap32(imm), 0x1000);
    WrapLow(imm);
    Extended(imm, 0x800, 0x1000, imm % 0x1000);
  }

  lemma RoundTripS(e: Code, rs1: Reg, rs2: Reg, imm: int)
    requires e.funct3 < 8 && e.opcode < 0x80 && -0x800 <= imm < 0x800
    ensures var w := GenerateStore(e, rs1, rs2, imm);
      Opcode(w) == e.opcode && Funct3(w) == e.funct3 && Rs1(w) == rs1 && Rs2(w) == rs2 && ImmS(w) == imm
  {
    hide Bits;
    var i := Wrap32(imm);
    var w := GenerateStore(e, rs1, rs2, imm);
    Unpack(w, Bits(i, 0x20, 0x80), rs2, rs1, e.funct3, Bits(i, 1, 0x20), e.opcode);
    BitsOne(i, 0x20);
    LowBits(i, 0x20, 0x80);
    WrapLow(imm);
    Extended(imm, 0x800, 0x1000, imm % 0x1000);
  }

  lemma RoundTripB(op: BOp, rs1: Reg, rs2: Reg, imm: int)
    requires -0x1000 <= imm < 0x1000 && imm % 2 == 0
    ensures var w := GenerateB(op, rs1, rs2, imm);
      Opcode(w) == 0x63 && Funct3(w) == EncodingB(op).funct3 && Rs1(w) == rs1 && Rs2(w) == rs2 && ImmB(w) == imm
  {
    hide Bits;
    var i := Wrap32(imm);
    var w := GenerateB(op, rs1, rs2, imm);
    var f3 := EncodingB(op).funct3;
    var a, b, c, d := Bits(i, 0x1000, 2), Bits(i, 0x800, 2), Bits(i, 0x20, 0x40), Bits(i, 2, 0x10);
    ScatterB(w, a, b, c, d, rs1, rs2, f3);
    LowBits(i, 0x1000, 2); LowBits(i, 0x800, 2); LowBits(i, 0x20, 0x40); LowBits(i, 2, 0x10);
    WrapLow(imm);
    Extended(imm, 0x1000, 0x2000, imm % 0x2000);
  }

  lemma ScatterB(w: int, a: nat, b: nat, c: nat, d: nat, rs1: nat, rs2: nat, f3: nat)
    requires a < 2 && b < 2 && c < 0x40 && d < 0x10 && rs1 < 0x20 && rs2 < 0x20 && f3 < 8
    requires w == a * 0x8000_0000 + c * 0x200_0000 + rs2 * 0x10_0000 + rs1 * 0x8000 + f3 * 0x1000 + d * 0x100
      + b * 0x80 + 0x63
    ensures Bits(w, 0x8000_0000, 2) == a && Bits(w, 0x200_0000, 0x40) == c
    ensures Bits(w, 0x100, 0x10) == d && Bits(w, 0x80, 2) == b
    ensures Opcode(w) == 0x63 && Funct3(w) == f3 && Rs1(w) == rs1 && Rs2(w) == rs2
  {
    hide Bits;
    var low := rs2 * 0x10_0000 + rs1 * 0x8000 + f3 * 0x1000 + d * 0x100 + b * 0x80 + 0x63;
    BitsAre(w, 0, a, c * 0x200_0000 + low, 0x8000_0000, 2);
    BitsAre(w, a, c, low, 0x200_0000, 0x40);
    BitsAre(w, a * 0x8_0000 + c * 0x2000 + rs2 * 0x100 + rs1 * 8 + f3, d, b * 0x80 + 0x63, 0x100, 0x10);
    BitsAre(w, a * 0x80_0000 + c * 0x2_0000 + rs2 * 0x1000 + rs1 * 0x80 + f3 * 0x10 + d, b, 0x63, 0x80, 2);
    Unpack(w, a * 0x40 + c, rs2, rs1, f3, d * 2 + b, 0x63);
  }

  /** U immediates come back modulo 2^20: `lui` and `auipc` keep only the field. */
  lemma RoundTripU(op: UOp, rd: Reg, imm: int)
    ensures var w := GenerateU(op, rd, imm);
      Opcode(w) == EncodingU(op).opcode && Rd(w) == rd && ImmU(w) == imm % 0x10_0000
  {
    hide Bits;
    var f := Bits(Wrap32(imm), 1, 0x10_0000);
    var w := GenerateU(op, rd, imm);
    BitsOne(Wrap32(imm), 0x10_0000);
    WrapLow(imm);
    BitsAre(w, 0, f, rd * 0x80 + EncodingU(op).opcode, 0x1000, 0x10_0000);
    BitsAre(w, f, rd, EncodingU(op).opcode, 0x80, 0x20);
    DivUnique(w, f * 0x20 + rd, EncodingU(op).opcode, 0x80);
  }

  lemma RoundTripJ(rd: Reg, imm: int)
    requires -0x10_0000 <= imm < 0x10_0000 && imm % 2 == 0
    ensures var w := GenerateJ(rd, imm); Opcode(w) == 0x6F && Rd(w) == rd && ImmJ(w) == imm
  {
    hide Bits;
    var i := Wrap32(imm);
    var w := GenerateJ(rd, imm);
    ScatterJ(w, Bits(i, 0x10_0000, 2), Bits(i, 2, 0x400), Bits(i, 0x800, 2), Bits(i, 0x1000, 0x100), rd);
    LowBits(i, 0x10_0000, 2); LowBits(i, 0x1000, 0x100); LowBits(i, 0x800, 2); LowBits(i, 2, 0x400);
    WrapLow(imm);
    Extended(imm, 0x10_0000, 0x20_0000, imm % 0x20_0000);
  }

  lemma ScatterJ(w: int, a: nat, b: nat, c: nat, d: nat, rd: nat)
    requires a < 2 && b < 0x400 && c < 2 && d < 0x100 && rd < 0x20
    requires w == a * 0x8000_0000 + b * 0x20_0000 + c * 0x10_0000 + d * 0x1000 + rd * 0x80 + 0x6F
    ensures Bits(w, 0x8000_0000, 2) == a && Bits(w, 0x20_0000, 0x400) == b
    ensures Bits(w, 0x10_0000, 2) == c && Bits(w, 0x1000, 0x100) == d
    ensures Opcode(w) == 0x6F && Rd(w) == rd
  {
    hide Bits;
    BitsAre(w, 0, a, b * 0x20_0000 + c * 0x10_0000 + d * 0x1000 + rd * 0x80 + 0x6F, 0x8000_0000, 2);
    BitsAre(w, a, b, c * 0x10_0000 + d * 0x1000 + rd * 0x80 + 0x6F, 0x20_0000, 0x400);
    BitsAre(w, a * 0x400 + b, c, d * 0x1000 + rd * 0x80 + 0x6F, 0x10_0000, 2);
    BitsAre(w, a * 0x800 + b * 2 + c, d, rd * 0x80 + 0x6F, 0x1000, 0x100);
    BitsAre(w, a * 0x8_0000 + b * 0x200 + c * 0x100 + d, rd, 0x6F, 0x80, 0x20);
    DivUnique(w, a * 0x100_0000 + b * 0x4000 + c * 0x2000 + d * 0x20 + rd, 0x6F, 0x80);
  }

  predicate HasImmediate(i: Inst) {
    i.InstI1? || i.InstS? || i.InstB? || i.InstU? || i.InstJal? || i.InstFI? || i.InstFS?
  }

  /** The decoder used by the VMs returns the immediate the assembler encoded, except for the one
      instruction whose opcode (0x1B) its switch does not list. */
  lemma ImmediateRoundTrip(i: Inst)
    requires WellFormed(i) && HasImmediate(i)
    ensures Immediate(Generate(i)) == i.imm <==> !(i.InstI1? && i.i1 == Addiw) || i.imm == 0
  {
    hide Bits, ImmI, ImmS, ImmB, ImmU, ImmJ;
    match i
    case InstI1(op, rd, rs1, imm) =>
      RoundTripI(GenerateI1(op, rd, rs1, imm), EncodingI1(op).funct3, rs1, rd, EncodingI1(op).opcode, imm);
    case InstS(op, rs1, rs2, imm) => RoundTripS(EncodingS(op), rs1, rs2, imm);
    case InstB(op, rs1, rs2, imm) => RoundTripB(op, rs1, rs2, imm);
    case InstU(op, rd, imm) => RoundTripU(op, rd, imm);
    case InstJal(rd, imm) => RoundTripJ(rd, imm);
    case InstFI(op, rd, rs1, imm) =>
      RoundTripI(GenerateFI(op, rd, rs1, imm), EncodingFI(op).funct3, rs1, rd, EncodingFI(op).opcode, imm);
    case InstFS(op, rs1, rs2, imm) => RoundTripS(EncodingFS(op), rs1, rs2, imm);
  }

  /** For the shift instructions the decoded immediate still carries funct6 above the shift amount. */
  lemma ShiftImmediate(op: I2Op, rd: Reg, rs1: Reg, shamt: int)
    requires 0 <= shamt < 64
    ensures Immediate(GenerateI2(op, rd, rs1, shamt))
         == if EncodingI2(op).opcode == 0x13 then EncodingI2(op).funct6 * 64 + shamt else 0
  {
    hide Bits;
    var e := EncodingI2(op);
    ShiftField(op, rd, rs1, shamt);
    hide GenerateI2;
    Unpack(GenerateI2(op, rd, rs1, shamt), e.funct6 * 2 + shamt / 32, shamt % 32, rs1, e.funct3, rd, e.opcode);
  }

  /** The fields of the words of R, I and shift instructions. */
  lemma RegisterWord(op: ROp, rd: Reg, rs1: Reg, rs2: Reg)
    ensures var (w, e) := (GenerateR(op, rd, rs1, rs2), EncodingR(op));
      && Opcode(w) == e.opcode && Funct3(w) == e.funct3 && Funct7(w) == e.funct7
      && Rd(w) == rd && Rs1(w) == rs1 && Rs2(w) == rs2
  {
    hide Bits;
    var e := EncodingR(op);
    Unpack(GenerateR(op, rd, rs1, rs2), e.funct7, rs2, rs1, e.funct3, rd, e.opcode);
  }

  lemma ImmediateWord(op: I1Op, rd: Reg, rs1: Reg, imm: int)
    requires -0x800 <= imm < 0x800 && op != Addiw
    ensures var (w, e) := (GenerateI1(op, rd, rs1, imm), EncodingI1(op));
      && Opcode(w) == e.opcode && Funct3(w) == e.funct3 && Rd(w) == rd && Rs1(w) == rs1 && Immediate(w) == imm
  {
    hide Bits, ImmI;
    var e := EncodingI1(op);
    RoundTripI(GenerateI1(op, rd, rs1, imm), e.funct3, rs1, rd, e.opcode, imm);
  }

  lemma ShiftWord(op: I2Op, rd: Reg, rs1: Reg, shamt: int)
    requires 0 <= shamt < 64
    ensures var (w, e) := (GenerateI2(op, rd, rs1, shamt), EncodingI2(op));
      && Opcode(w) == e.opcode && Funct3(w) == e.funct3 && Funct7(w) == e.funct6 * 2 + shamt / 32
      && Rd(w) == rd && Rs1(w) == rs1
  {
    hide Bits;
    var e := EncodingI2(op);
    ShiftField(op, rd, rs1, shamt);
    hide GenerateI2;
    Unpack(GenerateI2(op, rd, rs1, shamt), e.funct6 * 2 + shamt / 32, shamt % 32, rs1, e.funct3, rd, e.opcode);
  }
}
