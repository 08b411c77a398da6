/** What each integer instruction means, mnemonic by mnemonic, and which generated words the machines give that
    meaning. */
module Meaning {
  import opened Words
  import opened Instructions
  import opened CodeGenerator
  import opened ImmGenerator
  import opened Alu
  import opened AluLaws
  import opened FlatMemory
  import opened Datapath
  import opened Rvss

  /** Everything but `ecall`, CSR access and floating point. */
  predicate Integer(i: Inst) {
    i.InstR? || i.InstI1? || i.InstI2? || i.InstS? || i.InstB? || i.InstU? || i.InstJal?
  }

  predicate IsWord(op: ROp) {
    op in {Addw, Subw, Sllw, Srlw, Sraw, Mulw, Divw, Divuw, Remw, Remuw}
  }

  /** The instructions that the machines execute: no control unit knows the opcodes 0111011 and 0011011 of the word
      forms, nor the function field of a right shift by more than 31. */
  predicate Executed(i: Inst) {
    match i
    case InstR(op, _, _, _) => !IsWord(op)
    case InstI1(op, _, _, _) => op != Addiw
    case InstI2(op, _, _, shamt) => op == Slli || (op in {Srli, Srai} && shamt < 32)
    case _ => true
  }

  // ----- meaning -----

  function Truth(b: bool): U64 { if b then 1 else 0 }

  /** An operation bit by bit. */
  function Bitwise64(op: AluOp, a: U64, b: U64): U64 {
    PowersOfTwo();
    Bitwise(op, a, b, 64)
  }

  /** Division rounds toward zero. Where there is no quotient to represent it follows the source, not the manual: a zero
      divisor gives 0, and INT64_MIN / -1 gives INT64_MAX. */
  function Quotient(x: int, y: int): int {
    if y == 0 then 0 else if x == -B63 && y == -1 then INT64_MAX else TruncDiv(x, y)
  }

  function Remainder(x: int, y: int): int { if y == 0 then 0 else TruncMod(x, y) }

  function QuotientU(x: nat, y: nat): nat { if y == 0 then 0 else x / y }

  function RemainderU(x: nat, y: nat): nat { if y == 0 then 0 else x % y }

  function RegisterValue(op: ROp, a: U64, b: U64): U64 {
    match op
    case Add => Wrap64(a + b)
    case Sub => Wrap64(a - b)
    case Xor => Bitwise64(KXor, a, b)
    case Or => Bitwise64(KOr, a, b)
    case And => Bitwise64(KAnd, a, b)
    case Sll => Wrap64(a * Pow2(b % 64))
    case Srl => Wrap64(a / Pow2(b % 64))
    case Sra => Wrap64(Signed64(a) / Pow2(b % 64))
    case Slt => Truth(Signed64(a) < Signed64(b))
    case Sltu => Truth(a < b)
    case Mul => Wrap64(a * b)
    case Mulh => Wrap64(Signed64(a) * Signed64(b) / B64)
    case Mulhsu => Wrap64(Signed64(a) * b / B64)
    case Mulhu => Wrap64(a * b / B64)
    case Div => Wrap64(Quotient(Signed64(a), Signed64(b)))
    case Divu => Wrap64(QuotientU(a, b))
    case Rem => Wrap64(Remainder(Signed64(a), Signed64(b)))
    case Remu => Wrap64(RemainderU(a, b))
    case Addw => Sext32(a + b)
    case Subw => Sext32(a - b)
    case Sllw => Sext32(a * Pow2(b % 32))
    case Srlw => Sext32(Wrap32(a) / Pow2(b % 32))
    case Sraw => Wrap64(Signed32(Wrap32(a)) / Pow2(b % 32))
    case Mulw => Sext32(a * b)
    case Divw => Sext32(Quotient(Signed32(Wrap32(a)), Signed32(Wrap32(b))))
    case Divuw => Sext32(QuotientU(Wrap32(a), Wrap32(b)))
    case Remw => Sext32(Remainder(Signed32(Wrap32(a)), Signed32(Wrap32(b))))
    case Remuw => Sext32(RemainderU(Wrap32(a), Wrap32(b)))
  }

  predicate IsLoad(op: I1Op) { op in {Lb, Lh, Lw, Ld, Lbu, Lhu, Lwu} }

  /** `imm` stands for its two's complement. */
  function ImmediateValue(op: I1Op, a: U64, imm: int): U64
    requires !IsLoad(op) && op != Jalr
  {
    match op
    case Addi => Wrap64(a + imm)
    case Xori => Bitwise64(KXor, a, Wrap64(imm))
    case Ori => Bitwise64(KOr, a, Wrap64(imm))
    case Andi => Bitwise64(KAnd, a, Wrap64(imm))
    case Slti => Truth(Signed64(a) < imm)
    case Sltiu => Truth(a < Wrap64(imm))
    case Addiw => Sext32(a + imm)
  }

  function ShiftedValue(op: I2Op, a: U64, shamt: nat): U64 {
    match op
    case Slli => Wrap64(a * Pow2(shamt))
    case Srli => Wrap64(a / Pow2(shamt))
    case Srai => Wrap64(Signed64(a) / Pow2(shamt))
    case Slliw => Sext32(a * Pow2(shamt))
    case Srliw => Sext32(Wrap32(a) / Pow2(shamt))
    case Sraiw => Wrap64(Signed32(Wrap32(a)) / Pow2(shamt))
  }

  function LoadBytes(op: I1Op): nat {
    match op
    case Lb => 1
    case Lbu => 1
    case Lh => 2
    case Lhu => 2
    case Lw => 4
    case Lwu => 4
    case Ld => 8
    case _ => 0
  }

  /** The bytes loaded, sign-extended by `lb`, `lh` and `lw`. */
  function LoadedValue(op: I1Op, v: U64): U64 {
    match op
    case Lb => if v < 0x80 then v else Wrap64(v - 0x100)
    case Lh => if v < 0x8000 then v else Wrap64(v - 0x1_0000)
    case Lw => if v < 0x8000_0000 then v else Wrap64(v - 0x1_0000_0000)
    case _ => v
  }

  function StoreBytes(op: SOp): nat {
    match op
    case Sb => 1
    case Sh => 2
    case Sw => 4
    case Sd => 8
  }

  predicate BranchTaken(op: BOp, a: U64, b: U64) {
    match op
    case Beq => a == b
    case Bne => a != b
    case Blt => Signed64(a) < Signed64(b)
    case Bge => Signed64(a) >= Signed64(b)
    case Bltu => a < b
    case Bgeu => a >= b
  }

  /** The 20-bit immediate of `lui` and `auipc`, shifted and sign-extended. */
  function UpperMeant(imm: int): int { (if imm < 0x8_0000 then imm else imm - 0x10_0000) * 0x1000 }

  datatype Effect = Effect(pc: U64, regs: Regs, mem: Flat)

  ghost function EffectOf(t: Core): Effect { Effect(t.pc, t.regs, t.mem) }

  /** What an integer instruction does to program counter, registers and memory. */
  ghost function Meant(i: Inst, s: Core): Effect
    requires Integer(i) && WellFormed(i)
  {
    var next := Wrap64(s.pc + 4);
    match i
    case InstR(op, rd, rs1, rs2) =>
      Effect(next, WriteGpr(s.regs, rd, RegisterValue(op, ReadGpr(s.regs, rs1), ReadGpr(s.regs, rs2))), s.mem)
    case InstI1(op, rd, rs1, imm) =>
      var a := ReadGpr(s.regs, rs1);
      if op == Jalr then Effect(Wrap64(a + imm), WriteGpr(s.regs, rd, next), s.mem)
      else if IsLoad(op) then Effect(next, WriteGpr(s.regs, rd, LoadMeant(op, s.mem, Wrap64(a + imm))), s.mem)
      else Effect(next, WriteGpr(s.regs, rd, ImmediateValue(op, a, imm)), s.mem)
    case InstI2(op, rd, rs1, shamt) =>
      Effect(next, WriteGpr(s.regs, rd, ShiftedValue(op, ReadGpr(s.regs, rs1), shamt)), s.mem)
    case InstS(op, rs1, rs2, imm) =>
      Effect(next, s.regs, StoreLE(s.mem, Wrap64(ReadGpr(s.regs, rs1) + imm), StoreBytes(op), ReadGpr(s.regs, rs2)))
    case InstB(op, rs1, rs2, imm) =>
      var taken := BranchTaken(op, ReadGpr(s.regs, rs1), ReadGpr(s.regs, rs2));
      Effect(if taken then Wrap64(s.pc + imm) else next, s.regs, s.mem)
    case InstU(op, rd, imm) =>
      Effect(next, WriteGpr(s.regs, rd, Wrap64((if op == Lui then 0 else s.pc) + UpperMeant(imm))), s.mem)
    case InstJal(rd, imm) => Effect(Wrap64(s.pc + imm), WriteGpr(s.regs, rd, next), s.mem)
  }

  ghost function LoadMeant(op: I1Op, m: Flat, address: U64): U64
    requires IsLoad(op)
  {
    LoadedValue(op, LoadLE(m, address, LoadBytes(op)))
  }

  /** The bytes a load or store touches, and whether they go past the end of memory. */
  predicate OutOfRange(i: Inst, r: Regs, memorySize: U64) {
    match i
    case InstI1(op, _, rs1, imm) => IsLoad(op) && Wrap64(ReadGpr(r, rs1) + imm) + LoadBytes(op) > memorySize
    case InstS(op, rs1, _, imm) => Wrap64(ReadGpr(r, rs1) + imm) + StoreBytes(op) > memorySize
    case _ => false
  }

  /** The source determines the result: it does not for the remainder of INT64_MIN by -1. */
  predicate Determined(i: Inst, r: Regs) {
    i.InstR? && i.r == Rem ==> Defined(KRem, ReadGpr(r, i.rs1), ReadGpr(r, i.rs2))
  }

  // ----- the ALU -----

  function AluOf(op: ROp): AluOp {
    match op
    case Add => KAdd
    case Sub => KSub
    case Xor => KXor
    case Or => KOr
    case And => KAnd
    case Sll => KSll
    case Srl => KSrl
    case Sra => KSra
    case Slt => KSlt
    case Sltu => KSltu
    case Mul => KMul
    case Mulh => KMulh
    case Mulhsu => KMulhsu
    case Mulhu => KMulhu
    case Div => KDiv
    case Divu => KDivu
    case Rem => KRem
    case Remu => KRemu
    case _ => KNone
  }

  lemma RegisterAlu(op: ROp)
    requires !IsWord(op)
    ensures AluR(EncodingR(op).funct3, EncodingR(op).funct7) == AluOf(op) && EncodingR(op).opcode == 0x33
  {}

  lemma LowProduct(a: U64, b: U64)
    ensures Value(KMul, a, b) == Wrap64(a * b)
  {
    var sa, sb := Signed64(a), Signed64(b);
    CheckedValues(a, b);
    Readings(a, b);
    hide Value, Signed64, Wrap64;
    SameLow(a * b, sa * sb, (if sa < 0 then b else 0)
      + (if sb < 0 then a else 0) - (if sa < 0 && sb < 0 then B64 else 0));
  }

  lemma HighProducts(a: U64, b: U64)
    ensures Value(KMulh, a, b) == Wrap64(Signed64(a) * Signed64(b) / B64)
    ensures Value(KMulhsu, a, b) == Wrap64(Signed64(a) * b / B64)
    ensures Value(KMulhu, a, b) == Wrap64(a * b / B64)
  {
    hide High, Value, Signed64, Wrap64;
    ProductsFit(a, b);
    HighSigned(Signed64(a) * Signed64(b));
    HighSigned(Signed64(a) * b);
    HighUnsigned(a * b);
    WrapSigned64(High(Signed64(a) * Signed64(b)));
    WrapSigned64(High(Signed64(a) * b));
    Unwrapped(High(a * b));
    HighValues(a, b);
  }

  lemma HighValues(a: U64, b: U64)
    ensures Value(KMulh, a, b) == High(Signed64(a) * Signed64(b))
    ensures Value(KMulhsu, a, b) == High(Signed64(a) * b) && Value(KMulhu, a, b) == High(a * b)
  {
    hide High, Signed64, Signed32, Wrap32, Wrap64, Bitwise, Shift, Divide, Defined, Checked32, Checked64;
  }

  lemma SumValues(a: U64, b: U64)
    ensures Value(KAdd, a, b) == Wrap64(a + b) && Value(KSub, a, b) == Wrap64(a - b)
  {
    hide Value, Signed64, Wrap64;
    CheckedValues(a, b);
    var j, k := SignedReading(a), SignedReading(b);
    SameWrap(Signed64(a) + Signed64(b), a + b, -j - k);
    SameWrap(Signed64(a) - Signed64(b), a - b, k - j);
  }

  /** How often 2^64 is taken off a word that is read as signed. */
  function SignedReading(a: U64): (j: int)
    ensures Signed64(a) == a - j * B64
  {
    if a < B63 then 0 else 1
  }

  lemma BitwiseValue(op: AluOp, a: U64, b: U64)
    requires op in {KXor, KOr, KAnd}
    ensures Value(op, a, b) == Bitwise64(op, a, b)
  {
    BitwiseFits(op, a, b);
    hide Shift, Bitwise, Divide, High, Checked64, Checked32, Defined, Wrap64, Wrap32, Signed64, Signed32, Pow2;
  }

  lemma DivisionValues(a: U64, b: U64)
    ensures Value(KDiv, a, b) == Wrap64(Quotient(Signed64(a), Signed64(b)))
    ensures Defined(KRem, a, b) ==> Value(KRem, a, b) == Wrap64(Remainder(Signed64(a), Signed64(b)))
    ensures Value(KDivu, a, b) == Wrap64(QuotientU(a, b)) && Value(KRemu, a, b) == Wrap64(RemainderU(a, b))
  {
    assert Signed64(b) == 0 <==> b == 0;
    assert Wrap64(INT64_MAX) == INT64_MAX;
    hide Shift, Bitwise, High, Checked64, Checked32, TruncDiv, TruncMod, Pow2, Wrap64, Signed64;
  }

  lemma RegisterValueIs(op: ROp, a: U64, b: U64)
    requires !IsWord(op) && (op == Rem ==> Defined(KRem, a, b))
    ensures Value(AluOf(op), a, b) == RegisterValue(op, a, b)
  {
    hide Value, Wrap64, Signed64, Bitwise64, Pow2, Quotient, QuotientU, Remainder, RemainderU, Defined;
    if op in {Add, Sub} { SumValues(a, b); }
    else if op in {Xor, Or, And} { BitwiseValue(AluOf(op), a, b); }
    else if op in {Sll, Srl, Sra} { ShiftValue(AluOf(op), a, b); }
    else if op == Slt { LessThanValue(a, b); }
    else if op == Sltu { UnsignedLessThanValue(a, b); }
    else if op == Mul { LowProduct(a, b); }
    else if op in {Mulh, Mulhsu, Mulhu} { HighProducts(a, b); }
    else { DivisionValues(a, b); }
  }

  function AluOfI(op: I1Op): AluOp {
    match op
    case Addi => KAdd
    case Xori => KXor
    case Ori => KOr
    case Andi => KAnd
    case Slti => KSlt
    case Sltiu => KSltu
    case _ => KNone
  }

  lemma ImmediateValueIs(op: I1Op, a: U64, imm: int)
    requires !IsLoad(op) && op != Jalr && op != Addiw && -0x800 <= imm < 0x800
    ensures Value(AluOfI(op), a, Wrap64(imm)) == ImmediateValue(op, a, imm)
  {
    var b := Wrap64(imm);
    SignedWrap64(imm);
    AddWraps(a, imm);
    hide Execute, Wrap64, Signed64, Bitwise64;
    if op in {Xori, Ori, Andi} { BitwiseValue(AluOfI(op), a, b); }
    else if op == Slti { LessThanValue(a, b); }
    else if op == Sltiu { UnsignedLessThanValue(a, b); }
  }

  // ----- words of the register and immediate forms -----

  /** What the machine does with a word of opcode 0110011 or 0010011. */
  lemma ArithmeticPerformed(s: Core, l: Latches, w: U32)
    requires Opcode(w) == 0x33 || Opcode(w) == 0x13
    ensures var op := if Opcode(w) == 0x33 then AluR(Funct3(w), Funct7(w)) else AluI(Funct3(w), Funct7(w));
      var b := if Opcode(w) == 0x33 then ReadGpr(s.regs, Rs2(w)) else Wrap64(Immediate(w));
      EffectOf(Performed(s, l, w))
        == Effect(Wrap64(s.pc + 4), WriteGpr(s.regs, Rd(w), Value(op, ReadGpr(s.regs, Rs1(w)), b)), s.mem)
  {
    hide Execute, Immediate, AluR, AluI, LoadLE, WriteGpr, ReadGpr, Funct3, Funct7, Rd, Rs1, Rs2, CsrsAfter, Wrap32;
  }

  lemma RegisterMeans(s: Core, l: Latches, op: ROp, rd: Reg, rs1: Reg, rs2: Reg)
    requires !IsWord(op) && Determined(InstR(op, rd, rs1, rs2), s.regs)
    ensures EffectOf(Performed(s, l, GenerateR(op, rd, rs1, rs2))) == Meant(InstR(op, rd, rs1, rs2), s)
  {
    hide GenerateR, Performed, Opcode, Funct3, Funct7, Rd, Rs1, Rs2, AluR, EncodingR, AluOf, Value, RegisterValue,
      WriteGpr, ReadGpr, Wrap64, IsWord, Defined;
    RegisterWord(op, rd, rs1, rs2);
    RegisterAlu(op);
    ArithmeticPerformed(s, l, GenerateR(op, rd, rs1, rs2));
    RegisterValueIs(op, ReadGpr(s.regs, rs1), ReadGpr(s.regs, rs2));
  }

  lemma ImmediateAlu(op: I1Op, f7: nat)
    requires !IsLoad(op) && op != Jalr && op != Addiw
    ensures AluI(EncodingI1(op).funct3, f7) == AluOfI(op) && EncodingI1(op).opcode == 0x13
  {}

  lemma ImmediateMeans(s: Core, l: Latches, op: I1Op, rd: Reg, rs1: Reg, imm: int)
    requires -0x800 <= imm < 0x800 && !IsLoad(op) && op != Jalr && op != Addiw
    ensures EffectOf(Performed(s, l, GenerateI1(op, rd, rs1, imm))) == Meant(InstI1(op, rd, rs1, imm), s)
  {
    hide GenerateI1, Performed, Opcode, Funct3, Funct7, Rd, Rs1, AluI, EncodingI1, AluOfI, Value, ImmediateValue,
      WriteGpr, ReadGpr, Wrap64, IsLoad, Immediate;
    var w := GenerateI1(op, rd, rs1, imm);
    ImmediateWord(op, rd, rs1, imm);
    ImmediateAlu(op, Funct7(w));
    ArithmeticPerformed(s, l, w);
    ImmediateValueIs(op, ReadGpr(s.regs, rs1), imm);
  }

  function AluOfShift(op: I2Op): AluOp {
    match op
    case Slli => KSll
    case Srli => KSrl
    case Srai => KSra
    case _ => KNone
  }

  lemma ShiftAlu(op: I2Op, shamt: int)
    requires op in {Slli, Srli, Srai} && 0 <= shamt < 64
    ensures var e := EncodingI2(op);
      && e.opcode == 0x13 && e.funct6 < 64
      && AluI(e.funct3, e.funct6 * 2 + shamt / 32) == if op == Slli || shamt < 32 then AluOfShift(op) else KNone
  {}

  lemma ShiftedValueIs(op: I2Op, a: U64, funct6: nat, shamt: nat)
    requires op in {Slli, Srli, Srai} && shamt < 64 && funct6 < 64
    ensures Value(AluOfShift(op), a, funct6 * 64 + shamt) == ShiftedValue(op, a, shamt)
  {
    hide Value, Wrap64, Signed64, Pow2;
    ShiftIgnoresFunct6(AluOfShift(op), a, funct6, shamt);
    ShiftValue(AluOfShift(op), a, shamt);
  }

  lemma ShiftPerformed(s: Core, l: Latches, op: I2Op, rd: Reg, rs1: Reg, shamt: int)
    requires 0 <= shamt < 64 && op in {Slli, Srli, Srai}
    ensures var x := if op == Slli || shamt < 32 then ShiftedValue(op, ReadGpr(s.regs, rs1), shamt) else 0;
      EffectOf(Performed(s, l, GenerateI2(op, rd, rs1, shamt)))
        == Effect(Wrap64(s.pc + 4), WriteGpr(s.regs, rd, x), s.mem)
  {
    hide GenerateI2, Performed, Opcode, Funct3, Funct7, Rd, Rs1, AluI, EncodingI2, AluOfShift, ShiftedValue, WriteGpr,
      ReadGpr, Wrap64, Immediate, Value;
    var w, a, e := GenerateI2(op, rd, rs1, shamt), ReadGpr(s.regs, rs1), EncodingI2(op);
    ShiftWord(op, rd, rs1, shamt);
    ShiftAlu(op, shamt);
    ShiftImmediate(op, rd, rs1, shamt);
    ArithmeticPerformed(s, l, w);
    ShiftedValueIs(op, a, e.funct6, shamt);
    SmallWord(e.funct6 * 64 + shamt);
    NoOperation(a, e.funct6 * 64 + shamt);
  }

  lemma SmallWord(n: nat)
    ensures n < B64 ==> Wrap64(n) == n
  {}

  lemma NoOperation(a: U64, b: U64)
    ensures Value(KNone, a, b) == 0
  {
    hide Shift, Bitwise, Divide, High, Checked64, Checked32, Defined, Wrap32, Signed64, Signed32, Pow2;
  }

  // ----- loads and stores -----

  lemma LoadSignals(op: I1Op)
    requires IsLoad(op)
    ensures EncodingI1(op).opcode == 0x03
    ensures var r := LoadOp(EncodingI1(op).funct3); r.Read? && r.width == LoadBytes(op)
  {}

  lemma ExtendIs(op: I1Op, v: U64)
    requires IsLoad(op)
    ensures var r := LoadOp(EncodingI1(op).funct3); r.Read? && Extend(r, v) == LoadedValue(op, v)
  {}

  lemma LoadPerformed(s: Core, l: Latches, w: U32)
    requires Opcode(w) == 0x03 && LoadOp(Funct3(w)).Read?
    ensures var r, address := LoadOp(Funct3(w)), Wrap64(ReadGpr(s.regs, Rs1(w)) + Immediate(w));
      && EffectOf(Performed(s, l, w))
           == Effect(Wrap64(s.pc + 4), WriteGpr(s.regs, Rd(w), Extend(r, LoadLE(s.mem, address, r.width))), s.mem)
      && forall size: U64 :: Throws(s, w, size) <==> address + r.width > size
  {
    AddWraps(ReadGpr(s.regs, Rs1(w)), Immediate(w));
    hide Execute, Immediate, LoadLE, WriteGpr, ReadGpr, Funct3, Funct7, Rd, Rs1, Rs2, CsrsAfter, Wrap32, Extend,
      LoadOp, Wrap64;
  }

  lemma LoadMeans(s: Core, l: Latches, op: I1Op, rd: Reg, rs1: Reg, imm: int)
    requires -0x800 <= imm < 0x800 && IsLoad(op)
    ensures EffectOf(Performed(s, l, GenerateI1(op, rd, rs1, imm))) == Meant(InstI1(op, rd, rs1, imm), s)
    ensures forall size: U64 ::
      Throws(s, GenerateI1(op, rd, rs1, imm), size) <==> OutOfRange(InstI1(op, rd, rs1, imm), s.regs, size)
  {
    hide GenerateI1, Performed, Opcode, Funct3, Rd, Rs1, EncodingI1, WriteGpr, ReadGpr, Wrap64, Immediate, Extend,
      LoadOp, LoadedValue, LoadBytes, LoadLE, Throws;
    var w, address := GenerateI1(op, rd, rs1, imm), Wrap64(ReadGpr(s.regs, rs1) + imm);
    ImmediateWord(op, rd, rs1, imm);
    LoadSignals(op);
    LoadPerformed(s, l, w);
    ExtendIs(op, LoadLE(s.mem, address, LoadBytes(op)));
  }

  lemma StoreSignals(op: SOp)
    ensures EncodingS(op) == Code(0x23, EncodingS(op).funct3) && EncodingS(op).funct3 < 8
    ensures var t := StoreOp(EncodingS(op).funct3); t.Write? && t.width == StoreBytes(op)
  {}

  lemma StorePerformed(s: Core, l: Latches, w: U32)
    requires Opcode(w) == 0x23 && StoreOp(Funct3(w)).Write?
    ensures var t, address := StoreOp(Funct3(w)), Wrap64(ReadGpr(s.regs, Rs1(w)) + Immediate(w));
      && EffectOf(Performed(s, l, w))
           == Effect(Wrap64(s.pc + 4), s.regs, StoreLE(s.mem, address, t.width, ReadGpr(s.regs, Rs2(w))))
      && forall size: U64 :: Throws(s, w, size) <==> address + t.width > size
  {
    AddWraps(ReadGpr(s.regs, Rs1(w)), Immediate(w));
    hide Execute, Immediate, StoreLE, ReadGpr, Funct3, Funct7, Rd, Rs1, Rs2, CsrsAfter, Wrap32, StoreOp, Wrap64;
  }

  lemma StoreMeans(s: Core, l: Latches, op: SOp, rs1: Reg, rs2: Reg, imm: int)
    requires -0x800 <= imm < 0x800
    ensures EffectOf(Performed(s, l, GenerateStore(EncodingS(op), rs1, rs2, imm))) == Meant(InstS(op, rs1, rs2, imm), s)
    ensures var w := GenerateStore(EncodingS(op), rs1, rs2, imm);
      forall size: U64 :: Throws(s, w, size) <==> OutOfRange(InstS(op, rs1, rs2, imm), s.regs, size)
  {
    hide GenerateStore, Performed, Opcode, Funct3, Rs1, Rs2, EncodingS, ReadGpr, Wrap64, Immediate, ImmS, StoreOp,
      StoreBytes, StoreLE, Throws;
    StoreSignals(op);
    var w := GenerateStore(EncodingS(op), rs1, rs2, imm);
    RoundTripS(EncodingS(op), rs1, rs2, imm);
    StoreImmediate(w);
    StorePerformed(s, l, w);
  }

  lemma StoreImmediate(w: U32)
    requires Opcode(w) == 0x23
    ensures Immediate(w) == ImmS(w)
  {
    hide ImmS, ImmI, ImmB, ImmU, ImmJ;
  }

  // ----- branches and jumps -----

  /** The ALU operation and the test of its result decide the branch. */
  lemma BranchDecided(op: BOp, a: U64, b: U64, l: Latches, w: U32)
    requires Opcode(w) == 0x63 && Funct3(w) == EncodingB(op).funct3
    ensures BranchFlag(l, w, Value(BranchSignals(EncodingB(op).funct3).0, a, b)) <==> BranchTaken(op, a, b)
  {
    SumValues(a, b);
    LessThanValue(a, b);
    UnsignedLessThanValue(a, b);
    DifferenceZero(a, b);
    hide Value, Signed64, Opcode, Funct3, Wrap64;
  }

  lemma DifferenceZero(a: U64, b: U64)
    ensures Wrap64(a - b) == 0 <==> a == b
  {}

  lemma BranchPerformed(s: Core, l: Latches, w: U32)
    requires Opcode(w) == 0x63
    ensures var x := Value(BranchSignals(Funct3(w)).0, ReadGpr(s.regs, Rs1(w)), ReadGpr(s.regs, Rs2(w)));
      EffectOf(Performed(s, l, w))
        == Effect(if BranchFlag(l, w, x) then Wrap64(s.pc + Immediate(w)) else Wrap64(s.pc + 4), s.regs, s.mem)
  {
    hide Execute, Immediate, ReadGpr, Funct3, Funct7, Rs1, Rs2, CsrsAfter, Wrap32, BranchSignals, BranchFlag, Wrap64;
  }

  lemma BranchMeans(s: Core, l: Latches, op: BOp, rs1: Reg, rs2: Reg, imm: int)
    requires -0x1000 <= imm < 0x1000 && imm % 2 == 0
    ensures EffectOf(Performed(s, l, GenerateB(op, rs1, rs2, imm))) == Meant(InstB(op, rs1, rs2, imm), s)
  {
    hide GenerateB, Performed, Opcode, Funct3, Rs1, Rs2, ReadGpr, Wrap64, Immediate, ImmB, BranchSignals, BranchFlag,
      Value, BranchTaken, EncodingB;
    var w := GenerateB(op, rs1, rs2, imm);
    RoundTripB(op, rs1, rs2, imm);
    BranchImmediate(w);
    BranchDecided(op, ReadGpr(s.regs, rs1), ReadGpr(s.regs, rs2), l, w);
    BranchPerformed(s, l, w);
  }

  lemma BranchImmediate(w: U32)
    ensures Opcode(w) == 0x63 ==> Immediate(w) == ImmB(w)
    ensures Opcode(w) == 0x6F ==> Immediate(w) == ImmJ(w)
  {
    hide ImmS, ImmI, ImmB, ImmU, ImmJ;
  }

  lemma JumpPerformed(s: Core, l: Latches, w: U32)
    requires Opcode(w) == 0x6F || Opcode(w) == 0x67
    ensures var target := (if Opcode(w) == 0x6F then s.pc else ReadGpr(s.regs, Rs1(w))) + Immediate(w);
      EffectOf(Performed(s, l, w)) == Effect(Wrap64(target), WriteGpr(s.regs, Rd(w), Wrap64(s.pc + 4)), s.mem)
  {
    AddWraps(ReadGpr(s.regs, Rs1(w)), Immediate(w));
    hide Execute, Immediate, ReadGpr, WriteGpr, Rd, Funct3, Funct7, Rs1, Rs2, CsrsAfter, Wrap32, Wrap64;
  }

  lemma JalMeans(s: Core, l: Latches, rd: Reg, imm: int)
    requires -0x10_0000 <= imm < 0x10_0000 && imm % 2 == 0
    ensures EffectOf(Performed(s, l, GenerateJ(rd, imm))) == Meant(InstJal(rd, imm), s)
  {
    hide GenerateJ, Performed, Opcode, Rd, Rs1, Wrap64, Immediate, ImmJ, WriteGpr, ReadGpr;
    RoundTripJ(rd, imm);
    BranchImmediate(GenerateJ(rd, imm));
    JumpPerformed(s, l, GenerateJ(rd, imm));
  }

  lemma JalrMeans(s: Core, l: Latches, rd: Reg, rs1: Reg, imm: int)
    requires -0x800 <= imm < 0x800
    ensures EffectOf(Performed(s, l, GenerateI1(Jalr, rd, rs1, imm))) == Meant(InstI1(Jalr, rd, rs1, imm), s)
  {
    hide GenerateI1, Performed, Opcode, Rd, Rs1, Funct3, Wrap64, Immediate, WriteGpr, ReadGpr;
    ImmediateWord(Jalr, rd, rs1, imm);
    JumpPerformed(s, l, GenerateI1(Jalr, rd, rs1, imm));
  }

  // ----- upper immediates -----

  lemma UpperPerformed(s: Core, l: Latches, w: U32)
    requires Opcode(w) == 0x37 || Opcode(w) == 0x17
    ensures var x := if Opcode(w) == 0x37 then UpperImmediate(w) else Wrap64(s.pc + UpperImmediate(w));
      EffectOf(Performed(s, l, w)) == Effect(Wrap64(s.pc + 4), WriteGpr(s.regs, Rd(w), x), s.mem)
  {
    hide Execute, Immediate, LoadLE, UpperImmediate, WriteGpr, CsrsAfter, Wrap32, Rd;
  }

  lemma UpperMeans(s: Core, l: Latches, op: UOp, rd: Reg, imm: int)
    requires 0 <= imm < 0x10_0000
    ensures EffectOf(Performed(s, l, GenerateU(op, rd, imm))) == Meant(InstU(op, rd, imm), s)
  {
    hide GenerateU, Performed, Opcode, Rd, Wrap64, UpperImmediate, ImmU, WriteGpr, UpperMeant;
    var w := GenerateU(op, rd, imm);
    RoundTripU(op, rd, imm);
    UpperImmediateIs(w, imm);
    UpperPerformed(s, l, w);
    WrapsTwice(s.pc, UpperMeant(imm));
  }

  lemma WrapsTwice(pc: U64, n: int)
    ensures Wrap64(pc + Wrap64(n)) == Wrap64(pc + n)
  {
    SameWrap(pc + n, pc + Wrap64(n), n / B64);
  }

  lemma UpperImmediateIs(w: U32, imm: int)
    requires (Opcode(w) == 0x37 || Opcode(w) == 0x17) && ImmU(w) == imm % 0x10_0000 && 0 <= imm < 0x10_0000
    ensures UpperImmediate(w) == Wrap64(UpperMeant(imm))
  {
    hide ImmU;
  }

  // ----- all instructions -----

  /** The single-cycle VM gives every well-formed integer instruction that it executes its meaning, and throws exactly
      on accesses out of range. */
  lemma ExecutedAsMeant(s: Core, l: Latches, i: Inst)
    requires WellFormed(i) && Integer(i) && Executed(i) && Determined(i, s.regs)
    ensures EffectOf(Performed(s, l, Generate(i))) == Meant(i, s)
    ensures forall size: U64 :: Throws(s, Generate(i), size) <==> OutOfRange(i, s.regs, size)
  {
    if !Accesses(i) { NeverThrows(s, i); }
    hide Performed, Meant, GenerateR, GenerateI1, GenerateI2, GenerateStore, GenerateB, GenerateU, GenerateJ, Throws,
      EffectOf;
    match i
    case InstR(op, rd, rs1, rs2) => RegisterMeans(s, l, op, rd, rs1, rs2);
    case InstI1(op, rd, rs1, imm) =>
      if op == Jalr { JalrMeans(s, l, rd, rs1, imm); }
      else if IsLoad(op) { LoadMeans(s, l, op, rd, rs1, imm); }
      else { ImmediateMeans(s, l, op, rd, rs1, imm); }
    case InstI2(op, rd, rs1, shamt) => ShiftMeans(s, l, op, rd, rs1, shamt);
    case InstS(op, rs1, rs2, imm) => StoreMeans(s, l, op, rs1, rs2, imm);
    case InstB(op, rs1, rs2, imm) => BranchMeans(s, l, op, rs1, rs2, imm);
    case InstU(op, rd, imm) => UpperMeans(s, l, op, rd, imm);
    case InstJal(rd, imm) => JalMeans(s, l, rd, imm);
  }

  lemma ShiftMeans(s: Core, l: Latches, op: I2Op, rd: Reg, rs1: Reg, shamt: int)
    requires 0 <= shamt < 64 && (op == Slli || (op in {Srli, Srai} && shamt < 32))
    ensures EffectOf(Performed(s, l, GenerateI2(op, rd, rs1, shamt))) == Meant(InstI2(op, rd, rs1, shamt), s)
  {
    hide Performed, GenerateI2, ShiftedValue, Wrap64, WriteGpr, ReadGpr;
    ShiftPerformed(s, l, op, rd, rs1, shamt);
  }

  predicate Accesses(i: Inst) { i.InstS? || (i.InstI1? && IsLoad(i.i1)) }

  /** The opcode of a generated word. */
  function OpcodeOf(i: Inst): nat
    requires Integer(i)
  {
    match i
    case InstR(op, _, _, _) => EncodingR(op).opcode
    case InstI1(op, _, _, _) => EncodingI1(op).opcode
    case InstI2(op, _, _, _) => EncodingI2(op).opcode
    case InstS(_, _, _, _) => 0x23
    case InstB(_, _, _, _) => 0x63
    case InstU(op, _, _) => EncodingU(op).opcode
    case InstJal(_, _) => 0x6F
  }

  lemma OpcodeIs(i: Inst)
    requires WellFormed(i) && Integer(i)
    ensures Opcode(Generate(i)) == OpcodeOf(i)
  {
    hide Opcode, GenerateR, GenerateI1, GenerateI2, GenerateStore, GenerateB, GenerateU, GenerateJ;
    match i
    case InstR(op, rd, rs1, rs2) => RegisterWord(op, rd, rs1, rs2);
    case InstI1(op, rd, rs1, imm) => ImmediateOpcode(op, rd, rs1, imm);
    case InstI2(op, rd, rs1, shamt) => ShiftWord(op, rd, rs1, shamt);
    case InstS(op, rs1, rs2, imm) => StoreSignals(op); RoundTripS(EncodingS(op), rs1, rs2, imm);
    case InstB(op, rs1, rs2, imm) => RoundTripB(op, rs1, rs2, imm);
    case InstU(op, rd, imm) => RoundTripU(op, rd, imm);
    case InstJal(rd, imm) => RoundTripJ(rd, imm);
  }

  lemma ImmediateOpcode(op: I1Op, rd: Reg, rs1: Reg, imm: int)
    requires -0x800 <= imm < 0x800
    ensures Opcode(GenerateI1(op, rd, rs1, imm)) == EncodingI1(op).opcode
  {
    hide Bits, ImmI;
    var e := EncodingI1(op);
    RoundTripI(GenerateI1(op, rd, rs1, imm), e.funct3, rs1, rd, e.opcode, imm);
  }

  lemma NeverThrows(s: Core, i: Inst)
    requires WellFormed(i) && Integer(i) && !Accesses(i)
    ensures forall size: U64 :: !Throws(s, Generate(i), size)
  {
    OpcodeIs(i);
    assert OpcodeOf(i) != 0x03 && OpcodeOf(i) != 0x23;
    hide Generate, Opcode, OpcodeOf, Result, LoadOp, StoreOp, Funct3;
  }

  // ----- instructions that are not executed -----

  /** What the destination register holds after an instruction that is not executed: the word forms do nothing, and a
      right shift by more than 31 clears it. */
  function Left(i: Inst, r: Regs): U64
    requires Integer(i) && !Executed(i)
  {
    if i.InstI2? && i.i2 in {Srli, Srai} then 0 else ReadGpr(r, i.rd)
  }

  lemma IdlePerformed(s: Core, l: Latches, w: U32)
    requires Opcode(w) == 0x3B || Opcode(w) == 0x1B
    ensures EffectOf(Performed(s, l, w)) == Effect(Wrap64(s.pc + 4), s.regs, s.mem)
  {
    hide Execute, Immediate, CsrsAfter, Wrap32, Wrap64;
  }

  lemma NotExecuted(s: Core, l: Latches, i: Inst)
    requires WellFormed(i) && Integer(i) && !Executed(i)
    ensures EffectOf(Performed(s, l, Generate(i)))
         == Effect(Wrap64(s.pc + 4), WriteGpr(s.regs, i.rd, Left(i, s.regs)), s.mem)
  {
    if i.InstI2? && i.i2 in {Srli, Srai} {
      hide Performed, GenerateI2, WriteGpr, ReadGpr, Wrap64, ShiftedValue;
      ShiftPerformed(s, l, i.i2, i.rd, i.rs1, i.imm);
    } else {
      OpcodeIs(i);
      assert OpcodeOf(i) == 0x3B || OpcodeOf(i) == 0x1B;
      assert s.regs[i.rd := s.regs[i.rd]] == s.regs;
      hide Generate, Performed, Opcode, OpcodeOf, Wrap64;
      IdlePerformed(s, l, Generate(i));
    }
  }

  /** The instruction is executed, or the result it should have is what the destination register is left with. */
  ghost predicate Effective(i: Inst, s: Core)
    requires WellFormed(i) && Integer(i)
  {
    Executed(i) || i.rd == 0 || ReadGpr(Meant(i, s).regs, i.rd) == Left(i, s.regs)
  }

  /** The single-cycle VM gives an integer instruction its meaning exactly if it is effective, and throws exactly if it
      is executed and accesses memory out of range. */
  lemma MeansIff(s: Core, l: Latches, i: Inst, size: U64)
    requires WellFormed(i) && Integer(i) && Determined(i, s.regs)
    ensures EffectOf(Performed(s, l, Generate(i))) == Meant(i, s) <==> Effective(i, s)
    ensures Throws(s, Generate(i), size) <==> Executed(i) && OutOfRange(i, s.regs, size)
  {
    if Executed(i) { ExecutedAsMeant(s, l, i); }
    else {
      NeverThrows(s, i);
      NotExecuted(s, l, i);
      NextAndMemory(i, s);
      hide Performed, Generate, Wrap64, Meant, Throws, Left, Executed;
    }
  }

  lemma NextAndMemory(i: Inst, s: Core)
    requires WellFormed(i) && Integer(i) && !Executed(i)
    ensures var m := Meant(i, s); m == Effect(Wrap64(s.pc + 4), WriteGpr(s.regs, i.rd, ReadGpr(m.regs, i.rd)), s.mem)
  {
    hide Wrap64, RegisterValue, ImmediateValue, ShiftedValue;
  }
}
