/** What the pipeline stages share: control signals (src/vm/rv5s/rv5s_control_unit.cpp), the register file, the
    ALU operands, branch resolution and memory access (src/vm/rv5s/rv5s_ex_vm.cpp). */
module Datapath {
  import opened Words
  import opened Instructions
  import opened ImmGenerator
  import opened Alu
  import opened FlatMemory

  datatype SrcA = SrcRs1 | SrcZero | SrcPc
  type AccessWidth = n: nat | n in {1, 2, 4, 8} witness 1
  datatype ReadOp = ReadNone | Read(width: AccessWidth, signed: bool)
  datatype WriteOp = WriteNone | Write(width: AccessWidth)
  datatype BranchOp = BNone | BBeq | BBne | BBlt | BBge | BBltu | BBgeu | BJal | BJalr
  datatype WbSrc = WbNone | WbAlu | WbMem | WbPcInc

  datatype Signals = Signals(
    aluOp: AluOp, aluSrcB: bool, aluSrcA: SrcA,
    memRead: bool, memWrite: bool, readOp: ReadOp, writeOp: WriteOp,
    branch: bool, branchOp: BranchOp,
    regWrite: bool, wbSrc: WbSrc, isNop: bool)

  const NOP := Signals(KNone, false, SrcRs1, false, false, ReadNone, WriteNone, false, BNone, false, WbNone, true)

  predicate IsJump(c: Signals) { c.branchOp == BJal || c.branchOp == BJalr }

  function AluR(f3: nat, f7: nat): AluOp {
    match (f3, f7)
    case (0, 0x00) => KAdd
    case (0, 0x20) => KSub
    case (0, 0x01) => KMul
    case (1, 0x00) => KSll
    case (1, 0x01) => KMulh
    case (2, 0x00) => KSlt
    case (2, 0x01) => KMulhsu
    case (3, 0x00) => KSltu
    case (3, 0x01) => KMulhu
    case (4, 0x00) => KXor
    case (4, 0x01) => KDiv
    case (5, 0x00) => KSrl
    case (5, 0x20) => KSra
    case (5, 0x01) => KDivu
    case (6, 0x00) => KOr
    case (6, 0x01) => KRem
    case (7, 0x00) => KAnd
    case (7, 0x01) => KRemu
    case _ => KNone
  }

  function AluI(f3: nat, f7: nat): AluOp {
    match f3
    case 0 => KAdd
    case 1 => KSll
    case 2 => KSlt
    case 3 => KSltu
    case 4 => KXor
    case 5 => if f7 == 0x00 then KSrl else if f7 == 0x20 then KSra else KNone
    case 6 => KOr
    case 7 => KAnd
    case _ => KNone
  }

  function BranchSignals(f3: nat): (AluOp, BranchOp) {
    match f3
    case 0 => (KSub, BBeq)
    case 1 => (KSub, BBne)
    case 4 => (KSlt, BBlt)
    case 5 => (KSlt, BBge)
    case 6 => (KSltu, BBltu)
    case 7 => (KSltu, BBgeu)
    case _ => (KNone, BNone)
  }

  function LoadOp(f3: nat): ReadOp {
    match f3
    case 0 => Read(1, true)
    case 1 => Read(2, true)
    case 2 => Read(4, true)
    case 3 => Read(8, false)
    case 4 => Read(1, false)
    case 5 => Read(2, false)
    case 6 => Read(4, false)
    case _ => ReadNone
  }

  function StoreOp(f3: nat): WriteOp {
    match f3
    case 0 => Write(1)
    case 1 => Write(2)
    case 2 => Write(4)
    case 3 => Write(8)
    case _ => WriteNone
  }

  /** `getControlSignals`. Opcodes outside the list, the word and floating-point forms among them, are no-ops. */
  function Control(w: U32): Signals {
    var f3, f7 := Funct3(w), Funct7(w);
    var base := NOP.(isNop := false);
    if w == 0 then NOP
    else if w == 0x13 then NOP.(aluOp := KAdd, aluSrcB := true)
    else if w == 0x33 then NOP.(aluOp := KAdd)
    else match Opcode(w)
      case 0x33 => base.(regWrite := true, wbSrc := WbAlu, aluOp := AluR(f3, f7))
      case 0x03 =>
        base.(aluSrcB := true, wbSrc := WbMem, regWrite := true, memRead := true, aluOp := KAdd, readOp := LoadOp(f3))
      case 0x23 => base.(aluSrcB := true, memWrite := true, aluOp := KAdd, writeOp := StoreOp(f3))
      case 0x63 => base.(branch := true, aluOp := BranchSignals(f3).0, branchOp := BranchSignals(f3).1)
      case 0x13 => base.(aluSrcB := true, regWrite := true, wbSrc := WbAlu, aluOp := AluI(f3, f7))
      case 0x37 => base.(aluSrcB := true, regWrite := true, wbSrc := WbAlu, aluSrcA := SrcZero, aluOp := KAdd)
      case 0x17 => base.(aluSrcB := true, regWrite := true, wbSrc := WbAlu, aluSrcA := SrcPc, aluOp := KAdd)
      case 0x6F => base.(aluSrcB := true, regWrite := true, branch := true, wbSrc := WbPcInc, aluSrcA := SrcPc,
        aluOp := KAdd, branchOp := BJal)
      case 0x67 =>
        base.(aluSrcB := true, regWrite := true, branch := true, wbSrc := WbPcInc, aluOp := KAdd, branchOp := BJalr)
      case 0x01 => base.(regWrite := true, wbSrc := WbAlu)
      case _ => NOP
  }

  // ----- registers -----

  type Regs = r: seq<U64> | |r| == 32 witness seq(32, _ => 0)

  function ReadGpr(r: Regs, i: Reg): U64 { if i == 0 then 0 else r[i] }

  function WriteGpr(r: Regs, i: Reg, v: U64): Regs { if i == 0 then r else r[i := v] }

  // ----- decode -----

  /** The source register numbers an instruction is given; formats without the field read x0. */
  function SourceA(w: U32): Reg { if Opcode(w) == 0x37 || Opcode(w) == 0x17 then 0 else Rs1(w) }

  function SourceB(w: U32): Reg {
    if Opcode(w) == 0x33 || Opcode(w) == 0x23 || Opcode(w) == 0x63 then Rs2(w) else 0
  }

  // ----- execute -----

  /** The upper-immediate operand: the mask the source tests has bits 31 and 29 set, not the sign bit alone. */
  function UpperOperand(imm: int): U64 {
    var v := Wrap64(imm * 0x1000);
    if Bits(v, 0x8000_0000, 2) == 1 || Bits(v, 0x2000_0000, 2) == 1
    then Wrap64(v % B32 + (B64 - B32)) else v
  }

  function OperandA(c: Signals, pc: U64, a: U64): U64 {
    match c.aluSrcA
    case SrcPc => pc
    case SrcZero => 0
    case SrcRs1 => a
  }

  function OperandB(c: Signals, imm: int, b: U64): U64 {
    if c.aluSrcA != SrcRs1 then if c.branchOp != BJal then UpperOperand(imm) else Wrap64(imm)
    else if c.aluSrcB then Wrap64(imm)
    else b
  }

  function AluResult(c: Signals, pc: U64, imm: int, a: U64, b: U64): U64 {
    Execute(c.aluOp, OperandA(c, pc, a), OperandB(c, imm, b)).0
  }

  /** Whether control leaves the straight line, from the ALU result. */
  predicate Taken(c: Signals, result: U64) {
    IsJump(c) || (c.branch &&
      match c.branchOp
      case BBeq => result == 0
      case BBne => result != 0
      case BBlt => result == 1
      case BBge => result == 0
      case BBltu => result == 1
      case BBgeu => result == 0
      case _ => false)
  }

  function Target(c: Signals, pc: U64, imm: int, result: U64): U64 {
    if IsJump(c) then result else Wrap64(pc + imm)
  }

  // ----- memory -----

  function Extend(op: ReadOp, v: nat): U64
    requires op.Read? && v < B64
  {
    match (op.width, op.signed)
    case (1, true) => if v < 0x80 then v else Wrap64(v - 0x100)
    case (2, true) => if v < 0x8000 then v else Wrap64(v - 0x1_0000)
    case (4, true) => if v < 0x8000_0000 then v else Wrap64(v - B32)
    case _ => v
  }

  /** The number of bytes an instruction touches, 0 when it does not access memory. */
  function Width(c: Signals): nat {
    if c.memRead then (if c.readOp.Read? then c.readOp.width else 0)
    else if c.memWrite then (if c.writeOp.Write? then c.writeOp.width else 0)
    else 0
  }

  predicate Faults(c: Signals, memorySize: U64, address: U64) {
    Width(c) > 0 && address + Width(c) > memorySize
  }

  ghost function Loaded(c: Signals, m: Flat, address: U64): U64 {
    if c.memRead && c.readOp.Read? then Extend(c.readOp, LoadLE(m, address, c.readOp.width)) else 0
  }

  ghost function Stored(c: Signals, m: Flat, address: U64, data: U64): Flat {
    if !c.memRead && c.memWrite && c.writeOp.Write? then StoreLE(m, address, c.writeOp.width, data) else m
  }

  // ----- write back -----

  function WriteBack(c: Signals, r: Regs, rd: Reg, alu: U64, loaded: U64, pcInc: U64): Regs {
    if !c.regWrite then r else
    match c.wbSrc
    case WbAlu => WriteGpr(r, rd, alu)
    case WbMem => WriteGpr(r, rd, loaded)
    case WbPcInc => WriteGpr(r, rd, pcInc)
    case WbNone => r
  }
}
