/** Instruction names, grouped by encoding class, and the encoding tables that drive code generation
    (src/common/instructions.cpp). The class sets of the source are the datatypes themselves. */
module Instructions {
  type Reg = r: nat | r < 32

  /** The fixed fields of an instruction word; a field a class does not use is 0. */
  datatype Code = Code(opcode: nat, funct3: nat := 0, funct7: nat := 0, funct6: nat := 0, funct5: nat := 0,
    funct2: nat := 0)

  datatype ROp = Add | Sub | Xor | Or | And | Sll | Srl | Sra | Slt | Sltu | Addw | Subw | Sllw | Srlw | Sraw
    | Mul | Mulh | Mulhsu | Mulhu | Div | Divu | Rem | Remu | Mulw | Divw | Divuw | Remw | Remuw

  function EncodingR(op: ROp): Code {
    match op
    case Add => Code(0x33, 0, 0x00)
    case Sub => Code(0x33, 0, 0x20)
    case Xor => Code(0x33, 4, 0x00)
    case Or => Code(0x33, 6, 0x00)
    case And => Code(0x33, 7, 0x00)
    case Sll => Code(0x33, 1, 0x00)
    case Srl => Code(0x33, 5, 0x00)
    case Sra => Code(0x33, 5, 0x20)
    case Slt => Code(0x33, 2, 0x00)
    case Sltu => Code(0x33, 3, 0x00)
    case Addw => Code(0x3B, 0, 0x00)
    case Subw => Code(0x3B, 0, 0x20)
    case Sllw => Code(0x3B, 1, 0x00)
    case Srlw => Code(0x3B, 5, 0x00)
    case Sraw => Code(0x3B, 5, 0x20)
    case Mul => Code(0x33, 0, 0x01)
    case Mulh => Code(0x33, 1, 0x01)
    case Mulhsu => Code(0x33, 2, 0x01)
    case Mulhu => Code(0x33, 3, 0x01)
    case Div => Code(0x33, 4, 0x01)
    case Divu => Code(0x33, 5, 0x01)
    case Rem => Code(0x33, 6, 0x01)
    case Remu => Code(0x33, 7, 0x01)
    case Mulw => Code(0x3B, 0, 0x01)
    case Divw => Code(0x3B, 4, 0x01)
    case Divuw => Code(0x3B, 5, 0x01)
    case Remw => Code(0x3B, 6, 0x01)
    case Remuw => Code(0x3B, 7, 0x01)
  }

  datatype I1Op = Addi | Xori | Ori | Andi | Sltiu | Slti | Addiw | Lb | Lh | Lw | Ld | Lbu | Lhu | Lwu | Jalr

  function EncodingI1(op: I1Op): Code {
    match op
    case Addi => Code(0x13, 0)
    case Xori => Code(0x13, 4)
    case Ori => Code(0x13, 6)
    case Andi => Code(0x13, 7)
    case Sltiu => Code(0x13, 3)
    case Slti => Code(0x13, 2)
    case Addiw => Code(0x1B, 0)
    case Lb => Code(0x03, 0)
    case Lh => Code(0x03, 1)
    case Lw => Code(0x03, 2)
    case Ld => Code(0x03, 3)
    case Lbu => Code(0x03, 4)
    case Lhu => Code(0x03, 5)
    case Lwu => Code(0x03, 6)
    case Jalr => Code(0x67, 0)
  }

  datatype I2Op = Slli | Srli | Srai | Slliw | Srliw | Sraiw

  function EncodingI2(op: I2Op): Code {
    match op
    case Slli => Code(0x13, 1, funct6 := 0x00)
    case Srli => Code(0x13, 5, funct6 := 0x00)
    case Srai => Code(0x13, 5, funct6 := 0x10)
    case Slliw => Code(0x1B, 1, funct6 := 0x00)
    case Srliw => Code(0x1B, 5, funct6 := 0x00)
    case Sraiw => Code(0x1B, 5, funct6 := 0x10)
  }

  datatype SOp = Sb | Sh | Sw | Sd

  function EncodingS(op: SOp): Code {
    match op
    case Sb => Code(0x23, 0)
    case Sh => Code(0x23, 1)
    case Sw => Code(0x23, 2)
    case Sd => Code(0x23, 3)
  }

  datatype BOp = Beq | Bne | Blt | Bge | Bltu | Bgeu

  function EncodingB(op: BOp): Code {
    match op
    case Beq => Code(0x63, 0)
    case Bne => Code(0x63, 1)
    case Blt => Code(0x63, 4)
    case Bge => Code(0x63, 5)
    case Bltu => Code(0x63, 6)
    case Bgeu => Code(0x63, 7)
  }

  datatype UOp = Lui | Auipc

  function EncodingU(op: UOp): Code {
    match op
    case Lui => Code(0x37)
    case Auipc => Code(0x17)
  }

  datatype CsrROp = Csrrw | Csrrs | Csrrc

  function EncodingCsrR(op: CsrROp): Code {
    match op
    case Csrrw => Code(0x73, 1)
    case Csrrs => Code(0x73, 2)
    case Csrrc => Code(0x73, 3)
  }

  datatype CsrIOp = Csrrwi | Csrrsi | Csrrci

  function EncodingCsrI(op: CsrIOp): Code {
    match op
    case Csrrwi => Code(0x73, 5)
    case Csrrsi => Code(0x73, 6)
    case Csrrci => Code(0x73, 7)
  }

  datatype FROp = FsgnjS | FsgnjnS | FsgnjxS | FminS | FmaxS | FeqS | FltS | FleS | FeqD | FltD | FleD
    | FsgnjD | FsgnjnD | FsgnjxD | FminD | FmaxD

  function EncodingFR(op: FROp): Code {
    match op
    case FsgnjS => Code(0x53, 0, 0x10)
    case FsgnjnS => Code(0x53, 1, 0x10)
    case FsgnjxS => Code(0x53, 2, 0x10)
    case FminS => Code(0x53, 0, 0x14)
    case FmaxS => Code(0x53, 1, 0x14)
    case FeqS => Code(0x53, 2, 0x50)
    case FltS => Code(0x53, 1, 0x50)
    case FleS => Code(0x53, 0, 0x50)
    case FeqD => Code(0x53, 2, 0x51)
    case FltD => Code(0x53, 1, 0x51)
    case FleD => Code(0x53, 0, 0x51)
    case FsgnjD => Code(0x53, 0, 0x11)
    case FsgnjnD => Code(0x53, 1, 0x11)
    case FsgnjxD => Code(0x53, 2, 0x11)
    case FminD => Code(0x53, 0, 0x15)
    case FmaxD => Code(0x53, 1, 0x15)
  }

  datatype FR1Op = FaddS | FsubS | FmulS | FdivS | FaddD | FsubD | FmulD | FdivD

  function EncodingFR1(op: FR1Op): Code {
    match op
    case FaddS => Code(0x53, funct7 := 0x00)
    case FsubS => Code(0x53, funct7 := 0x04)
    case FmulS => Code(0x53, funct7 := 0x08)
    case FdivS => Code(0x53, funct7 := 0x0C)
    case FaddD => Code(0x53, funct7 := 0x01)
    case FsubD => Code(0x53, funct7 := 0x05)
    case FmulD => Code(0x53, funct7 := 0x09)
    case FdivD => Code(0x53, funct7 := 0x0D)
  }

  datatype FR2Op = FsqrtS | FcvtWS | FcvtWuS | FcvtLS | FcvtLuS | FcvtSW | FcvtSWu | FcvtSL | FcvtSLu | FsqrtD
    | FcvtWD | FcvtWuD | FcvtLD | FcvtLuD | FcvtDW | FcvtDWu | FcvtDL | FcvtDLu | FcvtSD | FcvtDS

  function EncodingFR2(op: FR2Op): Code {
    match op
    case FsqrtS => Code(0x53, funct5 := 0, funct7 := 0x2C)
    case FcvtWS => Code(0x53, funct5 := 0, funct7 := 0x60)
    case FcvtWuS => Code(0x53, funct5 := 1, funct7 := 0x60)
    case FcvtLS => Code(0x53, funct5 := 2, funct7 := 0x60)
    case FcvtLuS => Code(0x53, funct5 := 3, funct7 := 0x60)
    case FcvtSW => Code(0x53, funct5 := 0, funct7 := 0x68)
    case FcvtSWu => Code(0x53, funct5 := 1, funct7 := 0x68)
    case FcvtSL => Code(0x53, funct5 := 2, funct7 := 0x68)
    case FcvtSLu => Code(0x53, funct5 := 3, funct7 := 0x68)
    case FsqrtD => Code(0x53, funct5 := 0, funct7 := 0x2D)
    case FcvtWD => Code(0x53, funct5 := 0, funct7 := 0x61)
    case FcvtWuD => Code(0x53, funct5 := 1, funct7 := 0x61)
    case FcvtLD => Code(0x53, funct5 := 2, funct7 := 0x61)
    case FcvtLuD => Code(0x53, funct5 := 3, funct7 := 0x61)
    case FcvtDW => Code(0x53, funct5 := 0, funct7 := 0x69)
    case FcvtDWu => Code(0x53, funct5 := 1, funct7 := 0x69)
    case FcvtDL => Code(0x53, funct5 := 2, funct7 := 0x69)
    case FcvtDLu => Code(0x53, funct5 := 3, funct7 := 0x69)
    case FcvtSD => Code(0x53, funct5 := 1, funct7 := 0x20)
    case FcvtDS => Code(0x53, funct5 := 0, funct7 := 0x21)
  }

  datatype FR3Op = FmvWX | FmvXW | FclassS | FmvDX | FmvXD | FclassD

  function EncodingFR3(op: FR3Op): Code {
    match op
    case FmvWX => Code(0x53, 0, funct5 := 0, funct7 := 0x78)
    case FmvXW => Code(0x53, 0, funct5 := 0, funct7 := 0x70)
    case FclassS => Code(0x53, 1, funct5 := 0, funct7 := 0x70)
    case FmvDX => Code(0x53, 0, funct5 := 0, funct7 := 0x79)
    case FmvXD => Code(0x53, 0, funct5 := 0, funct7 := 0x71)
    case FclassD => Code(0x53, 1, funct5 := 0, funct7 := 0x71)
  }

  datatype FR4Op = FmaddS | FmsubS | FnmsubS | FnmaddS | FmaddD | FmsubD | FnmsubD | FnmaddD

  function EncodingFR4(op: FR4Op): Code {
    match op
    case FmaddS => Code(0x43, funct2 := 0)
    case FmsubS => Code(0x47, funct2 := 0)
    case FnmsubS => Code(0x4B, funct2 := 0)
    case FnmaddS => Code(0x4F, funct2 := 0)
    case FmaddD => Code(0x43, funct2 := 1)
    case FmsubD => Code(0x47, funct2 := 1)
    case FnmsubD => Code(0x4B, funct2 := 1)
    case FnmaddD => Code(0x4F, funct2 := 1)
  }

  datatype FIOp = Flw | Fld

  function EncodingFI(op: FIOp): Code {
    match op
    case Flw => Code(0x07, 2)
    case Fld => Code(0x07, 3)
  }

  datatype FSOp = Fsw | Fsd

  function EncodingFS(op: FSOp): Code {
    match op
    case Fsw => Code(0x27, 2)
    case Fsd => Code(0x27, 3)
  }

  datatype PseudoOp = Nop | Li | La | Mv | Not | Ret | OtherPseudo
  // `OtherPseudo`: the pseudo-instruction names (neg, beqz, j, call, ...) that no format accepts.

  datatype Op =
    | R(r: ROp) | I1(i1: I1Op) | I2(i2: I2Op) | Ecall | S(s: SOp) | B(b: BOp) | U(u: UOp) | Jal
    | CsrR(cr: CsrROp) | CsrI(ci: CsrIOp)
    | FR(fr: FROp) | FR1(fr1: FR1Op) | FR2(fr2: FR2Op) | FR3(fr3: FR3Op) | FR4(fr4: FR4Op) | FI(fi: FIOp) | FS(fs: FSOp)
    | Fence | FenceI | Pseudo(p: PseudoOp)
}
