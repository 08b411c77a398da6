/** The single-cycle VM with its undo history (src/vm/rvss/rvss_vm.cpp, src/vm/rvss/rvss_control_unit.cpp): the
    integer and CSR instructions, as functions of its state. */
module Rvss {
  import opened Words
  import opened Instructions
  import opened ImmGenerator
  import opened Alu
  import opened FlatMemory
  import opened Datapath

  type Csrs = r: seq<U64> | |r| == 4096 witness seq(4096, _ => 0)

  /** What a step changes and an undo is to restore. */
  datatype Core = Core(pc: U64, regs: Regs, csrs: Csrs, mem: Flat, retired: U32, cycles: U32)

  /** Fields that keep their value from one instruction to the next, and that undo does not restore. */
  datatype Latches = Latches(branchFlag: bool, memoryResult: U64)

  // ----- history (include/vm/rvss/rvss_vm.h) -----

  datatype RegisterChange = RegisterChange(index: Reg, oldValue: U64, newValue: U64)

  datatype MemoryChange = MemoryChange(address: U64, oldBytes: seq<U8>, newBytes: seq<U8>)

  datatype StepDelta = StepDelta(oldPc: U64, newPc: U64, registers: seq<RegisterChange>, memory: seq<MemoryChange>)

  // ----- decoding -----

  predicate IsCsr(w: U32) { Opcode(w) == 0x73 && Funct3(w) != 0 }

  /** Everything but `ecall` and the floating-point loads, stores and register operations. */
  predicate Covered(w: U32) { Opcode(w) !in {0x07, 0x27, 0x53} && !(Opcode(w) == 0x73 && Funct3(w) == 0) }

  predicate AluSrc(w: U32) { Opcode(w) in {0x03, 0x23, 0x13, 0x37, 0x17, 0x67} }

  /** `GetAluSignal`; operations whose result is not used are left out. */
  function AluSignal(w: U32): AluOp {
    match Opcode(w)
    case 0x33 => AluR(Funct3(w), Funct7(w))
    case 0x13 => AluI(Funct3(w), Funct7(w))
    case 0x63 => BranchSignals(Funct3(w)).0
    case 0x03 => KAdd
    case 0x23 => KAdd
    case 0x67 => KAdd
    case _ => KNone
  }

  function LoadWidth(w: U32): nat {
    if Opcode(w) == 0x03 && LoadOp(Funct3(w)).Read? then LoadOp(Funct3(w)).width else 0
  }

  function StoreWidth(w: U32): nat {
    if Opcode(w) == 0x23 && StoreOp(Funct3(w)).Write? then StoreOp(Funct3(w)).width else 0
  }

  // ----- one instruction -----

  /** `imm << 12` in `int32_t`, widened. */
  function UpperImmediate(w: U32): U64 { Sext32(Immediate(w) * 0x1000) }

  function Result(s: Core, w: U32): U64 {
    if Opcode(w) == 0x17 then Wrap64(s.pc + UpperImmediate(w))
    else Execute(AluSignal(w), ReadGpr(s.regs, Rs1(w)), if AluSrc(w) then Wrap64(Immediate(w))
      else ReadGpr(s.regs, Rs2(w))).0
  }

  /** Branches with an unassigned funct3 leave the flag as the last branch set it. */
  predicate BranchFlag(l: Latches, w: U32, result: U64) {
    if Opcode(w) != 0x63 then l.branchFlag else
    match Funct3(w)
    case 0 => result == 0
    case 1 => result != 0
    case 4 => result == 1
    case 5 => result == 0
    case 6 => result == 1
    case 7 => result == 0
    case _ => l.branchFlag
  }

  function NextPc(s: Core, l: Latches, w: U32): U64 {
    if Opcode(w) == 0x6F || (Opcode(w) == 0x63 && BranchFlag(l, w, Result(s, w))) then Wrap64(s.pc + Immediate(w))
    else if Opcode(w) == 0x67 then Result(s, w)
    else Wrap64(s.pc + 4)
  }

  predicate Throws(s: Core, w: U32, memorySize: U64) {
    LoadWidth(w) + StoreWidth(w) > 0 && Result(s, w) + LoadWidth(w) + StoreWidth(w) > memorySize
  }

  /** Loads with an unassigned funct3 leave the last value loaded. */
  ghost function MemoryResult(s: Core, l: Latches, w: U32): U64 {
    if LoadWidth(w) > 0 then Extend(LoadOp(Funct3(w)), LoadLE(s.mem, Result(s, w), LoadWidth(w))) else l.memoryResult
  }

  ghost function MemoryAfter(s: Core, w: U32): Flat {
    if StoreWidth(w) > 0 then StoreLE(s.mem, Result(s, w), StoreWidth(w), ReadGpr(s.regs, Rs2(w))) else s.mem
  }

  ghost function RegsAfter(s: Core, l: Latches, w: U32): Regs {
    match Opcode(w)
    case 0x33 => WriteGpr(s.regs, Rd(w), Result(s, w))
    case 0x13 => WriteGpr(s.regs, Rd(w), Result(s, w))
    case 0x17 => WriteGpr(s.regs, Rd(w), Result(s, w))
    case 0x03 => WriteGpr(s.regs, Rd(w), MemoryResult(s, l, w))
    case 0x67 => WriteGpr(s.regs, Rd(w), Wrap64(s.pc + 4))
    case 0x6F => WriteGpr(s.regs, Rd(w), Wrap64(s.pc + 4))
    case 0x37 => WriteGpr(s.regs, Rd(w), UpperImmediate(w))
    case 0x73 => if Funct3(w) in {1, 2, 3, 5, 6, 7} then WriteGpr(s.regs, Rd(w), s.csrs[CsrIndex(w)]) else s.regs
    case _ => s.regs
  }

  function CsrIndex(w: U32): nat
    ensures CsrIndex(w) < 4096
  {
    Bits(w, 0x10_0000, 0x1000)
  }

  /** What a CSR instruction combines with the CSR: a register, or for the immediate forms the register's number. */
  function CsrOperand(s: Core, w: U32): U64 { if Funct3(w) >= 5 then Rs1(w) else ReadGpr(s.regs, Rs1(w)) }

  function CsrsAfter(s: Core, w: U32): Csrs {
    if !IsCsr(w) then s.csrs else
    var i, operand := CsrIndex(w), CsrOperand(s, w);
    var was := s.csrs[i];
    if Funct3(w) == 1 || Funct3(w) == 5 then s.csrs[i := operand]
    else if operand == 0 then s.csrs
    else if Funct3(w) == 2 || Funct3(w) == 6 then s.csrs[i := Wrap64(Bitwise(KOr, was, operand, 64))]
    else if Funct3(w) == 3 || Funct3(w) == 7 then s.csrs[i := Wrap64(Bitwise(KAnd, was, B64 - 1 - operand, 64))]
    else s.csrs
  }

  /** The state after an instruction that does not throw. */
  ghost function Performed(s: Core, l: Latches, w: U32): Core {
    Core(NextPc(s, l, w), RegsAfter(s, l, w), CsrsAfter(s, w), MemoryAfter(s, w),
         Wrap32(s.retired + 1), Wrap32(s.cycles + 1))
  }

  ghost function LatchesAfter(s: Core, l: Latches, w: U32): Latches {
    Latches(BranchFlag(l, w, Result(s, w)), MemoryResult(s, l, w))
  }

  /** The bytes from `a` on. */
  ghost function BytesAt(m: Flat, a: nat, n: nat): (b: seq<U8>)
    ensures |b| == n && forall i | 0 <= i < n :: b[i] == m[a + i]
  {
    seq(n, i requires 0 <= i < n => m[a + i])
  }

  /** What is recorded: a changed destination register, except for CSR instructions, and changed bytes. */
  ghost function Delta(s: Core, l: Latches, w: U32): StepDelta {
    var t, rd, a, n := Performed(s, l, w), Rd(w), Result(s, w), StoreWidth(w);
    var was, now := BytesAt(s.mem, a, n), BytesAt(t.mem, a, n);
    StepDelta(s.pc, t.pc,
              if !IsCsr(w) && ReadGpr(s.regs, rd) != ReadGpr(t.regs, rd)
              then [RegisterChange(rd, ReadGpr(s.regs, rd), ReadGpr(t.regs, rd))] else [],
              if was != now then [MemoryChange(a, was, now)] else [])
  }

  // ----- undo and redo -----

  function OldRegs(r: Regs, changes: seq<RegisterChange>): Regs
    decreases |changes|
  {
    if changes == [] then r else
    var last := changes[|changes| - 1];
    WriteGpr(OldRegs(r, changes[..|changes| - 1]), last.index, last.oldValue)
  }

  function NewRegs(r: Regs, changes: seq<RegisterChange>): Regs
    decreases |changes|
  {
    if changes == [] then r else
    var last := changes[|changes| - 1];
    WriteGpr(NewRegs(r, changes[..|changes| - 1]), last.index, last.newValue)
  }

  /** The bytes written one after the other, in `uint64_t` addresses. */
  ghost function WriteBytes(m: Flat, a: U64, bytes: seq<U8>): Flat
    decreases |bytes|
  {
    if bytes == [] then m
    else WriteBytes(m, a, bytes[..|bytes| - 1])[Wrap64(a + |bytes| - 1) := bytes[|bytes| - 1]]
  }

  ghost function OldMemory(m: Flat, changes: seq<MemoryChange>): Flat
    decreases |changes|
  {
    if changes == [] then m else
    var last := changes[|changes| - 1];
    WriteBytes(OldMemory(m, changes[..|changes| - 1]), last.address, last.oldBytes)
  }

  ghost function NewMemory(m: Flat, changes: seq<MemoryChange>): Flat
    decreases |changes|
  {
    if changes == [] then m else
    var last := changes[|changes| - 1];
    WriteBytes(NewMemory(m, changes[..|changes| - 1]), last.address, last.newBytes)
  }

  ghost function Undone(s: Core, d: StepDelta): Core {
    Core(d.oldPc, OldRegs(s.regs, d.registers), s.csrs, OldMemory(s.mem, d.memory),
         Wrap32(s.retired - 1), Wrap32(s.cycles - 1))
  }

  ghost function Redone(s: Core, d: StepDelta): Core {
    Core(d.newPc, NewRegs(s.regs, d.registers), s.csrs, NewMemory(s.mem, d.memory),
         Wrap32(s.retired + 1), Wrap32(s.cycles + 1))
  }

  // ----- the machine with its stacks -----

  /** `size` is the end of the text. */
  datatype Vm = Vm(core: Core, latches: Latches, undo: seq<StepDelta>, redo: seq<StepDelta>)

  ghost function Next(s: Core): U32 { LoadLE(s.mem, s.pc, 4) }

  datatype Outcome = Idle | Stepped | FetchThrew | MemoryThrew

  ghost function StepOutcome(v: Vm, size: nat, memorySize: U64): Outcome {
    if v.core.pc >= size then Idle
    else if v.core.pc + 4 > memorySize then FetchThrew
    else if Throws(v.core, Next(v.core), memorySize) then MemoryThrew
    else Stepped
  }

  /** `Step`. A load or store that throws leaves the program counter already moved on. */
  ghost function Step(v: Vm, size: nat, memorySize: U64): Vm {
    match StepOutcome(v, size, memorySize)
    case Stepped =>
      var w := Next(v.core);
      Vm(Performed(v.core, v.latches, w), LatchesAfter(v.core, v.latches, w), v.undo
        + [Delta(v.core, v.latches, w)], [])
    case MemoryThrew => v.(core := v.core.(pc := Wrap64(v.core.pc + 4)))
    case _ => v
  }

  ghost function Undo(v: Vm): Vm {
    if v.undo == [] then v else
    var n := |v.undo| - 1;
    v.(core := Undone(v.core, v.undo[n]), undo := v.undo[..n], redo := v.redo + [v.undo[n]])
  }

  ghost function Redo(v: Vm): Vm {
    if v.redo == [] then v else
    var n := |v.redo| - 1;
    v.(core := Redone(v.core, v.redo[n]), undo := v.undo + [v.redo[n]], redo := v.redo[..n])
  }
}
