/** The single-cycle VM as an object (`RVSSVM` in src/vm/rvss/rvss_vm.cpp): a step updates its fields phase by phase
    and pushes a delta, undo and redo write the deltas back. */
module RvssVm {
  import opened Words
  import opened Instructions
  import opened ImmGenerator
  import opened FlatMemory
  import opened MainMemory
  import opened Datapath
  import opened Rvss
  import Alu

  const NO_DELTA := StepDelta(0, 0, [], [])

  lemma PcBack(pc: U64, n: int)
    ensures Wrap64(Wrap64(pc + 4) - 4) == pc && Wrap64(pc + (n - pc)) == Wrap64(n)
  {}

  /** The addresses of a delta can be written. */
  predicate InRange(d: StepDelta, memorySize: U64) {
    forall c <- d.memory :: c.address + |c.oldBytes| <= memorySize && |c.newBytes| == |c.oldBytes|
  }

  predicate AllInRange(deltas: seq<StepDelta>, memorySize: U64) {
    forall i | 0 <= i < |deltas| :: InRange(deltas[i], memorySize)
  }

  class RVSSVM {
    const memory: Memory
    const programSize: nat
    var programCounter: U64
    var currentInstruction: U32
    var registers: Regs
    var csrs: Csrs
    var instructionsRetired: U32
    var cycles: U32
    var executionResult: U64
    var memoryResult: U64
    var nextPc: U64
    var branchFlag: bool
    var csrTargetAddress: nat
    var csrOldValue: U64
    var csrWriteValue: U64
    var csrUimm: Reg
    var currentDelta: StepDelta
    var undoStack: seq<StepDelta>
    var redoStack: seq<StepDelta>

    ghost function Core(): Core
      requires memory.Valid()
      reads this, memory
    {
      Rvss.Core(programCounter, registers, csrs, memory.Bytes(), instructionsRetired, cycles)
    }

    function Latches(): Latches
      reads this
    {
      Rvss.Latches(branchFlag, memoryResult)
    }

    ghost function Vm(): Vm
      requires memory.Valid()
      reads this, memory
    {
      Rvss.Vm(Core(), Latches(), undoStack, redoStack)
    }

    ghost predicate Valid()
      reads this, memory
    {
      && memory.Valid()
      && AllInRange(undoStack, memory.memorySize) && AllInRange(redoStack, memory.memorySize)
    }

    /** A VM after `Reset` and the loading of a program of `size` bytes into `memory`. */
    constructor (memory: Memory, size: nat)
      requires memory.Valid()
      ensures Valid() && this.memory == memory && programSize == size
      ensures Vm() == Rvss.Vm(Rvss.Core(0, seq(32, _ => 0), seq(4096, _ => 0), memory.Bytes(), 0, 0),
        Rvss.Latches(false, 0), [], [])
    {
      this.memory, programSize := memory, size;
      programCounter, currentInstruction, registers, csrs := 0, 0, seq(32, _ => 0), seq(4096, _ => 0);
      instructionsRetired, cycles, executionResult, memoryResult, nextPc, branchFlag := 0, 0, 0, 0, 0, false;
      csrTargetAddress, csrOldValue, csrWriteValue, csrUimm := 0, 0, 0, 0;
      currentDelta, undoStack, redoStack := NO_DELTA, [], [];
    }

    method UpdateProgramCounter(value: int)
      modifies this`programCounter
      ensures programCounter == Wrap64(old(programCounter) + value)
    {
      programCounter := Wrap64(programCounter + value);
    }

    method Fetch() returns (ok: bool)
      requires memory.Valid()
      modifies this`currentInstruction, this`programCounter
      ensures ok == (old(programCounter) + 4 <= memory.memorySize)
      ensures if ok
        then currentInstruction == LoadLE(memory.Bytes(), old(programCounter), 4)
        && programCounter == Wrap64(old(programCounter) + 4)
              else programCounter == old(programCounter)
    {
      hide Memory.Bytes, Memory.Valid, LoadLE;
      var r := memory.Load(programCounter, 4);
      if r.Thrown? { return false; }
      currentInstruction := r.value;
      UpdateProgramCounter(4);
      ok := true;
    }

    /** ALU and control flow; the program counter has been moved on by the fetch. */
    method Execute(ghost s: Core)
      requires Covered(currentInstruction) && registers == s.regs && csrs == s.csrs
        && programCounter == Wrap64(s.pc + 4)
      modifies this`programCounter, this`executionResult, this`nextPc, this`branchFlag, this`csrTargetAddress,
        this`csrOldValue, this`csrWriteValue, this`csrUimm
      ensures var w, l := currentInstruction, old(Latches());
        && programCounter == Rvss.NextPc(s, l, w) && branchFlag == Rvss.BranchFlag(l, w, Rvss.Result(s, w))
        && (!IsCsr(w) ==> executionResult == Rvss.Result(s, w))
        && (Opcode(w) in {0x6F, 0x67} ==> nextPc == Wrap64(s.pc + 4))
        && (IsCsr(w) ==> (csrTargetAddress, csrOldValue) == (CsrIndex(w), s.csrs[CsrIndex(w)]))
        && (IsCsr(w) ==> (csrWriteValue, csrUimm) == (ReadGpr(s.regs, Rs1(w)), Rs1(w)))
    {
      hide Alu.Execute, Immediate, Wrap64, ReadGpr, CsrIndex, AluSignal;
      var w := currentInstruction;
      var opcode, funct3 := Opcode(w), Funct3(w);
      if opcode == 0x73 {
        csrTargetAddress, csrOldValue, csrWriteValue, csrUimm := CsrIndex(w), csrs[CsrIndex(w)],
          ReadGpr(registers, Rs1(w)), Rs1(w);
        return;
      }
      var imm := Immediate(w);
      var a, b := ReadGpr(registers, Rs1(w)), ReadGpr(registers, Rs2(w));
      if AluSrc(w) { b := Wrap64(imm); }
      executionResult := Alu.Execute(AluSignal(w), a, b).0;
      PcBack(s.pc, executionResult);
      if opcode == 0x67 || opcode == 0x6F {
        nextPc := programCounter;
        UpdateProgramCounter(-4);
        if opcode == 0x67 { programCounter := executionResult; } else { UpdateProgramCounter(imm); }
      } else if opcode == 0x63 {
        match funct3
        case 0 => branchFlag := executionResult == 0;
        case 1 => branchFlag := executionResult != 0;
        case 4 => branchFlag := executionResult == 1;
        case 5 => branchFlag := executionResult == 0;
        case 6 => branchFlag := executionResult == 1;
        case 7 => branchFlag := executionResult == 0;
        case _ =>
      }
      if branchFlag && opcode == 0x63 {
        UpdateProgramCounter(-4);
        UpdateProgramCounter(imm);
      }
      if opcode == 0x17 { executionResult := Wrap64(Wrap64(programCounter - 4) + UpperImmediate(w)); }
    }

    /** The bytes from `address` on; `ok` is false when one of them cannot be read. */
    method ReadBytes(address: U64, n: nat) returns (ok: bool, bytes: seq<U8>)
      requires memory.Valid() && n > 0
      ensures ok == (address + n <= memory.memorySize)
      ensures ok ==> bytes == BytesAt(memory.Bytes(), address, n)
    {
      hide Memory.Bytes, Memory.Valid;
      bytes := [];
      for i := 0 to n
        invariant |bytes| == i && (i > 0 ==> address + i <= memory.memorySize)
        invariant forall j | 0 <= j < i :: bytes[j] == memory.Bytes()[address + j]
      {
        var b := memory.Read(Wrap64(address + i));
        if b.Thrown? { return false, bytes; }
        bytes := bytes + [b.value];
      }
      ok := true;
    }

    /** Memory access. A store records the bytes it changes. */
    method WriteMemory(ghost s: Core)
      returns (ok: bool)
      requires memory.Valid() && memory.Bytes() == s.mem && registers == s.regs && currentDelta.memory == []
      requires LoadWidth(currentInstruction) + StoreWidth(currentInstruction) > 0
        ==> executionResult == Rvss.Result(s, currentInstruction)
      modifies this`memoryResult, this`currentDelta, memory
      ensures memory.Valid() && ok == !Throws(s, currentInstruction, memory.memorySize)
      ensures !ok ==> memory.Bytes() == s.mem && memoryResult == old(memoryResult) && currentDelta == old(currentDelta)
      ensures ok ==> var w := currentInstruction;
        var (a, n) := (Rvss.Result(s, w), StoreWidth(w));
        var (was, now) := (BytesAt(s.mem, a, n), BytesAt(Rvss.MemoryAfter(s, w), a, n));
        && memoryResult == Rvss.MemoryResult(s, old(Latches()), w) && memory.Bytes() == Rvss.MemoryAfter(s, w)
        && currentDelta == old(currentDelta).(memory := if was != now then [MemoryChange(a, was, now)] else [])
    {
      hide Memory.Bytes, Memory.Valid, Rvss.Result, LoadLE, StoreLE, Opcode, Funct3, Extend, LoadOp, StoreOp, BytesAt;
      var w := currentInstruction;
      var loaded, stored := LoadWidth(w), StoreWidth(w);
      Widths(w);
      ok := true;
      if loaded > 0 {
        var r := memory.Load(executionResult, loaded);
        if r.Thrown? { return false; }
        memoryResult := Extend(LoadOp(Funct3(w)), r.value);
        NoBytes(s.mem, Rvss.MemoryAfter(s, w), Rvss.Result(s, w));
      } else if stored > 0 {
        var oldBytes: seq<U8>, newBytes: seq<U8>;
        ok, oldBytes := ReadBytes(executionResult, stored);
        if !ok { return; }
        ok := memory.Store(executionResult, stored, ReadGpr(registers, Rs2(w)));
        ok, newBytes := ReadBytes(executionResult, stored);
        if oldBytes != newBytes {
          currentDelta := currentDelta.(memory := currentDelta.memory
            + [MemoryChange(executionResult, oldBytes, newBytes)]);
        }
      } else {
        NoBytes(s.mem, Rvss.MemoryAfter(s, w), Rvss.Result(s, w));
      }
    }

    lemma NoBytes(m: Flat, m': Flat, a: nat)
      ensures BytesAt(m, a, 0) == BytesAt(m', a, 0)
    {}

    /** A word reads or writes memory, not both. */
    lemma Widths(w: U32)
      ensures LoadWidth(w) in {0, 1, 2, 4, 8} && StoreWidth(w) in {0, 1, 2, 4, 8}
        && (LoadWidth(w) == 0 || StoreWidth(w) == 0)
      ensures LoadWidth(w) > 0 ==> LoadOp(Funct3(w)).Read?
    {}

    method WriteBackCsr(ghost s: Core)
      requires IsCsr(currentInstruction) && registers == s.regs && csrs == s.csrs
      requires (csrTargetAddress, csrOldValue) == (CsrIndex(currentInstruction), s.csrs[CsrIndex(currentInstruction)])
      requires (csrWriteValue, csrUimm) == (ReadGpr(s.regs, Rs1(currentInstruction)), Rs1(currentInstruction))
      modifies this`registers, this`csrs
      ensures csrs == CsrsAfter(s, currentInstruction)
      ensures registers == if Funct3(currentInstruction) != 4
        then WriteGpr(s.regs, Rd(currentInstruction), s.csrs[CsrIndex(currentInstruction)]) else s.regs
    {
      hide Opcode, Rd, Rs1, CsrIndex, ReadGpr, WriteGpr, Alu.Bitwise, Wrap64;
      var rd, i := Rd(currentInstruction), csrTargetAddress;
      match Funct3(currentInstruction)
      case 1 =>
        registers, csrs := WriteGpr(registers, rd, csrOldValue), csrs[i := csrWriteValue];
      case 2 =>
        registers := WriteGpr(registers, rd, csrOldValue);
        if csrWriteValue != 0 { csrs := csrs[i := Wrap64(Alu.Bitwise(Alu.KOr, csrOldValue, csrWriteValue, 64))]; }
      case 3 =>
        registers := WriteGpr(registers, rd, csrOldValue);
        if csrWriteValue != 0 {
          csrs := csrs[i := Wrap64(Alu.Bitwise(Alu.KAnd, csrOldValue, B64 - 1 - csrWriteValue, 64))];
        }
      case 5 =>
        registers, csrs := WriteGpr(registers, rd, csrOldValue), csrs[i := csrUimm];
      case 6 =>
        registers := WriteGpr(registers, rd, csrOldValue);
        if csrUimm != 0 { csrs := csrs[i := Wrap64(Alu.Bitwise(Alu.KOr, csrOldValue, csrUimm, 64))]; }
      case 7 =>
        registers := WriteGpr(registers, rd, csrOldValue);
        if csrUimm != 0 { csrs := csrs[i := Wrap64(Alu.Bitwise(Alu.KAnd, csrOldValue, B64 - 1 - csrUimm, 64))]; }
      case _ =>
    }

    /** Register write-back. Except for CSR instructions a changed register is recorded. */
    method WriteBack(ghost s: Core, ghost l: Latches)
      requires Covered(currentInstruction) && registers == s.regs && csrs == s.csrs && currentDelta.registers == []
      requires !IsCsr(currentInstruction) && Opcode(currentInstruction) in {0x33, 0x13, 0x17}
        ==> executionResult == Rvss.Result(s, currentInstruction)
      requires memoryResult == Rvss.MemoryResult(s, l, currentInstruction)
      requires Opcode(currentInstruction) in {0x6F, 0x67} ==> nextPc == Wrap64(s.pc + 4)
      requires IsCsr(currentInstruction) ==>
        (csrTargetAddress, csrOldValue) == (CsrIndex(currentInstruction), s.csrs[CsrIndex(currentInstruction)])
      requires IsCsr(currentInstruction) ==>
        (csrWriteValue, csrUimm) == (ReadGpr(s.regs, Rs1(currentInstruction)), Rs1(currentInstruction))
      modifies this`registers, this`csrs, this`currentDelta
      ensures var (w, rd) := (currentInstruction, Rd(currentInstruction));
        && registers == Rvss.RegsAfter(s, l, w) && csrs == CsrsAfter(s, w)
        && currentDelta == old(currentDelta).(registers :=
            if !IsCsr(w) && ReadGpr(s.regs, rd) != ReadGpr(registers, rd)
            then [RegisterChange(rd, ReadGpr(s.regs, rd), ReadGpr(registers, rd))] else [])
    {
      hide Rvss.Result, Rvss.MemoryResult, UpperImmediate, ReadGpr, WriteGpr, CsrIndex, Wrap64;
      var w := currentInstruction;
      if Opcode(w) == 0x73 {
        WriteBackCsr(s);
        return;
      }
      var rd, oldReg := Rd(w), ReadGpr(registers, Rd(w));
      match Opcode(w) {
        case 0x33 | 0x13 | 0x17 => registers := WriteGpr(registers, rd, executionResult);
        case 0x03 => registers := WriteGpr(registers, rd, memoryResult);
        case 0x67 | 0x6F => registers := WriteGpr(registers, rd, nextPc);
        case 0x37 => registers := WriteGpr(registers, rd, UpperImmediate(w));
        case _ =>
      }
      var newReg := ReadGpr(registers, rd);
      if oldReg != newReg {
        currentDelta := currentDelta.(registers := currentDelta.registers + [RegisterChange(rd, oldReg, newReg)]);
        assert currentDelta.registers == [RegisterChange(rd, oldReg, newReg)];
      }
    }

    /** What follows the fetch of an instruction: the phases in order, and the counters. */
    method Perform(ghost s: Core) returns (ok: bool)
      requires memory.Valid() && Covered(currentInstruction) && currentDelta == NO_DELTA.(oldPc := s.pc)
      requires Core() == s.(pc := Wrap64(s.pc + 4))
      modifies this`programCounter, this`executionResult, this`nextPc, this`branchFlag, this`csrTargetAddress,
        this`csrOldValue, this`csrWriteValue, this`csrUimm, this`memoryResult, this`currentDelta, this`registers,
        this`csrs, this`instructionsRetired, this`cycles, memory
      ensures memory.Valid() && ok == !Throws(s, currentInstruction, memory.memorySize)
      ensures !ok ==>
        && Core() == s.(pc := Wrap64(s.pc + 4))
        && Latches() == old(Latches()) && currentDelta == old(currentDelta)
      ensures ok ==> var w, l := currentInstruction, old(Latches());
        Core() == Performed(s, l, w) && Latches() == LatchesAfter(s, l, w) && currentDelta == Delta(s, l, w)
    {
      hide Memory.Bytes, Memory.Valid, Rvss.Result, Rvss.MemoryResult, Rvss.MemoryAfter, Rvss.RegsAfter, CsrsAfter,
        Rvss.NextPc, LoadLE, Throws, Covered, Rvss.BranchFlag, BytesAt, ReadGpr, Opcode, Wrap64, Wrap32, LoadWidth,
        StoreWidth, IsCsr, Rd, Rs1, CsrIndex, Funct3;
      ghost var l, w := Latches(), currentInstruction;
      Execute(s);
      Accesses(s, l, w);
      ok := WriteMemory(s);
      if !ok { return; }
      Results(s, l, w);
      WriteBack(s, l);
      instructionsRetired, cycles := Wrap32(instructionsRetired + 1), Wrap32(cycles + 1);
      currentDelta := currentDelta.(newPc := programCounter);
    }

    /** One instruction, if the program has not ended; `ok` is false when a memory access throws. */
    method Step() returns (ok: bool)
      requires Valid() && currentDelta.(oldPc := 0) == NO_DELTA
      requires StepOutcome(Vm(), programSize, memory.memorySize) in {Stepped, MemoryThrew} ==> Covered(Next(Core()))
      modifies this, memory
      ensures Valid() && currentDelta.(oldPc := 0) == NO_DELTA
      ensures ok == (StepOutcome(old(Vm()), programSize, memory.memorySize) in {Idle, Stepped})
      ensures Vm() == Rvss.Step(old(Vm()), programSize, memory.memorySize)
    {
      hide Memory.Bytes, Memory.Valid, Performed, LatchesAfter, Delta, LoadLE, Throws, Covered, InRange;
      ghost var s, l := Core(), Latches();
      currentDelta := currentDelta.(oldPc := programCounter);
      if programCounter >= programSize { return true; }
      ok := Fetch();
      if !ok { return; }
      ok := Perform(s);
      if !ok { return; }
      DeltaInRange(s, l, currentInstruction);
      undoStack := undoStack + [currentDelta];
      redoStack := [];
      currentDelta := NO_DELTA;
    }

    /** Only ordinary instructions access memory, and they go on at the next address. */
    lemma Accesses(s: Core, l: Latches, w: U32)
      ensures LoadWidth(w) + StoreWidth(w) > 0 ==>
        && !IsCsr(w) && Rvss.NextPc(s, l, w) == Wrap64(s.pc + 4)
        && Rvss.BranchFlag(l, w, Rvss.Result(s, w)) == l.branchFlag
      ensures Throws(s, w, memory.memorySize) ==> LoadWidth(w) + StoreWidth(w) > 0
    {
      hide Rvss.Result, LoadOp, StoreOp;
    }

    lemma Results(s: Core, l: Latches, w: U32)
      ensures Rvss.MemoryResult(s, Rvss.Latches(l.branchFlag, l.memoryResult), w)
        == Rvss.MemoryResult(s, Rvss.Latches(Rvss.BranchFlag(l, w, Rvss.Result(s, w)), l.memoryResult), w)
    {
      hide LoadOp, LoadLE, Extend, Rvss.Result, Rvss.BranchFlag;
    }

    lemma DeltaInRange(s: Core, l: Latches, w: U32)
      requires !Throws(s, w, memory.memorySize)
      ensures InRange(Delta(s, l, w), memory.memorySize)
    {
      hide Rvss.Result, Rvss.RegsAfter, Rvss.NextPc, Rvss.MemoryAfter, ReadGpr, CsrsAfter, LoadWidth, StoreWidth;
      NoBytes(s.mem, Rvss.MemoryAfter(s, w), Rvss.Result(s, w));
    }

    // ----- undo and redo -----

    method WriteBytes(address: U64, bytes: seq<U8>)
      requires memory.Valid() && address + |bytes| <= memory.memorySize
      modifies memory
      ensures memory.Valid() && memory.Bytes() == Rvss.WriteBytes(old(memory.Bytes()), address, bytes)
    {
      hide Memory.Bytes, Memory.Valid;
      for i := 0 to |bytes|
        invariant memory.Valid() && memory.Bytes() == Rvss.WriteBytes(old(memory.Bytes()), address, bytes[..i])
      {
        assert bytes[..i + 1][..i] == bytes[..i];
        var written := memory.Write(Wrap64(address + i), bytes[i]);
      }
      assert bytes[..|bytes|] == bytes;
    }

    lemma ChangeInRange(d: StepDelta, i: nat)
      requires InRange(d, memory.memorySize) && i < |d.memory|
      ensures d.memory[i].address + |d.memory[i].oldBytes| <= memory.memorySize
        && |d.memory[i].newBytes| == |d.memory[i].oldBytes|
    {}

    method RestoreRegisters(changes: seq<RegisterChange>, undoing: bool)
      modifies this`registers
      ensures registers == if undoing then OldRegs(old(registers), changes) else NewRegs(old(registers), changes)
    {
      hide WriteGpr;
      for i := 0 to |changes|
        invariant registers == if undoing then OldRegs(old(registers), changes[..i])
          else NewRegs(old(registers), changes[..i])
      {
        assert changes[..i + 1][..i] == changes[..i];
        registers := WriteGpr(registers, changes[i].index, if undoing then changes[i].oldValue
          else changes[i].newValue);
      }
      assert changes[..|changes|] == changes;
    }

    method RestoreMemory(d: StepDelta, undoing: bool)
      requires memory.Valid() && InRange(d, memory.memorySize)
      modifies memory
      ensures memory.Valid()
      ensures memory.Bytes() == if undoing then OldMemory(old(memory.Bytes()), d.memory)
        else NewMemory(old(memory.Bytes()), d.memory)
    {
      hide Memory.Bytes, Memory.Valid, Rvss.WriteBytes, InRange;
      var changes := d.memory;
      for i := 0 to |changes|
        invariant memory.Valid()
        invariant memory.Bytes() == if undoing then OldMemory(old(memory.Bytes()), changes[..i])
          else NewMemory(old(memory.Bytes()), changes[..i])
      {
        assert changes[..i + 1][..i] == changes[..i];
        ChangeInRange(d, i);
        WriteBytes(changes[i].address, if undoing then changes[i].oldBytes else changes[i].newBytes);
      }
      assert changes[..|changes|] == changes;
    }

    /** Takes back the last step; nothing when there is none. */
    method Undo()
      requires Valid()
      modifies this, memory
      ensures Valid() && Vm() == Rvss.Undo(old(Vm())) && currentDelta == old(currentDelta)
    {
      hide Memory.Bytes, Memory.Valid, OldRegs, OldMemory, InRange;
      if undoStack == [] { return; }
      var last := undoStack[|undoStack| - 1];
      undoStack := undoStack[..|undoStack| - 1];
      RestoreRegisters(last.registers, true);
      RestoreMemory(last, true);
      programCounter := last.oldPc;
      instructionsRetired, cycles := Wrap32(instructionsRetired - 1), Wrap32(cycles - 1);
      redoStack := redoStack + [last];
    }

    /** Repeats the step last taken back; nothing when there is none. */
    method Redo()
      requires Valid()
      modifies this, memory
      ensures Valid() && Vm() == Rvss.Redo(old(Vm())) && currentDelta == old(currentDelta)
    {
      hide Memory.Bytes, Memory.Valid, NewRegs, NewMemory, InRange;
      if redoStack == [] { return; }
      var next := redoStack[|redoStack| - 1];
      redoStack := redoStack[..|redoStack| - 1];
      RestoreRegisters(next.registers, false);
      RestoreMemory(next, false);
      programCounter := next.newPc;
      instructionsRetired, cycles := Wrap32(instructionsRetired + 1), Wrap32(cycles + 1);
      undoStack := undoStack + [next];
    }
  }
}
