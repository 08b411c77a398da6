/** The single-cycle VM against the sequential semantics that the pipeline implements. */
module RvssAgrees {
  import opened Words
  import opened Instructions
  import opened ImmGenerator
  import opened Alu
  import opened AluLaws
  import opened FlatMemory
  import opened Datapath
  import opened Pipeline
  import opened Sequential
  import Rvss
  import opened CurrentWords
  import opened PipelineRuns

  /** The integer instructions both machines give a meaning to: no opcode 0000001, no unassigned funct3 of a load or
      branch (there the single-cycle VM goes by what an earlier instruction left), no CSR access. */
  predicate Legal(w: U32) {
    && Rvss.Covered(w) && !Rvss.IsCsr(w) && Opcode(w) != 0x01
    && !(Opcode(w) == 0x03 && Funct3(w) == 7)
    && !(Opcode(w) == 0x63 && (Funct3(w) == 2 || Funct3(w) == 3))
  }

  predicate IsUpper(w: U32) { Opcode(w) == 0x37 || Opcode(w) == 0x17 }

  /** The words on which the pipeline's test of the upper operand goes wrong: bit 29 set, the sign bit clear. */
  predicate MisreadUpper(w: U32) {
    IsUpper(w) && Rd(w) != 0 && Bits(w, 0x2000_0000, 2) == 1 && Bits(w, 0x8000_0000, 2) == 0
  }

  function SameState(a: Arch, t: Rvss.Core): bool { (a.pc, a.regs, a.mem) == (t.pc, t.regs, t.mem) }

  ghost function ArchOf(s: Rvss.Core): Arch { Arch(s.pc, s.regs, s.mem, false) }

  // ----- arithmetic -----

  /** The pipeline's upper operand is the sign-extended one, except on the misread words. */
  lemma UpperOperandIs(w: U32)
    requires IsUpper(w)
    ensures var u := UpperOperand(Immediate(w));
      if Bits(w, 0x2000_0000, 2) == 1 && Bits(w, 0x8000_0000, 2) == 0 then u == Rvss.UpperImmediate(w) + (B64 - B32)
      else u == Rvss.UpperImmediate(w)
  {
    var i := Bits(w, 0x1000, 0x10_0000);
    UpperImmediateBits(w);
    var v := i * 0x1000;
    assert Wrap64(v) == v && Wrap32(v) == v;
    UpperBits(w, v);
  }

  lemma UpperImmediateBits(w: U32)
    requires IsUpper(w)
    ensures Immediate(w) == Bits(w, 0x1000, 0x10_0000) && Bits(w, 0x1000, 0x10_0000) == w / 0x1000
  {
  }

  lemma UpperBits(w: U32, v: nat)
    requires v == w / 0x1000 * 0x1000
    ensures Bits(v, 0x8000_0000, 2) == Bits(w, 0x8000_0000, 2) && Bits(v, 0x2000_0000, 2) == Bits(w, 0x2000_0000, 2)
    ensures Bits(w, 0x8000_0000, 2) == 1 <==> v >= B31
  {
    var q := w / 0x1000;
    SameShift(w, q, w % 0x1000, 0x8_0000);
    SameShift(v, q, 0, 0x8_0000);
    SameShift(w, q, w % 0x1000, 0x2_0000);
    SameShift(v, q, 0, 0x2_0000);
  }

  lemma SameShift(w: nat, q: nat, r: nat, d: nat)
    requires w == q * 0x1000 + r && r < 0x1000 && d > 0
    ensures w / (0x1000 * d) == q / d
  {
    Nest(w, q, q / d, q % d, r, 0x1000, d);
  }

  // ----- agreement, opcode by opcode -----

  lemma AluAgrees(s: Rvss.Core, l: Rvss.Latches, w: U32, v: Machine)
    requires Opcode(w) == 0x33 || Opcode(w) == 0x13
    ensures var (a, t) := (Perform(ArchOf(s), w, v), Rvss.Performed(s, l, w)); SameState(a, t) && !a.fault
  {
    hide Execute, Immediate, AluR, AluI, LoadLE;
  }

  lemma LoadStoreAgrees(s: Rvss.Core, l: Rvss.Latches, w: U32, v: Machine)
    requires (Opcode(w) == 0x03 || Opcode(w) == 0x23) && Legal(w)
    ensures var (a, t) := (Perform(ArchOf(s), w, v), Rvss.Performed(s, l, w));
      a.fault == Rvss.Throws(s, w, v.memorySize) && (!a.fault ==> SameState(a, t))
  {
    hide Execute, Immediate, LoadLE, StoreLE, Extend;
  }

  lemma BranchAgrees(s: Rvss.Core, l: Rvss.Latches, w: U32, v: Machine)
    requires Opcode(w) == 0x63 && Legal(w)
    ensures var (a, t) := (Perform(ArchOf(s), w, v), Rvss.Performed(s, l, w)); SameState(a, t) && !a.fault
  {
    hide Execute, Immediate, LoadLE;
  }

  lemma JumpAgrees(s: Rvss.Core, l: Rvss.Latches, w: U32, v: Machine)
    requires Opcode(w) == 0x6F || Opcode(w) == 0x67
    ensures var (a, t) := (Perform(ArchOf(s), w, v), Rvss.Performed(s, l, w)); SameState(a, t) && !a.fault
  {
    AddWraps(s.pc, Immediate(w));
    hide Execute, Immediate, LoadLE;
  }

  /** What the two machines write for an upper-immediate instruction. */
  function PipelineUpper(s: Rvss.Core, w: U32): U64 {
    Wrap64((if Opcode(w) == 0x37 then 0 else s.pc) + UpperOperand(Immediate(w)))
  }

  function RvssUpper(s: Rvss.Core, w: U32): U64 {
    if Opcode(w) == 0x37 then Rvss.UpperImmediate(w) else Wrap64(s.pc + Rvss.UpperImmediate(w))
  }

  lemma UpperControl(w: U32)
    requires IsUpper(w)
    ensures Control(w) == NOP.(isNop := false, aluSrcB := true, regWrite := true, wbSrc := WbAlu, aluOp := KAdd,
                               aluSrcA := if Opcode(w) == 0x37 then SrcZero else SrcPc)
  {}

  lemma WrapWord(x: U64)
    ensures Wrap64(x) == x
  {}

  lemma UpperPipelined(s: Rvss.Core, w: U32, v: Machine)
    requires IsUpper(w)
    ensures Perform(ArchOf(s), w, v)
      == Arch(Wrap64(s.pc + 4), WriteGpr(s.regs, Rd(w), PipelineUpper(s, w)), s.mem, false)
  {
    UpperControl(w);
    hide Control, Execute, Immediate, LoadLE, UpperOperand, Wrap64, WriteGpr, ReadGpr, SourceA, SourceB, Rd, Opcode;
    AddWraps(if Opcode(w) == 0x37 then 0 else s.pc, UpperOperand(Immediate(w)));
    WrapWord(UpperOperand(Immediate(w)));
  }

  lemma UpperSingleCycle(s: Rvss.Core, l: Rvss.Latches, w: U32)
    requires IsUpper(w)
    ensures var t := Rvss.Performed(s, l, w);
      (t.pc, t.regs, t.mem) == (Wrap64(s.pc + 4), WriteGpr(s.regs, Rd(w), RvssUpper(s, w)), s.mem)
  {
    hide Execute, Immediate, LoadLE, Rvss.UpperImmediate;
  }

  lemma UpperAgreesIff(s: Rvss.Core, l: Rvss.Latches, w: U32, v: Machine)
    requires IsUpper(w)
    ensures var (a, t) := (Perform(ArchOf(s), w, v), Rvss.Performed(s, l, w));
      !a.fault && (SameState(a, t) <==> !MisreadUpper(w))
  {
    hide Perform, Rvss.Performed, Immediate, UpperOperand, Rvss.UpperImmediate, Bits, WriteGpr, PipelineUpper,
      RvssUpper;
    UpperPipelined(s, w, v);
    UpperSingleCycle(s, l, w);
    UpperValues(s, w);
    DifferentRegister(s.regs, Rd(w), PipelineUpper(s, w), RvssUpper(s, w));
  }

  lemma UpperValues(s: Rvss.Core, w: U32)
    requires IsUpper(w)
    ensures PipelineUpper(s, w) == RvssUpper(s, w) <==> !(Bits(w, 0x2000_0000, 2) == 1 && Bits(w, 0x8000_0000, 2) == 0)
  {
    hide Immediate, UpperOperand, Rvss.UpperImmediate, Bits;
    UpperOperandIs(w);
    ApartWraps(s.pc, Rvss.UpperImmediate(w));
  }

  lemma ApartWraps(pc: U64, x: U64)
    ensures x + (B64 - B32) < B64
      ==> Wrap64(pc + (x + (B64 - B32))) != Wrap64(pc + x) && Wrap64(0 + (x + (B64 - B32))) != x
    ensures Wrap64(0 + x) == x
  {}

  lemma DifferentRegister(r: Regs, rd: Reg, x: U64, y: U64)
    ensures WriteGpr(r, rd, x) == WriteGpr(r, rd, y) <==> rd == 0 || x == y
  {
    if rd != 0 { assert r[rd := x][rd] == x && r[rd := y][rd] == y; }
  }

  lemma OtherAgrees(s: Rvss.Core, l: Rvss.Latches, w: U32, v: Machine)
    requires Legal(w) && Opcode(w) !in {0x33, 0x13, 0x03, 0x23, 0x63, 0x6F, 0x67, 0x37, 0x17}
    ensures var (a, t) := (Perform(ArchOf(s), w, v), Rvss.Performed(s, l, w)); SameState(a, t) && !a.fault
  {
    hide Execute, Immediate, LoadLE;
  }

  /** On every legal instruction the single-cycle VM throws when the sequential machine faults, and otherwise reaches
      the same state exactly if the word is not one whose upper immediate the pipeline misreads. */
  lemma AgreesIff(s: Rvss.Core, l: Rvss.Latches, w: U32, v: Machine)
    requires Legal(w)
    ensures var (a, t) := (Perform(ArchOf(s), w, v), Rvss.Performed(s, l, w));
      && a.fault == Rvss.Throws(s, w, v.memorySize)
      && (!a.fault ==> (SameState(a, t) <==> !MisreadUpper(w)))
  {
    hide Perform, Rvss.Performed, SameState, Rvss.Result, Bits;
    if IsUpper(w) { UpperAgreesIff(s, l, w, v); }
    else if Opcode(w) == 0x33 || Opcode(w) == 0x13 { AluAgrees(s, l, w, v); }
    else if Opcode(w) == 0x03 || Opcode(w) == 0x23 { LoadStoreAgrees(s, l, w, v); }
    else if Opcode(w) == 0x63 { BranchAgrees(s, l, w, v); }
    else if Opcode(w) == 0x6F || Opcode(w) == 0x67 { JumpAgrees(s, l, w, v); }
    else { OtherAgrees(s, l, w, v); }
  }

  // ----- whole runs -----

  /** `n` steps of the single-cycle VM. */
  ghost function Steps(s: Rvss.Vm, v: Machine, n: nat): Rvss.Vm {
    if n == 0 then s else Rvss.Step(Steps(s, v, n - 1), v.size, v.memorySize)
  }

  /** A program whose every executed instruction is legal and not misread. */
  ghost predicate Plain(a: Arch, v: Machine) {
    forall n: nat :: !Stopped(Run(a, v, n), v) ==> PlainWord(LoadLE(Run(a, v, n).mem, Run(a, v, n).pc, 4))
  }

  predicate PlainWord(w: U32) { Legal(w) && !MisreadUpper(w) }

  lemma StepAgrees(s: Rvss.Vm, a: Arch, v: Machine)
    requires a == ArchOf(s.core) && !Lost(a.pc, v)
    requires !Stopped(a, v) ==> PlainWord(LoadLE(a.mem, a.pc, 4))
    ensures var (t, b) := (Rvss.Step(s, v.size, v.memorySize), Step(a, v)); !b.fault ==> b == ArchOf(t.core)
  {
    hide Perform, Rvss.Performed, Legal, MisreadUpper, Rvss.Throws, LoadLE;
    if !Stopped(a, v) { AgreesIff(s.core, s.latches, LoadLE(a.mem, a.pc, 4), v); }
  }

  /** What a step comes to, in terms of the sequential machine: nothing where that has stopped or the fetch throws, an
      exception where it faults, which leaves all but a program counter that has moved on, and its state otherwise. */
  lemma StepComesTo(s: Rvss.Vm, v: Machine)
    requires !Stopped(ArchOf(s.core), v) ==> PlainWord(LoadLE(s.core.mem, s.core.pc, 4))
    ensures var (a, outcome, t) :=
        (ArchOf(s.core), Rvss.StepOutcome(s, v.size, v.memorySize), Rvss.Step(s, v.size, v.memorySize));
      && (outcome == Rvss.Idle <==> Stopped(a, v))
      && (outcome == Rvss.FetchThrew <==> Lost(a.pc, v))
      && (outcome == Rvss.MemoryThrew <==> !Stopped(a, v) && !Lost(a.pc, v) && Step(a, v).fault)
      && (Stopped(a, v) || Lost(a.pc, v) ==> t == s)
      && (outcome == Rvss.MemoryThrew ==> t == s.(core := s.core.(pc := Wrap64(a.pc + 4))))
      && (outcome == Rvss.Stepped ==> ArchOf(t.core) == Step(a, v))
  {
    hide Perform, Rvss.Performed, Legal, MisreadUpper, Rvss.Throws, LoadLE;
    if !Stopped(ArchOf(s.core), v) { AgreesIff(s.core, s.latches, LoadLE(s.core.mem, s.core.pc, 4), v); }
  }

  /** The single-cycle VM executes a plain program as the sequential machine does, up to a memory fault. */
  lemma {:induction false} RunAgrees(s: Rvss.Vm, v: Machine, n: nat)
    requires Plain(ArchOf(s.core), v) && Fits(ArchOf(s.core), v) && !Run(ArchOf(s.core), v, n).fault
    ensures ArchOf(Steps(s, v, n).core) == Run(ArchOf(s.core), v, n)
  {
    hide Step, Rvss.Step, PlainWord, Lost;
    if n > 0 {
      NoFaultBefore(ArchOf(s.core), v, n);
      RunAgrees(s, v, n - 1);
      StepAgrees(Steps(s, v, n - 1), Run(ArchOf(s.core), v, n - 1), v);
    }
  }

  lemma NoFaultBefore(a: Arch, v: Machine, n: nat)
    requires n > 0 && !Run(a, v, n).fault
    ensures !Run(a, v, n - 1).fault
  {
    hide Perform;
  }

  /** The two VMs compute the same: a plain program that stops without a fault after `total` instructions leaves the
      single-cycle VM and the pipeline, with any predictor, forwarding or stalling, in the same state. */
  lemma VmsAgree(s: Rvss.Vm, predictor: Predictor, v: Machine, total: nat)
    requires s.core.pc == 0 && Plain(ArchOf(s.core), v) && Fits(ArchOf(s.core), v)
    requires ReadsCurrent(ArchOf(s.core), predictor, v)
    requires var t := Run(ArchOf(s.core), v, total); Stopped(t, v) && !t.fault
    ensures var (single, piped) := (Steps(s, v, total).core,
      Ticks(Start(s.core.regs, s.core.mem, predictor), v, 3 * total + 5));
      AtRest(piped, v) && !piped.fault && (single.pc, single.regs, single.mem) == (piped.p.pc, piped.p.regs, piped.mem)
  {
    hide Run, Steps, Ticks, Plain, ReadsCurrent, Fits, Stopped, AtRest;
    RunAgrees(s, v, total);
    PipelineComputesProgram(s.core.regs, s.core.mem, predictor, v, total);
  }
}
