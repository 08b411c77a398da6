/** The pipeline waits exactly for the operands that it cannot have yet. */
module Hazards {
  import opened Words
  import opened Instructions
  import opened CodeGenerator
  import opened ImmGenerator
  import opened Datapath
  import opened Pipeline
  import opened EarlyFetch
  import opened Meaning

  /** The registers that an integer instruction reads. */
  function Sources(i: Inst): set<Reg>
    requires Integer(i)
  {
    match i
    case InstR(_, _, rs1, rs2) => {rs1, rs2}
    case InstI1(_, _, rs1, _) => {rs1}
    case InstI2(_, _, rs1, _) => {rs1}
    case InstS(_, rs1, rs2, _) => {rs1, rs2}
    case InstB(_, rs1, rs2, _) => {rs1, rs2}
    case InstU(_, _, _) => {}
    case InstJal(_, _) => {}
  }

  predicate Loads(i: Inst) { i.InstI1? && IsLoad(i.i1) }

  predicate WritesRegister(i: Inst)
    requires Integer(i)
  {
    !i.InstS? && !i.InstB? && i.rd != 0
  }

  /** The first instruction reads the register that the second writes. */
  predicate DependsOn(i: Inst, j: Inst)
    requires Integer(i) && Integer(j)
  {
    WritesRegister(j) && j.rd in Sources(i)
  }

  /** The register fields that control and hazard unit look at. */
  predicate HasRegisters(w: U32, i: Inst)
    requires Integer(i)
  {
    && (i.InstR? ==> Rs1(w) == i.rs1 && Rs2(w) == i.rs2)
    && (i.InstI1? ==> Rs1(w) == i.rs1)
    && (i.InstI2? ==> Rs1(w) == i.rs1)
    && (i.InstS? ==> Rs1(w) == i.rs1 && Rs2(w) == i.rs2)
    && (i.InstB? ==> Rs1(w) == i.rs1 && Rs2(w) == i.rs2)
    && (!i.InstS? && !i.InstB? ==> Rd(w) == i.rd)
  }

  lemma RegistersOf(i: Inst)
    requires WellFormed(i) && Integer(i) && Executed(i)
    ensures HasRegisters(Generate(i), i)
  {
    hide GenerateR, GenerateI1, GenerateI2, GenerateStore, GenerateB, GenerateU, GenerateJ, Rd, Rs1, Rs2, Opcode,
      Funct3, Funct7, ImmS, ImmB, ImmU, ImmJ, Immediate;
    match i
    case InstR(op, rd, rs1, rs2) => RegisterWord(op, rd, rs1, rs2);
    case InstI1(op, rd, rs1, imm) => ImmediateWord(op, rd, rs1, imm);
    case InstI2(op, rd, rs1, shamt) => ShiftWord(op, rd, rs1, shamt);
    case InstS(op, rs1, rs2, imm) => StoreSignals(op); RoundTripS(EncodingS(op), rs1, rs2, imm);
    case InstB(op, rs1, rs2, imm) => RoundTripB(op, rs1, rs2, imm);
    case InstU(op, rd, imm) => RoundTripU(op, rd, imm);
    case InstJal(rd, imm) => RoundTripJ(rd, imm);
  }

  predicate ReadsFirst(i: Inst) { !i.InstU? && !i.InstJal? }

  predicate ReadsSecond(i: Inst) { i.InstR? || i.InstS? || i.InstB? }

  /** What the control word says of an instruction that is executed; the no-op words are those of `addi x0, x0, 0` and
      `add x0, x0, x0`. */
  lemma ControlOf(i: Inst)
    requires WellFormed(i) && Integer(i) && Executed(i)
    ensures var c := Control(Generate(i));
      if c.isNop then Generate(i) == 0x13 || Generate(i) == 0x33 || Generate(i) == 0
      else
        && (NeedsA(c) <==> ReadsFirst(i)) && (NeedsB(c) <==> ReadsSecond(i))
        && (c.memRead <==> Loads(i)) && (c.regWrite <==> !i.InstS? && !i.InstB?)
    ensures Control(Generate(i)).isNop ==> !Control(Generate(i)).regWrite && !Control(Generate(i)).memRead
    ensures Control(Generate(i)).branchOp == BJalr ==> ReadsFirst(i)
  {
    OpcodeIs(i);
    hide Generate, Opcode, Funct3, Funct7, AluR, AluI, LoadOp, StoreOp, BranchSignals;
  }

  lemma NoOps(i: Inst)
    requires Integer(i) && HasRegisters(Generate(i), i) && WellFormed(i) && Executed(i)
    requires Control(Generate(i)).isNop
    ensures !WritesRegister(i) && forall r <- Sources(i) :: r == 0
  {
    hide Generate, Control, Opcode, Rd, Rs1, Rs2, Funct3, Funct7;
    ControlOf(i);
    OpcodeIs(i);
    NoOpFields();
  }

  lemma NoOpFields()
    ensures Opcode(0x13) == 0x13 && Opcode(0x33) == 0x33 && Opcode(0) == 0
    ensures Rd(0x13) == 0 && Rs1(0x13) == 0 && Rd(0x33) == 0 && Rs1(0x33) == 0 && Rs2(0x33) == 0
  {}

  lemma SourcesOf(i: Inst)
    requires WellFormed(i) && Integer(i) && Executed(i)
    ensures ReadsFirst(i) ==> SourceA(Generate(i)) in Sources(i)
    ensures ReadsSecond(i) ==> SourceB(Generate(i)) in Sources(i)
    ensures forall r <- Sources(i) ::
      (ReadsFirst(i) && r == SourceA(Generate(i))) || (ReadsSecond(i) && r == SourceB(Generate(i)))
  {
    RegistersOf(i);
    OpcodeIs(i);
    hide Generate, Opcode, Rs1, Rs2, Rd;
  }

  /** A conflict with a register that is about to be written is a dependence. */
  lemma ConflictIs(i: Inst, writes: bool, rd: Reg)
    requires WellFormed(i) && Integer(i) && Executed(i) && !Control(Generate(i)).isNop
    ensures var w := Generate(i);
      Conflict(Control(w), SourceA(w), SourceB(w), writes, rd) <==> writes && rd != 0 && rd in Sources(i)
  {
    ControlOf(i);
    SourcesOf(i);
    hide Generate, Control, SourceA, SourceB, NeedsA, NeedsB, Sources, ReadsFirst, ReadsSecond;
  }

  lemma WriterOf(j: Inst)
    requires WellFormed(j) && Integer(j) && Executed(j)
    ensures var (c, rd) := (Control(Generate(j)), Rd(Generate(j)));
      && (c.regWrite && rd != 0 <==> WritesRegister(j)) && (WritesRegister(j) ==> rd == j.rd)
      && (c.memRead && rd != 0 <==> Loads(j) && WritesRegister(j))
  {
    RegistersOf(j);
    ControlOf(j);
    if Control(Generate(j)).isNop { NoOps(j); }
    hide Generate, Control, Rd, Rs1, Rs2;
  }

  lemma NoOpIsIndependent(i: Inst, j: Inst)
    requires WellFormed(i) && Integer(i) && Executed(i) && WellFormed(j) && Integer(j) && Executed(j)
    requires Control(Generate(i)).isNop
    ensures !DependsOn(i, j)
  {
    hide Generate, Control, Executed;
    RegistersOf(i);
    NoOps(i);
  }

  lemma LoadUseIsDependence(i: Inst, j: Inst)
    requires WellFormed(i) && Integer(i) && Executed(i) && WellFormed(j) && Integer(j) && Executed(j)
    requires !Control(Generate(i)).isNop
    ensures var (w, x) := (Generate(i), AheadInEx(Generate(j)));
      LoadUseHazard(Control(w), SourceA(w), SourceB(w), x) <==> Loads(j) && DependsOn(i, j)
  {
    hide Generate, Control, Rd, SourceA, SourceB, Sources, Conflict, Executed, LoadUseHazard;
    WriterOf(j);
    ConflictIs(i, Control(Generate(j)).memRead, Rd(Generate(j)));
    LoadUseIs(i, AheadInEx(Generate(j)));
  }

  lemma ConflictIsDependence(i: Inst, j: Inst)
    requires WellFormed(i) && Integer(i) && Executed(i) && WellFormed(j) && Integer(j) && Executed(j)
    requires !Control(Generate(i)).isNop
    ensures var (w, c) := (Generate(i), Control(Generate(j)));
      Conflict(Control(w), SourceA(w), SourceB(w), c.regWrite, Rd(Generate(j))) <==> DependsOn(i, j)
  {
    hide Generate, Control, Rd, SourceA, SourceB, Sources, Conflict, Executed;
    WriterOf(j);
    ConflictIs(i, Control(Generate(j)).regWrite, Rd(Generate(j)));
  }

  /** The load-use test asks for a conflict with a load. */
  lemma LoadUseIs(i: Inst, x: IdEx)
    requires WellFormed(i) && Integer(i) && Executed(i) && !Control(Generate(i)).isNop
    ensures var w := Generate(i);
      LoadUseHazard(Control(w), SourceA(w), SourceB(w), x) ==
        Conflict(Control(w), SourceA(w), SourceB(w), x.control.memRead, x.rd)
  {
    ControlOf(i);
    hide Generate, Control, SourceA, SourceB;
  }

  /** Behind `j` in EX and `k` in MEM, instruction `i` has to wait in ID with forwarding exactly if `j` is a load of a
      register that it reads, and without forwarding exactly if it reads a register that one of the two writes. */
  lemma HazardIsDependence(i: Inst, j: Inst, k: Inst)
    requires WellFormed(i) && Integer(i) && Executed(i) && WellFormed(j) && Integer(j) && Executed(j)
    requires WellFormed(k) && Integer(k) && Executed(k)
    ensures var (w, x, y) := (Generate(i), AheadInEx(Generate(j)), AheadInMem(Generate(k)));
      && (Hazard(w, x, y, true) <==> Loads(j) && DependsOn(i, j))
      && (Hazard(w, x, y, false) <==> DependsOn(i, j) || DependsOn(i, k))
      && (Hazard(w, x, EXMEM_BUBBLE, false) <==> DependsOn(i, j))
  {
    hide Generate, Control, Rd, SourceA, SourceB, DependsOn, Conflict, LoadUseHazard, Executed;
    if Control(Generate(i)).isNop {
      NoOpIsIndependent(i, j);
      NoOpIsIndependent(i, k);
    } else {
      LoadUseIsDependence(i, j);
      ConflictIsDependence(i, j);
      ConflictIsDependence(i, k);
      NoConflict(Generate(i));
    }
  }

  lemma NoConflict(w: U32)
    ensures !Conflict(Control(w), SourceA(w), SourceB(w), false, 0)
  {
    hide Control, SourceA, SourceB;
  }
}
