/** A program on which early fetches show: a store reaches memory two cycles after the next instruction was fetched. */
module SelfModifying {
  import opened Words
  import opened ImmGenerator
  import opened FlatMemory
  import opened Datapath
  import opened Pipeline
  import opened Sequential
  import opened CurrentWords
  import opened PipelineRuns
  import Alu

  const SW: U32 := 0x0010_2223    // sw x1, 4(x0)
  const ADDI1: U32 := 0x0010_0113 // addi x2, x0, 1
  const ADDI2: U32 := 0x0020_0113 // addi x2, x0, 2

  const V := Machine(true, 8, 64)

  lemma DecodeSw()
    ensures Control(SW)
      == NOP.(isNop := false, aluSrcB := true, memWrite := true, aluOp := Alu.KAdd, writeOp := Write(4))
    ensures SourceA(SW) == 0 && SourceB(SW) == 1 && Immediate(SW) == 4 && Rd(SW) == 4
  {}

  lemma DecodeAddi(w: U32, n: nat)
    requires (w == ADDI1 && n == 1) || (w == ADDI2 && n == 2)
    ensures Control(w) == NOP.(isNop := false, aluSrcB := true, regWrite := true, wbSrc := WbAlu, aluOp := Alu.KAdd)
    ensures SourceA(w) == 0 && SourceB(w) == 0 && Immediate(w) == n && Rd(w) == 2
  {}

  const STORE := NOP.(isNop := false, aluSrcB := true, memWrite := true, aluOp := Alu.KAdd, writeOp := Write(4))
  const ADD := NOP.(isNop := false, aluSrcB := true, regWrite := true, wbSrc := WbAlu, aluOp := Alu.KAdd)

  /** The store at 0, and after it the instruction that it overwrites. */
  ghost predicate Program(m: Flat) { LoadLE(m, 0, 4) == SW && LoadLE(m, 4, 4) == ADDI1 }

  const STORE_IN_EX := IdEx(true, STORE, 0, 4, 0, ADDI2, 4, 0, 1, 4, false)
  const ADD_IN_EX := IdEx(true, ADD, 4, 8, 0, 0, 1, 0, 0, 2, false)
  const STORE_IN_MEM := ExMem(true, STORE, 4, 4, ADDI2, 4)
  const ADD_IN_MEM := ExMem(true, ADD, 8, 1, 0, 2)
  const STORE_IN_WB := MemWb(true, STORE, 4, 0, 4, 4)
  const ADD_IN_WB := MemWb(true, ADD, 8, 0, 1, 2)

  /** The pipeline after `n` cycles. */
  function At(n: nat, regs: Regs): Pipe
    requires n <= 6
  {
    match n
    case 0 => Pipe(0, regs, IFID_BUBBLE, IDEX_BUBBLE, EXMEM_BUBBLE, MEMWB_BUBBLE)
    case 1 => Pipe(4, regs, IfId(true, SW, 0, 4), IDEX_BUBBLE, EXMEM_BUBBLE, MEMWB_BUBBLE)
    case 2 => Pipe(8, regs, IfId(true, ADDI1, 4, 8), STORE_IN_EX, EXMEM_BUBBLE, MEMWB_BUBBLE)
    case 3 => Pipe(8, regs, IFID_BUBBLE, ADD_IN_EX, STORE_IN_MEM, MEMWB_BUBBLE)
    case 4 => Pipe(8, regs, IFID_BUBBLE, IDEX_BUBBLE, ADD_IN_MEM, STORE_IN_WB)
    case 5 => Pipe(8, regs, IFID_BUBBLE, IDEX_BUBBLE, EXMEM_BUBBLE, ADD_IN_WB)
    case _ => Pipe(8, regs[2 := 1], IFID_BUBBLE, IDEX_BUBBLE, EXMEM_BUBBLE, MEMWB_BUBBLE)
  }

  lemma NextCycle(n: nat, regs: Regs, m: Flat, predictor: Predictor)
    requires n < 6 && regs[1] == ADDI2 && (n < 3 ==> Program(m))
    ensures Cycle(At(n, regs), m, predictor, V) == At(n + 1, regs) && !MemoryFaults(At(n, regs), V.memorySize)
    ensures MemoryAfter(At(n, regs), m) == if n == 3 then StoreLE(m, 4, 4, ADDI2) else m
    ensures PredictorAfter(At(n, regs), true, predictor) == predictor
  {
    hide Control, Immediate, SourceA, SourceB, Rd, LoadLE, StoreLE;
    DecodeSw();
    DecodeAddi(ADDI1, 1);
  }

  ghost function MemoryAt(n: nat, m: Flat): Flat { if n <= 3 then m else StoreLE(m, 4, 4, ADDI2) }

  lemma {:induction false} Cycles(n: nat, regs: Regs, m: Flat, predictor: Predictor)
    requires n <= 6 && regs[1] == ADDI2 && Program(m)
    ensures var s := Ticks(Start(regs, m, predictor), V, n);
      s == PipelineRuns.Vm(At(n, regs), MemoryAt(n, m), predictor, if n < 5 then 0 else n - 4, false)
  {
    hide Cycle, MemoryFaults, MemoryAfter, PredictorAfter, StoreLE, Program;
    if n > 0 {
      Cycles(n - 1, regs, m, predictor);
      if n <= 3 { assert MemoryAt(n - 1, m) == m; }
      NextCycle(n - 1, regs, MemoryAt(n - 1, m), predictor);
    }
  }

  lemma StorePerformed(regs: Regs, m: Flat)
    requires regs[1] == ADDI2
    ensures Perform(Arch(0, regs, m, false), SW, V) == Arch(4, regs, StoreLE(m, 4, 4, ADDI2), false)
  {
    DecodeSw();
    hide Control, Immediate, SourceA, SourceB, Rd, LoadLE, StoreLE;
  }

  lemma AddPerformed(regs: Regs, m: Flat)
    ensures Perform(Arch(4, regs, m, false), ADDI2, V) == Arch(8, regs[2 := 2], m, false)
  {
    DecodeAddi(ADDI2, 2);
    hide Control, Immediate, SourceA, SourceB, Rd, LoadLE, StoreLE;
  }

  /** One instruction at a time, the second is the one that was stored. */
  lemma InOrderResult(regs: Regs, m: Flat)
    requires regs[1] == ADDI2 && Program(m)
    ensures Run(Arch(0, regs, m, false), V, 1) == Arch(4, regs, StoreLE(m, 4, 4, ADDI2), false)
    ensures Run(Arch(0, regs, m, false), V, 2) == Arch(8, regs[2 := 2], StoreLE(m, 4, 4, ADDI2), false)
  {
    hide Perform, LoadLE, StoreLE;
    StorePerformed(regs, m);
    WordsDiffer(m);
    AddPerformed(regs, StoreLE(m, 4, 4, ADDI2));
    var a := Arch(0, regs, m, false);
    assert Run(a, V, 1) == Step(Run(a, V, 0), V);
    assert Run(a, V, 2) == Step(Run(a, V, 1), V);
  }

  /** A program that overwrites its next instruction ends in the pipeline with another result than in order: the
      instruction had been fetched before the store reached memory. */
  lemma SelfModifyingDiffers(regs: Regs, m: Flat, predictor: Predictor)
    requires regs[1] == ADDI2 && Program(m)
    ensures var (a, s) := (Arch(0, regs, m, false), Ticks(Start(regs, m, predictor), V, 6));
      && AtRest(s, V) && !s.fault && Stopped(Run(a, V, 2), V)
      && s.p.regs[2] == 1 && Run(a, V, 2).regs[2] == 2 && !ReadsCurrent(a, predictor, V)
  {
    hide LoadLE, StoreLE, Ticks, Run, Fits, ReadsCurrent;
    Cycles(6, regs, m, predictor);
    InOrderResult(regs, m);
    var a, s0 := Arch(0, regs, m, false), Start(regs, m, predictor);
    if ReadsCurrent(a, predictor, V) {
      assert Fits(a, V) by { AllFits(a); }
      PipelineComputesProgram(regs, m, predictor, V, 2);
      RestStays(Ticks(s0, V, 6), V, 5);
      TicksAdd(s0, V, 6, 5);
    }
  }

  lemma AllFits(a: Arch)
    ensures Fits(a, V)
  {
    forall k: nat ensures !Lost(Run(a, V, k).pc, V) { RoomSuffices(Run(a, V, k).pc, V); }
  }

  lemma WordsDiffer(m: Flat)
    ensures LoadLE(StoreLE(m, 4, 4, ADDI2), 4, 4) == ADDI2 != ADDI1
  {
    StoreThenLoad(m, 4, 4, ADDI2);
    Pow2Values();
  }

  /** There is such a program. */
  lemma SelfModifyingExists()
    ensures Program(StoreLE(StoreLE(ZEROS, 0, 4, SW), 4, 4, ADDI1))
  {
    hide LoadLE, StoreLE;
    StoreThenLoad(ZEROS, 0, 4, SW);
    Disjoint(StoreLE(ZEROS, 0, 4, SW), 4, 4, ADDI1, 0, 4);
    StoreThenLoad(StoreLE(ZEROS, 0, 4, SW), 4, 4, ADDI1);
    Pow2Values();
  }
}
