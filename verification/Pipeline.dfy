/** The five-stage pipeline with branches resolved in EX (src/vm/rv5s/rv5s_ex_vm.cpp, with the hazard unit,
    the forwarding unit and the branch predictors), as functions of its state. */
module Pipeline {
  import opened Words
  import opened Wrappers
  import opened Instructions
  import opened ImmGenerator
  import opened FlatMemory
  import opened Datapath

  // ----- pipeline registers (include/vm/rv5s/pipeline_registers.h) -----

  datatype IfId = IfId(valid: bool, instruction: U32, pc: U64, pcInc: U64)

  datatype IdEx = IdEx(valid: bool, control: Signals, pc: U64, pcInc: U64,
                       rs1Data: U64, rs2Data: U64, immediate: int, rs1: Reg, rs2: Reg, rd: Reg, predicted: bool)

  datatype ExMem = ExMem(valid: bool, control: Signals, pcInc: U64, aluResult: U64, storeData: U64, rd: Reg)

  datatype MemWb = MemWb(valid: bool, control: Signals, pcInc: U64, memoryData: U64, aluResult: U64, rd: Reg)

  const IFID_BUBBLE := IfId(false, 0, 0, 0)
  const IDEX_BUBBLE := IdEx(false, NOP, 0, 0, 0, 0, 0, 0, 0, 0, false)
  const EXMEM_BUBBLE := ExMem(false, NOP, 0, 0, 0, 0)
  const MEMWB_BUBBLE := MemWb(false, NOP, 0, 0, 0, 0)

  /** The registers of the machine at a cycle boundary. */
  datatype Pipe = Pipe(pc: U64, regs: Regs, ifId: IfId, idEx: IdEx, exMem: ExMem, memWb: MemWb)

  // ----- branch predictors (src/vm/rv5s/branch_prediction) -----

  datatype Counter = TwoNotTaken | OneNotTaken | OneTaken | TwoTaken

  datatype Predictor = StaticTaken | StaticNotTaken | OneBit(last: map<U64, bool>) | TwoBit(counters: map<U64, Counter>)

  /** The two static predictors answer the opposite of their names. */
  predicate Predicts(p: Predictor, pc: U64) {
    match p
    case StaticTaken => false
    case StaticNotTaken => true
    case OneBit(last) => pc in last && last[pc]
    case TwoBit(counters) => pc in counters && (counters[pc] == TwoTaken || counters[pc] == OneTaken)
  }

  function Learn(p: Predictor, pc: U64, actual: bool): Predictor {
    match p
    case OneBit(last) => OneBit(last[pc := actual])
    case TwoBit(counters) =>
      var c := if pc in counters then counters[pc] else TwoNotTaken;
      TwoBit(counters[pc := if actual then Up(c) else Down(c)])
    case _ => p
  }

  function Up(c: Counter): Counter {
    match c
    case TwoNotTaken => OneNotTaken
    case OneNotTaken => OneTaken
    case OneTaken => TwoTaken
    case TwoTaken => TwoTaken
  }

  function Down(c: Counter): Counter {
    match c
    case TwoTaken => OneTaken
    case OneTaken => OneNotTaken
    case OneNotTaken => TwoNotTaken
    case TwoNotTaken => TwoNotTaken
  }

  // ----- hazard and forwarding units -----

  predicate NeedsA(c: Signals) { c.aluSrcA == SrcRs1 }

  predicate NeedsB(c: Signals) {
    (!c.aluSrcB && c.regWrite && c.wbSrc == WbAlu) || c.memWrite || (c.branch && !IsJump(c))
  }

  /** Whether an instruction with control `c` reads a register that is about to be written. */
  predicate Conflict(c: Signals, rs1: Reg, rs2: Reg, writes: bool, rd: Reg) {
    writes && rd != 0 && ((NeedsA(c) && rd == rs1) || (NeedsB(c) && rd == rs2))
  }

  predicate DataHazard(c: Signals, rs1: Reg, rs2: Reg, idEx: IdEx, exMem: ExMem) {
    Conflict(c, rs1, rs2, idEx.control.regWrite, idEx.rd) || Conflict(c, rs1, rs2, exMem.control.regWrite, exMem.rd)
  }

  /** The load-use test; its extra case for jalr is covered, since jalr takes its first operand from rs1. */
  predicate LoadUseHazard(c: Signals, rs1: Reg, rs2: Reg, idEx: IdEx) {
    idEx.control.memRead && idEx.rd != 0
    && (((NeedsA(c) || c.branchOp == BJalr) && idEx.rd == rs1) || (NeedsB(c) && idEx.rd == rs2))
  }

  /** `getWriteBackData`. */
  function WriteBackData(r: MemWb): U64 {
    match r.control.wbSrc
    case WbAlu => r.aluResult
    case WbMem => r.memoryData
    case WbPcInc => r.pcInc
    case WbNone => 0
  }

  /** An ALU operand: the value read at decode, or a younger one taken from the EX/MEM or MEM/WB register. */
  function Operand(forwarding: bool, rs: Reg, data: U64, exMem: ExMem, memWb: MemWb): U64 {
    if !forwarding || rs == 0 then data
    else if exMem.control.regWrite && exMem.rd == rs then exMem.aluResult
    else if memWb.control.regWrite && memWb.rd == rs then WriteBackData(memWb)
    else data
  }

  // ----- stages -----

  function WriteBackStage(p: Pipe): Regs {
    if !p.memWb.valid then p.regs
    else WriteBack(p.memWb.control, p.regs, p.memWb.rd, p.memWb.aluResult, p.memWb.memoryData, p.memWb.pcInc)
  }

  predicate MemoryFaults(p: Pipe, memorySize: U64) {
    p.exMem.valid && !p.exMem.control.isNop && Faults(p.exMem.control, memorySize, p.exMem.aluResult)
  }

  /** Fields that the stage does not assign keep the value of the previous cycle. */
  ghost function MemoryStage(p: Pipe, m: Flat): MemWb {
    var r := p.exMem;
    if !r.valid then MEMWB_BUBBLE
    else if r.control.isNop then p.memWb.(valid := true, control := r.control)
    else if r.control.memRead then
      p.memWb.(valid := true, control := r.control, pcInc := r.pcInc, rd := r.rd,
               memoryData := Loaded(r.control, m, r.aluResult))
    else p.memWb.(valid := true, control := r.control, pcInc := r.pcInc, rd := r.rd, aluResult := r.aluResult)
  }

  ghost function MemoryAfter(p: Pipe, m: Flat): Flat {
    if p.exMem.valid && !p.exMem.control.isNop
    then Stored(p.exMem.control, m, p.exMem.aluResult, p.exMem.storeData) else m
  }

  function OperandsA(p: Pipe, forwarding: bool): U64 {
    Operand(forwarding, p.idEx.rs1, p.idEx.rs1Data, p.exMem, p.memWb)
  }

  function OperandsB(p: Pipe, forwarding: bool): U64 {
    Operand(forwarding, p.idEx.rs2, p.idEx.rs2Data, p.exMem, p.memWb)
  }

  function ExResult(p: Pipe, forwarding: bool): U64 {
    AluResult(p.idEx.control, p.idEx.pc, p.idEx.immediate, OperandsA(p, forwarding), OperandsB(p, forwarding))
  }

  function ExecuteStage(p: Pipe, forwarding: bool): ExMem {
    var r := p.idEx;
    if !r.valid then EXMEM_BUBBLE
    else if r.control.isNop then p.exMem.(valid := true, control := r.control)
    else ExMem(true, r.control, r.pcInc, ExResult(p, forwarding), OperandsB(p, forwarding), r.rd)
  }

  /** The address control is redirected to when EX flushes: always for jalr, else on a misprediction. */
  function Redirect(p: Pipe, forwarding: bool): Option<U64> {
    var r := p.idEx;
    if !r.valid || r.control.isNop || !r.control.branch then None else
    var result := ExResult(p, forwarding);
    var actual := Taken(r.control, result);
    if r.control.branchOp == BJalr then Some(Target(r.control, r.pc, r.immediate, result))
    else if r.predicted == actual then None
    else if actual then Some(Target(r.control, r.pc, r.immediate, result))
    else Some(r.pcInc)
  }

  function PredictorAfter(p: Pipe, forwarding: bool, predictor: Predictor): Predictor {
    if !p.idEx.valid || p.idEx.control.isNop || !p.idEx.control.branch then predictor
    else Learn(predictor, p.idEx.pc, Taken(p.idEx.control, ExResult(p, forwarding)))
  }

  /** The instruction in IF/ID decoded, with its operands read from `regs`. */
  function Decoded(p: Pipe, regs: Regs, predicted: bool): IdEx {
    var w := p.ifId.instruction;
    var c := Control(w);
    if c.isNop then p.idEx.(valid := true, control := c, pc := p.ifId.pc, pcInc := p.ifId.pcInc)
    else IdEx(true, c, p.ifId.pc, p.ifId.pcInc, ReadGpr(regs, SourceA(w)), ReadGpr(regs, SourceB(w)),
              Immediate(w), SourceA(w), SourceB(w), Rd(w),
              if c.branch then predicted else p.idEx.predicted)
  }

  predicate Stalls(p: Pipe, forwarding: bool) {
    var w := p.ifId.instruction;
    var c := Control(w);
    p.ifId.valid && !c.isNop &&
    if forwarding then LoadUseHazard(c, SourceA(w), SourceB(w), p.idEx)
    else DataHazard(c, SourceA(w), SourceB(w), p.idEx, p.exMem)
  }

  /** Jumps are predicted taken, branches as the predictor says. */
  predicate Prediction(p: Pipe, predictor: Predictor) {
    var c := Control(p.ifId.instruction);
    IsJump(c) || (c.branch && Predicts(predictor, p.ifId.pc))
  }

  /** Whether decoding squashes the instruction fetched behind it. */
  predicate DecodeFlushes(p: Pipe, predictor: Predictor) {
    p.ifId.valid && !Control(p.ifId.instruction).isNop && Prediction(p, predictor)
  }

  /** What ID decides: the next ID/EX register, the stall and flush requests, and the program counter. */
  datatype Issue = Issue(idEx: IdEx, stall: bool, flush: bool, pc: U64)

  function DecodeStage(p: Pipe, regs: Regs, predictor: Predictor, pc: U64, flushed: bool, forwarding: bool): Issue {
    if flushed || !p.ifId.valid then Issue(IDEX_BUBBLE, false, flushed, pc)
    else if Stalls(p, forwarding) then Issue(IDEX_BUBBLE, true, false, pc)
    else
      var flush := DecodeFlushes(p, predictor);
      Issue(Decoded(p, regs, Prediction(p, predictor)), false, flush,
            if flush && Control(p.ifId.instruction).branchOp != BJalr
            then Wrap64(p.ifId.pc + Immediate(p.ifId.instruction)) else pc)
  }

  ghost function Fetched(m: Flat, pc: U64): IfId { IfId(true, LoadLE(m, pc, 4), pc, Wrap64(pc + 4)) }

  /** The program and the memory it runs in; `size` is the end of the text. */
  datatype Machine = Machine(forwarding: bool, size: nat, memorySize: U64)

  /** A fetch from the text that throws. */
  predicate Lost(pc: U64, v: Machine) { pc < v.size && pc + 4 > v.memorySize }

  /** IF and the new program counter, when the cycle is not stalled. A fetch that throws is caught, and the
      program counter moves on over a bubble. */
  ghost function FetchStage(m: Flat, pc: U64, flush: bool, v: Machine): (IfId, U64) {
    if flush || pc >= v.size then (IFID_BUBBLE, pc)
    else if pc + 4 <= v.memorySize then (Fetched(m, pc), Wrap64(pc + 4))
    else (IfId(false, 0, pc, Wrap64(pc + 4)), Wrap64(pc + 4))
  }

  // ----- one clock cycle -----

  /** WB, MEM, EX, ID and IF in this order; the last two see the flush and stall requests of those before. */
  ghost function Cycle(p: Pipe, m: Flat, predictor: Predictor, v: Machine): Pipe {
    var regs, redirect := WriteBackStage(p), Redirect(p, v.forwarding);
    var issue := DecodeStage(p, regs, PredictorAfter(p, v.forwarding, predictor),
                             if redirect.Some? then redirect.value else p.pc, redirect.Some?, v.forwarding);
    var (ifId, pc) :=
      if issue.stall then (p.ifId, issue.pc) else FetchStage(MemoryAfter(p, m), issue.pc, issue.flush, v);
    Pipe(pc, regs, ifId, issue.idEx, ExecuteStage(p, v.forwarding), MemoryStage(p, m))
  }
}
