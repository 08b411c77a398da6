/** The pipeline refines one-at-a-time execution with early fetches, whatever it predicts and whether it forwards or
    stalls. */
module PipelineProof {
  import opened Words
  import opened Instructions
  import opened ImmGenerator
  import opened FlatMemory
  import opened Datapath
  import opened Pipeline
  import opened Sequential
  import opened EarlyFetch

  // ----- the state a pipeline stands for -----

  /** The address of the next instruction to enter ID. */
  function Front(p: Pipe): U64 { if p.ifId.valid then p.ifId.pc else p.pc }

  ghost function DrainedRegs(p: Pipe, m: Flat, v: Machine): Regs {
    var e, r := p.exMem, WriteBackStage(p);
    if !e.valid || e.control.isNop || MemoryFaults(p, v.memorySize) then r
    else WriteBack(e.control, r, e.rd, e.aluResult, Loaded(e.control, m, e.aluResult), e.pcInc)
  }

  /** The architectural state once the instructions in MEM and WB are complete; its program counter is that of
      the instruction in EX, or else of the next one to be decoded. */
  ghost function Abs(p: Pipe, m: Flat, v: Machine): Arch {
    var fault := MemoryFaults(p, v.memorySize);
    Arch(if fault then Wrap64(p.exMem.pcInc - 4) else if p.idEx.valid then p.idEx.pc else Front(p),
         DrainedRegs(p, m, v),
         if fault then m else MemoryAfter(p, m),
         fault)
  }

  // ----- the invariant -----

  /** Facts about every decoded control word. */
  predicate Sane(c: Signals) {
    && (c.memRead ==> c.regWrite && c.wbSrc == WbMem)
    && (c.regWrite ==> c.wbSrc != WbNone && !c.memWrite)
    && (c.wbSrc == WbMem ==> c.memRead)
    && (c.wbSrc == WbPcInc ==> IsJump(c))
    && (c.isNop ==> !c.regWrite && !c.memRead && !c.memWrite && !c.branch && !IsJump(c))
    && (IsJump(c) ==> c.branch)
    && (c.aluSrcA == SrcRs1 && !c.aluSrcB && !c.isNop ==> NeedsB(c))
    && (c.branchOp == BJal ==> c.aluSrcA == SrcPc && c.aluOp == Alu.KAdd)
    && (c.branch ==> !c.memRead && !c.memWrite)
  }

  lemma ControlIsSane(w: U32)
    ensures Sane(Control(w))
  {
    hide AluR, AluI, Opcode, Funct3, Funct7;
  }

  lemma NopIsSane()
    ensures Sane(NOP)
  {}

  predicate Bubbles(p: Pipe) {
    && (!p.idEx.valid ==> p.idEx.control == NOP)
    && (!p.exMem.valid ==> p.exMem.control == NOP)
    && (!p.memWb.valid ==> p.memWb.control == NOP)
    && Sane(p.idEx.control) && Sane(p.exMem.control) && Sane(p.memWb.control)
  }

  /** ID/EX holds the word `w` decoded, with operands as the register file has them. */
  predicate DecodedAs(d: IdEx, regs: Regs, w: U32, v: Machine) {
    && d.pc < v.size && d.pcInc == Wrap64(d.pc + 4) && d.control == Control(w)
    && (!d.control.isNop ==>
        && d.immediate == Immediate(w) && d.rs1 == SourceA(w) && d.rs2 == SourceB(w) && d.rd == Rd(w)
        && d.rs1Data == ReadGpr(regs, d.rs1) && d.rs2Data == ReadGpr(regs, d.rs2)
        && (IsJump(d.control) ==> d.predicted))
  }

  /** The instruction in EX can have its operands: no load just ahead of it writes them, and without
      forwarding nothing in flight does. */
  predicate OperandsReady(p: Pipe, forwarding: bool) {
    var d := p.idEx;
    d.valid && !d.control.isNop ==>
      && (forwarding ==> !Conflict(d.control, d.rs1, d.rs2, p.exMem.control.memRead, p.exMem.rd))
      && (!forwarding ==> !Conflict(d.control, d.rs1, d.rs2, p.exMem.control.regWrite, p.exMem.rd))
      && (!forwarding ==> !Conflict(d.control, d.rs1, d.rs2, p.memWb.control.regWrite, p.memWb.rd))
  }

  /** Nothing is kept that was fetched behind a jump or a branch predicted taken, and no instruction follows a jump more
      closely than its link register can be forwarded. */
  predicate JumpsSpaced(p: Pipe) {
    && (p.idEx.valid && p.idEx.control.branch && p.idEx.predicted ==> !p.ifId.valid)
    && (p.exMem.valid && IsJump(p.exMem.control) ==> !p.idEx.valid)
  }

  /** Where fetching goes on behind a decoded instruction. */
  function Expected(d: IdEx): U64 { if d.control.branch && d.predicted then Wrap64(d.pc + d.immediate) else d.pcInc }

  /** What was fetched behind the instruction in EX is what the prediction asked for, unless that fetch throws. */
  predicate FollowsPrediction(p: Pipe, v: Machine) {
    var d := p.idEx;
    && (p.ifId.valid ==> p.pc == p.ifId.pcInc)
    && (d.valid && d.control.branchOp != BJalr ==> Front(p) == Expected(d) || Lost(Expected(d), v))
  }

  /** Memory as the instructions ahead of EX leave it. */
  ghost function Now(p: Pipe, m: Flat): Flat { MemoryAfter(p, m) }

  /** The instruction in EX is the one that the front end reads, predicted as its predictor says, and right behind the
      one in MEM if it is close. */
  ghost predicate ExReads(p: Pipe, f: FrontEnd, v: Machine) {
    var d := p.idEx;
    d.valid ==>
      && DecodedAs(d, p.regs, Word(f, d.pc), v)
      && (d.control.branch ==> (d.predicted <==> IsJump(d.control) || Predicts(f.predictor, d.pc)))
      && (p.exMem.valid <==> IsClose(Word(f, d.pc), f, v.forwarding))
  }

  /** The instruction in MEM is the last one. */
  predicate MemIsLast(p: Pipe, f: FrontEnd) {
    p.exMem.valid ==>
      p.exMem.control == Control(f.last) && (!p.exMem.control.isNop ==> p.exMem.rd == Rd(f.last))
  }

  /** The instruction in ID: behind one in EX it was read when that was in ID; with none in EX it is the next one, and
      a transfer or a hazard keeps it apart from the last. */
  ghost predicate IdReads(p: Pipe, m: Flat, f: FrontEnd, v: Machine) {
    var d := p.ifId;
    d.valid ==>
      && d.pcInc == Wrap64(d.pc + 4) && d.pc < v.size
      && (p.idEx.valid ==> d.instruction == LoadLE(if p.exMem.valid then f.before else Now(p, m), d.pc, 4))
      && (!p.idEx.valid && !MemoryFaults(p, v.memorySize) ==>
          d.instruction == Word(f, d.pc) && !IsClose(d.instruction, f, v.forwarding))
  }

  /** With neither, the next instruction is still to be read, behind a transfer. */
  ghost predicate NoneReads(p: Pipe, m: Flat, f: FrontEnd, v: Machine) {
    !p.idEx.valid && !p.ifId.valid && p.pc < v.size && !MemoryFaults(p, v.memorySize) ==>
      !f.near && f.source == Now(p, m)
  }

  /** Behind an instruction in EX one is in ID, except at the end of the text. */
  predicate Filled(p: Pipe, v: Machine) {
    p.idEx.valid && !p.ifId.valid && !(p.idEx.control.branch && p.idEx.predicted) ==>
      p.pc >= v.size || Lost(Expected(p.idEx), v)
  }

  ghost predicate Reads(p: Pipe, m: Flat, f: FrontEnd, v: Machine) {
    ExReads(p, f, v) && MemIsLast(p, f) && IdReads(p, m, f, v) && NoneReads(p, m, f, v) && Filled(p, v)
  }

  ghost predicate Inv(p: Pipe, m: Flat, f: FrontEnd, v: Machine) {
    Bubbles(p) && OperandsReady(p, v.forwarding) && JumpsSpaced(p) && FollowsPrediction(p, v) && Reads(p, m, f, v)
  }

  /** The instruction in EX is the word `w`. */
  predicate Issuing(p: Pipe, w: U32, v: Machine) {
    && p.idEx.valid && Bubbles(p) && DecodedAs(p.idEx, p.regs, w, v)
    && OperandsReady(p, v.forwarding) && JumpsSpaced(p) && FollowsPrediction(p, v)
  }

  // ----- one cycle, piece by piece -----

  /** What MEM hands to WB completes the instruction as the drained registers have it. */
  lemma MemoryHandsOver(p: Pipe, m: Flat, v: Machine, p': Pipe)
    requires Bubbles(p) && !MemoryFaults(p, v.memorySize)
    requires p'.regs == WriteBackStage(p) && p'.memWb == MemoryStage(p, m)
    ensures WriteBackStage(p') == DrainedRegs(p, m, v)
  {
    hide Faults, Loaded, WriteGpr;
  }

  /** An operand that is ready is the one sequential execution would read. */
  lemma OperandIsCurrent(p: Pipe, m: Flat, v: Machine, rs: Reg, data: U64)
    requires Bubbles(p) && !MemoryFaults(p, v.memorySize)
    requires data == ReadGpr(p.regs, rs)
    requires !(p.exMem.valid && IsJump(p.exMem.control))
    requires v.forwarding ==> !(p.exMem.control.memRead && p.exMem.rd != 0 && p.exMem.rd == rs)
    requires !v.forwarding ==> !(p.exMem.control.regWrite && p.exMem.rd != 0 && p.exMem.rd == rs)
    requires !v.forwarding ==> !(p.memWb.control.regWrite && p.memWb.rd != 0 && p.memWb.rd == rs)
    ensures Operand(v.forwarding, rs, data, p.exMem, p.memWb) == ReadGpr(DrainedRegs(p, m, v), rs)
  {
    hide Faults, Loaded, MemoryFaults;
  }

  lemma OperandsAreCurrent(p: Pipe, m: Flat, w: U32, v: Machine)
    requires Issuing(p, w, v) && !MemoryFaults(p, v.memorySize) && !p.idEx.control.isNop
    ensures NeedsA(p.idEx.control) ==> OperandsA(p, v.forwarding) == ReadGpr(DrainedRegs(p, m, v), p.idEx.rs1)
    ensures NeedsB(p.idEx.control) ==> OperandsB(p, v.forwarding) == ReadGpr(DrainedRegs(p, m, v), p.idEx.rs2)
  {
    hide DrainedRegs, Operand, MemoryFaults, NeedsA, NeedsB, ReadGpr, Control, SourceA, SourceB, Immediate, Rd, Sane,
      FollowsPrediction;
    if NeedsA(p.idEx.control) { OperandIsCurrent(p, m, v, p.idEx.rs1, p.idEx.rs1Data); }
    if NeedsB(p.idEx.control) { OperandIsCurrent(p, m, v, p.idEx.rs2, p.idEx.rs2Data); }
  }

  /** The ALU result depends only on the operands that the control word asks for. */
  lemma ResultNeeds(c: Signals, pc: U64, imm: int, a: U64, b: U64, a': U64, b': U64)
    requires Sane(c) && !c.isNop
    requires NeedsA(c) ==> a == a'
    requires NeedsB(c) ==> b == b'
    ensures AluResult(c, pc, imm, a, b) == AluResult(c, pc, imm, a', b')
  {
    hide Alu.Execute, UpperOperand;
  }

  /** EX computes what sequential execution computes. */
  lemma ExecutesCurrent(p: Pipe, m: Flat, w: U32, v: Machine)
    requires Issuing(p, w, v) && !MemoryFaults(p, v.memorySize) && !p.idEx.control.isNop
    ensures var (d, regs) := (p.idEx, DrainedRegs(p, m, v));
      && ExResult(p, v.forwarding)
        == AluResult(d.control, d.pc, d.immediate, ReadGpr(regs, d.rs1), ReadGpr(regs, d.rs2))
      && (d.control.memWrite ==> OperandsB(p, v.forwarding) == ReadGpr(regs, d.rs2))
  {
    hide DrainedRegs, Operand, MemoryFaults, ReadGpr, Control, SourceA, SourceB, Immediate, Rd, Sane, FollowsPrediction,
      OperandsA, OperandsB, AluResult, OperandsReady, JumpsSpaced, DecodedAs, NeedsA;
    OperandsAreCurrent(p, m, w, v);
    var d, regs := p.idEx, DrainedRegs(p, m, v);
    ResultNeeds(d.control, d.pc, d.immediate, OperandsA(p, v.forwarding), OperandsB(p, v.forwarding),
                ReadGpr(regs, d.rs1), ReadGpr(regs, d.rs2));
  }

  /** The parts of a cycle's result that do not depend on prediction or stalling. */
  ghost predicate Advances(p: Pipe, m: Flat, v: Machine, p': Pipe) {
    && p'.regs == WriteBackStage(p) && p'.memWb == MemoryStage(p, m) && p'.exMem == ExecuteStage(p, v.forwarding)
  }

  lemma CycleAdvances(p: Pipe, m: Flat, predictor: Predictor, v: Machine)
    ensures Advances(p, m, v, Cycle(p, m, predictor, v))
  {
    hide WriteBackStage, MemoryStage, ExecuteStage, Redirect, PredictorAfter, DecodeStage, FetchStage;
  }

  /** A bubble in EX leaves the architectural registers, memory and fault flag as they are. */
  lemma BubbleCompletes(p: Pipe, m: Flat, v: Machine, p': Pipe)
    requires Bubbles(p) && !MemoryFaults(p, v.memorySize) && Advances(p, m, v, p') && !p.idEx.valid
    ensures var s := Abs(p', MemoryAfter(p, m), v);
      s.regs == DrainedRegs(p, m, v) && s.mem == MemoryAfter(p, m) && !s.fault
  {
    hide Faults, Loaded, Stored, MemoryStage, DrainedRegs, Front;
    MemoryHandsOver(p, m, v, p');
    var m' := MemoryAfter(p, m);
    assert DrainedRegs(p', m', v) == WriteBackStage(p') by { NothingInMem(p', m', v); }
  }

  lemma NothingInMem(p: Pipe, m: Flat, v: Machine)
    requires !p.exMem.valid || p.exMem.control.isNop
    ensures !MemoryFaults(p, v.memorySize) && DrainedRegs(p, m, v) == WriteBackStage(p) && MemoryAfter(p, m) == m
  {}

  /** The instruction in EX, once moved to MEM, stands for its sequential execution. */
  lemma InstructionCompletes(p: Pipe, m: Flat, w: U32, v: Machine, p': Pipe)
    requires Issuing(p, w, v) && !MemoryFaults(p, v.memorySize) && Advances(p, m, v, p')
    ensures var s, t := Abs(p', MemoryAfter(p, m), v), Perform(Abs(p, m, v), w, v);
      && s.regs == t.regs && s.mem == t.mem && s.fault == t.fault
      && (s.fault ==> s.pc == t.pc)
  {
    hide Faults, Loaded, Stored, MemoryStage, Control, SourceA, SourceB, Immediate, Rd, Taken, Target, AluResult,
      ReadGpr, Front, FollowsPrediction, JumpsSpaced, OperandsReady, Sane, WriteBack, ExResult, OperandsA, OperandsB,
      MemoryAfter, DrainedRegs, WriteBackStage;
    MemoryHandsOver(p, m, v, p');
    var m' := MemoryAfter(p, m);
    if p.idEx.control.isNop {
      NothingInMem(p', m', v);
    } else {
      ExecutesCurrent(p, m, w, v);
      SomethingInMem(p', m', v);
      StoredNeeds(p.idEx.control, m', p'.exMem.aluResult, p'.exMem.storeData,
        ReadGpr(DrainedRegs(p, m, v), p.idEx.rs2));
    }
  }

  lemma SomethingInMem(p: Pipe, m: Flat, v: Machine)
    requires p.exMem.valid && !p.exMem.control.isNop
    ensures var e := p.exMem;
      && MemoryFaults(p, v.memorySize) == Faults(e.control, v.memorySize, e.aluResult)
      && DrainedRegs(p, m, v) == (if MemoryFaults(p, v.memorySize) then WriteBackStage(p)
           else WriteBack(e.control, WriteBackStage(p), e.rd, e.aluResult, Loaded(e.control, m, e.aluResult), e.pcInc))
      && MemoryAfter(p, m) == Stored(e.control, m, e.aluResult, e.storeData)
  {}

  lemma StoredNeeds(c: Signals, m: Flat, address: U64, data: U64, data': U64)
    requires c.memWrite ==> data == data'
    ensures Stored(c, m, address, data) == Stored(c, m, address, data')
  {}

  // ----- control flow -----

  /** Without a redirection the next instruction to decode stays where it was, unless fetching it throws. */
  lemma FrontStays(p: Pipe, m: Flat, predictor: Predictor, v: Machine)
    requires Redirect(p, v.forwarding).None? && !Lost(Front(p), v)
    ensures var p' := Cycle(p, m, predictor, v); (if p'.idEx.valid then p'.idEx.pc else Front(p')) == Front(p)
  {
    hide WriteBackStage, MemoryStage, ExecuteStage, Redirect, PredictorAfter, Stalls, Control, DecodeFlushes,
      Prediction, Immediate, MemoryAfter, LoadLE;
  }

  lemma JalTarget(c: Signals, pc: U64, imm: int, a: U64, b: U64)
    requires c.branchOp == BJal && c.aluSrcA == SrcPc && c.aluOp == Alu.KAdd
    ensures AluResult(c, pc, imm, a, b) == Wrap64(pc + imm)
  {
    hide UpperOperand, Alu.Shift, Alu.Divide, Alu.High, Alu.Bitwise;
    SignedSumWraps(pc, Wrap64(imm));
    WrapSum(pc, imm);
  }

  lemma SignedSumWraps(a: U64, b: U64)
    ensures Wrap64(Signed64(a) + Signed64(b)) == Wrap64(a + b)
  {}

  lemma WrapSum(a: int, b: int)
    ensures Wrap64(a + Wrap64(b)) == Wrap64(a + b)
  {
    DivUnique(a + Wrap64(b), (a + b) / B64 - b / B64, Wrap64(a + b), B64);
  }

  /** Sequential execution of the instruction in EX goes on where EX redirects to, or else as was predicted. */
  lemma GoesOn(p: Pipe, m: Flat, w: U32, v: Machine)
    requires Issuing(p, w, v) && !MemoryFaults(p, v.memorySize)
    ensures var (t, r) := (Perform(Abs(p, m, v), w, v), Redirect(p, v.forwarding));
      !t.fault ==> t.pc == if r.Some? then r.value else Expected(p.idEx)
  {
    hide Faults, Loaded, Stored, MemoryStage, Control, SourceA, SourceB, Immediate, Rd, AluResult, ReadGpr, Front,
      JumpsSpaced, OperandsReady, WriteBack, ExResult, OperandsA, OperandsB, MemoryAfter, DrainedRegs, WriteBackStage,
      MemoryFaults, FollowsPrediction;
    if !p.idEx.control.isNop {
      ExecutesCurrent(p, m, w, v);
      var d, regs := p.idEx, DrainedRegs(p, m, v);
      if d.control.branchOp == BJal {
        JalTarget(d.control, d.pc, d.immediate, ReadGpr(regs, d.rs1), ReadGpr(regs, d.rs2));
      }
    }
  }

  /** That is the front of the pipeline, unless fetching it throws. */
  lemma NextPc(p: Pipe, m: Flat, w: U32, v: Machine)
    requires Issuing(p, w, v) && !MemoryFaults(p, v.memorySize)
    ensures var (t, r) := (Perform(Abs(p, m, v), w, v), Redirect(p, v.forwarding));
      !t.fault ==> (t.pc == if r.Some? then r.value else Front(p)) || Lost(t.pc, v)
  {
    GoesOn(p, m, w, v);
    if p.idEx.control.branchOp == BJalr { JalrRedirects(p, v); }
    hide Perform, Abs, MemoryFaults, Redirect, Control, DecodedAs, OperandsReady, JumpsSpaced, Bubbles, Lost, Expected,
      Front;
  }

  lemma JalrRedirects(p: Pipe, v: Machine)
    requires p.idEx.valid && Sane(p.idEx.control) && p.idEx.control.branchOp == BJalr
    ensures Redirect(p, v.forwarding).Some?
  {
    hide ExResult, Target, Taken;
  }

  // ----- the invariant is kept -----

  lemma KeepsBubbles(p: Pipe, m: Flat, predictor: Predictor, v: Machine)
    requires Bubbles(p)
    ensures Bubbles(Cycle(p, m, predictor, v))
  {
    hide Sane, WriteBackStage, Redirect, PredictorAfter, Stalls, Control, DecodeFlushes, FetchStage, Prediction,
      Immediate, SourceA, SourceB, Rd, ReadGpr, ExResult, OperandsB, Loaded;
    NopIsSane();
    ControlIsSane(p.ifId.instruction);
  }

  /** The front end after a cycle: one instruction further if there was one in EX. */
  ghost function FrontAfter(p: Pipe, m: Flat, f: FrontEnd, v: Machine): FrontEnd {
    if p.idEx.valid then Advance(f, Abs(p, m, v), v) else f
  }

  lemma JumpsBranch(w: U32)
    ensures IsJump(Control(w)) ==> Control(w).branch
  {
    hide Control;
    ControlIsSane(w);
  }

  lemma KeepsReady(p: Pipe, m: Flat, predictor: Predictor, v: Machine)
    requires Bubbles(p)
    ensures OperandsReady(Cycle(p, m, predictor, v), v.forwarding)
  {
    hide WriteBackStage, Redirect, PredictorAfter, Control, DecodeFlushes, FetchStage, Prediction, Immediate,
      MemoryAfter, SourceA, SourceB, Rd, ReadGpr, NeedsA, NeedsB, ExResult, OperandsB, Loaded;
  }

  // ----- the shape of a cycle -----

  /** A redirection empties the front. */
  lemma Redirected(p: Pipe, m: Flat, predictor: Predictor, v: Machine)
    requires Redirect(p, v.forwarding).Some?
    ensures var p' := Cycle(p, m, predictor, v);
      p'.idEx == IDEX_BUBBLE && p'.ifId == IFID_BUBBLE && p'.pc == Redirect(p, v.forwarding).value
  {
    hide WriteBackStage, MemoryStage, ExecuteStage, Redirect, PredictorAfter, Stalls, Decoded, MemoryAfter;
  }

  lemma Stalled(p: Pipe, m: Flat, predictor: Predictor, v: Machine)
    requires Redirect(p, v.forwarding).None? && p.ifId.valid && Stalls(p, v.forwarding)
    ensures var p' := Cycle(p, m, predictor, v); p'.idEx == IDEX_BUBBLE && p'.ifId == p.ifId && p'.pc == p.pc
  {
    hide WriteBackStage, MemoryStage, ExecuteStage, Redirect, PredictorAfter, Stalls, Decoded, MemoryAfter;
  }

  /** An instruction leaves ID for EX, and unless it flushes, the next one is fetched. */
  lemma Decodes(p: Pipe, m: Flat, predictor: Predictor, v: Machine)
    requires Redirect(p, v.forwarding).None? && p.ifId.valid && !Stalls(p, v.forwarding)
    ensures var p', q := Cycle(p, m, predictor, v), PredictorAfter(p, v.forwarding, predictor);
      && p'.idEx == Decoded(p, WriteBackStage(p), Prediction(p, q)) && p'.regs == WriteBackStage(p)
      && (if DecodeFlushes(p, q) then
            && p'.ifId == IFID_BUBBLE
            && p'.pc == if Control(p.ifId.instruction).branchOp != BJalr
                        then Wrap64(p.ifId.pc + Immediate(p.ifId.instruction)) else p.pc
          else (p'.ifId, p'.pc) == FetchStage(Now(p, m), p.pc, false, v))
  {
    hide WriteBackStage, MemoryStage, ExecuteStage, Redirect, PredictorAfter, Stalls, Decoded, MemoryAfter, Prediction,
      Control, Immediate, DecodeFlushes, LoadLE;
  }

  lemma Fetches(p: Pipe, m: Flat, predictor: Predictor, v: Machine)
    requires Redirect(p, v.forwarding).None? && !p.ifId.valid
    ensures var p' := Cycle(p, m, predictor, v);
      p'.idEx == IDEX_BUBBLE && (p'.ifId, p'.pc) == FetchStage(Now(p, m), p.pc, false, v)
  {
    hide WriteBackStage, MemoryStage, ExecuteStage, Redirect, PredictorAfter, Stalls, Decoded, MemoryAfter, LoadLE;
  }

  /** What ID hands to EX. */
  lemma DecodedWord(p: Pipe, regs: Regs, predictor: Predictor, v: Machine)
    requires p.ifId.pcInc == Wrap64(p.ifId.pc + 4) && p.ifId.pc < v.size
    ensures var d := Decoded(p, regs, Prediction(p, predictor));
      && d.valid && d.pc == p.ifId.pc && d.pcInc == p.ifId.pcInc && DecodedAs(d, regs, p.ifId.instruction, v)
      && (d.control.branch ==> (d.predicted <==> IsJump(d.control) || Predicts(predictor, d.pc)))
      && (DecodeFlushes(p, predictor) <==> p.ifId.valid && d.control.branch && d.predicted)
  {
    hide Immediate, SourceA, SourceB, Rd, ReadGpr, Sane, Predicts;
    ControlIsSane(p.ifId.instruction);
    JumpsBranch(p.ifId.instruction);
    NopJumps(p.ifId.instruction);
    hide Control;
  }

  lemma KeepsSpacing(p: Pipe, m: Flat, predictor: Predictor, v: Machine)
    requires Bubbles(p) && JumpsSpaced(p)
    requires p.ifId.valid ==> p.ifId.pcInc == Wrap64(p.ifId.pc + 4) && p.ifId.pc < v.size
    requires p.idEx.valid && IsJump(p.idEx.control) ==> p.idEx.predicted
    ensures JumpsSpaced(Cycle(p, m, predictor, v))
  {
    CycleAdvances(p, m, predictor, v);
    hide Cycle, Redirect, Stalls, Decoded, DecodeFlushes, Control, Immediate, WriteBackStage, PredictorAfter,
      Prediction, LoadLE, MemoryAfter, ReadGpr, SourceA, SourceB, Rd, Predicts, ExResult, OperandsB, MemoryStage,
      FetchStage;
    if Redirect(p, v.forwarding).Some? { Redirected(p, m, predictor, v); }
    else if !p.ifId.valid { Fetches(p, m, predictor, v); }
    else if Stalls(p, v.forwarding) { Stalled(p, m, predictor, v); }
    else {
      Decodes(p, m, predictor, v);
      DecodedWord(p, WriteBackStage(p), PredictorAfter(p, v.forwarding, predictor), v);
    }
  }

  lemma KeepsFollowing(p: Pipe, m: Flat, predictor: Predictor, v: Machine)
    requires FollowsPrediction(p, v)
    requires p.ifId.valid ==> p.ifId.pcInc == Wrap64(p.ifId.pc + 4) && p.ifId.pc < v.size
    ensures FollowsPrediction(Cycle(p, m, predictor, v), v)
  {
    hide Cycle, Redirect, Stalls, Decoded, DecodeFlushes, Control, Immediate, WriteBackStage, PredictorAfter,
      Prediction, LoadLE, MemoryAfter, ReadGpr, SourceA, SourceB, Rd, Predicts;
    if Redirect(p, v.forwarding).Some? { Redirected(p, m, predictor, v); }
    else if !p.ifId.valid { Fetches(p, m, predictor, v); }
    else if Stalls(p, v.forwarding) { Stalled(p, m, predictor, v); }
    else {
      Decodes(p, m, predictor, v);
      DecodedWord(p, WriteBackStage(p), PredictorAfter(p, v.forwarding, predictor), v);
      NopJumps(p.ifId.instruction);
      ControlIsSane(p.ifId.instruction);
    }
  }

  lemma NopJumps(w: U32)
    ensures Control(w).isNop ==> !Control(w).branch && !IsJump(Control(w))
  {
    hide Control;
    ControlIsSane(w);
  }

  // ----- what is read -----

  /** Whether the instruction in EX leaves, in terms of the pipeline. */
  lemma LeavesInEx(p: Pipe, m: Flat, f: FrontEnd, w: U32, v: Machine)
    requires Issuing(p, w, v) && ExReads(p, f, v) && w == Word(f, p.idEx.pc) && !MemoryFaults(p, v.memorySize)
    ensures var (s, r, d) := (Abs(p, m, v), Redirect(p, v.forwarding), p.idEx);
      && PredictorAfter(p, v.forwarding, f.predictor) == Advance(f, s, v).predictor
      && (r.Some? ==> Leaves(w, s, f.predictor))
      && (r.None? ==> (Leaves(w, s, f.predictor) <==> d.control.branch && d.predicted))
  {
    hide Faults, Loaded, Stored, Control, SourceA, SourceB, Immediate, Rd, AluResult, ReadGpr, Front, OperandsReady,
      ExResult, MemoryAfter, DrainedRegs, WriteBackStage, MemoryFaults, FollowsPrediction, JumpsSpaced, Word, IsClose,
      Predicts, Learn, Lost;
    if !p.idEx.control.isNop { ExecutesCurrent(p, m, w, v); }
  }

  /** What the hazard tests see of the instruction in EX and the one ahead of it. */
  lemma StallsAreHeld(p: Pipe, f: FrontEnd, w: U32, x: U32, close: bool, v: Machine)
    requires p.idEx.valid && Bubbles(p) && DecodedAs(p.idEx, p.regs, w, v) && MemIsLast(p, f)
    requires p.ifId.valid && p.ifId.instruction == x && close == p.exMem.valid
    ensures Stalls(p, v.forwarding)
      <==> Hazard(x, AheadInEx(w), if close then AheadInMem(f.last) else EXMEM_BUBBLE, v.forwarding)
  {
    hide Control, SourceA, SourceB, Immediate, Rd, ReadGpr, NeedsA, NeedsB;
  }

  /** A branch leaves memory alone, also on its way through MEM. */
  lemma BranchStoresNothing(p: Pipe, m: Flat)
    requires p.exMem.valid ==> !p.exMem.control.memWrite
    ensures MemoryAfter(p, m) == m
  {
    hide Loaded, StoreLE;
  }

  /** The front end after the instruction in EX, in terms of the pipeline. */
  lemma AdvanceIs(p: Pipe, m: Flat, f: FrontEnd, v: Machine)
    requires Inv(p, m, f, v) && !MemoryFaults(p, v.memorySize) && p.idEx.valid
    ensures var f', r := Advance(f, Abs(p, m, v), v), Redirect(p, v.forwarding);
      && f'.before == Now(p, m) && f'.last == Word(f, p.idEx.pc) && f'.second == f.last && f'.close == p.exMem.valid
      && f'.predictor == PredictorAfter(p, v.forwarding, f.predictor)
      && f'.near == (r.None? && !(p.idEx.control.branch && p.idEx.predicted))
      && f'.source == if f'.near && p.exMem.valid then f.before else Now(p, m)
  {
    LeavesInEx(p, m, f, Word(f, p.idEx.pc), v);
    hide Bubbles, OperandsReady, JumpsSpaced, FollowsPrediction, DecodedAs, MemoryAfter, MemoryFaults, DrainedRegs,
      Redirect, PredictorAfter, IsClose, Leaves, Branches, TakenBy, Word, MemIsLast, IdReads, NoneReads, Filled, Learn;
  }

  /** A redirection: the next instruction is still to be read. */
  lemma ReadsRedirected(p: Pipe, m: Flat, f: FrontEnd, v: Machine)
    requires Inv(p, m, f, v) && !MemoryFaults(p, v.memorySize) && Redirect(p, v.forwarding).Some?
    ensures Reads(Cycle(p, m, f.predictor, v), Now(p, m), FrontAfter(p, m, f, v), v)
  {
    hide Cycle, OperandsReady, JumpsSpaced, DecodedAs, MemoryAfter, MemoryFaults, Advance, Abs, PredictorAfter,
      MemoryStage, WriteBackStage, Control, ExResult, OperandsB, Bubbles, Rd, FollowsPrediction, IsClose, Word;
    AdvanceIs(p, m, f, v);
    Redirected(p, m, f.predictor, v);
    CycleAdvances(p, m, f.predictor, v);
    var p' := Cycle(p, m, f.predictor, v);
    MovedToMem(p, f, v, p');
    BranchStoresNothing(p', Now(p, m));
  }

  lemma MovedToMem(p: Pipe, f: FrontEnd, v: Machine, p': Pipe)
    requires Bubbles(p) && ExReads(p, f, v) && p'.exMem == ExecuteStage(p, v.forwarding)
    ensures p'.exMem.valid == p.idEx.valid
    ensures p.idEx.valid ==>
      && p'.exMem.control == p.idEx.control == Control(Word(f, p.idEx.pc))
      && (!p'.exMem.control.isNop ==> p'.exMem.rd == Rd(Word(f, p.idEx.pc)))
      && (p.idEx.control.branch ==> !p'.exMem.control.memWrite)
  {
    hide Control, Rd, ExResult, OperandsB, Word, IsClose, Immediate, SourceA, SourceB, ReadGpr, Predicts;
  }

  /** In terms of the front end after the instruction in EX, a stall behind it is a hazard. */
  lemma HeldBehind(p: Pipe, m: Flat, f: FrontEnd, v: Machine)
    requires Inv(p, m, f, v) && !MemoryFaults(p, v.memorySize) && p.idEx.valid && p.ifId.valid
    requires Redirect(p, v.forwarding).None?
    ensures var f' := Advance(f, Abs(p, m, v), v);
      && p.ifId.instruction == Word(f', p.ifId.pc)
      && IsClose(p.ifId.instruction, f', v.forwarding) == !Stalls(p, v.forwarding)
  {
    AdvanceIs(p, m, f, v);
    StallsAreHeld(p, f, Word(f, p.idEx.pc), p.ifId.instruction, p.exMem.valid, v);
    hide Bubbles, OperandsReady, FollowsPrediction, DecodedAs, MemoryAfter, MemoryFaults, Advance, Abs, Redirect,
      LoadLE, NoneReads, Filled, Stalls, Hazard, MemIsLast, Control, Now;
  }

  lemma ReadsStalled(p: Pipe, m: Flat, f: FrontEnd, v: Machine)
    requires Inv(p, m, f, v) && !MemoryFaults(p, v.memorySize)
    requires Redirect(p, v.forwarding).None? && p.ifId.valid && Stalls(p, v.forwarding)
    ensures Reads(Cycle(p, m, f.predictor, v), Now(p, m), FrontAfter(p, m, f, v), v)
  {
    hide Cycle, OperandsReady, JumpsSpaced, DecodedAs, MemoryAfter, MemoryFaults, Advance, Abs, PredictorAfter,
      MemoryStage, WriteBackStage, Control, ExResult, OperandsB, Bubbles, Rd, FollowsPrediction, IsClose, Word, Stalls,
      Redirect, LoadLE;
    if p.idEx.valid { AdvanceIs(p, m, f, v); HeldBehind(p, m, f, v); }
    Stalled(p, m, f.predictor, v);
    CycleAdvances(p, m, f.predictor, v);
    MovedToMem(p, f, v, Cycle(p, m, f.predictor, v));
  }

  lemma ReadsDecoded(p: Pipe, m: Flat, f: FrontEnd, v: Machine)
    requires Inv(p, m, f, v) && !MemoryFaults(p, v.memorySize)
    requires Redirect(p, v.forwarding).None? && p.ifId.valid && !Stalls(p, v.forwarding)
    ensures Reads(Cycle(p, m, f.predictor, v), Now(p, m), FrontAfter(p, m, f, v), v)
  {
    hide Cycle, OperandsReady, JumpsSpaced, DecodedAs, MemoryAfter, MemoryFaults, Advance, Abs, PredictorAfter,
      MemoryStage, WriteBackStage, Control, ExResult, OperandsB, Bubbles, Rd, IsClose, Stalls, Redirect, LoadLE,
      Decoded, Prediction, DecodeFlushes, Predicts, Immediate;
    var q := PredictorAfter(p, v.forwarding, f.predictor);
    if p.idEx.valid { AdvanceIs(p, m, f, v); HeldBehind(p, m, f, v); } else { PredictorIdle(p, f.predictor, v); }
    Decodes(p, m, f.predictor, v);
    DecodedWord(p, WriteBackStage(p), q, v);
    CycleAdvances(p, m, f.predictor, v);
    var p' := Cycle(p, m, f.predictor, v);
    MovedToMem(p, f, v, p');
    if !p.idEx.valid { NothingInMem(p', Now(p, m), v); }
  }

  lemma PredictorIdle(p: Pipe, predictor: Predictor, v: Machine)
    requires !p.idEx.valid
    ensures PredictorAfter(p, v.forwarding, predictor) == predictor
  {}

  /** With nothing in ID a cycle fetches into an empty front: behind a branch predicted taken, */
  lemma ReadsBehindBranch(p: Pipe, m: Flat, f: FrontEnd, v: Machine)
    requires Inv(p, m, f, v) && !MemoryFaults(p, v.memorySize)
    requires Redirect(p, v.forwarding).None? && !p.ifId.valid && !Lost(p.pc, v)
    requires p.idEx.valid && p.idEx.control.branch && p.idEx.predicted
    ensures Reads(Cycle(p, m, f.predictor, v), Now(p, m), FrontAfter(p, m, f, v), v)
  {
    hide Cycle, OperandsReady, JumpsSpaced, DecodedAs, MemoryAfter, MemoryFaults, Advance, Abs, PredictorAfter,
      MemoryStage, WriteBackStage, Control, ExResult, OperandsB, Bubbles, Rd, FollowsPrediction, Redirect, LoadLE, Held;
    AdvanceIs(p, m, f, v);
    Fetches(p, m, f.predictor, v);
    CycleAdvances(p, m, f.predictor, v);
    var p' := Cycle(p, m, f.predictor, v);
    MovedToMem(p, f, v, p');
    BranchStoresNothing(p', Now(p, m));
  }

  /** behind the last instruction of the text, or one that faults, */
  lemma ReadsAtEnd(p: Pipe, m: Flat, f: FrontEnd, v: Machine)
    requires Inv(p, m, f, v) && !MemoryFaults(p, v.memorySize)
    requires Redirect(p, v.forwarding).None? && !p.ifId.valid && p.idEx.valid
    requires p.pc >= v.size || MemoryFaults(Cycle(p, m, f.predictor, v), v.memorySize)
    ensures Reads(Cycle(p, m, f.predictor, v), Now(p, m), FrontAfter(p, m, f, v), v)
  {
    hide Cycle, OperandsReady, JumpsSpaced, DecodedAs, MemoryAfter, MemoryFaults, Advance, Abs, PredictorAfter,
      MemoryStage, WriteBackStage, Control, ExResult, OperandsB, Bubbles, Rd, FollowsPrediction, Redirect, LoadLE, Held;
    AdvanceIs(p, m, f, v);
    Fetches(p, m, f.predictor, v);
    CycleAdvances(p, m, f.predictor, v);
    MovedToMem(p, f, v, Cycle(p, m, f.predictor, v));
  }

  /** or behind a redirection. */
  lemma ReadsAlone(p: Pipe, m: Flat, f: FrontEnd, v: Machine)
    requires Inv(p, m, f, v) && !MemoryFaults(p, v.memorySize)
    requires Redirect(p, v.forwarding).None? && !p.ifId.valid && !p.idEx.valid && !Lost(p.pc, v)
    ensures Reads(Cycle(p, m, f.predictor, v), Now(p, m), FrontAfter(p, m, f, v), v)
  {
    hide Cycle, OperandsReady, JumpsSpaced, DecodedAs, MemoryAfter, MemoryFaults, Advance, Abs, PredictorAfter,
      MemoryStage, WriteBackStage, Control, ExResult, OperandsB, Bubbles, Rd, FollowsPrediction, Redirect, LoadLE, Held;
    Fetches(p, m, f.predictor, v);
    CycleAdvances(p, m, f.predictor, v);
    var p' := Cycle(p, m, f.predictor, v);
    MovedToMem(p, f, v, p');
    NothingInMem(p', Now(p, m), v);
  }

  // ----- a whole cycle -----

  lemma InEx(p: Pipe, m: Flat, f: FrontEnd, v: Machine)
    requires Inv(p, m, f, v) && p.idEx.valid
    ensures Issuing(p, Word(f, p.idEx.pc), v) && p.idEx.pc < v.size
  {
    hide Bubbles, OperandsReady, JumpsSpaced, FollowsPrediction, Control, Immediate, SourceA, SourceB, Rd, ReadGpr,
      Word, IsClose, Predicts, IdReads, NoneReads, MemIsLast, Filled;
  }

  /** The program counter that the state after a cycle stands for. */
  lemma ControlPoint(p: Pipe, m: Flat, predictor: Predictor, w: U32, v: Machine)
    requires Issuing(p, w, v) && !MemoryFaults(p, v.memorySize) && !Lost(Perform(Abs(p, m, v), w, v).pc, v)
    ensures var p', m' := Cycle(p, m, predictor, v), MemoryAfter(p, m);
      !Abs(p', m', v).fault ==> Abs(p', m', v).pc == Perform(Abs(p, m, v), w, v).pc
  {
    hide Bubbles, OperandsReady, JumpsSpaced, FollowsPrediction, MemoryAfter, LoadLE, DecodedAs, Perform, Control,
      DrainedRegs, ExecuteStage, MemoryStage, WriteBackStage, MemoryFaults, Lost, Cycle, Front, Redirect;
    var p', m' := Cycle(p, m, predictor, v), MemoryAfter(p, m);
    NextPc(p, m, w, v);
    CycleAdvances(p, m, predictor, v);
    InstructionCompletes(p, m, w, v, p');
    if Abs(p', m', v).fault { return; }
    if Redirect(p, v.forwarding).None? { FrontStays(p, m, predictor, v); }
    else {
      Redirected(p, m, predictor, v);
      EmptyFront(p');
    }
  }

  lemma EmptyFront(p: Pipe)
    requires p.ifId == IFID_BUBBLE
    ensures Front(p) == p.pc
  {}

  lemma BubblePoint(p: Pipe, m: Flat, predictor: Predictor, v: Machine)
    requires !p.idEx.valid && !MemoryFaults(p, v.memorySize) && !Lost(Front(p), v)
    ensures var p', m' := Cycle(p, m, predictor, v), MemoryAfter(p, m);
      !Abs(p', m', v).fault ==> Abs(p', m', v).pc == Front(p)
  {
    assert Redirect(p, v.forwarding).None?;
    hide MemoryAfter, MemoryFaults, Cycle, DrainedRegs, Redirect, Lost;
    FrontStays(p, m, predictor, v);
  }

  lemma BranchesNeverFault(p: Pipe, m: Flat, w: U32, v: Machine)
    requires Issuing(p, w, v) && !MemoryFaults(p, v.memorySize) && p.idEx.control.branch
    ensures !Perform(Abs(p, m, v), w, v).fault
  {
    hide Loaded, Stored, Control, SourceA, SourceB, Immediate, Rd, AluResult, ReadGpr, Front, JumpsSpaced,
      OperandsReady, WriteBack, MemoryAfter, DrainedRegs, FollowsPrediction, Taken, Target;
  }

  /** Neither this instruction nor the next is one whose fetch throws. */
  ghost predicate NotLost(p: Pipe, m: Flat, f: FrontEnd, v: Machine) {
    var s := Abs(p, m, v);
    && !Lost(s.pc, v)
    && (p.idEx.valid ==> var t := Perform(s, Word(f, s.pc), v); !t.fault ==> !Lost(t.pc, v))
  }

  lemma ReadsEmpty(p: Pipe, m: Flat, f: FrontEnd, v: Machine)
    requires Inv(p, m, f, v) && !MemoryFaults(p, v.memorySize) && NotLost(p, m, f, v)
    requires Redirect(p, v.forwarding).None? && !p.ifId.valid
    ensures Reads(Cycle(p, m, f.predictor, v), Now(p, m), FrontAfter(p, m, f, v), v)
  {
    if p.idEx.valid {
      var w := Word(f, p.idEx.pc);
      InEx(p, m, f, v);
      GoesOn(p, m, w, v);
      NextPc(p, m, w, v);
      if p.idEx.control.branch && p.idEx.predicted {
        BranchesNeverFault(p, m, w, v);
        ReadsBehindBranch(p, m, f, v);
      } else {
        if p.pc < v.size { FaultsNext(p, m, f.predictor, w, v); }
        ReadsAtEnd(p, m, f, v);
      }
    } else {
      ReadsAlone(p, m, f, v);
    }
  }

  lemma FaultsNext(p: Pipe, m: Flat, predictor: Predictor, w: U32, v: Machine)
    requires Issuing(p, w, v) && !MemoryFaults(p, v.memorySize)
    ensures Perform(Abs(p, m, v), w, v).fault == MemoryFaults(Cycle(p, m, predictor, v), v.memorySize)
  {
    CycleAdvances(p, m, predictor, v);
    InstructionCompletes(p, m, w, v, Cycle(p, m, predictor, v));
    hide Perform, MemoryFaults, MemoryAfter, DrainedRegs, Cycle, Issuing;
  }

  /** The part of the invariant that says what is read. */
  lemma KeepsReads(p: Pipe, m: Flat, f: FrontEnd, v: Machine)
    requires Inv(p, m, f, v) && !MemoryFaults(p, v.memorySize) && NotLost(p, m, f, v)
    ensures Reads(Cycle(p, m, f.predictor, v), Now(p, m), FrontAfter(p, m, f, v), v)
  {
    hide *;
    if Redirect(p, v.forwarding).Some? { ReadsRedirected(p, m, f, v); }
    else if !p.ifId.valid { ReadsEmpty(p, m, f, v); }
    else if Stalls(p, v.forwarding) { ReadsStalled(p, m, f, v); }
    else { ReadsDecoded(p, m, f, v); }
  }

  /** A clock cycle keeps the invariant and executes the instruction in EX, with the word that the front end reads. */
  lemma CycleRefines(p: Pipe, m: Flat, f: FrontEnd, v: Machine)
    requires Inv(p, m, f, v) && !MemoryFaults(p, v.memorySize) && NotLost(p, m, f, v)
    ensures var (p', m', s) := (Cycle(p, m, f.predictor, v), MemoryAfter(p, m), Abs(p, m, v));
      && Abs(p', m', v) == (if p.idEx.valid then Perform(s, Word(f, s.pc), v) else s)
      && Inv(p', m', FrontAfter(p, m, f, v), v)
      && PredictorAfter(p, v.forwarding, f.predictor) == FrontAfter(p, m, f, v).predictor
  {
    hide Bubbles, OperandsReady, JumpsSpaced, FollowsPrediction, Reads, Perform, MemoryAfter, MemoryFaults, Lost, Cycle,
      Redirect, PredictorAfter, Word, Advance, DrainedRegs, DecodedAs, Issuing;
    Parts(p, m, f, v);
    KeepsBubbles(p, m, f.predictor, v);
    KeepsReady(p, m, f.predictor, v);
    KeepsSpacing(p, m, f.predictor, v);
    KeepsFollowing(p, m, f.predictor, v);
    KeepsReads(p, m, f, v);
    CycleAdvances(p, m, f.predictor, v);
    var p' := Cycle(p, m, f.predictor, v);
    if p.idEx.valid {
      var w := Word(f, p.idEx.pc);
      InEx(p, m, f, v);
      AdvanceIs(p, m, f, v);
      InstructionCompletes(p, m, w, v, p');
      if !Perform(Abs(p, m, v), w, v).fault { ControlPoint(p, m, f.predictor, w, v); }
    } else {
      BubbleCompletes(p, m, v, p');
      BubblePoint(p, m, f.predictor, v);
      PredictorIdle(p, f.predictor, v);
    }
  }

  /** What the invariant says of the instruction in ID and of a jump in EX. */
  lemma Parts(p: Pipe, m: Flat, f: FrontEnd, v: Machine)
    requires Inv(p, m, f, v)
    ensures p.ifId.valid ==> p.ifId.pcInc == Wrap64(p.ifId.pc + 4) && p.ifId.pc < v.size
    ensures p.idEx.valid && IsJump(p.idEx.control) ==> p.idEx.predicted
  {
    hide Control, Immediate, SourceA, SourceB, Rd, ReadGpr, Word, IsClose, Predicts, Now, MemoryFaults, LoadLE,
      OperandsReady, JumpsSpaced, FollowsPrediction;
  }
}
