/** How many cycles the pipeline takes, exactly: what its hazards, predictions and transfers cost. */
module Timing {
  import opened Words
  import opened ImmGenerator
  import opened FlatMemory
  import opened Datapath
  import opened Pipeline
  import opened Sequential
  import opened EarlyFetch
  import opened CurrentWords
  import opened PipelineProof
  import opened PipelineRuns

  // ----- costs -----

  /** The instruction leaves, and was not predicted so, or the other way round; `jalr` always counts as mispredicted. */
  predicate Mispredicted(w: U32, s: Arch, predictor: Predictor) {
    var c := Control(w);
    Branches(w) && (c.branchOp == BJalr || (IsJump(c) || Predicts(predictor, s.pc)) != Taken(c, ResultOf(s, w)))
  }

  /** `x` reads the register that `w`, just ahead of it, writes. */
  predicate Behind(x: U32, w: U32) { Hazard(x, AheadInEx(w), EXMEM_BUBBLE, false) }

  ghost function NextWord(e: Early, v: Machine): U32 {
    var e' := StepEarly(e, v);
    Word(e'.front, e'.arch.pc)
  }

  /** The cycles from one instruction in EX to the next: three behind a misprediction, two behind a transfer that was
      predicted, one behind any other instruction, and with forwarding one more for a load that is used at once. Without
      forwarding an operand that the last instruction writes costs two cycles more, one behind a transfer, and one that
      the instruction before it writes costs one more. */
  ghost function Gap(e: Early, v: Machine): nat {
    var w, x, f' := Word(e.front, e.arch.pc), NextWord(e, v), StepEarly(e, v).front;
    if Mispredicted(w, e.arch, e.front.predictor) then 3
    else if !f'.near then 2 + One(!v.forwarding && Behind(x, w))
    else if !Held(x, f', v.forwarding) then 1
    else 2 + One(!v.forwarding && Behind(x, w))
  }

  /** The cycle in which instruction `k` is in EX; the first one gets there in the third cycle. */
  ghost function Time(a: Arch, q: Predictor, v: Machine, k: nat): nat {
    if k == 0 then 2 else Time(a, q, v, k - 1) + Gap(RunEarly(a, q, v, k - 1), v)
  }

  // ----- from one instruction to the next -----

  /** Instruction `k` is in EX. */
  ghost predicate Executes(s: Vm, a: Arch, q: Predictor, v: Machine, k: nat) {
    Refines(s, a, q, v) && !s.fault && s.p.idEx.valid && !MemoryFaults(s.p, v.memorySize) && Issued(s) == k
  }

  /** The next instruction to execute is in ID, with none in EX. */
  ghost predicate InDecode(s: Vm, a: Arch, q: Predictor, v: Machine, k: nat) {
    && Refines(s, a, q, v) && !s.fault && !s.p.idEx.valid && s.p.ifId.valid && !MemoryFaults(s.p, v.memorySize)
    && Issued(s) == k && !Stopped(RunEarly(a, q, v, k).arch, v)
  }

  /** A redirection is a misprediction. */
  lemma RedirectIs(p: Pipe, m: Flat, f: FrontEnd, v: Machine)
    requires Inv(p, m, f, v) && p.idEx.valid && !MemoryFaults(p, v.memorySize)
    ensures Redirect(p, v.forwarding).Some? <==> Mispredicted(Word(f, p.idEx.pc), Abs(p, m, v), f.predictor)
  {
    var w := Word(f, p.idEx.pc);
    InEx(p, m, f, v);
    if !p.idEx.control.isNop { ExecutesCurrent(p, m, w, v); }
    JumpsAreTaken(w);
    hide Faults, Loaded, Stored, Control, SourceA, SourceB, Immediate, Rd, AluResult, ReadGpr, Front, OperandsReady,
      ExResult, MemoryAfter, DrainedRegs, WriteBackStage, MemoryFaults, FollowsPrediction, JumpsSpaced, Word, IsClose,
      Predicts, Lost, IdReads, NoneReads, Filled, MemIsLast;
  }

  lemma JumpsAreTaken(w: U32)
    ensures IsJump(Control(w)) ==> Control(w).branch && !Control(w).isNop
  {
    hide Control;
    ControlIsSane(w);
  }

  /** A cycle without a fault. */
  lemma Goes(s: Vm, a: Arch, q: Predictor, v: Machine)
    requires Refines(s, a, q, v) && EarlyFits(a, q, v) && !s.fault && !MemoryFaults(s.p, v.memorySize)
    requires s.p.idEx.valid || s.p.ifId.valid || s.p.pc < v.size
    ensures var s' := Tick(s, v);
      && Refines(s', a, q, v) && !s'.fault && s'.p == Cycle(s.p, s.mem, s.predictor, v)
      && s'.p.exMem.valid == s.p.idEx.valid && s'.p.memWb.valid == s.p.exMem.valid
      && Issued(s') == Issued(s) + One(s.p.idEx.valid)
  {
    hide Refines, EarlyFits, MemoryFaults, Cycle;
    TickRefines(s, a, q, v);
    CycleAdvances(s.p, s.mem, s.predictor, v);
    StagesMove(s.p, s.mem, v, Cycle(s.p, s.mem, s.predictor, v));
  }

  /** What the invariant says of a VM that stands before a running instruction without one in EX. */
  lemma Before(s: Vm, a: Arch, q: Predictor, v: Machine)
    requires Refines(s, a, q, v) && !s.fault && !s.p.idEx.valid
    requires !Stopped(RunEarly(a, q, v, Issued(s)).arch, v)
    ensures !MemoryFaults(s.p, v.memorySize) && Front(s.p) == RunEarly(a, q, v, Issued(s)).arch.pc < v.size
    ensures s.p.idEx.control == NOP && (!s.p.exMem.valid ==> s.p.exMem.control == NOP)
  {
    hide MemoryAfter, MemoryFaults, DrainedRegs, RunEarly, Reads, OperandsReady, JumpsSpaced, FollowsPrediction, Sane;
  }

  /** What waits in ID is the next word, and it waits for the instruction in MEM, if for any. */
  lemma WaitsInDecode(s: Vm, a: Arch, q: Predictor, v: Machine, k: nat)
    requires InDecode(s, a, q, v, k)
    ensures var e := RunEarly(a, q, v, k);
      && s.p.ifId.instruction == Word(e.front, e.arch.pc) && Redirect(s.p, v.forwarding).None?
      && (Stalls(s.p, v.forwarding) <==>
          !v.forwarding && s.p.exMem.valid && Behind(Word(e.front, e.arch.pc), e.front.last))
  {
    Before(s, a, q, v);
    var e := RunEarly(a, q, v, k);
    ReadInDecode(s.p, s.mem, e.front, v);
    hide RunEarly, Refines, Inv, MemoryFaults, Stopped, Word, Control, SourceA, SourceB, Rd, NeedsA, NeedsB;
    StallsBehind(s.p, s.p.ifId.instruction, e.front, v);
  }

  lemma ReadInDecode(p: Pipe, m: Flat, f: FrontEnd, v: Machine)
    requires Inv(p, m, f, v) && !p.idEx.valid && p.ifId.valid && !MemoryFaults(p, v.memorySize)
    ensures p.ifId.instruction == Word(f, p.ifId.pc) && Front(p) == p.ifId.pc && MemIsLast(p, f) && Bubbles(p)
  {
    hide Bubbles, OperandsReady, JumpsSpaced, FollowsPrediction, ExReads, NoneReads, Filled, Word, IsClose, LoadLE,
      MemIsLast, MemoryFaults, Now;
  }

  lemma StallsBehind(p: Pipe, x: U32, f: FrontEnd, v: Machine)
    requires !p.idEx.valid && p.ifId.valid && p.ifId.instruction == x && MemIsLast(p, f) && Bubbles(p)
    ensures Stalls(p, v.forwarding) <==> !v.forwarding && p.exMem.valid && Behind(x, f.last)
  {
    ControlIsSane(f.last);
    hide Control, SourceA, SourceB, Rd, NeedsA, NeedsB;
  }

  lemma LeavesDecode(s: Vm, a: Arch, q: Predictor, v: Machine, k: nat)
    requires InDecode(s, a, q, v, k) && EarlyFits(a, q, v) && !Stalls(s.p, v.forwarding)
    ensures Executes(Tick(s, v), a, q, v, k)
  {
    hide Refines, EarlyFits, MemoryFaults, RunEarly, Behind, Word, Cycle, Stalls, Redirect, Tick, Decoded, Stopped;
    WaitsInDecode(s, a, q, v, k);
    Goes(s, a, q, v);
    Decodes(s.p, s.mem, s.predictor, v);
    DecodedValid(s.p, WriteBackStage(s.p), Prediction(s.p, PredictorAfter(s.p, v.forwarding, s.predictor)));
    EntersEx(Tick(s, v), a, q, v, k);
  }

  lemma StaysInDecode(s: Vm, a: Arch, q: Predictor, v: Machine, k: nat)
    requires InDecode(s, a, q, v, k) && EarlyFits(a, q, v) && Stalls(s.p, v.forwarding)
    ensures InDecode(Tick(s, v), a, q, v, k) && !Tick(s, v).p.exMem.valid
  {
    hide Refines, EarlyFits, MemoryFaults, RunEarly, Behind, Word, Cycle, Stalls, Redirect, Tick, Decoded, Stopped;
    WaitsInDecode(s, a, q, v, k);
    Goes(s, a, q, v);
    Stalled(s.p, s.mem, s.predictor, v);
    Before(Tick(s, v), a, q, v);
  }

  /** From ID to EX: one cycle, or two. */
  lemma FromDecode(s: Vm, a: Arch, q: Predictor, v: Machine, k: nat)
    requires InDecode(s, a, q, v, k) && EarlyFits(a, q, v)
    ensures var e := RunEarly(a, q, v, k);
      var n := 1 + One(!v.forwarding && s.p.exMem.valid && Behind(Word(e.front, e.arch.pc), e.front.last));
      Executes(Ticks(s, v, n), a, q, v, k)
  {
    hide InDecode, Executes, EarlyFits, RunEarly, Behind, Word, Stalls, Ticks, Tick;
    WaitsInDecode(s, a, q, v, k);
    OneTick(s, v);
    if Stalls(s.p, v.forwarding) {
      var s1 := Tick(s, v);
      StaysInDecode(s, a, q, v, k);
      WaitsInDecode(s1, a, q, v, k);
      LeavesDecode(s1, a, q, v, k);
      OneTick(s1, v);
      TicksFront(s, v, 1);
    } else {
      LeavesDecode(s, a, q, v, k);
    }
  }

  lemma DecodedValid(p: Pipe, regs: Regs, predicted: bool)
    ensures Decoded(p, regs, predicted).valid
  {
    hide Control, Immediate, SourceA, SourceB, Rd;
  }

  lemma EntersEx(s: Vm, a: Arch, q: Predictor, v: Machine, k: nat)
    requires Refines(s, a, q, v) && !s.fault && s.p.idEx.valid && Issued(s) == k
    requires !Stopped(RunEarly(a, q, v, k).arch, v)
    ensures Executes(s, a, q, v, k)
  {
    hide MemoryAfter, MemoryFaults, DrainedRegs, RunEarly, Inv;
  }

  // ----- one instruction after another -----

  lemma NextRunning(s: Vm, a: Arch, q: Predictor, v: Machine, k: nat)
    requires Executes(s, a, q, v, k) && EarlyFits(a, q, v)
    ensures var (e, s') := (RunEarly(a, q, v, k), Tick(s, v));
      && e.arch == Abs(s.p, s.mem, v) && e.arch.pc == s.p.idEx.pc && !Stopped(e.arch, v)
      && Inv(s.p, s.mem, e.front, v) && s.predictor == e.front.predictor
      && RunEarly(a, q, v, k + 1) == StepEarly(e, v)
      && Refines(s', a, q, v) && !s'.fault && s'.p == Cycle(s.p, s.mem, s.predictor, v)
      && s'.p.exMem.valid && Issued(s') == k + 1
  {
    hide EarlyFits, MemoryFaults, RunEarly, StepEarly, Inv, MemoryAfter, DrainedRegs;
    IssuingIsRunning(s, a, q, v);
    Goes(s, a, q, v);
  }

  /** Behind a misprediction the next instruction is fetched and decoded. */
  lemma AfterRedirect(s: Vm, a: Arch, q: Predictor, v: Machine, k: nat)
    requires Executes(s, a, q, v, k) && EarlyFits(a, q, v) && !Stopped(RunEarly(a, q, v, k + 1).arch, v)
    requires Redirect(s.p, v.forwarding).Some?
    ensures Executes(Ticks(s, v, 3), a, q, v, k + 1)
  {
    hide Executes, EarlyFits, MemoryFaults, RunEarly, StepEarly, Inv, Abs, Refines, Cycle, Redirect, Ticks, Tick,
      Stopped, Behind, Word;
    NextRunning(s, a, q, v, k);
    Redirected(s.p, s.mem, s.predictor, v);
    var s1 := Tick(s, v);
    FetchesNext(s1, a, q, v, k + 1);
    var s2 := Tick(s1, v);
    FromDecode(s2, a, q, v, k + 1);
    Two(s, v);
    OneTick(s2, v);
    TicksAdd(s, v, 2, 1);
  }

  lemma Two(s: Vm, v: Machine)
    ensures Ticks(s, v, 2) == Tick(Tick(s, v), v)
  {
    hide Tick;
    OneTick(s, v);
    assert Ticks(s, v, 2) == Tick(Ticks(s, v, 1), v);
  }

  /** With nothing in front, the next instruction is fetched. */
  lemma FetchesNext(s: Vm, a: Arch, q: Predictor, v: Machine, k: nat)
    requires Refines(s, a, q, v) && EarlyFits(a, q, v) && !s.fault && Issued(s) == k
    requires !s.p.idEx.valid && !s.p.ifId.valid && !Stopped(RunEarly(a, q, v, k).arch, v)
    ensures InDecode(Tick(s, v), a, q, v, k) && !Tick(s, v).p.exMem.valid
  {
    assert !Lost(RunEarly(a, q, v, k).arch.pc, v);
    hide Refines, EarlyFits, MemoryFaults, RunEarly, Cycle, Redirect, Tick, Stopped, LoadLE, Now;
    Before(s, a, q, v);
    NoRedirect(s.p, v);
    Goes(s, a, q, v);
    Fetches(s.p, s.mem, s.predictor, v);
    Before(Tick(s, v), a, q, v);
  }

  lemma NoRedirect(p: Pipe, v: Machine)
    requires !p.idEx.valid
    ensures Redirect(p, v.forwarding).None?
  {}

  /** Behind a transfer that was predicted its target is next to be fetched. */
  lemma TargetIsNext(s: Vm, a: Arch, q: Predictor, v: Machine, k: nat)
    requires Executes(s, a, q, v, k) && EarlyFits(a, q, v) && !Stopped(RunEarly(a, q, v, k + 1).arch, v)
    requires Redirect(s.p, v.forwarding).None? && s.p.idEx.control.branch && s.p.idEx.predicted
    ensures !s.p.ifId.valid && s.p.pc == RunEarly(a, q, v, k + 1).arch.pc < v.size && !Lost(s.p.pc, v)
  {
    hide Refines, EarlyFits, MemoryFaults, RunEarly, Cycle, Redirect, LoadLE, Now, Inv, Abs, Perform, Advance, Issuing,
      Tick, Issued, Lost, Word;
    var e := RunEarly(a, q, v, k);
    NextRunning(s, a, q, v, k);
    FitsAt(a, q, v, k + 1);
    InEx(s.p, s.mem, e.front, v);
    NextPc(s.p, s.mem, Word(e.front, e.arch.pc), v);
    PredictedIsEmpty(s.p, s.mem, e.front, v);
  }

  lemma FitsAt(a: Arch, q: Predictor, v: Machine, k: nat)
    requires EarlyFits(a, q, v)
    ensures !Lost(RunEarly(a, q, v, k).arch.pc, v)
  {
    hide RunEarly, Lost;
  }

  /** It is fetched while the transfer is in EX. */
  lemma AfterPredicted(s: Vm, a: Arch, q: Predictor, v: Machine, k: nat)
    requires Executes(s, a, q, v, k) && EarlyFits(a, q, v) && !Stopped(RunEarly(a, q, v, k + 1).arch, v)
    requires Redirect(s.p, v.forwarding).None? && s.p.idEx.control.branch && s.p.idEx.predicted
    ensures InDecode(Tick(s, v), a, q, v, k + 1) && Tick(s, v).p.exMem.valid
  {
    hide Executes, Refines, EarlyFits, MemoryFaults, RunEarly, StepEarly, Cycle, Redirect, Tick, Stopped, LoadLE, Now,
      Inv, Abs;
    NextRunning(s, a, q, v, k);
    TargetIsNext(s, a, q, v, k);
    Fetches(s.p, s.mem, s.predictor, v);
    Before(Tick(s, v), a, q, v);
  }

  lemma PredictedIsEmpty(p: Pipe, m: Flat, f: FrontEnd, v: Machine)
    requires Inv(p, m, f, v) && p.idEx.valid && p.idEx.control.branch && p.idEx.predicted
    ensures !p.ifId.valid
  {
    hide Bubbles, OperandsReady, FollowsPrediction, Reads;
  }

  /** Behind any other instruction the next one is in ID, and waits there exactly if it is held. */
  lemma NextInDecode(s: Vm, a: Arch, q: Predictor, v: Machine, k: nat)
    requires Executes(s, a, q, v, k) && EarlyFits(a, q, v) && !Stopped(RunEarly(a, q, v, k + 1).arch, v)
    requires Redirect(s.p, v.forwarding).None? && !(s.p.idEx.control.branch && s.p.idEx.predicted)
    ensures var e' := RunEarly(a, q, v, k + 1);
      && s.p.ifId.valid && s.p.ifId.instruction == Word(e'.front, e'.arch.pc)
      && (Stalls(s.p, v.forwarding) <==> Held(s.p.ifId.instruction, e'.front, v.forwarding))
  {
    var e := RunEarly(a, q, v, k);
    NextRunning(s, a, q, v, k);
    assert !Lost(RunEarly(a, q, v, k + 1).arch.pc, v);
    InEx(s.p, s.mem, e.front, v);
    GoesOn(s.p, s.mem, Word(e.front, e.arch.pc), v);
    NextPc(s.p, s.mem, Word(e.front, e.arch.pc), v);
    NothingMissing(s.p, s.mem, e.front, v);
    AdvanceIs(s.p, s.mem, e.front, v);
    hide Executes, Refines, EarlyFits, MemoryFaults, RunEarly, Cycle, Redirect, Tick, Stopped, LoadLE, Now, Inv, Abs,
      Perform, Advance, Issuing, Lost, Stalls, Held, Word, Expected;
    HeldBehind(s.p, s.mem, e.front, v);
  }

  lemma NothingMissing(p: Pipe, m: Flat, f: FrontEnd, v: Machine)
    requires Inv(p, m, f, v) && p.idEx.valid && !(p.idEx.control.branch && p.idEx.predicted)
    ensures p.ifId.valid || p.pc >= v.size || Lost(Expected(p.idEx), v)
  {
    hide Bubbles, OperandsReady, FollowsPrediction, ExReads, MemIsLast, IdReads, NoneReads, Expected, Lost;
  }

  lemma AfterClose(s: Vm, a: Arch, q: Predictor, v: Machine, k: nat)
    requires Executes(s, a, q, v, k) && EarlyFits(a, q, v) && !Stopped(RunEarly(a, q, v, k + 1).arch, v)
    requires Redirect(s.p, v.forwarding).None? && s.p.ifId.valid && !Stalls(s.p, v.forwarding)
    ensures Executes(Tick(s, v), a, q, v, k + 1)
  {
    NextRunning(s, a, q, v, k);
    hide Executes, Refines, EarlyFits, MemoryFaults, RunEarly, Cycle, Redirect, Tick, Stopped, Inv, Abs, StepEarly,
      Stalls, Decoded;
    Decodes(s.p, s.mem, s.predictor, v);
    DecodedValid(s.p, WriteBackStage(s.p), Prediction(s.p, PredictorAfter(s.p, v.forwarding, s.predictor)));
    EntersEx(Tick(s, v), a, q, v, k + 1);
  }

  lemma AfterHeld(s: Vm, a: Arch, q: Predictor, v: Machine, k: nat)
    requires Executes(s, a, q, v, k) && EarlyFits(a, q, v) && !Stopped(RunEarly(a, q, v, k + 1).arch, v)
    requires Redirect(s.p, v.forwarding).None? && s.p.ifId.valid && Stalls(s.p, v.forwarding)
    ensures InDecode(Tick(s, v), a, q, v, k + 1) && Tick(s, v).p.exMem.valid
  {
    NextRunning(s, a, q, v, k);
    hide Executes, Refines, EarlyFits, MemoryFaults, RunEarly, Cycle, Redirect, Tick, Stopped, Inv, Abs, StepEarly,
      Stalls;
    Stalled(s.p, s.mem, s.predictor, v);
    Before(Tick(s, v), a, q, v);
  }

  /** From ID to EX behind an instruction in MEM, with the cycle before. */
  lemma WithOneBefore(s: Vm, a: Arch, q: Predictor, v: Machine, k: nat)
    requires InDecode(Tick(s, v), a, q, v, k) && Tick(s, v).p.exMem.valid && EarlyFits(a, q, v)
    ensures var e := RunEarly(a, q, v, k);
      Executes(Ticks(s, v, 2 + One(!v.forwarding && Behind(Word(e.front, e.arch.pc), e.front.last))), a, q, v, k)
  {
    hide InDecode, Executes, EarlyFits, RunEarly, Behind, Word, Ticks, Tick;
    var e := RunEarly(a, q, v, k);
    var n := 1 + One(!v.forwarding && Behind(Word(e.front, e.arch.pc), e.front.last));
    FromDecode(Tick(s, v), a, q, v, k);
    TicksFront(s, v, n);
  }

  /** The gap in terms of the pipeline. */
  lemma GapIs(s: Vm, a: Arch, q: Predictor, v: Machine, k: nat)
    requires Executes(s, a, q, v, k) && EarlyFits(a, q, v) && !Stopped(RunEarly(a, q, v, k + 1).arch, v)
    ensures var (e, e') := (RunEarly(a, q, v, k), RunEarly(a, q, v, k + 1));
      var wait := One(!v.forwarding && Behind(Word(e'.front, e'.arch.pc), e'.front.last));
      Gap(e, v) == if Redirect(s.p, v.forwarding).Some? then 3
        else if s.p.idEx.control.branch && s.p.idEx.predicted then 2 + wait
        else if Stalls(s.p, v.forwarding) then 2 + wait else 1
  {
    var e, e' := RunEarly(a, q, v, k), RunEarly(a, q, v, k + 1);
    NextRunning(s, a, q, v, k);
    RedirectIs(s.p, s.mem, e.front, v);
    AdvanceIs(s.p, s.mem, e.front, v);
    if Redirect(s.p, v.forwarding).None? && !(s.p.idEx.control.branch && s.p.idEx.predicted) {
      NextInDecode(s, a, q, v, k);
    }
    hide Executes, Refines, EarlyFits, MemoryFaults, RunEarly, Cycle, Redirect, Tick, Stopped, LoadLE, Now, Inv, Abs,
      Perform, Advance, Stalls, Held, Word, Behind, Mispredicted;
  }

  /** After exactly the gap of instruction `k` the next one is in EX. */
  lemma NextExecutes(s: Vm, a: Arch, q: Predictor, v: Machine, k: nat)
    requires Executes(s, a, q, v, k) && EarlyFits(a, q, v) && !Stopped(RunEarly(a, q, v, k + 1).arch, v)
    ensures Executes(Ticks(s, v, Gap(RunEarly(a, q, v, k), v)), a, q, v, k + 1)
  {
    hide *;
    GapIs(s, a, q, v, k);
    if Redirect(s.p, v.forwarding).Some? { AfterRedirect(s, a, q, v, k); }
    else if s.p.idEx.control.branch && s.p.idEx.predicted {
      AfterPredicted(s, a, q, v, k);
      WithOneBefore(s, a, q, v, k + 1);
    } else {
      NextInDecode(s, a, q, v, k);
      if Stalls(s.p, v.forwarding) {
        AfterHeld(s, a, q, v, k);
        WithOneBefore(s, a, q, v, k + 1);
      } else {
        AfterClose(s, a, q, v, k);
        OneTick(s, v);
      }
    }
  }

  // ----- whole runs -----

  lemma EarlierRuns(a: Arch, q: Predictor, v: Machine, k: nat)
    requires k > 0 && !Stopped(RunEarly(a, q, v, k).arch, v)
    ensures !Stopped(RunEarly(a, q, v, k - 1).arch, v)
  {
    hide RunEarly, Stopped;
    if Stopped(RunEarly(a, q, v, k - 1).arch, v) { StoppedEarly(a, q, v, k - 1, k); }
  }

  lemma FirstExecutes(s: Vm, a: Arch, q: Predictor, v: Machine)
    requires Starts(s, a, q, v) && !s.p.idEx.valid && !s.p.ifId.valid && EarlyFits(a, q, v)
    requires !Stopped(RunEarly(a, q, v, 0).arch, v)
    ensures Executes(Ticks(s, v, 2), a, q, v, 0)
  {
    hide Executes, EarlyFits, RunEarly, Behind, Word, Ticks, Tick, InDecode, Refines, Stopped, Issued;
    FetchesNext(s, a, q, v, 0);
    FromDecode(Tick(s, v), a, q, v, 0);
    TicksFront(s, v, 1);
  }

  /** Instruction `k` is in EX in the cycle that the costs of those before it add up to. */
  lemma {:induction false} ExecutesAt(s: Vm, a: Arch, q: Predictor, v: Machine, k: nat)
    requires Starts(s, a, q, v) && !s.p.idEx.valid && !s.p.ifId.valid && EarlyFits(a, q, v)
    requires !Stopped(RunEarly(a, q, v, k).arch, v)
    ensures Executes(Ticks(s, v, Time(a, q, v, k)), a, q, v, k)
  {
    hide Starts, Executes, EarlyFits, RunEarly, Gap, Ticks, Stopped;
    if k == 0 { FirstExecutes(s, a, q, v); return; }
    EarlierRuns(a, q, v, k);
    ExecutesAt(s, a, q, v, k - 1);
    var t, n := Time(a, q, v, k - 1), Gap(RunEarly(a, q, v, k - 1), v);
    NextExecutes(Ticks(s, v, t), a, q, v, k - 1);
    TicksAdd(s, v, t, n);
  }

  /** Behind the last instruction the pipeline drains, or MEM throws. */
  lemma LastLeaves(s: Vm, a: Arch, q: Predictor, v: Machine, k: nat)
    requires Executes(s, a, q, v, k) && EarlyFits(a, q, v) && Stopped(RunEarly(a, q, v, k + 1).arch, v)
    ensures var s' := Tick(s, v);
      && !s'.fault && s'.p.exMem.valid && (MemoryFaults(s'.p, v.memorySize) <==> RunEarly(a, q, v, k + 1).arch.fault)
      && (MemoryFaults(s'.p, v.memorySize) || Draining(s'.p, v))
  {
    NextRunning(s, a, q, v, k);
    var s' := Tick(s, v);
    hide Executes, EarlyFits, MemoryFaults, RunEarly, Cycle, Tick, StepEarly, MemoryAfter, DrainedRegs, Inv, Abs;
    StandsAfter(s', a, q, v);
  }

  lemma StandsAfter(s: Vm, a: Arch, q: Predictor, v: Machine)
    requires Refines(s, a, q, v) && !s.fault && Stopped(RunEarly(a, q, v, Issued(s)).arch, v)
    ensures MemoryFaults(s.p, v.memorySize) <==> RunEarly(a, q, v, Issued(s)).arch.fault
    ensures MemoryFaults(s.p, v.memorySize) || Draining(s.p, v)
  {
    if s.p.idEx.valid && !MemoryFaults(s.p, v.memorySize) { IssuingIsRunning(s, a, q, v); }
    hide MemoryAfter, MemoryFaults, DrainedRegs, RunEarly, OperandsReady, JumpsSpaced, FollowsPrediction, Bubbles,
      ExReads, MemIsLast, NoneReads, Filled, Word, LoadLE;
  }

  /** From the last instruction in EX on: two cycles up to the exception, three to the empty pipeline. */
  lemma Drains(s: Vm, v: Machine)
    requires !s.fault && s.p.exMem.valid && (MemoryFaults(s.p, v.memorySize) || Draining(s.p, v))
    ensures !AtRest(s, v)
    ensures MemoryFaults(s.p, v.memorySize) ==> Tick(s, v).fault
    ensures !MemoryFaults(s.p, v.memorySize) ==> !AtRest(Tick(s, v), v) && Ended(Tick(Tick(s, v), v), v)
  {
    hide Cycle, MemoryAfter, WriteBackStage, PredictorAfter, Faults;
    if !MemoryFaults(s.p, v.memorySize) {
      DrainShrinks(s.p, s.mem, s.predictor, v);
      var s' := Tick(s, v);
      DrainShrinks(s'.p, s'.mem, s'.predictor, v);
    }
  }

  /** The cycles of a program that executes `total` instructions, the last of which may throw. */
  ghost function CyclesOf(a: Arch, q: Predictor, v: Machine, total: nat): nat {
    if total == 0 then 0
    else Time(a, q, v, total - 1) + if RunEarly(a, q, v, total).arch.fault then 2 else 3
  }

  lemma RestsFrom(s: Vm, v: Machine, t: nat)
    requires AtRest(Ticks(s, v, t), v) && (t > 0 ==> !AtRest(Ticks(s, v, t - 1), v))
    ensures forall n: nat :: AtRest(Ticks(s, v, n), v) <==> n >= t
  {
    hide AtRest, Ticks;
    forall n: nat ensures AtRest(Ticks(s, v, n), v) <==> n >= t {
      if n >= t {
        TicksAdd(s, v, t, n - t);
        RestStays(Ticks(s, v, t), v, n - t);
      } else if AtRest(Ticks(s, v, n), v) {
        TicksAdd(s, v, n, t - 1 - n);
        RestStays(Ticks(s, v, n), v, t - 1 - n);
      }
    }
  }

  lemma RestsExactly(s: Vm, a: Arch, q: Predictor, v: Machine, total: nat)
    requires Starts(s, a, q, v) && !s.p.idEx.valid && !s.p.ifId.valid && EarlyFits(a, q, v) && total > 0
    requires !Stopped(RunEarly(a, q, v, total - 1).arch, v) && Stopped(RunEarly(a, q, v, total).arch, v)
    ensures var t := CyclesOf(a, q, v, total); AtRest(Ticks(s, v, t), v) && !AtRest(Ticks(s, v, t - 1), v)
  {
    hide Starts, Executes, EarlyFits, RunEarly, Ticks, Tick, Stopped, Time, MemoryFaults, Draining;
    var t := Time(a, q, v, total - 1);
    ExecutesAt(s, a, q, v, total - 1);
    var s0 := Ticks(s, v, t);
    LastLeaves(s0, a, q, v, total - 1);
    Drains(Tick(s0, v), v);
    NextTick(s, v, t);
    NextTick(s, v, t + 1);
    NextTick(s, v, t + 2);
  }

  lemma NextTick(s: Vm, v: Machine, n: nat)
    ensures Ticks(s, v, n + 1) == Tick(Ticks(s, v, n), v)
  {
    hide Tick;
  }

  /** The number of cycles, exactly: a program whose instructions number `total` is at rest from that cycle on and not
      before. */
  lemma CyclesExact(regs: Regs, mem: Flat, q: Predictor, v: Machine, total: nat)
    requires EarlyFits(Arch(0, regs, mem, false), q, v)
    requires Stopped(RunEarly(Arch(0, regs, mem, false), q, v, total).arch, v)
    requires total > 0 ==> !Stopped(RunEarly(Arch(0, regs, mem, false), q, v, total - 1).arch, v)
    ensures forall n: nat ::
      AtRest(Ticks(Start(regs, mem, q), v, n), v) <==> n >= CyclesOf(Arch(0, regs, mem, false), q, v, total)
  {
    hide EarlyFits, RunEarly, Starts, Time;
    var s, a := Start(regs, mem, q), Arch(0, regs, mem, false);
    StartStarts(regs, mem, q, v);
    if total > 0 { RestsExactly(s, a, q, v, total); } else { NothingToRun(regs, mem, q, v); }
    RestsFrom(s, v, CyclesOf(a, q, v, total));
  }

  lemma NothingToRun(regs: Regs, mem: Flat, q: Predictor, v: Machine)
    requires Stopped(RunEarly(Arch(0, regs, mem, false), q, v, 0).arch, v)
    ensures AtRest(Ticks(Start(regs, mem, q), v, 0), v)
  {}

  // ----- forwarding against stalling -----

  /** A load that is used at once is waited for in either configuration. */
  lemma HeldEitherWay(x: U32, f: FrontEnd, g: FrontEnd)
    requires f.last == g.last && Held(x, f, true)
    ensures Held(x, g, false)
  {
    hide Control, SourceA, SourceB, Rd;
    ControlIsSane(f.last);
    JalrReadsFirst(x);
  }

  lemma JalrReadsFirst(w: U32)
    ensures Control(w).branchOp == BJalr ==> NeedsA(Control(w))
  {
    hide AluR, AluI, Opcode, Funct3, Funct7;
  }

  /** The front ends of both configurations, where neither reads a word that has changed. */
  lemma {:induction false} SameFront(a: Arch, q: Predictor, v: Machine, k: nat)
    requires KeepsNext(a, v) && !Stopped(Run(a, v, k), v)
    ensures var v2 := v.(forwarding := !v.forwarding);
      var (f, g) := (FrontAt(a, q, v, k), FrontAt(a, q, v2, k));
      && SameFronts(f, g)
      && Word(f, Run(a, v, k).pc) == Word(g, Run(a, v, k).pc)
  {
    hide Run, Perform, LoadLE, Stopped, KeepsNext, Word, Advance, FrontAt, SameFronts;
    var v2 := v.(forwarding := !v.forwarding);
    SameRun(a, v, !v.forwarding);
    KeptIsCurrent(a, q, v, k);
    KeptIsCurrent(a, q, v2, k);
    if k > 0 {
      BeforeAt(a, q, v, k);
      BeforeAt(a, q, v2, k);
      SameFront(a, q, v, k - 1);
      SameAdvance(FrontAt(a, q, v, k - 1), FrontAt(a, q, v2, k - 1), Run(a, v, k - 1), v, v2);
    } else {
      SameStart(a, q, v);
    }
  }

  /** As far as the cost of an instruction depends on the front end, except for what stands in MEM. */
  ghost predicate SameFronts(f: FrontEnd, g: FrontEnd) {
    f.predictor == g.predictor && f.near == g.near && f.last == g.last
  }

  lemma SameStart(a: Arch, q: Predictor, v: Machine)
    ensures SameFronts(FrontAt(a, q, v, 0), FrontAt(a, q, v.(forwarding := !v.forwarding), 0))
  {}

  lemma SameAdvance(f: FrontEnd, g: FrontEnd, s: Arch, v: Machine, v2: Machine)
    requires SameFronts(f, g) && Word(f, s.pc) == Word(g, s.pc)
    ensures SameFronts(Advance(f, s, v), Advance(g, s, v2))
  {
    hide Word, IsClose, Leaves, Branches, TakenBy, Learn;
  }

  lemma GapNoLonger(e: Early, g: Early, v: Machine)
    requires e.arch == g.arch && v.forwarding && !Stopped(e.arch, v)
    requires Word(e.front, e.arch.pc) == Word(g.front, g.arch.pc) && e.front.predictor == g.front.predictor
    requires var (e', g') := (StepEarly(e, v), StepEarly(g, v.(forwarding := false)));
      Word(e'.front, e'.arch.pc) == Word(g'.front, g'.arch.pc) && e'.front.near == g'.front.near
    ensures Gap(e, v) <= Gap(g, v.(forwarding := false))
  {
    var v2 := v.(forwarding := false);
    var f', g' := StepEarly(e, v).front, StepEarly(g, v2).front;
    AdvanceLast(e, v);
    AdvanceLast(g, v2);
    hide StepEarly, Mispredicted, Held, Behind, Word, Stopped;
    if Held(NextWord(e, v), f', true) { HeldEitherWay(NextWord(e, v), f', g'); }
  }

  lemma AdvanceLast(e: Early, v: Machine)
    requires !Stopped(e.arch, v)
    ensures StepEarly(e, v).front.last == Word(e.front, e.arch.pc)
  {
    hide Perform, IsClose, Leaves, Branches, TakenBy, Learn, Word, Stopped;
  }

  /** Where no word changes just before it is executed, with forwarding each instruction is in EX no later. */
  lemma {:induction false} NoLater(a: Arch, q: Predictor, v: Machine, k: nat)
    requires v.forwarding && KeepsNext(a, v) && (k > 0 ==> !Stopped(Run(a, v, k), v))
    ensures Time(a, q, v, k) <= Time(a, q, v.(forwarding := false), k)
  {
    if k == 0 { return; }
    var v2 := v.(forwarding := false);
    BeforeAt(a, q, v, k);
    NoLater(a, q, v, k - 1);
    SameFront(a, q, v, k - 1);
    SameFront(a, q, v, k);
    BothRun(a, q, v, k - 1);
    BothRun(a, q, v, k);
    hide Gap, Run, KeepsNext, FrontAt, RunEarly, Word, StepEarly;
    NextEarly(a, q, v, k - 1);
    NextEarly(a, q, v2, k - 1);
    GapNoLonger(RunEarly(a, q, v, k - 1), RunEarly(a, q, v2, k - 1), v);
  }

  lemma BothRun(a: Arch, q: Predictor, v: Machine, k: nat)
    requires KeepsNext(a, v)
    ensures RunEarly(a, q, v, k) == Early(Run(a, v, k), FrontAt(a, q, v, k))
    ensures var v2 := v.(forwarding := !v.forwarding);
      RunEarly(a, q, v2, k) == Early(Run(a, v, k), FrontAt(a, q, v2, k))
  {
    var v2 := v.(forwarding := !v.forwarding);
    SameRun(a, v, !v.forwarding);
    KeepsNextSuffices(a, q, v);
    KeepsNextSuffices(a, q, v2);
    EarlyAgreesIff(a, q, v);
    EarlyAgreesIff(a, q, v2);
    FrontIsEarly(a, q, v, k);
    FrontIsEarly(a, q, v2, k);
  }

  /** Forwarding never costs a cycle. */
  lemma ForwardingNoSlower(a: Arch, q: Predictor, v: Machine, total: nat)
    requires v.forwarding && KeepsNext(a, v) && (total > 0 ==> !Stopped(Run(a, v, total - 1), v))
    ensures CyclesOf(a, q, v, total) <= CyclesOf(a, q, v.(forwarding := false), total)
  {
    hide Time, RunEarly, Run, KeepsNext, Stopped, FrontAt;
    if total > 0 {
      assert total - 1 > 0 ==> !Stopped(Run(a, v, total - 1), v);
      NoLater(a, q, v, total - 1);
      BothRun(a, q, v, total);
    }
  }
}
