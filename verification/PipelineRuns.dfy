/** Whole runs of the pipeline: what it computes, precise faults, a bound on the number of cycles, and exactly when it
    executes one instruction after the other. */
module PipelineRuns {
  import opened Words
  import opened ImmGenerator
  import opened FlatMemory
  import opened Datapath
  import opened Pipeline
  import opened Sequential
  import opened EarlyFetch
  import opened CurrentWords
  import opened PipelineProof

  /** The running VM: pipeline, memory, predictor and retirement counter; `fault` once a step has thrown. */
  datatype Vm = Vm(p: Pipe, mem: Flat, predictor: Predictor, retired: nat, fault: bool)

  /** A loaded program about to run; register values may have been set beforehand. */
  ghost function Start(regs: Regs, mem: Flat, predictor: Predictor): Vm {
    Vm(Pipe(0, regs, IFID_BUBBLE, IDEX_BUBBLE, EXMEM_BUBBLE, MEMWB_BUBBLE), mem, predictor, 0, false)
  }

  /** VM_PROGRAM_END: everything fetched and the pipeline empty. */
  predicate Ended(s: Vm, v: Machine) {
    s.p.pc >= v.size && !s.p.ifId.valid && !s.p.idEx.valid && !s.p.exMem.valid && !s.p.memWb.valid
  }

  /** `Step`, which does nothing once the program has ended. */
  ghost function Tick(s: Vm, v: Machine): Vm {
    if s.fault || Ended(s, v) then s else Clock(s, v)
  }

  /** One clock cycle. When MEM throws, WB has already run and nothing else of the cycle is committed. */
  ghost function Clock(s: Vm, v: Machine): Vm {
    var retired := s.retired + One(s.p.memWb.valid);
    if MemoryFaults(s.p, v.memorySize)
      then s.(p := s.p.(regs := WriteBackStage(s.p)), retired := retired, fault := true)
    else Vm(Cycle(s.p, s.mem, s.predictor, v), MemoryAfter(s.p, s.mem), PredictorAfter(s.p, v.forwarding, s.predictor),
            retired, false)
  }

  ghost function Ticks(s: Vm, v: Machine, n: nat): Vm {
    if n == 0 then s else Tick(Ticks(s, v, n - 1), v)
  }

  function One(b: bool): nat { if b then 1 else 0 }

  /** The number of instructions that have left EX. */
  function Issued(s: Vm): nat { s.retired + One(s.p.memWb.valid) + One(s.p.exMem.valid) }

  // ----- refinement -----

  /** The VM stands for execution with early fetches of the instructions issued so far; after a fault, for that of the
      instructions retired, of which the next one faults. */
  ghost predicate Refines(s: Vm, a: Arch, q: Predictor, v: Machine) {
    if s.fault then
      var e := RunEarly(a, q, v, s.retired);
      e.arch == Arch(e.arch.pc, s.p.regs, s.mem, false) && StepEarly(e, v).arch.fault
    else
      var e := RunEarly(a, q, v, Issued(s));
      && Inv(s.p, s.mem, e.front, v) && s.predictor == e.front.predictor
      && Abs(s.p, s.mem, v) == e.arch
      && (s.p.exMem.valid ==> !RunEarly(a, q, v, Issued(s) - 1).arch.fault)
  }

  lemma StartRefines(regs: Regs, mem: Flat, q: Predictor, v: Machine)
    ensures Refines(Start(regs, mem, q), Arch(0, regs, mem, false), q, v)
  {
    hide Control, LoadLE;
    NopIsSane();
  }

  lemma IssuingIsRunning(s: Vm, a: Arch, q: Predictor, v: Machine)
    requires Refines(s, a, q, v) && !s.fault && s.p.idEx.valid && !MemoryFaults(s.p, v.memorySize)
    ensures !Stopped(RunEarly(a, q, v, Issued(s)).arch, v)
    ensures RunEarly(a, q, v, Issued(s) + 1) == StepEarly(RunEarly(a, q, v, Issued(s)), v)
  {
    hide MemoryAfter, MemoryFaults, DrainedRegs, StepEarly, Inv;
    InEx(s.p, s.mem, RunEarly(a, q, v, Issued(s)).front, v);
  }

  lemma FetchesFit(s: Vm, a: Arch, q: Predictor, v: Machine)
    requires Refines(s, a, q, v) && EarlyFits(a, q, v) && !s.fault && !MemoryFaults(s.p, v.memorySize)
    ensures NotLost(s.p, s.mem, RunEarly(a, q, v, Issued(s)).front, v)
  {
    hide RunEarly, Inv, MemoryFaults, Perform, Lost, Abs, Word, Advance;
    var k := Issued(s);
    assert !Lost(RunEarly(a, q, v, k).arch.pc, v);
    if s.p.idEx.valid {
      IssuingIsRunning(s, a, q, v);
      assert !Lost(RunEarly(a, q, v, k + 1).arch.pc, v);
    }
  }

  lemma TickRefines(s: Vm, a: Arch, q: Predictor, v: Machine)
    requires Refines(s, a, q, v) && EarlyFits(a, q, v)
    ensures Refines(Tick(s, v), a, q, v)
  {
    hide Inv, Cycle, MemoryAfter, Abs, MemoryFaults, WriteBackStage, DrainedRegs, PredictorAfter, EarlyFits, RunEarly,
      NotLost, Perform, Advance, Word;
    if s.fault || Ended(s, v) { return; }
    if MemoryFaults(s.p, v.memorySize) {
      FaultIsPrecise(s, a, q, v);
    } else {
      var e := RunEarly(a, q, v, Issued(s));
      if s.p.idEx.valid { IssuingIsRunning(s, a, q, v); }
      FetchesFit(s, a, q, v);
      CycleRefines(s.p, s.mem, e.front, v);
      CycleAdvances(s.p, s.mem, s.predictor, v);
      StagesMove(s.p, s.mem, v, Cycle(s.p, s.mem, s.predictor, v));
    }
  }

  lemma StagesMove(p: Pipe, m: Flat, v: Machine, p': Pipe)
    requires Advances(p, m, v, p')
    ensures p'.exMem.valid == p.idEx.valid && p'.memWb.valid == p.exMem.valid
  {
    hide WriteBackStage, ExResult, OperandsB, Loaded;
  }

  /** When MEM faults, what the VM is left with is the state before the faulting instruction. */
  lemma FaultIsPrecise(s: Vm, a: Arch, q: Predictor, v: Machine)
    requires Refines(s, a, q, v) && !s.fault && MemoryFaults(s.p, v.memorySize) && !Ended(s, v)
    ensures Refines(Tick(s, v), a, q, v) && Tick(s, v).fault && Tick(s, v).p.pc == s.p.pc
    ensures RunEarly(a, q, v, Tick(s, v).retired).arch.pc == Wrap64(s.p.exMem.pcInc - 4)
  {
    hide Inv, Cycle, MemoryAfter, WriteBackStage, PredictorAfter, Faults, Perform, Advance, Word;
    var before := RunEarly(a, q, v, Issued(s) - 1);
    assert RunEarly(a, q, v, Issued(s)) == StepEarly(before, v);
    FaultKeeps(before.arch, Word(before.front, before.arch.pc), v);
  }

  lemma FaultKeeps(s: Arch, w: U32, v: Machine)
    requires Perform(s, w, v).fault && !s.fault
    ensures Perform(s, w, v) == s.(fault := true)
  {
    hide Control, AluResult, Faults;
  }

  lemma {:induction false} TicksRefine(s: Vm, a: Arch, q: Predictor, v: Machine, n: nat)
    requires Refines(s, a, q, v) && EarlyFits(a, q, v)
    ensures Refines(Ticks(s, v, n), a, q, v)
  {
    hide Refines, Tick, EarlyFits;
    if n > 0 {
      TicksRefine(s, a, q, v, n - 1);
      TickRefines(Ticks(s, v, n - 1), a, q, v);
    }
  }

  /** After any number of cycles, with any predictor, forwarding or stalling, and whatever the program stores where, the
      VM stands for one-at-a-time execution with early fetches. */
  lemma PipelineRefinesEarly(regs: Regs, mem: Flat, q: Predictor, v: Machine, n: nat)
    requires EarlyFits(Arch(0, regs, mem, false), q, v)
    ensures Refines(Ticks(Start(regs, mem, q), v, n), Arch(0, regs, mem, false), q, v)
  {
    hide Refines, Ticks, EarlyFits, Start;
    StartRefines(regs, mem, q, v);
    TicksRefine(Start(regs, mem, q), Arch(0, regs, mem, false), q, v, n);
  }

  // ----- rest -----

  /** The architectural outcome of a VM that has come to rest. */
  ghost function Outcome(s: Vm): Arch { Arch(s.p.pc, s.p.regs, s.mem, s.fault) }

  predicate AtRest(s: Vm, v: Machine) { s.fault || Ended(s, v) }

  /** At VM_PROGRAM_END the VM is what it stands for, and that has stopped. */
  lemma EndIsEnd(s: Vm, v: Machine)
    requires !s.fault && Ended(s, v)
    ensures Outcome(s) == Abs(s.p, s.mem, v) && Stopped(Outcome(s), v)
  {
    hide Faults, Loaded;
  }

  lemma {:induction false} StoppedStays(a: Arch, v: Machine, j: nat, k: nat)
    requires j <= k && Stopped(Run(a, v, j), v)
    ensures Run(a, v, k) == Run(a, v, j)
    decreases k
  {
    hide Perform;
    if j < k { StoppedStays(a, v, j, k - 1); }
  }

  lemma {:induction false} StoppedEarly(a: Arch, q: Predictor, v: Machine, j: nat, k: nat)
    requires j <= k && Stopped(RunEarly(a, q, v, j).arch, v)
    ensures RunEarly(a, q, v, k) == RunEarly(a, q, v, j)
    decreases k
  {
    hide Perform, Advance, Word;
    if j < k { StoppedEarly(a, q, v, j, k - 1); }
  }

  // ----- progress -----

  /** Cycles until an instruction enters EX. */
  function Distance(p: Pipe): nat {
    if p.idEx.valid then 0 else if p.ifId.valid then 1 + One(p.exMem.valid) else 2
  }

  predicate Draining(p: Pipe, v: Machine) { !p.idEx.valid && !p.ifId.valid && p.pc >= v.size }

  /** Cycles left, when the program executes `total` instructions. */
  function Remaining(s: Vm, v: Machine, total: nat): int {
    if Draining(s.p, v) then (if s.p.exMem.valid then 2 else One(s.p.memWb.valid))
    else 3 + 3 * (total - Issued(s)) + Distance(s.p)
  }

  /** A stall needs an instruction in MEM to wait for once EX is empty, so it lasts one more cycle at most. */
  lemma DistanceShrinks(p: Pipe, m: Flat, predictor: Predictor, v: Machine)
    requires Bubbles(p) && !p.idEx.valid && !Draining(p, v) && !Lost(Front(p), v)
    ensures Distance(Cycle(p, m, predictor, v)) < Distance(p)
    ensures !Draining(Cycle(p, m, predictor, v), v)
  {
    hide WriteBackStage, MemoryStage, PredictorAfter, Control, DecodeFlushes, Prediction, Immediate, MemoryAfter,
      SourceA, SourceB, Rd, ReadGpr, NeedsA, NeedsB, ExResult, OperandsB, LoadLE, Sane;
  }

  lemma DrainShrinks(p: Pipe, m: Flat, predictor: Predictor, v: Machine)
    requires Draining(p, v)
    ensures var p' := Cycle(p, m, predictor, v); Draining(p', v) && !p'.exMem.valid && p'.memWb.valid == p.exMem.valid
  {
    hide WriteBackStage, PredictorAfter, Control, DecodeFlushes, Prediction, Immediate, MemoryAfter, Loaded, Stalls,
      Decoded;
  }

  lemma DistanceBound(p: Pipe)
    ensures Distance(p) <= 2
  {}

  /** A cycle without an instruction in EX brings one nearer. */
  lemma Approaches(s: Vm, a: Arch, q: Predictor, v: Machine)
    requires Refines(s, a, q, v) && EarlyFits(a, q, v) && !s.fault && !MemoryFaults(s.p, v.memorySize)
    requires !s.p.idEx.valid && !Draining(s.p, v)
    ensures var p' := Cycle(s.p, s.mem, s.predictor, v); Distance(p') < Distance(s.p) && !Draining(p', v)
  {
    hide Cycle, MemoryAfter, MemoryFaults, DrainedRegs, RunEarly, Lost, OperandsReady, JumpsSpaced, FollowsPrediction,
      Reads, Distance, Draining, Bubbles, Front;
    assert !Lost(RunEarly(a, q, v, Issued(s)).arch.pc, v);
    DistanceShrinks(s.p, s.mem, s.predictor, v);
  }

  lemma TickShrinks(s: Vm, a: Arch, q: Predictor, v: Machine, total: nat)
    requires Refines(s, a, q, v) && EarlyFits(a, q, v) && !AtRest(s, v)
    requires Stopped(RunEarly(a, q, v, total).arch, v) && Issued(s) <= total
    ensures var s' := Tick(s, v);
      s'.fault || (Issued(s') <= total && Remaining(s', v, total) < Remaining(s, v, total))
  {
    hide Cycle, MemoryAfter, MemoryFaults, WriteBackStage, PredictorAfter, RunEarly, Distance, Refines, EarlyFits;
    if !MemoryFaults(s.p, v.memorySize) {
      var p' := Cycle(s.p, s.mem, s.predictor, v);
      CycleAdvances(s.p, s.mem, s.predictor, v);
      StagesMove(s.p, s.mem, v, p');
      DistanceBound(p');
      if Draining(s.p, v) {
        DrainShrinks(s.p, s.mem, s.predictor, v);
      } else if s.p.idEx.valid {
        IssuingIsRunning(s, a, q, v);
        if total <= Issued(s) { StoppedEarly(a, q, v, total, Issued(s)); }
      } else {
        Approaches(s, a, q, v);
      }
    }
  }

  /** A program that stops after `total` instructions is at rest in the pipeline after 3 * total + 5 cycles at
      the latest: at most three cycles an instruction, and five to fill and drain. */
  lemma {:induction false} CycleBound(s: Vm, a: Arch, q: Predictor, v: Machine, total: nat, n: nat)
    requires Refines(s, a, q, v) && EarlyFits(a, q, v)
    requires Stopped(RunEarly(a, q, v, total).arch, v) && Issued(s) <= total
    requires AtRest(s, v) || Remaining(s, v, total) <= n
    ensures AtRest(Ticks(s, v, n), v)
    decreases n
  {
    hide Refines, Tick, Stopped, EarlyFits, Remaining;
    if AtRest(s, v) { RestStays(s, v, n); return; }
    RemainingPositive(s, v, total);
    TickRefines(s, a, q, v);
    TickShrinks(s, a, q, v, total);
    var s' := Tick(s, v);
    TicksFront(s, v, n - 1);
    if s'.fault { RestStays(s', v, n - 1); } else { CycleBound(s', a, q, v, total, n - 1); }
  }

  lemma RemainingPositive(s: Vm, v: Machine, total: nat)
    requires !AtRest(s, v) && Issued(s) <= total
    ensures Remaining(s, v, total) > 0
  {}

  lemma RestTick(s: Vm, v: Machine)
    requires AtRest(s, v)
    ensures Tick(s, v) == s
  {
    hide Clock, Ended;
  }

  lemma {:induction false} RestStays(s: Vm, v: Machine, n: nat)
    requires AtRest(s, v)
    ensures Ticks(s, v, n) == s
  {
    hide AtRest, Tick;
    RestTick(s, v);
    if n > 0 { RestStays(s, v, n - 1); }
  }

  lemma {:induction false} TicksFront(s: Vm, v: Machine, n: nat)
    ensures Ticks(s, v, n + 1) == Ticks(Tick(s, v), v, n)
  {
    hide Tick;
    if n > 0 { TicksFront(s, v, n - 1); }
  }

  // ----- sequential execution -----

  /** The VM stands for sequential execution of the instructions issued so far; after a fault, for that of the
      instructions retired, of which the next one faults. */
  ghost predicate Follows(s: Vm, a: Arch, v: Machine) {
    if s.fault then
      && Run(a, v, s.retired) == Arch(Run(a, v, s.retired).pc, s.p.regs, s.mem, false)
      && Run(a, v, s.retired + 1).fault
    else Abs(s.p, s.mem, v) == Run(a, v, Issued(s))
  }

  ghost predicate AlwaysFollows(s: Vm, a: Arch, v: Machine) { forall n: nat :: Follows(Ticks(s, v, n), a, v) }

  lemma RefinesFollows(s: Vm, a: Arch, q: Predictor, v: Machine)
    requires Refines(s, a, q, v) && EarlyAgrees(a, q, v)
    ensures Follows(s, a, v)
  {
    hide Inv, Abs, Perform, Advance, Word, RunEarly, Run;
    assert RunEarly(a, q, v, Issued(s)).arch == Run(a, v, Issued(s));
    assert RunEarly(a, q, v, s.retired).arch == Run(a, v, s.retired);
    NextEarly(a, q, v, s.retired);
    assert RunEarly(a, q, v, s.retired + 1).arch == Run(a, v, s.retired + 1);
  }

  lemma NextEarly(a: Arch, q: Predictor, v: Machine, k: nat)
    ensures RunEarly(a, q, v, k + 1) == StepEarly(RunEarly(a, q, v, k), v)
  {
    hide StepEarly;
  }

  /** While control is in the text, some later cycle issues an instruction. */
  lemma {:induction false} Issues(s: Vm, a: Arch, q: Predictor, v: Machine) returns (n: nat)
    requires Refines(s, a, q, v) && EarlyFits(a, q, v) && !s.fault
    requires !Stopped(RunEarly(a, q, v, Issued(s)).arch, v)
    ensures var s' := Ticks(s, v, n); !s'.fault && Issued(s') == Issued(s) + 1 && Refines(s', a, q, v)
    decreases Distance(s.p)
  {
    hide Cycle, MemoryAfter, MemoryFaults, WriteBackStage, PredictorAfter, RunEarly, Distance, EarlyFits, Refines,
      Stopped, Ticks;
    StandsInText(s, a, q, v);
    TickRefines(s, a, q, v);
    CycleAdvances(s.p, s.mem, s.predictor, v);
    StagesMove(s.p, s.mem, v, Cycle(s.p, s.mem, s.predictor, v));
    OneTick(s, v);
    if s.p.idEx.valid { return 1; }
    Approaches(s, a, q, v);
    n := Issues(Tick(s, v), a, q, v);
    TicksFront(s, v, n);
    n := n + 1;
  }

  lemma OneTick(s: Vm, v: Machine)
    ensures Ticks(s, v, 1) == Tick(s, v)
  {
    hide Tick;
    assert Ticks(s, v, 0) == s;
  }

  lemma StandsInText(s: Vm, a: Arch, q: Predictor, v: Machine)
    requires Refines(s, a, q, v) && !s.fault && !Stopped(RunEarly(a, q, v, Issued(s)).arch, v)
    ensures !MemoryFaults(s.p, v.memorySize) && !Ended(s, v) && (s.p.idEx.valid || !Draining(s.p, v))
  {
    hide MemoryAfter, MemoryFaults, DrainedRegs, RunEarly, Inv;
  }

  /** The VM at its start. */
  ghost predicate Starts(s: Vm, a: Arch, q: Predictor, v: Machine) {
    Refines(s, a, q, v) && !s.fault && Issued(s) == 0
  }

  /** So each of the first `k` instructions is issued, if there are so many. */
  lemma {:induction false} Reaches(s: Vm, a: Arch, q: Predictor, v: Machine, k: nat) returns (n: nat)
    requires Starts(s, a, q, v) && EarlyFits(a, q, v) && (k > 0 ==> !Stopped(RunEarly(a, q, v, k - 1).arch, v))
    ensures !Ticks(s, v, n).fault && Issued(Ticks(s, v, n)) == k
  {
    hide RunEarly, EarlyFits, Refines, Stopped, Tick;
    if k == 0 { return 0; }
    if k > 1 && Stopped(RunEarly(a, q, v, k - 2).arch, v) { StoppedEarly(a, q, v, k - 2, k - 1); }
    var n0 := Reaches(s, a, q, v, k - 1);
    TicksRefine(s, a, q, v, n0);
    var n1 := Issues(Ticks(s, v, n0), a, q, v);
    TicksAdd(s, v, n0, n1);
    n := n0 + n1;
  }

  lemma {:induction false} TicksAdd(s: Vm, v: Machine, m: nat, n: nat)
    ensures Ticks(s, v, m + n) == Ticks(Ticks(s, v, m), v, n)
  {
    hide Tick;
    if n > 0 { TicksAdd(s, v, m, n - 1); }
  }

  lemma {:induction false} FollowedIsEarly(s: Vm, a: Arch, q: Predictor, v: Machine, k: nat)
    requires Starts(s, a, q, v) && EarlyFits(a, q, v) && AlwaysFollows(s, a, v)
    ensures RunEarly(a, q, v, k).arch == Run(a, v, k)
  {
    hide EarlyFits, Inv, Ticks, Abs, Stopped, Issued, StepEarly, Step, Starts;
    if k == 0 { return; }
    FollowedIsEarly(s, a, q, v, k - 1);
    if Stopped(RunEarly(a, q, v, k - 1).arch, v) {
      StoppedStays(a, v, k - 1, k);
      StoppedEarly(a, q, v, k - 1, k);
    } else {
      var n := Reaches(s, a, q, v, k);
      ReachedAgrees(s, a, q, v, n);
    }
  }

  lemma ReachedAgrees(s: Vm, a: Arch, q: Predictor, v: Machine, n: nat)
    requires Starts(s, a, q, v) && EarlyFits(a, q, v) && AlwaysFollows(s, a, v) && !Ticks(s, v, n).fault
    ensures var k := Issued(Ticks(s, v, n)); RunEarly(a, q, v, k).arch == Run(a, v, k)
  {
    hide EarlyFits, Inv, Ticks, Abs, Issued, RunEarly, Run;
    TicksRefine(s, a, q, v, n);
    assert Follows(Ticks(s, v, n), a, v);
  }

  lemma FollowsIff(s: Vm, a: Arch, q: Predictor, v: Machine)
    requires Starts(s, a, q, v) && EarlyFits(a, q, v)
    ensures AlwaysFollows(s, a, v) <==> ReadsCurrent(a, q, v)
  {
    hide RunEarly, Run, EarlyFits, ReadsCurrent, Refines, Follows, Ticks;
    EarlyAgreesIff(a, q, v);
    if ReadsCurrent(a, q, v) {
      forall n: nat ensures Follows(Ticks(s, v, n), a, v) {
        TicksRefine(s, a, q, v, n);
        RefinesFollows(Ticks(s, v, n), a, q, v);
      }
    }
    if AlwaysFollows(s, a, v) {
      forall k: nat ensures RunEarly(a, q, v, k).arch == Run(a, v, k) { FollowedIsEarly(s, a, q, v, k); }
    }
  }

  lemma StartStarts(regs: Regs, mem: Flat, q: Predictor, v: Machine)
    ensures Starts(Start(regs, mem, q), Arch(0, regs, mem, false), q, v)
  {
    hide Refines;
    StartRefines(regs, mem, q, v);
  }

  /** The pipeline follows sequential execution at every cycle exactly if every word that it reads early does what the
      current one does. */
  lemma PipelineFollowsIff(regs: Regs, mem: Flat, q: Predictor, v: Machine)
    requires EarlyFits(Arch(0, regs, mem, false), q, v)
    ensures AlwaysFollows(Start(regs, mem, q), Arch(0, regs, mem, false), v)
      <==> ReadsCurrent(Arch(0, regs, mem, false), q, v)
  {
    hide *;
    StartStarts(regs, mem, q, v);
    FollowsIff(Start(regs, mem, q), Arch(0, regs, mem, false), q, v);
  }

  /** With forwarding, and a predictor that never answers taken, that is exactly if every instruction does the same with
      its word as memory held it two instructions before, or behind a taken transfer as memory holds it. */
  lemma ForwardingFollowsIff(regs: Regs, mem: Flat, q: Predictor, v: Machine)
    requires v.forwarding && NeverPredictsTaken(Arch(0, regs, mem, false), q, v)
    requires EarlyFits(Arch(0, regs, mem, false), q, v)
    ensures AlwaysFollows(Start(regs, mem, q), Arch(0, regs, mem, false), v)
      <==> ReadsWell(Arch(0, regs, mem, false), v)
  {
    hide *;
    PipelineFollowsIff(regs, mem, q, v);
    ForwardingReadsIff(Arch(0, regs, mem, false), q, v);
  }

  /** After any number of cycles the VM then stands for sequential execution of the instructions issued so far; a fault
      leaves exactly the retired ones executed. */
  lemma PipelineRefinesSequential(regs: Regs, mem: Flat, q: Predictor, v: Machine, n: nat)
    requires ReadsCurrent(Arch(0, regs, mem, false), q, v) && Fits(Arch(0, regs, mem, false), v)
    ensures Follows(Ticks(Start(regs, mem, q), v, n), Arch(0, regs, mem, false), v)
  {
    hide ReadsCurrent, Fits, Follows, Ticks, Start;
    FitsEarly(Arch(0, regs, mem, false), q, v);
    PipelineFollowsIff(regs, mem, q, v);
  }

  /** At VM_PROGRAM_END program counter, registers and memory are those of the stopped sequential program. */
  lemma EndIsSequentialEnd(s: Vm, a: Arch, v: Machine)
    requires Follows(s, a, v) && !s.fault && Ended(s, v)
    ensures Outcome(s) == Run(a, v, s.retired) && Stopped(Run(a, v, s.retired), v)
  {
    EndIsEnd(s, v);
    hide Abs, Run;
  }

  /** A program that stops does so in the pipeline within the bound, with the sequential program's outcome:
      the same registers and memory, and the same program counter unless it faulted. */
  lemma PipelineComputesProgram(regs: Regs, mem: Flat, q: Predictor, v: Machine, total: nat)
    requires ReadsCurrent(Arch(0, regs, mem, false), q, v) && Fits(Arch(0, regs, mem, false), v)
    requires Stopped(Run(Arch(0, regs, mem, false), v, total), v)
    ensures var (s, t) := (Ticks(Start(regs, mem, q), v, 3 * total + 5),
      Run(Arch(0, regs, mem, false), v, total));
      && AtRest(s, v)
      && (s.p.regs, s.mem, s.fault) == (t.regs, t.mem, t.fault)
      && (!s.fault ==> s.p.pc == t.pc)
  {
    hide *;
    StartStarts(regs, mem, q, v);
    RestsWith(Start(regs, mem, q), Arch(0, regs, mem, false), q, v, total);
  }

  lemma RestsWith(s0: Vm, a: Arch, q: Predictor, v: Machine, total: nat)
    requires Starts(s0, a, q, v) && ReadsCurrent(a, q, v) && Fits(a, v) && Stopped(Run(a, v, total), v)
    ensures var (s, t) := (Ticks(s0, v, 3 * total + 5), Run(a, v, total));
      && AtRest(s, v)
      && (s.p.regs, s.mem, s.fault) == (t.regs, t.mem, t.fault)
      && (!s.fault ==> s.p.pc == t.pc)
  {
    hide Refines, Ticks, ReadsCurrent, Fits, Stopped, Run, RunEarly, Follows;
    FitsEarly(a, q, v);
    EarlyAgreesIff(a, q, v);
    assert RunEarly(a, q, v, total).arch == Run(a, v, total);
    CycleBound(s0, a, q, v, total, 3 * total + 5);
    FollowsIff(s0, a, q, v);
    RestOutcome(Ticks(s0, v, 3 * total + 5), a, v, total);
  }

  lemma RestOutcome(s: Vm, a: Arch, v: Machine, total: nat)
    requires Follows(s, a, v) && AtRest(s, v) && Stopped(Run(a, v, total), v)
    ensures var t := Run(a, v, total);
      (s.p.regs, s.mem, s.fault) == (t.regs, t.mem, t.fault) && (!s.fault ==> s.p.pc == t.pc)
  {
    hide Abs, LoadLE, Perform, Run, Ended;
    var k := if s.fault then s.retired + 1 else s.retired;
    if s.fault {
      FaultedStep(a, v, s.retired);
    } else {
      EndIsSequentialEnd(s, a, v);
    }
    if k <= total { StoppedStays(a, v, k, total); } else { StoppedStays(a, v, total, k); }
  }

  lemma FaultedStep(a: Arch, v: Machine, k: nat)
    requires Run(a, v, k + 1).fault && !Run(a, v, k).fault
    ensures Run(a, v, k + 1) == Run(a, v, k).(fault := true)
  {
    hide Perform, LoadLE;
    assert Run(a, v, k + 1) == Step(Run(a, v, k), v);
    FaultKeeps(Run(a, v, k), LoadLE(Run(a, v, k).mem, Run(a, v, k).pc, 4), v);
  }

  /** Forwarding or stalling, and every predictor, give a stopping program the same outcome. */
  lemma ConfigurationsAgree(regs: Regs, mem: Flat, p1: Predictor, p2: Predictor, v: Machine, forwarding: bool,
    total: nat)
    requires KeepsNext(Arch(0, regs, mem, false), v) && Fits(Arch(0, regs, mem, false), v)
    requires Stopped(Run(Arch(0, regs, mem, false), v, total), v)
    ensures var n := 3 * total + 5;
      var (s1, s2) := (Ticks(Start(regs, mem, p1), v, n), Ticks(Start(regs, mem, p2), v.(forwarding := forwarding), n));
      (s1.p.regs, s1.mem, s1.fault) == (s2.p.regs, s2.mem, s2.fault) && (!s1.fault ==> s1.p.pc == s2.p.pc)
  {
    var a, v2 := Arch(0, regs, mem, false), v.(forwarding := forwarding);
    SameRun(a, v, forwarding);
    KeepsNextSuffices(a, p1, v);
    KeepsNextSuffices(a, p2, v2);
    hide *;
    PipelineComputesProgram(regs, mem, p1, v, total);
    PipelineComputesProgram(regs, mem, p2, v2, total);
  }

  lemma SameRun(a: Arch, v: Machine, forwarding: bool)
    ensures var v2 := v.(forwarding := forwarding);
      && (forall k: nat :: Run(a, v2, k) == Run(a, v, k))
      && (KeepsNext(a, v) <==> KeepsNext(a, v2))
      && (Fits(a, v) <==> Fits(a, v2))
      && (forall s :: Stopped(s, v) <==> Stopped(s, v2))
  {
    hide LoadLE, TakenBy, Run;
    var v2 := v.(forwarding := forwarding);
    forall k: nat ensures Run(a, v2, k) == Run(a, v, k) { SameRunAt(a, v, forwarding, k); }
  }

  lemma {:induction false} SameRunAt(a: Arch, v: Machine, forwarding: bool, k: nat)
    ensures Run(a, v.(forwarding := forwarding), k) == Run(a, v, k)
  {
    hide Control, LoadLE, AluResult, Faults;
    if k > 0 { SameRunAt(a, v, forwarding, k - 1); }
  }
}
