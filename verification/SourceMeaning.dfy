/** From source to execution: what both machines do when they step over an instruction of an assembled program. */
module SourceMeaning {
  import opened Words
  import opened Instructions
  import Tokens
  import opened CodeGenerator
  import opened ImmGenerator
  import opened FlatMemory
  import opened ParseFormats
  import opened ParserSpec
  import opened ParserProof
  import opened Datapath
  import Pipeline
  import opened Sequential
  import opened CurrentWords
  import opened PipelineRuns
  import opened RvssAgrees
  import opened Meaning
  import opened LoadedImage
  import opened EndToEnd
  import opened Decoder
  import Rvss
  import VmBase

  // ----- the pipeline's semantics -----

  ghost function ArchEffect(a: Arch): Effect { Effect(a.pc, a.regs, a.mem) }

  /** The upper immediates whose sign the pipeline misreads: bit 17 of the immediate set, bit 19 clear. */
  predicate Misread(i: Inst) { i.InstU? && i.rd != 0 && i.imm < 0x8_0000 && i.imm / 0x2_0000 % 2 == 1 }

  lemma MisreadWord(op: UOp, rd: Reg, imm: int)
    requires 0 <= imm < 0x10_0000
    ensures MisreadUpper(GenerateU(op, rd, imm)) <==> Misread(InstU(op, rd, imm))
  {
    var w := GenerateU(op, rd, imm);
    RoundTripU(op, rd, imm);
    hide GenerateU, Opcode, Rd;
    UpperImmediateBits(w);
    assert w / 0x1000 == imm by { UpperField(w, imm); }
    SameShift(w, imm, w % 0x1000, 0x8_0000);
    SameShift(w, imm, w % 0x1000, 0x2_0000);
  }

  lemma UpperField(w: U32, imm: int)
    requires ImmU(w) == imm % 0x10_0000 && 0 <= imm < 0x10_0000
    ensures w / 0x1000 == imm
  {}

  /** Generated integer words are among those both machines give a meaning to. */
  lemma IntegerIsLegal(i: Inst)
    requires WellFormed(i) && Integer(i)
    ensures Legal(Generate(i)) && (MisreadUpper(Generate(i)) <==> Misread(i))
  {
    OpcodeIs(i);
    OpcodeCases(i);
    hide OpcodeOf, Opcode, GenerateR, GenerateI1, GenerateI2, GenerateStore, GenerateB, GenerateU, GenerateJ, Funct3,
      Rd, Bits;
    match i
    case InstI1(op, rd, rs1, imm) =>
      if op != Addiw { ImmediateWord(op, rd, rs1, imm); }
    case InstB(op, rs1, rs2, imm) => RoundTripB(op, rs1, rs2, imm);
    case InstU(op, rd, imm) => MisreadWord(op, rd, imm);
    case _ =>
  }

  lemma OpcodeCases(i: Inst)
    requires Integer(i)
    ensures OpcodeOf(i) in {0x33, 0x3B, 0x13, 0x1B, 0x03, 0x67, 0x23, 0x63, 0x37, 0x17, 0x6F}
    ensures OpcodeOf(i) == 0x03 ==> i.InstI1? && IsLoad(i.i1)
    ensures OpcodeOf(i) == 0x63 <==> i.InstB?
    ensures OpcodeOf(i) == 0x37 || OpcodeOf(i) == 0x17 <==> i.InstU?
  {}

  /** The pipeline's semantics faults exactly if the instruction is executed and accesses memory out of range, and
      otherwise gives it its meaning exactly if it is effective and no misread upper immediate. */
  lemma PerformMeansIff(s: Rvss.Core, v: Pipeline.Machine, i: Inst)
    requires WellFormed(i) && Integer(i) && Determined(i, s.regs)
    ensures var a := Perform(ArchOf(s), Generate(i), v);
      && (a.fault <==> Executed(i) && OutOfRange(i, s.regs, v.memorySize))
      && (!a.fault ==> (ArchEffect(a) == Meant(i, s) <==> Effective(i, s) && !Misread(i)))
  {
    assert Misread(i) ==> Executed(i);
    hide Perform, Generate, Meant, Executed, Determined, OutOfRange, Rvss.Performed, Rvss.Throws, Misread, MisreadUpper,
      Legal, Left;
    IntegerIsLegal(i);
    AgreesIff(s, NO_LATCHES, Generate(i), v);
    MeansIff(s, NO_LATCHES, i, v.memorySize);
  }

  const NO_LATCHES := Rvss.Latches(false, 0)

  // ----- programs -----

  /** The machine stands before instruction `i` of the program, whose word is still as it was loaded. */
  ghost predicate Before(s: Rvss.Core, m: Flat, o: Options, p: VmBase.Program, i: nat) {
    s.pc == 4 * i && LoadLE(s.mem, 4 * i, 4) == Fetched(m, o, p, i)
  }

  /** The instruction that unit `i` of the source denotes. */
  function SourceInst(ts: seq<Tokens.Token>, o: Options, i: nat): Inst
    requires Terminates(ts) && i < |Parse(ts, o).code| && Instruction(Parse(ts, o).code[i].0).Ok?
  {
    Normal(Instruction(Parse(ts, o).code[i].0).value)
  }

  /** From source to execution. When either machine steps over instruction `i` of an assembled and loaded program, it
      does what the source's mnemonic and operands mean: the single-cycle VM for every effective integer instruction,
      the pipeline's semantics for those that are no misread upper immediates. It stops with an exception exactly on an
      access out of range. */
  lemma SourceStep(ts: seq<Tokens.Token>, o: Options, p: VmBase.Program, m: Flat, s: Rvss.Vm, v: Pipeline.Machine,
    i: nat)
    requires Terminates(ts) && Assembles(ts, o, p) && Separate(o.dataStart, p) && i < |p.text|
    requires !JumpsToData(Parse(ts, o).code[i].0, Parse(ts, o).symbols)
    requires Before(s.core, m, o, p, i) && v.size == 4 * |p.text| && v.size <= v.memorySize
    ensures |Parse(ts, o).code| == |p.text| && Instruction(Parse(ts, o).code[i].0).Ok?
    ensures var inst := SourceInst(ts, o, i);
      WellFormed(inst) && (Integer(inst) && Determined(inst, s.core.regs) && Effective(inst, s.core) ==>
        && var t := Rvss.Step(s, v.size, v.memorySize);
        && var a := Sequential.Step(ArchOf(s.core), v);
        && var outside := Executed(inst) && OutOfRange(inst, s.core.regs, v.memorySize);
        && (Rvss.StepOutcome(s, v.size, v.memorySize) == if outside then Rvss.MemoryThrew else Rvss.Stepped)
        && a.fault == outside
        && (!outside ==> EffectOf(t.core) == Meant(inst, s.core))
        && (!outside && !Misread(inst) ==> ArchEffect(a) == Meant(inst, s.core)))
  {
    hide Parse, Assembles, Separate, Decode, Generate, Instruction, Fetched, WellFormed, Normal, JumpsToData, Perform,
      Rvss.Performed, Rvss.Throws, Meant, Executed, Determined, OutOfRange, Effective, Misread, Integer, LoadLE,
      Rvss.Delta, Rvss.LatchesAfter;
    UnitIsFetched(ts, o, p, m, i);
    CodeDecodes(ts, o, p, m, i);
    var inst := SourceInst(ts, o, i);
    if Integer(inst) && Determined(inst, s.core.regs) {
      MeansIff(s.core, s.latches, inst, v.memorySize);
      PerformMeansIff(s.core, v, inst);
    }
  }

  // ----- whole runs -----

  ghost function CoreOf(e: Effect): Rvss.Core { Rvss.Core(e.pc, e.regs, seq(4096, _ => 0), e.mem, 0, 0) }

  /** The program counter stands at an instruction of the source, which is an integer one. */
  predicate AtInstruction(ts: seq<Tokens.Token>, o: Options, pc: U64)
    requires Terminates(ts)
  {
    && pc % 4 == 0 && pc / 4 < |Parse(ts, o).code| && Instruction(Parse(ts, o).code[pc / 4].0).Ok?
    && WellFormed(SourceInst(ts, o, pc / 4)) && Integer(SourceInst(ts, o, pc / 4))
  }

  /** `n` instructions of the source, one after the other, as far as there are any. */
  ghost function SourceRun(ts: seq<Tokens.Token>, o: Options, start: Effect, n: nat): Effect
    requires Terminates(ts)
  {
    if n == 0 then start else
    var e := SourceRun(ts, o, start, n - 1);
    if AtInstruction(ts, o, e.pc) then Meant(SourceInst(ts, o, e.pc / 4), CoreOf(e)) else e
  }

  /** The next instruction is one that the machines execute, whose result the source determines and that accesses memory
      in range, and the text is as it was loaded. */
  ghost predicate Clean(ts: seq<Tokens.Token>, o: Options, image: Flat, v: Pipeline.Machine, e: Effect)
    requires Terminates(ts)
  {
    && AtInstruction(ts, o, e.pc) && !JumpsToData(Parse(ts, o).code[e.pc / 4].0, Parse(ts, o).symbols)
    && Executed(SourceInst(ts, o, e.pc / 4)) && !Misread(SourceInst(ts, o, e.pc / 4))
    && Determined(SourceInst(ts, o, e.pc / 4), e.regs)
    && !OutOfRange(SourceInst(ts, o, e.pc / 4), e.regs, v.memorySize)
    && TextKept(e.mem, image, v)
  }

  ghost predicate TextKept(mem: Flat, image: Flat, v: Pipeline.Machine) {
    forall b: nat :: b < v.size ==> mem[b] == image[b]
  }

  lemma WordKept(mem: Flat, image: Flat, v: Pipeline.Machine, pc: nat)
    requires TextKept(mem, image, v) && pc < v.size && pc % 4 == 0 && v.size % 4 == 0
    ensures LoadLE(mem, pc, 4) == LoadLE(image, pc, 4)
  {
    hide LoadLE;
    LoadSame(mem, image, pc, 4);
  }

  ghost function ArchWith(e: Effect): Arch { Arch(e.pc, e.regs, e.mem, false) }

  lemma SourceStepAt(ts: seq<Tokens.Token>, o: Options, p: VmBase.Program, m: Flat, v: Pipeline.Machine, e: Effect)
    requires Terminates(ts) && Assembles(ts, o, p) && Separate(o.dataStart, p)
    requires v.size == 4 * |p.text| && v.size <= v.memorySize && Clean(ts, o, VmBase.Image(m, o.dataStart, p), v, e)
    ensures Sequential.Step(ArchWith(e), v) == ArchWith(Meant(SourceInst(ts, o, e.pc / 4), CoreOf(e)))
  {
    hide Parse, Assembles, Separate, Instruction, WellFormed, Normal, JumpsToData, Perform, VmBase.Image, TextKept,
      Meant, Executed, Determined, OutOfRange, Misread, Integer, LoadLE, Rvss.Step, Rvss.StepOutcome;
    var i, s := e.pc / 4, CoreOf(e);
    SameText(ts, o, p);
    WordKept(e.mem, VmBase.Image(m, o.dataStart, p), v, e.pc);
    SourceStep(ts, o, p, m, Rvss.Vm(s, NO_LATCHES, [], []), v, i);
    assert ArchOf(s) == ArchWith(e);
  }

  lemma SameText(ts: seq<Tokens.Token>, o: Options, p: VmBase.Program)
    requires Terminates(ts) && Assembles(ts, o, p)
    ensures |Parse(ts, o).code| == |p.text|
  {
    hide Parse;
  }

  /** The source runs cleanly for `n` instructions from the start of a loaded program. */
  ghost predicate RunsCleanly(ts: seq<Tokens.Token>, o: Options, image: Flat, regs: Regs, v: Pipeline.Machine, n: nat)
    requires Terminates(ts)
  {
    forall k | 0 <= k < n :: Clean(ts, o, image, v, SourceRun(ts, o, Effect(0, regs, image), k))
  }

  /** An assembled and loaded program whose source runs cleanly for `n` instructions is executed, one instruction at a
      time, as the source means. */
  lemma {:induction false} SourceIsExecuted(ts: seq<Tokens.Token>, o: Options, p: VmBase.Program, m: Flat, regs: Regs,
                                            v: Pipeline.Machine, n: nat)
    requires Terminates(ts) && Assembles(ts, o, p) && Separate(o.dataStart, p)
    requires v.size == 4 * |p.text| && v.size <= v.memorySize
    requires RunsCleanly(ts, o, VmBase.Image(m, o.dataStart, p), regs, v, n)
    ensures var image := VmBase.Image(m, o.dataStart, p);
      Run(Arch(0, regs, image, false), v, n) == ArchWith(SourceRun(ts, o, Effect(0, regs, image), n))
  {
    hide Assembles, Separate, VmBase.Image, Meant, Sequential.Step, SourceInst, Parse;
    if n > 0 {
      SourceIsExecuted(ts, o, p, m, regs, v, n - 1);
      var image := VmBase.Image(m, o.dataStart, p);
      var e := SourceRun(ts, o, Effect(0, regs, image), n - 1);
      assert Clean(ts, o, image, v, e);
      SourceStepAt(ts, o, p, m, v, e);
    }
  }

  lemma {:induction false} RunKeepsText(a: Arch, v: Pipeline.Machine, total: nat, k: nat)
    requires Stopped(Run(a, v, total), v) && forall j | 0 <= j <= total :: TextKept(Run(a, v, j).mem, a.mem, v)
    ensures TextKept(Run(a, v, k).mem, a.mem, v)
  {
    hide Run, TextKept;
    if k > total { StoppedStays(a, v, total, k); }
  }

  /** Up to its end a program keeps its text and stands at whole instructions. */
  ghost predicate Tidy(a: Arch, v: Pipeline.Machine, total: nat) {
    && v.size % 4 == 0 && v.size <= v.memorySize && Run(a, v, total).pc >= v.size
    && (forall j | 0 <= j <= total :: TextKept(Run(a, v, j).mem, a.mem, v))
    && (forall j | 0 <= j < total :: Run(a, v, j).pc % 4 == 0)
  }

  lemma StandsWhole(a: Arch, v: Pipeline.Machine, total: nat, k: nat)
    requires Tidy(a, v, total) && !Stopped(Run(a, v, k), v)
    ensures Run(a, v, k).pc % 4 == 0 && Run(a, v, k).pc + 4 <= v.size
  {
    hide Run, TextKept;
    if k >= total { StoppedStays(a, v, total, k); }
  }

  lemma TidyKeepsNext(a: Arch, v: Pipeline.Machine, total: nat)
    requires Tidy(a, v, total)
    ensures KeepsNext(a, v)
  {
    hide Run, KeepsNext, Stopped, Tidy;
    forall k: nat, b: nat | Reached(a, v, b) ensures Run(a, v, k).mem[b] == a.mem[b] {
      var i: nat :| !Stopped(Run(a, v, i), v) && Run(a, v, i).pc <= b < Run(a, v, i).pc + 4;
      StandsWhole(a, v, total, i);
      TidyParts(a, v, total);
      RunKeepsText(a, v, total, k);
    }
    KeepingTextSuffices(a, v);
  }

  lemma TidyParts(a: Arch, v: Pipeline.Machine, total: nat)
    requires Tidy(a, v, total)
    ensures Stopped(Run(a, v, total), v) && forall j | 0 <= j <= total :: TextKept(Run(a, v, j).mem, a.mem, v)
  {
    hide Run, TextKept;
  }

  lemma TidyFits(a: Arch, v: Pipeline.Machine, total: nat)
    requires Tidy(a, v, total)
    ensures Fits(a, v)
  {
    hide Run, TextKept;
    forall k: nat ensures !Pipeline.Lost(Run(a, v, k).pc, v) {
      if k >= total { StoppedStays(a, v, total, k); }
    }
  }

  lemma CleanlyUpTo(ts: seq<Tokens.Token>, o: Options, image: Flat, regs: Regs, v: Pipeline.Machine, n: nat, k: nat)
    requires Terminates(ts) && RunsCleanly(ts, o, image, regs, v, n) && k <= n
    ensures RunsCleanly(ts, o, image, regs, v, k)
    ensures var e := SourceRun(ts, o, Effect(0, regs, image), k); k < n ==> TextKept(e.mem, image, v) && e.pc % 4 == 0
  {
    hide JumpsToData, Executed, Determined, Misread, OutOfRange, SourceRun, TextKept, Parse, SourceInst;
  }

  /** The source runs cleanly to its end, the text still kept. */
  ghost predicate Completes(ts: seq<Tokens.Token>, o: Options, image: Flat, regs: Regs, v: Pipeline.Machine, total: nat)
    requires Terminates(ts)
  {
    var e := SourceRun(ts, o, Effect(0, regs, image), total);
    RunsCleanly(ts, o, image, regs, v, total) && e.pc >= v.size && TextKept(e.mem, image, v)
  }

  lemma CompletesAt(ts: seq<Tokens.Token>, o: Options, p: VmBase.Program, m: Flat, regs: Regs,
                    v: Pipeline.Machine, total: nat, k: nat)
    requires Terminates(ts) && Assembles(ts, o, p) && Separate(o.dataStart, p)
    requires v.size == 4 * |p.text| && v.size <= v.memorySize && k <= total
    requires Completes(ts, o, VmBase.Image(m, o.dataStart, p), regs, v, total)
    ensures var image := VmBase.Image(m, o.dataStart, p);
      var s := Run(Arch(0, regs, image, false), v, k);
      TextKept(s.mem, image, v) && if k < total then s.pc % 4 == 0 else s.pc >= v.size
  {
    hide Assembles, Separate, VmBase.Image, SourceRun, RunsCleanly, TextKept, Run, Parse;
    CleanlyUpTo(ts, o, VmBase.Image(m, o.dataStart, p), regs, v, total, k);
    SourceIsExecuted(ts, o, p, m, regs, v, k);
  }

  /** So a clean run never endangers what the pipeline has fetched. */
  lemma CompletedIsTidy(ts: seq<Tokens.Token>, o: Options, p: VmBase.Program, m: Flat, regs: Regs,
                        v: Pipeline.Machine, total: nat)
    requires Terminates(ts) && Assembles(ts, o, p) && Separate(o.dataStart, p)
    requires v.size == 4 * |p.text| && v.size <= v.memorySize
    requires Completes(ts, o, VmBase.Image(m, o.dataStart, p), regs, v, total)
    ensures Tidy(Arch(0, regs, VmBase.Image(m, o.dataStart, p), false), v, total)
  {
    hide Assembles, Separate, VmBase.Image, Completes, TextKept, Run, Parse;
    forall k | 0 <= k <= total
      ensures var image := VmBase.Image(m, o.dataStart, p);
        var s := Run(Arch(0, regs, image, false), v, k);
        TextKept(s.mem, image, v) && if k < total then s.pc % 4 == 0 else s.pc >= v.size
    {
      CompletesAt(ts, o, p, m, regs, v, total, k);
    }
  }

  /** From source to pipeline: a program whose source runs cleanly to its end in `total` instructions brings the
      pipeline, with any predictor, forwarding or stalling, to rest within the bound, with the program counter,
      registers and memory that the source means. */
  lemma PipelineRunsSource(ts: seq<Tokens.Token>, o: Options, p: VmBase.Program, m: Flat, regs: Regs,
                           predictor: Pipeline.Predictor, v: Pipeline.Machine, total: nat)
    requires Terminates(ts) && Assembles(ts, o, p) && Separate(o.dataStart, p)
    requires v.size == 4 * |p.text| && v.size <= v.memorySize
    requires Completes(ts, o, VmBase.Image(m, o.dataStart, p), regs, v, total)
    ensures var image := VmBase.Image(m, o.dataStart, p);
      var s := Ticks(Start(regs, image, predictor), v, 3 * total + 5);
      var e := SourceRun(ts, o, Effect(0, regs, image), total);
      AtRest(s, v) && !s.fault && (s.p.pc, s.p.regs, s.mem) == (e.pc, e.regs, e.mem)
  {
    var a := Arch(0, regs, VmBase.Image(m, o.dataStart, p), false);
    CompletedIsTidy(ts, o, p, m, regs, v, total);
    SourceIsExecuted(ts, o, p, m, regs, v, total);
    TidyParts(a, v, total);
    TidyFits(a, v, total);
    TidyKeepsNext(a, v, total);
    KeepsNextSuffices(a, predictor, v);
    PipelineComputesProgram(regs, VmBase.Image(m, o.dataStart, p), predictor, v, total);
    hide *;
  }
}
