/** The pipelined VM as an object (`RV5SEXVM` in src/vm/rv5s/rv5s_ex_vm.cpp): each stage method writes the
    next pipeline register, and a step copies them over. */
module Rv5sExVm {
  import opened Words
  import opened ImmGenerator
  import opened FlatMemory
  import opened MainMemory
  import opened Datapath
  import opened Pipeline
  import opened PipelineRuns

  predicate SameStages(p: Pipe, q: Pipe) { (p.ifId, p.idEx, p.exMem, p.memWb) == (q.ifId, q.idEx, q.exMem, q.memWb) }

  // The stages after WB look at the pipeline registers only.

  lemma MemoryLooks(p: Pipe, q: Pipe, m: Flat, memorySize: U64)
    requires SameStages(p, q)
    ensures MemoryFaults(p, memorySize) == MemoryFaults(q, memorySize)
    ensures MemoryStage(p, m) == MemoryStage(q, m) && MemoryAfter(p, m) == MemoryAfter(q, m)
  {
    hide Faults, Loaded, Stored;
  }

  lemma ExecuteLooks(p: Pipe, q: Pipe, forwarding: bool, predictor: Predictor)
    requires SameStages(p, q)
    ensures ExecuteStage(p, forwarding) == ExecuteStage(q, forwarding)
      && Redirect(p, forwarding) == Redirect(q, forwarding)
    ensures PredictorAfter(p, forwarding, predictor) == PredictorAfter(q, forwarding, predictor)
  {
    hide Taken, Target, AluResult, Operand;
  }

  lemma DecodeLooks(p: Pipe, q: Pipe, regs: Regs, predictor: Predictor, pc: U64, flushed: bool, forwarding: bool)
    requires SameStages(p, q)
    ensures DecodeStage(p, regs, predictor, pc, flushed, forwarding)
      == DecodeStage(q, regs, predictor, pc, flushed, forwarding)
  {
    hide Control, Immediate, Predicts, DataHazard, LoadUseHazard, SourceA, SourceB, ReadGpr, Rd;
  }

  lemma ClockThrows(s: Vm, v: Machine)
    requires MemoryFaults(s.p, v.memorySize)
    ensures Clock(s, v)
      == Vm(s.p.(regs := WriteBackStage(s.p)), s.mem, s.predictor, s.retired + One(s.p.memWb.valid), true)
  {
    hide MemoryFaults, Cycle;
  }

  lemma ClockIs(s: Vm, v: Machine, issue: Issue, ifId: IfId, pc: U64)
    requires !MemoryFaults(s.p, v.memorySize)
    requires var redirect := Redirect(s.p, v.forwarding);
      issue == DecodeStage(s.p, WriteBackStage(s.p), PredictorAfter(s.p, v.forwarding, s.predictor),
                           if redirect.Some? then redirect.value else s.p.pc, redirect.Some?, v.forwarding)
    requires (ifId, pc)
      == if issue.stall then (s.p.ifId, issue.pc) else FetchStage(MemoryAfter(s.p, s.mem), issue.pc, issue.flush, v)
    ensures Clock(s, v)
      == Vm(Pipe(pc, WriteBackStage(s.p), ifId, issue.idEx, ExecuteStage(s.p, v.forwarding), MemoryStage(s.p, s.mem)),
            MemoryAfter(s.p, s.mem), PredictorAfter(s.p, v.forwarding, s.predictor), s.retired
              + One(s.p.memWb.valid), false)
  {
    hide Redirect, DecodeStage, FetchStage, ExecuteStage, MemoryStage, WriteBackStage, PredictorAfter, MemoryAfter,
      MemoryFaults;
  }

  /** A cycle of an empty machine with nothing to fetch changes nothing. */
  lemma StillEnded(s: Vm, v: Machine)
    requires !s.fault
    requires Ended(s, v)
      ==> (s.p.ifId, s.p.idEx, s.p.exMem, s.p.memWb) == (IFID_BUBBLE, IDEX_BUBBLE, EXMEM_BUBBLE, MEMWB_BUBBLE)
    ensures Ended(s, v) ==> Clock(s, v) == s
  {
    hide Control, Immediate, LoadLE;
  }

  class RV5SEXVM {
    const memory: Memory
    const forwardingEnabled: bool
    const programSize: nat

    var programCounter: U64
    var registers: Regs
    var predictor: Predictor
    var stallRequest: bool
    var flushPipeline: bool
    var ended: bool
    var instructionsRetired: nat

    var ifId: IfId
    var idEx: IdEx
    var exMem: ExMem
    var memWb: MemWb
    var nextIfId: IfId
    var nextIdEx: IdEx
    var nextExMem: ExMem
    var nextMemWb: MemWb

    /** The pipeline registers as the stages of a cycle find them. */
    function Pipe(): Pipe
      reads this
    {
      Pipeline.Pipe(programCounter, registers, ifId, idEx, exMem, memWb)
    }

    function Machine(): Machine { Pipeline.Machine(forwardingEnabled, programSize, memory.memorySize) }

    ghost function Vm(): Vm
      requires memory.Valid()
      reads this, memory
    {
      PipelineRuns.Vm(Pipe(), memory.Bytes(), predictor, instructionsRetired, false)
    }

    /** Between steps the next registers agree with the current ones. */
    ghost predicate Valid()
      reads this, memory
    {
      && memory.Valid()
      && nextIfId == ifId && nextIdEx == idEx && nextExMem == exMem && nextMemWb == memWb
      && (ended ==> Ended(Vm(), Machine()))
      && (!ended && Ended(Vm(), Machine()) ==>
          ifId == IFID_BUBBLE && idEx == IDEX_BUBBLE && exMem == EXMEM_BUBBLE && memWb == MEMWB_BUBBLE)
    }

    /** A VM after `Reset` and the loading of a program of `size` bytes into `memory`. */
    constructor (memory: Memory, size: nat, forwarding: bool, predictor: Predictor)
      requires memory.Valid()
      ensures Valid() && this.memory == memory && Machine() == Pipeline.Machine(forwarding, size, memory.memorySize)
      ensures Vm() == Start(seq(32, _ => 0), memory.Bytes(), predictor)
    {
      this.memory, programSize, forwardingEnabled, this.predictor := memory, size, forwarding, predictor;
      programCounter, registers, instructionsRetired := 0, seq(32, _ => 0), 0;
      stallRequest, flushPipeline, ended := false, false, false;
      ifId, idEx, exMem, memWb := IFID_BUBBLE, IDEX_BUBBLE, EXMEM_BUBBLE, MEMWB_BUBBLE;
      nextIfId, nextIdEx, nextExMem, nextMemWb := IFID_BUBBLE, IDEX_BUBBLE, EXMEM_BUBBLE, MEMWB_BUBBLE;
    }

    method WriteBackStage()
      modifies this`registers, this`instructionsRetired
      ensures registers == Pipeline.WriteBackStage(old(Pipe()))
      ensures instructionsRetired == old(instructionsRetired) + One(memWb.valid)
    {
      if !memWb.valid { return; }
      instructionsRetired := instructionsRetired + 1;
      var control := memWb.control;
      if control.regWrite && memWb.rd != 0 {
        match control.wbSrc
        case WbAlu => registers := WriteGpr(registers, memWb.rd, memWb.aluResult);
        case WbMem => registers := WriteGpr(registers, memWb.rd, memWb.memoryData);
        case WbPcInc => registers := WriteGpr(registers, memWb.rd, memWb.pcInc);
        case WbNone =>
      }
    }

    /** Loads and stores; `ok` is false when the memory throws. */
    method MemoryStage() returns (ok: bool)
      requires memory.Valid() && nextMemWb == memWb
      modifies this`nextMemWb, memory
      ensures memory.Valid()
      ensures ok == !MemoryFaults(Pipe(), memory.memorySize)
      ensures ok ==> nextMemWb == Pipeline.MemoryStage(Pipe(), old(memory.Bytes()))
      ensures ok ==> memory.Bytes() == MemoryAfter(Pipe(), old(memory.Bytes()))
      ensures !ok && memory.memorySize >= 7 ==> memory.Bytes() == old(memory.Bytes())
    {
      hide Memory.Bytes, Memory.Valid, LoadLE;
      if !exMem.valid {
        nextMemWb := MEMWB_BUBBLE;
        return true;
      }
      var control := exMem.control;
      if control.isNop {
        nextMemWb := nextMemWb.(valid := true, control := control);
        return true;
      }
      var address := exMem.aluResult;
      var memoryResult: U64 := 0;
      if control.memRead {
        if control.readOp.Read? {
          var r := memory.Load(address, control.readOp.width);
          if r.Thrown? { return false; }
          memoryResult := Extend(control.readOp, r.value);
        }
      } else if control.memWrite {
        if control.writeOp.Write? {
          var stored := memory.Store(address, control.writeOp.width, exMem.storeData);
          if !stored { return false; }
        }
      }
      nextMemWb := nextMemWb.(valid := true, control := control, pcInc := exMem.pcInc, rd := exMem.rd);
      if control.memRead { nextMemWb := nextMemWb.(memoryData := memoryResult); }
      else { nextMemWb := nextMemWb.(aluResult := address); }
      ok := true;
    }

    /** EX: forwards operands, runs the ALU, resolves branches and may request a flush. */
    method ExecuteStage()
      requires nextExMem == exMem && !flushPipeline
      modifies this`nextExMem, this`programCounter, this`flushPipeline, this`predictor
      ensures nextExMem == Pipeline.ExecuteStage(old(Pipe()), forwardingEnabled)
      ensures predictor == PredictorAfter(old(Pipe()), forwardingEnabled, old(predictor))
      ensures var redirect := Redirect(old(Pipe()), forwardingEnabled);
        && flushPipeline == redirect.Some?
        && programCounter == if redirect.Some? then redirect.value else old(programCounter)
    {
      hide AluResult, Operand, Taken, Target;
      if !idEx.valid {
        nextExMem := EXMEM_BUBBLE;
        return;
      }
      var control := idEx.control;
      if control.isNop {
        nextExMem := nextExMem.(valid := true, control := control);
        return;
      }
      var a := Operand(forwardingEnabled, idEx.rs1, idEx.rs1Data, exMem, memWb);
      var b := Operand(forwardingEnabled, idEx.rs2, idEx.rs2Data, exMem, memWb);
      var result := AluResult(control, idEx.pc, idEx.immediate, a, b);
      if control.branch {
        var actual := Taken(control, result);
        var target := Target(control, idEx.pc, idEx.immediate, result);
        predictor := Learn(predictor, idEx.pc, actual);
        if control.branchOp == BJalr {
          programCounter, flushPipeline := target, true;
        } else if idEx.predicted != actual {
          flushPipeline := true;
          programCounter := if actual then target else idEx.pcInc;
        }
      }
      nextExMem := ExMem(true, control, idEx.pcInc, result, b, idEx.rd);
    }

    /** ID: reads registers, detects hazards and predicts. It may stall the front or squash what IF fetches. */
    method DecodeStage()
      requires nextIdEx == idEx && !stallRequest
      modifies this`nextIdEx, this`programCounter, this`flushPipeline, this`stallRequest
      ensures Issue(nextIdEx, stallRequest, flushPipeline, programCounter) == Pipeline.DecodeStage(
        old(Pipe()), registers, predictor, old(programCounter), old(flushPipeline), forwardingEnabled)
    {
      hide Immediate, SourceA, SourceB, Rd, ReadGpr, Predicts, LoadUseHazard, DataHazard;
      PipelineProof.NopJumps(ifId.instruction);
      PipelineProof.JumpsBranch(ifId.instruction);
      hide Control;
      if flushPipeline || !ifId.valid {
        nextIdEx := IDEX_BUBBLE;
        return;
      }
      var instruction := ifId.instruction;
      var control := Control(instruction);
      nextIdEx := nextIdEx.(pc := ifId.pc, pcInc := ifId.pcInc, valid := true, control := control);
      if control.isNop { return; }
      var rs1, rs2 := SourceA(instruction), SourceB(instruction);
      nextIdEx := nextIdEx.(rd := Rd(instruction), immediate := Immediate(instruction),
                            rs1 := rs1, rs1Data := ReadGpr(registers, rs1), rs2 := rs2,
                              rs2Data := ReadGpr(registers, rs2));
      var stall := if forwardingEnabled then LoadUseHazard(control, rs1, rs2, idEx)
                   else DataHazard(control, rs1, rs2, idEx, exMem);
      if stall {
        stallRequest, nextIdEx := true, IDEX_BUBBLE;
        return;
      }
      if IsJump(control) {
        nextIdEx := nextIdEx.(predicted := true);
        if control.branchOp == BJal { programCounter := Wrap64(ifId.pc + Immediate(instruction)); }
        flushPipeline := true;
      } else if control.branch {
        var prediction := Predicts(predictor, ifId.pc);
        nextIdEx := nextIdEx.(predicted := prediction);
        if prediction {
          programCounter, flushPipeline := Wrap64(ifId.pc + Immediate(instruction)), true;
        }
      }
    }

    method FetchStage()
      requires memory.Valid()
      modifies this`nextIfId, this`programCounter
      ensures (nextIfId, programCounter)
           == Pipeline.FetchStage(memory.Bytes(), old(programCounter), flushPipeline, Machine())
    {
      hide Memory.Bytes, Memory.Valid, LoadLE;
      if flushPipeline || programCounter >= programSize {
        nextIfId := IFID_BUBBLE;
        return;
      }
      var r := memory.Load(programCounter, 4);
      var pcInc := Wrap64(programCounter + 4);
      nextIfId := if r.Ok? then IfId(true, r.value, programCounter, pcInc) else IfId(false, 0, programCounter, pcInc);
      programCounter := pcInc;
    }

    /** WB, MEM and EX. */
    method BackStages() returns (ok: bool)
      requires memory.Valid() && memory.memorySize >= 7 && !flushPipeline
      requires nextExMem == exMem && nextMemWb == memWb
      modifies this`registers, this`instructionsRetired, this`nextMemWb, this`nextExMem, this`programCounter,
        this`flushPipeline, this`predictor, memory
      ensures memory.Valid() && ok == !MemoryFaults(old(Pipe()), memory.memorySize)
      ensures registers == Pipeline.WriteBackStage(old(Pipe()))
      ensures instructionsRetired == old(instructionsRetired) + One(memWb.valid)
      ensures !ok ==>
        && memory.Bytes() == old(memory.Bytes())
        && predictor == old(predictor) && programCounter == old(programCounter)
      ensures ok ==> var p, m := old(Pipe()), old(memory.Bytes());
        var redirect := Redirect(p, forwardingEnabled);
        && nextMemWb == Pipeline.MemoryStage(p, m) && memory.Bytes() == MemoryAfter(p, m)
        && nextExMem == Pipeline.ExecuteStage(p, forwardingEnabled)
        && predictor == PredictorAfter(p, forwardingEnabled, old(predictor))
        && flushPipeline == redirect.Some?
        && programCounter == if redirect.Some? then redirect.value else old(programCounter)
    {
      hide Memory.Bytes, Memory.Valid, Redirect, Pipeline.ExecuteStage, Pipeline.MemoryStage, Pipeline.WriteBackStage,
        PredictorAfter, MemoryAfter, MemoryFaults, One;
      ghost var p, m := Pipe(), memory.Bytes();
      WriteBackStage();
      MemoryLooks(p, Pipe(), m, memory.memorySize);
      ExecuteLooks(p, Pipe(), forwardingEnabled, predictor);
      ok := MemoryStage();
      if ok { ExecuteStage(); }
    }

    /** ID and IF, and the update of the pipeline registers. */
    method FrontStages()
      requires memory.Valid() && nextIfId == ifId && nextIdEx == idEx && !stallRequest
      modifies this`nextIfId, this`nextIdEx, this`programCounter, this`flushPipeline, this`stallRequest, this`ifId,
        this`idEx, this`exMem, this`memWb
      ensures nextIfId == ifId && nextIdEx == idEx && (exMem, memWb) == (nextExMem, nextMemWb)
      ensures var issue := Pipeline.DecodeStage(old(Pipe()), registers, predictor, old(programCounter),
        old(flushPipeline), forwardingEnabled);
        && idEx == issue.idEx
        && (ifId, programCounter) == if issue.stall then (old(ifId), issue.pc)
                                     else Pipeline.FetchStage(memory.Bytes(), issue.pc, issue.flush, Machine())
    {
      hide Memory.Bytes, Memory.Valid, Pipeline.DecodeStage, Pipeline.FetchStage;
      DecodeStage();
      if !stallRequest {
        FetchStage();
        ifId := nextIfId;
      }
      idEx, exMem, memWb := nextIdEx, nextExMem, nextMemWb;
    }

    /** The stages of one clock cycle; `ok` is false when it throws. */
    method ClockCycle() returns (ok: bool)
      requires memory.Valid() && memory.memorySize >= 7
      requires nextIfId == ifId && nextIdEx == idEx && nextExMem == exMem && nextMemWb == memWb
      modifies this, memory
      ensures memory.Valid() && ended == old(ended)
      ensures Vm().(fault := !ok) == Clock(old(Vm()), Machine())
      ensures ok ==> nextIfId == ifId && nextIdEx == idEx && nextExMem == exMem && nextMemWb == memWb
    {
      hide Memory.Bytes, Memory.Valid, Redirect, Pipeline.DecodeStage, Pipeline.FetchStage, Pipeline.ExecuteStage,
        Pipeline.MemoryStage, Pipeline.WriteBackStage, PredictorAfter, MemoryAfter, MemoryFaults, Clock, One;
      ghost var s := Vm();
      stallRequest, flushPipeline := false, false;
      ok := BackStages();
      if !ok {
        ClockThrows(s, Machine());
        return;
      }
      DecodeLooks(s.p, Pipe(), registers, predictor, programCounter, flushPipeline, forwardingEnabled);
      ghost var issue := Pipeline.DecodeStage(Pipe(), registers, predictor, programCounter, flushPipeline,
        forwardingEnabled);
      FrontStages();
      ClockIs(s, Machine(), issue, ifId, programCounter);
    }

    /** `Step`: nothing once the program has ended, else one clock cycle. */
    method Step() returns (ok: bool)
      requires Valid() && memory.memorySize >= 7
      modifies this, memory
      ensures memory.Valid()
      ensures Vm().(fault := !ok) == Tick(old(Vm()), Machine())
      ensures ok ==> Valid() && ended == Ended(Vm(), Machine())
    {
      hide Memory.Bytes, Memory.Valid, Clock;
      if ended { return true; }
      StillEnded(Vm(), Machine());
      ok := ClockCycle();
      if ok {
        ended := programCounter >= programSize && !ifId.valid && !idEx.valid && !exMem.valid && !memWb.valid;
      }
    }
  }
}
