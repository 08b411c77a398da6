/** What loads and branches leave behind in the single-cycle VM, and what an instruction with an unassigned function
    code makes of it. */
module StaleLatches {
  import opened Words
  import opened ImmGenerator
  import opened FlatMemory
  import opened Datapath
  import opened Pipeline
  import opened RvssAgrees
  import Rvss

  /** Step `k` executes a word of this opcode that has a meaning to its memory or branch unit. */
  ghost predicate Sets(s: Rvss.Vm, v: Machine, k: nat, opcode: nat) {
    var t := Steps(s, v, k);
    && Rvss.StepOutcome(t, v.size, v.memorySize) == Rvss.Stepped && Opcode(Rvss.Next(t.core)) == opcode
    && if opcode == 0x03 then Funct3(Rvss.Next(t.core)) < 7 else Funct3(Rvss.Next(t.core)) !in {2, 3}
  }

  /** Step `k` is the last one before step `n` that does. */
  ghost predicate SetsLast(s: Rvss.Vm, v: Machine, k: nat, n: nat, opcode: nat) {
    k < n && Sets(s, v, k, opcode) && forall j | k < j < n :: !Sets(s, v, j, opcode)
  }

  /** The value that the load at the program counter loads. */
  ghost function LoadedBy(c: Rvss.Core): U64 {
    var w := Rvss.Next(c);
    if LoadOp(Funct3(w)).Read? then Extend(LoadOp(Funct3(w)), LoadLE(c.mem, Rvss.Result(c, w), LoadOp(Funct3(w)).width))
    else 0
  }

  lemma StepLatches(s: Rvss.Vm, v: Machine, n: nat)
    ensures var (t, u) := (Steps(s, v, n), Steps(s, v, n + 1));
      && u.latches.memoryResult == (if Sets(s, v, n, 0x03) then LoadedBy(t.core) else t.latches.memoryResult)
      && u.latches.branchFlag == if !Sets(s, v, n, 0x63) then t.latches.branchFlag
        else Rvss.BranchFlag(t.latches, Rvss.Next(t.core), Rvss.Result(t.core, Rvss.Next(t.core)))
  {
    hide Rvss.Result, Rvss.Performed, Rvss.Throws, LoadLE, Extend, Opcode, Funct3, Rvss.Delta;
    NextStep(s, v, n);
  }

  lemma NextStep(s: Rvss.Vm, v: Machine, n: nat)
    ensures Steps(s, v, n + 1) == Rvss.Step(Steps(s, v, n), v.size, v.memorySize)
  {
    hide Rvss.Step;
  }

  lemma {:induction false} LatchesLast(s: Rvss.Vm, v: Machine, k: nat, n: nat, opcode: nat)
    requires SetsLast(s, v, k, n, opcode) && opcode in {0x03, 0x63}
    ensures var (l, m) := (Steps(s, v, k + 1).latches, Steps(s, v, n).latches);
      if opcode == 0x03 then l.memoryResult == m.memoryResult else l.branchFlag == m.branchFlag
    decreases n
  {
    hide Sets, Steps;
    if k + 1 < n {
      LatchesLast(s, v, k, n - 1, opcode);
      assert !Sets(s, v, n - 1, opcode);
      StepLatches(s, v, n - 1);
    }
  }

  /** A load with the unassigned function code writes what the last load before it did. */
  lemma UnassignedLoad(s: Rvss.Vm, v: Machine, k: nat, n: nat)
    requires SetsLast(s, v, k, n, 0x03)
    requires var t := Steps(s, v, n);
      && Rvss.StepOutcome(t, v.size, v.memorySize) == Rvss.Stepped
      && Opcode(Rvss.Next(t.core)) == 0x03 && Funct3(Rvss.Next(t.core)) == 7
    ensures var (before, t) := (Steps(s, v, k).core, Steps(s, v, n).core);
      Steps(s, v, n + 1).core.regs == WriteGpr(t.regs, Rd(Rvss.Next(t)), LoadedBy(before))
  {
    hide Rvss.Result, Rvss.Throws, LoadLE, Extend, Opcode, Funct3, Rvss.Delta, Sets, Steps, LoadedBy;
    LatchesLast(s, v, k, n, 0x03);
    StepLatches(s, v, k);
    NextStep(s, v, n);
  }

  /** A branch with an unassigned one is taken exactly if the last branch before it was. */
  lemma UnassignedBranch(s: Rvss.Vm, v: Machine, k: nat, n: nat)
    requires SetsLast(s, v, k, n, 0x63)
    requires var t := Steps(s, v, n);
      && Rvss.StepOutcome(t, v.size, v.memorySize) == Rvss.Stepped
      && Opcode(Rvss.Next(t.core)) == 0x63 && Funct3(Rvss.Next(t.core)) in {2, 3}
    ensures var (x, t) := (Steps(s, v, k), Steps(s, v, n).core);
      var w := Rvss.Next(x.core);
      Steps(s, v, n + 1).core.pc ==
        Wrap64(t.pc + if Rvss.BranchFlag(x.latches, w, Rvss.Result(x.core, w)) then Immediate(Rvss.Next(t)) else 4)
  {
    hide Rvss.Result, Rvss.Throws, LoadLE, Extend, Opcode, Funct3, Immediate, Rvss.Delta, Sets, Steps;
    LatchesLast(s, v, k, n, 0x63);
    StepLatches(s, v, k);
    NextStep(s, v, n);
  }
}
