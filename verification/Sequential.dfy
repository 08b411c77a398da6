/** The instruction set, one instruction at a time: the reference against which the pipeline is proved. */
module Sequential {
  import opened Words
  import opened ImmGenerator
  import opened FlatMemory
  import opened Datapath
  import opened Pipeline

  /** What a program can observe; `fault` is set when an instruction accesses memory out of range. */
  datatype Arch = Arch(pc: U64, regs: Regs, mem: Flat, fault: bool)

  predicate Stopped(s: Arch, v: Machine) { s.fault || s.pc >= v.size }

  /** One instruction. A faulting one leaves program counter, registers and memory as they were. */
  ghost function Step(s: Arch, v: Machine): Arch {
    if Stopped(s, v) then s else Perform(s, LoadLE(s.mem, s.pc, 4), v)
  }

  ghost function Perform(s: Arch, w: U32, v: Machine): Arch {
    var c := Control(w);
    if c.isNop then s.(pc := Wrap64(s.pc + 4)) else
    var a, b := ReadGpr(s.regs, SourceA(w)), ReadGpr(s.regs, SourceB(w));
    var r := AluResult(c, s.pc, Immediate(w), a, b);
    if Faults(c, v.memorySize, r) then s.(fault := true)
    else Arch(if Taken(c, r) then Target(c, s.pc, Immediate(w), r) else Wrap64(s.pc + 4),
              WriteBack(c, s.regs, Rd(w), r, Loaded(c, s.mem, r), Wrap64(s.pc + 4)),
              Stored(c, s.mem, r, b), false)
  }

  ghost function Run(s: Arch, v: Machine, n: nat): Arch {
    if n == 0 then s else Step(Run(s, v, n - 1), v)
  }
}
