/** One instruction at a time, with each word read as early as the pipeline reads it: exactly what the pipeline computes
    for every program, also one that overwrites its own text. */
module EarlyFetch {
  import opened Words
  import opened ImmGenerator
  import opened FlatMemory
  import opened Datapath
  import opened Pipeline
  import opened Sequential

  // ----- branches -----

  function ResultOf(s: Arch, w: U32): U64 {
    AluResult(Control(w), s.pc, Immediate(w), ReadGpr(s.regs, SourceA(w)), ReadGpr(s.regs, SourceB(w)))
  }

  predicate Branches(w: U32) { !Control(w).isNop && Control(w).branch }

  /** `w`, executed in `s`, is a taken transfer: a jump, or a branch whose condition holds. */
  predicate TakenBy(s: Arch, w: U32) { Branches(w) && Taken(Control(w), ResultOf(s, w)) }

  // ----- the front end -----

  /** What decides from which memory the next instruction's word is read.
      `source`: that memory. `before`: memory before the last instruction. `near`: control went on from the last
      instruction to the one fetched behind it. `last`, `second`: the words of the last two instructions. `close`: they
      followed each other without a bubble. */
  datatype FrontEnd = FrontEnd(source: Flat, before: Flat, predictor: Predictor, near: bool, last: U32, second: U32,
                               close: bool)

  ghost function StartFront(mem: Flat, predictor: Predictor): FrontEnd {
    FrontEnd(mem, mem, predictor, false, 0, 0, false)
  }

  /** The word that is executed at `pc`. */
  ghost function Word(f: FrontEnd, pc: U64): U32 { LoadLE(f.source, pc, 4) }

  /** The pipeline registers as far as the hazard tests look at an instruction ahead. */
  function AheadInEx(w: U32): IdEx { IDEX_BUBBLE.(control := Control(w), rd := Rd(w)) }

  function AheadInMem(w: U32): ExMem { EXMEM_BUBBLE.(control := Control(w), rd := Rd(w)) }

  predicate Hazard(w: U32, idEx: IdEx, exMem: ExMem, forwarding: bool) {
    var c := Control(w);
    !c.isNop && if forwarding then LoadUseHazard(c, SourceA(w), SourceB(w), idEx)
                else DataHazard(c, SourceA(w), SourceB(w), idEx, exMem)
  }

  /** `w` has to wait in ID for an instruction ahead of it. */
  predicate Held(w: U32, f: FrontEnd, forwarding: bool) {
    Hazard(w, AheadInEx(f.last), if f.close then AheadInMem(f.second) else EXMEM_BUBBLE, forwarding)
  }

  /** `w` enters EX right behind the last instruction. */
  predicate IsClose(w: U32, f: FrontEnd, forwarding: bool) { f.near && !Held(w, f, forwarding) }

  /** What is fetched behind `w` is given up: `w` is taken, or was predicted to be. */
  predicate Leaves(w: U32, s: Arch, predictor: Predictor) {
    Branches(w) && (Predicts(predictor, s.pc) || Taken(Control(w), ResultOf(s, w)))
  }

  /** The front end after the instruction executed in `s`. The next word was read while this one was in ID: if it
      followed closely, before the last instruction's store, and if it leaves, not until then. */
  ghost function Advance(f: FrontEnd, s: Arch, v: Machine): FrontEnd {
    var w := Word(f, s.pc);
    var close, leaves := IsClose(w, f, v.forwarding), Leaves(w, s, f.predictor);
    FrontEnd(if leaves || !close then s.mem else f.before, s.mem,
             if Branches(w) then Learn(f.predictor, s.pc, TakenBy(s, w)) else f.predictor,
             !leaves, w, f.last, close)
  }

  datatype Early = Early(arch: Arch, front: FrontEnd)

  ghost function StepEarly(e: Early, v: Machine): Early {
    if Stopped(e.arch, v) then e
    else Early(Perform(e.arch, Word(e.front, e.arch.pc), v), Advance(e.front, e.arch, v))
  }

  ghost function RunEarly(a: Arch, predictor: Predictor, v: Machine, n: nat): Early {
    if n == 0 then Early(a, StartFront(a.mem, predictor)) else StepEarly(RunEarly(a, predictor, v, n - 1), v)
  }
}
