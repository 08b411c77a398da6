/** Undo and redo: stepping, undoing and redoing in any order moves a cursor over the states visited. */
module RvssHistory {
  import opened Words
  import opened Instructions
  import opened ImmGenerator
  import opened Alu
  import opened AluLaws
  import opened FlatMemory
  import opened Datapath
  import opened Rvss

  lemma {:induction false} WriteBytesAt(m: Flat, a: U64, bytes: seq<U8>, b: nat)
    requires a + |bytes| <= B64
    ensures WriteBytes(m, a, bytes)[b] == if a <= b < a + |bytes| then bytes[b - a] else m[b]
    decreases |bytes|
  {
    if bytes != [] { WriteBytesAt(m, a, bytes[..|bytes| - 1], b); }
  }

  /** Writing back the bytes that one memory has at a place gives that memory, if the two agree elsewhere. */
  lemma WriteBytesRestores(m: Flat, m': Flat, a: U64, n: nat)
    requires a + n <= B64 && forall b: nat :: b < a || b >= a + n ==> m[b] == m'[b]
    ensures WriteBytes(m', a, BytesAt(m, a, n)) == m
  {
    hide WriteBytes;
    forall b: nat ensures WriteBytes(m', a, BytesAt(m, a, n))[b] == m[b] {
      WriteBytesAt(m', a, BytesAt(m, a, n), b);
    }
  }

  /** The memory part of a delta leads back and forth. */
  lemma MemoryRecorded(m: Flat, m': Flat, a: U64, n: nat)
    requires a + n <= B64 && forall b: nat :: b < a || b >= a + n ==> m[b] == m'[b]
    ensures var (was, now) := (BytesAt(m, a, n), BytesAt(m', a, n));
      var changes := if was != now then [MemoryChange(a, was, now)] else [];
      OldMemory(m', changes) == m && NewMemory(m, changes) == m'
  {
    hide WriteBytes;
    var was, now := BytesAt(m, a, n), BytesAt(m', a, n);
    if was != now {
      WriteBytesRestores(m, m', a, n);
      WriteBytesRestores(m', m, a, n);
      OneChange(m, m', MemoryChange(a, was, now));
    } else {
      forall b: nat ensures m[b] == m'[b] {
        if a <= b < a + n { assert was[b - a] == now[b - a]; }
      }
      assert m == m';
    }
  }

  lemma OneChange(m: Flat, m': Flat, c: MemoryChange)
    ensures OldMemory(m', [c]) == WriteBytes(m', c.address, c.oldBytes)
    ensures NewMemory(m, [c]) == WriteBytes(m, c.address, c.newBytes)
  {
    assert [c][..0] == [];
  }

  lemma RegisterRecorded(r: Regs, rd: Reg, v: U64)
    ensures var r' := WriteGpr(r, rd, v);
      var changes := if ReadGpr(r, rd) != ReadGpr(r', rd) then [RegisterChange(rd, ReadGpr(r, rd), ReadGpr(r', rd))]
        else [];
      OldRegs(r', changes) == r && NewRegs(r, changes) == r'
  {
    var r' := WriteGpr(r, rd, v);
    var c := RegisterChange(rd, ReadGpr(r, rd), ReadGpr(r', rd));
    assert [c][..0] == [];
    assert OldRegs(r', [c]) == WriteGpr(OldRegs(r', []), rd, c.oldValue);
    assert NewRegs(r, [c]) == WriteGpr(NewRegs(r, []), rd, c.newValue);
    if rd != 0 { assert r'[rd := r[rd]] == r; }
  }

  /** Outside CSR instructions a step writes at most the destination register. */
  lemma OneRegister(s: Core, l: Latches, w: U32) returns (v: U64)
    requires !IsCsr(w)
    ensures RegsAfter(s, l, w) == WriteGpr(s.regs, Rd(w), v)
  {
    hide Result, MemoryResult, UpperImmediate, Opcode, Funct3, Rd;
    v := match Opcode(w)
      case 0x33 => Result(s, w)
      case 0x13 => Result(s, w)
      case 0x17 => Result(s, w)
      case 0x03 => MemoryResult(s, l, w)
      case 0x67 => Wrap64(s.pc + 4)
      case 0x6F => Wrap64(s.pc + 4)
      case 0x37 => UpperImmediate(w)
      case _ => ReadGpr(s.regs, Rd(w));
  }

  lemma StoreStays(s: Core, w: U32, memorySize: U64)
    requires !Throws(s, w, memorySize)
    ensures var (a, n) := (Result(s, w), StoreWidth(w));
      (n > 0 ==> a + n <= B64) && forall b: nat :: b < a || b >= a + n ==> s.mem[b] == MemoryAfter(s, w)[b]
  {
    hide Result, LoadLE, StoreLE, ReadGpr, Rs2;
    var a, n := Result(s, w), StoreWidth(w);
    forall b: nat | b < a || b >= a + n ensures s.mem[b] == MemoryAfter(s, w)[b] {
      if n > 0 { StoreAt(s.mem, a, n, ReadGpr(s.regs, Rs2(w)), b); }
    }
  }

  // ----- CSR instructions leave no record -----

  predicate SharesBit(a: U64, b: U64) { Bitwise(KAnd, a, b, 64) != 0 }

  /** Whether writing `operand` in the way of `f3` changes a CSR that holds `was`. */
  predicate ChangesCsr(f3: nat, was: U64, operand: U64) {
    match f3
    case 1 | 5 => operand != was
    case 2 | 6 => SharesBit(operand, B64 - 1 - was)
    case 3 | 7 => SharesBit(operand, was)
    case _ => false
  }

  /** Whether a CSR instruction is going to change something, told from the state before it: the destination register
      differs from the CSR it is to receive, or the CSR is written a new value, has a clear bit set, or a set bit
      cleared. */
  predicate CsrEffect(s: Core, w: U32) {
    var was := s.csrs[CsrIndex(w)];
    IsCsr(w) && Funct3(w) != 4
    && ((Rd(w) != 0 && s.regs[Rd(w)] != was) || ChangesCsr(Funct3(w), was, CsrOperand(s, w)))
  }

  lemma SetBits(was: U64, operand: U64)
    ensures (if operand == 0 then was else Wrap64(Bitwise(KOr, was, operand, 64))) != was
       <==> SharesBit(operand, B64 - 1 - was)
  {
    PowersOfTwo();
    hide Pow2, Bitwise, Wrap64;
    OrChangesIff(was, operand, 64);
    BitwiseFits(KOr, was, operand);
    if operand == 0 { AndZero(B64 - 1 - was, 64); }
  }

  lemma ClearBits(was: U64, operand: U64)
    ensures (if operand == 0 then was else Wrap64(Bitwise(KAnd, was, B64 - 1 - operand, 64))) != was
       <==> SharesBit(operand, was)
  {
    PowersOfTwo();
    hide Pow2, Bitwise, Wrap64;
    ClearChangesIff(was, operand, 64);
    BitwiseFits(KAnd, was, B64 - 1 - operand);
    if operand == 0 { AndZero(was, 64); }
  }

  lemma {:induction false} AndZero(b: nat, k: nat)
    ensures Bitwise(KAnd, 0, b, k) == 0
    decreases k
  {
    if k > 0 { AndZero(b / 2, k - 1); }
  }

  /** What a CSR instruction writes to its CSR. */
  function CsrWritten(f3: nat, was: U64, operand: U64): U64 {
    if f3 == 1 || f3 == 5 then operand
    else if operand == 0 then was
    else if f3 == 2 || f3 == 6 then Wrap64(Bitwise(KOr, was, operand, 64))
    else if f3 == 3 || f3 == 7 then Wrap64(Bitwise(KAnd, was, B64 - 1 - operand, 64))
    else was
  }

  lemma CsrsPerformed(s: Core, w: U32)
    requires IsCsr(w)
    ensures CsrsAfter(s, w) == s.csrs[CsrIndex(w) := CsrWritten(Funct3(w), s.csrs[CsrIndex(w)], CsrOperand(s, w))]
  {
    assert s.csrs[CsrIndex(w) := s.csrs[CsrIndex(w)]] == s.csrs;
    hide CsrOperand, CsrIndex, Bitwise, Wrap64, Funct3, IsCsr;
  }

  lemma RegistersPerformed(s: Core, l: Latches, w: U32)
    requires IsCsr(w)
    ensures RegsAfter(s, l, w) == if Funct3(w) == 4 then s.regs else WriteGpr(s.regs, Rd(w), s.csrs[CsrIndex(w)])
  {
    hide CsrIndex, Rd, Bits, Result, MemoryResult, UpperImmediate, WriteGpr;
  }

  lemma CsrWrittenIff(f3: nat, was: U64, operand: U64)
    ensures CsrWritten(f3, was, operand) != was <==> ChangesCsr(f3, was, operand)
  {
    SetBits(was, operand);
    ClearBits(was, operand);
    hide Bitwise, Wrap64, SharesBit;
  }

  /** The registers or the CSRs after a CSR instruction differ from those before exactly if it has an effect. */
  lemma CsrEffectIff(s: Core, l: Latches, w: U32)
    requires IsCsr(w)
    ensures RegsAfter(s, l, w) != s.regs || CsrsAfter(s, w) != s.csrs <==> CsrEffect(s, w)
  {
    var f3, i, operand := Funct3(w), CsrIndex(w), CsrOperand(s, w);
    CsrsPerformed(s, w);
    RegistersPerformed(s, l, w);
    CsrWrittenIff(f3, s.csrs[i], operand);
    Changes(s.regs, Rd(w), s.csrs, i, CsrWritten(f3, s.csrs[i], operand));
    assert f3 == 4 ==> !ChangesCsr(f3, s.csrs[i], operand);
    assert CsrEffect(s, w) <==>
      (f3 != 4 && Rd(w) != 0 && s.regs[Rd(w)] != s.csrs[i]) || (f3 != 4 && ChangesCsr(f3, s.csrs[i], operand));
    hide *;
  }

  lemma Changes(r: Regs, rd: Reg, c: Csrs, i: nat, v: U64)
    requires i < 4096
    ensures c[i := v] != c <==> v != c[i]
    ensures WriteGpr(r, rd, c[i]) != r <==> rd != 0 && r[rd] != c[i]
  {
    assert c[i := c[i]] == c && r[rd := r[rd]] == r;
  }

  lemma CountersBack(n: U32)
    ensures Wrap32(Wrap32(n + 1) - 1) == n
  {}

  /** What the fields of the state are once a step is undone and once it is redone. */
  lemma Rewound(s: Core, l: Latches, w: U32, memorySize: U64)
    requires !Throws(s, w, memorySize)
    ensures var t, d := Performed(s, l, w), Delta(s, l, w);
      && Undone(t, d) == Core(s.pc, OldRegs(t.regs, d.registers), t.csrs, s.mem, s.retired, s.cycles)
      && Redone(s, d) == Core(t.pc, NewRegs(s.regs, d.registers), s.csrs, t.mem, t.retired, t.cycles)
  {
    hide Performed, OldMemory, OldRegs, NewRegs, NewMemory, IsCsr, Rd, Result, ReadGpr, BytesAt, Wrap32, StoreWidth,
      Throws;
    MemoryOfStep(s, l, w, memorySize);
    Counted(s, l, w);
  }

  lemma Counted(s: Core, l: Latches, w: U32)
    ensures var t := Performed(s, l, w);
      && t.retired == Wrap32(s.retired + 1) && Wrap32(t.retired - 1) == s.retired
      && t.cycles == Wrap32(s.cycles + 1) && Wrap32(t.cycles - 1) == s.cycles
  {
    CountersBack(s.retired);
    CountersBack(s.cycles);
    hide MemoryAfter, RegsAfter, CsrsAfter, NextPc, Wrap32;
  }

  lemma RegistersRewound(s: Core, l: Latches, w: U32)
    ensures var t, d := Performed(s, l, w), Delta(s, l, w);
      if IsCsr(w) then OldRegs(t.regs, d.registers) == t.regs && NewRegs(s.regs, d.registers) == s.regs
      else OldRegs(t.regs, d.registers) == s.regs && NewRegs(s.regs, d.registers) == t.regs && t.csrs == s.csrs
  {
    if IsCsr(w) {
      NoChanges(s.regs);
      NoChanges(RegsAfter(s, l, w));
    } else {
      var v := OneRegister(s, l, w);
      RegisterRecorded(s.regs, Rd(w), v);
      CsrsSame(s, w);
    }
    hide Opcode, Funct3, Rd, Result, MemoryAfter, OldRegs, NewRegs, RegsAfter, CsrsAfter, NextPc, BytesAt, ReadGpr,
      WriteGpr, Wrap32, StoreWidth, IsCsr;
  }

  /** Undo takes back exactly the steps that are not CSR instructions with an effect: those leave the CSR, and the
      register they copied it to, changed. */
  lemma UndoTakesBackIff(s: Core, l: Latches, w: U32, memorySize: U64)
    requires !Throws(s, w, memorySize)
    ensures Undone(Performed(s, l, w), Delta(s, l, w)) == s <==> !CsrEffect(s, w)
  {
    Rewound(s, l, w, memorySize);
    RegistersRewound(s, l, w);
    CsrsAndRegisters(s, l, w);
    hide *;
  }

  lemma CsrsAndRegisters(s: Core, l: Latches, w: U32)
    ensures var t := Performed(s, l, w); IsCsr(w) ==> (t.regs != s.regs || t.csrs != s.csrs <==> CsrEffect(s, w))
    ensures !IsCsr(w) ==> !CsrEffect(s, w)
  {
    if IsCsr(w) { CsrEffectIff(s, l, w); }
    hide IsCsr, RegsAfter, CsrsAfter, MemoryAfter, NextPc, Wrap32, CsrEffect;
  }

  const CSRRWI: U32 := 0x0030_D073 // csrrwi x0, 3, 1

  /** The input on which undo fails: `csrrwi x0, 3, 1` with CSR 3 at 0 leaves it at 1 when it is undone. */
  lemma UndoLosesCsr(s: Core, l: Latches, memorySize: U64)
    requires s.csrs[3] == 0
    ensures !Throws(s, CSRRWI, memorySize)
    ensures var u := Undone(Performed(s, l, CSRRWI), Delta(s, l, CSRRWI)); u.csrs[3] == 1 && u != s
  {
    assert IsCsr(CSRRWI) && Funct3(CSRRWI) == 5 && CsrIndex(CSRRWI) == 3 && Rs1(CSRRWI) == 1;
    assert LoadWidth(CSRRWI) == 0 && StoreWidth(CSRRWI) == 0;
    assert CsrsAfter(s, CSRRWI) == s.csrs[3 := 1];
    hide IsCsr, Funct3, CsrIndex, Rs1, LoadWidth, StoreWidth, CsrsAfter, OldRegs, OldMemory, RegsAfter, NextPc,
      MemoryAfter, BytesAt, Wrap32, Result;
  }

  lemma CsrsSame(s: Core, w: U32)
    requires !IsCsr(w)
    ensures CsrsAfter(s, w) == s.csrs
  {}

  lemma NoChanges(r: Regs)
    ensures OldRegs(r, []) == r && NewRegs(r, []) == r
  {}

  lemma MemoryOfStep(s: Core, l: Latches, w: U32, memorySize: U64)
    requires !Throws(s, w, memorySize)
    ensures var (t, d) := (Performed(s, l, w), Delta(s, l, w));
      OldMemory(t.mem, d.memory) == s.mem && NewMemory(s.mem, d.memory) == t.mem
  {
    hide Opcode, Funct3, Rd, Result, OldMemory, NewMemory, RegsAfter, CsrsAfter, NextPc, ReadGpr, MemoryAfter,
      StoreWidth, Throws;
    StoreStays(s, w, memorySize);
    var a, n := Result(s, w), StoreWidth(w);
    if n > 0 { MemoryRecorded(s.mem, MemoryAfter(s, w), a, n); }
    else {
      assert s.mem == MemoryAfter(s, w);
      assert BytesAt(s.mem, a, 0) == BytesAt(MemoryAfter(s, w), a, 0);
      NoMemoryChanges(s.mem);
    }
  }

  lemma NoMemoryChanges(m: Flat)
    ensures OldMemory(m, []) == m && NewMemory(m, []) == m
  {}

  /** Redo repeats exactly the steps that undo takes back. */
  lemma RedoRepeatsIff(s: Core, l: Latches, w: U32, memorySize: U64)
    requires !Throws(s, w, memorySize)
    ensures Redone(s, Delta(s, l, w)) == Performed(s, l, w) <==> !CsrEffect(s, w)
  {
    Rewound(s, l, w, memorySize);
    RegistersRewound(s, l, w);
    CsrsAndRegisters(s, l, w);
    hide *;
  }

  // ----- the cursor -----

  /** A step that was made. */
  datatype Visit = Visit(before: Core, after: Core)

  /** The steps made and not forgotten, how many of them are done rather than taken back, and where the machine is. */
  datatype Timeline = Timeline(steps: seq<Visit>, cursor: nat, current: Core)

  datatype Command = StepCommand | UndoCommand | RedoCommand

  ghost function Do(v: Vm, c: Command, size: nat, memorySize: U64): Vm {
    match c
    case StepCommand => Step(v, size, memorySize)
    case UndoCommand => Undo(v)
    case RedoCommand => Redo(v)
  }

  ghost function Play(v: Vm, commands: seq<Command>, size: nat, memorySize: U64): Vm
    decreases |commands|
  {
    if commands == [] then v
    else Do(Play(v, commands[..|commands| - 1], size, memorySize), commands[|commands| - 1], size, memorySize)
  }

  /** A step that completes is added after the cursor, and what followed is forgotten; one that throws moves the program
      counter alone. Undo goes to the state before the last step done, redo to the one after the next. */
  ghost function Move(t: Timeline, c: Command, outcome: Outcome, reached: Core): (t': Timeline)
    requires t.cursor <= |t.steps|
    ensures t'.cursor <= |t'.steps|
  {
    match c
    case StepCommand =>
      if outcome == Stepped then Timeline(t.steps[..t.cursor] + [Visit(t.current, reached)], t.cursor + 1, reached)
      else if outcome == MemoryThrew then t.(current := t.current.(pc := Wrap64(t.current.pc + 4)))
      else t
    case UndoCommand =>
      if t.cursor > 0 then t.(cursor := t.cursor - 1, current := t.steps[t.cursor - 1].before) else t
    case RedoCommand =>
      if t.cursor < |t.steps| then t.(cursor := t.cursor + 1, current := t.steps[t.cursor].after) else t
  }

  ghost function Visited(v: Vm, commands: seq<Command>, size: nat, memorySize: U64): (t: Timeline)
    ensures t.cursor <= |t.steps|
    decreases |commands|
  {
    if commands == [] then Timeline([], 0, v.core)
    else
      var init, c := commands[..|commands| - 1], commands[|commands| - 1];
      var before := Play(v, init, size, memorySize);
      Move(Visited(v, init, size, memorySize), c, StepOutcome(before, size, memorySize),
           Performed(before.core, before.latches, Next(before.core)))
  }

  /** A step of a CSR instruction that had an effect. */
  ghost predicate Lasting(x: Visit) { CsrEffect(x.before, Next(x.before)) }

  /** The command does not take such a step back. */
  ghost predicate Reversible(t: Timeline, c: Command)
    requires t.cursor <= |t.steps|
  {
    c.UndoCommand? && t.cursor > 0 ==> !Lasting(t.steps[t.cursor - 1])
  }

  ghost predicate AllReversible(v: Vm, commands: seq<Command>, size: nat, memorySize: U64) {
    forall n | 0 <= n < |commands| :: Reversible(Visited(v, commands[..n], size, memorySize), commands[n])
  }

  ghost predicate Links(x: Visit, d: StepDelta) { Undone(x.after, d) == x.before && Redone(x.before, d) == x.after }

  ghost predicate SameButPc(a: Core, b: Core) { a.(pc := b.pc) == b }

  /** The undo stack leads back along the timeline, over all steps without a lasting effect, and the redo stack forward.
      Between two steps only the program counter can have moved, by a step that threw. */
  ghost predicate Follows(v: Vm, t: Timeline) {
    && t.cursor <= |t.steps| && v.core == t.current
    && |v.undo| == t.cursor && |v.redo| == |t.steps| - t.cursor
    && (forall i | 0 <= i < t.cursor :: Lasting(t.steps[i]) || Links(t.steps[i], v.undo[i]))
    && (forall i | 0 <= i < |v.redo| :: Links(t.steps[|t.steps| - 1 - i], v.redo[i]))
    && (forall i | 0 < i < |t.steps| :: SameButPc(t.steps[i - 1].after, t.steps[i].before))
    && (t.cursor > 0 ==> SameButPc(t.steps[t.cursor - 1].after, t.current))
    && (t.cursor < |t.steps| ==> SameButPc(t.current, t.steps[t.cursor].before))
  }

  lemma StepFollows(v: Vm, t: Timeline, size: nat, memorySize: U64)
    requires Follows(v, t)
    ensures var outcome, reached := StepOutcome(v, size, memorySize), Performed(v.core, v.latches, Next(v.core));
      Follows(Step(v, size, memorySize), Move(t, StepCommand, outcome, reached))
  {
    var outcome, v' := StepOutcome(v, size, memorySize), Step(v, size, memorySize);
    hide Performed, Delta, Undone, Redone, Next, Throws, CsrEffect, Follows;
    if outcome == Stepped {
      UndoTakesBackIff(v.core, v.latches, Next(v.core), memorySize);
      RedoRepeatsIff(v.core, v.latches, Next(v.core), memorySize);
      SteppedFollows(v, t, v', Delta(v.core, v.latches, Next(v.core)));
      CurrentFollows(v, t);
    } else if outcome == MemoryThrew {
      ThrewFollows(v, t, Wrap64(v.core.pc + 4));
      CurrentFollows(v, t);
    }
  }

  lemma CurrentFollows(v: Vm, t: Timeline)
    requires Follows(v, t)
    ensures v.core == t.current
  {}

  lemma SteppedFollows(v: Vm, t: Timeline, v': Vm, d: StepDelta)
    requires Follows(v, t) && v'.undo == v.undo + [d] && v'.redo == []
    requires Lasting(Visit(v.core, v'.core)) || Links(Visit(v.core, v'.core), d)
    ensures Follows(v', Timeline(t.steps[..t.cursor] + [Visit(t.current, v'.core)], t.cursor + 1, v'.core))
  {
    hide Links, Lasting;
    assert SameButPc(v'.core, v'.core);
    hide SameButPc;
  }

  lemma ThrewFollows(v: Vm, t: Timeline, pc: U64)
    requires Follows(v, t)
    ensures Follows(v.(core := v.core.(pc := pc)), t.(current := t.current.(pc := pc)))
  {
    hide Links, Lasting;
  }

  /** Undo and redo set the program counter, whatever it was. */
  lemma PcForgotten(a: Core, b: Core, d: StepDelta)
    requires SameButPc(a, b)
    ensures Undone(a, d) == Undone(b, d) && Redone(a, d) == Redone(b, d)
  {
    hide OldRegs, OldMemory, NewRegs, NewMemory, Wrap32;
  }

  lemma UndoFollows(v: Vm, t: Timeline)
    requires Follows(v, t) && Reversible(t, UndoCommand)
    ensures Follows(Undo(v), Move(t, UndoCommand, Idle, v.core))
  {
    hide Undone, Redone, Lasting;
    if t.cursor > 0 {
      var v', n := Undo(v), |v.redo|;
      PcForgotten(t.steps[t.cursor - 1].after, t.current, v.undo[t.cursor - 1]);
      assert Links(t.steps[t.cursor - 1], v.undo[t.cursor - 1]);
      forall i | 0 <= i <= n ensures Links(t.steps[|t.steps| - 1 - i], v'.redo[i]) {
        if i < n { assert v'.redo[i] == v.redo[i]; }
      }
    }
  }

  lemma RedoFollows(v: Vm, t: Timeline)
    requires Follows(v, t)
    ensures Follows(Redo(v), Move(t, RedoCommand, Idle, v.core))
  {
    hide Undone, Redone, Lasting;
    if v.redo != [] {
      var n := |v.redo| - 1;
      PcForgotten(t.current, t.steps[t.cursor].before, v.redo[n]);
      assert Links(t.steps[|t.steps| - 1 - n], v.redo[n]);
    }
  }

  lemma DoFollows(v: Vm, t: Timeline, c: Command, size: nat, memorySize: U64)
    requires Follows(v, t) && Reversible(t, c)
    ensures var outcome, reached := StepOutcome(v, size, memorySize), Performed(v.core, v.latches, Next(v.core));
      Follows(Do(v, c, size, memorySize), Move(t, c, outcome, reached))
  {
    hide Step, Undo, Redo, Follows, StepOutcome, Reversible, Performed, Next;
    match c
    case StepCommand => StepFollows(v, t, size, memorySize);
    case UndoCommand => UndoFollows(v, t);
    case RedoCommand => RedoFollows(v, t);
  }

  lemma PrefixReversible(v: Vm, commands: seq<Command>, size: nat, memorySize: U64)
    requires commands != [] && AllReversible(v, commands, size, memorySize)
    ensures var n := |commands| - 1;
      && AllReversible(v, commands[..n], size, memorySize)
      && Reversible(Visited(v, commands[..n], size, memorySize), commands[n])
  {
    hide Reversible, Visited;
    var n := |commands| - 1;
    var init: seq<Command> := commands[..n];
    forall k | 0 <= k < n ensures Reversible(Visited(v, init[..k], size, memorySize), init[k]) {
      assert init[..k] == commands[..k];
    }
  }

  /** Any sequence of steps, undos and redos in which no undo meets a lasting step moves a cursor over the steps made:
      undo is always at the state before the last step done, redo at the one after the next, whatever was stepped,
      undone and redone in between. */
  lemma {:induction false} HistoryIsCursor(v: Vm, commands: seq<Command>, size: nat, memorySize: U64)
    requires v.undo == [] && v.redo == [] && AllReversible(v, commands, size, memorySize)
    ensures Follows(Play(v, commands, size, memorySize), Visited(v, commands, size, memorySize))
    decreases |commands|
  {
    hide Do, Move, Follows, StepOutcome, Reversible, AllReversible, Performed, Next;
    if commands == [] { StartFollows(v); }
    else {
      var n := |commands| - 1;
      PrefixReversible(v, commands, size, memorySize);
      HistoryIsCursor(v, commands[..n], size, memorySize);
      var before, t := Play(v, commands[..n], size, memorySize), Visited(v, commands[..n], size, memorySize);
      DoFollows(before, t, commands[n], size, memorySize);
    }
  }

  lemma StartFollows(v: Vm)
    requires v.undo == [] && v.redo == []
    ensures Follows(v, Timeline([], 0, v.core))
  {}

  lemma RedoAfterUndo(v: Vm, x: Visit)
    requires v.undo != [] && Links(x, v.undo[|v.undo| - 1]) && SameButPc(x.after, v.core)
    ensures Redo(Undo(v)) == v.(core := v.core.(pc := v.undo[|v.undo| - 1].newPc))
  {
    var d := v.undo[|v.undo| - 1];
    PcForgotten(x.after, v.core, d);
    assert Redone(x.before, d).pc == d.newPc;
    hide Undone, Redone;
  }

  lemma UndoAfterRedo(v: Vm, x: Visit)
    requires v.redo != [] && Links(x, v.redo[|v.redo| - 1]) && SameButPc(v.core, x.before)
    ensures Undo(Redo(v)) == v.(core := v.core.(pc := v.redo[|v.redo| - 1].oldPc))
  {
    var d := v.redo[|v.redo| - 1];
    PcForgotten(v.core, x.before, d);
    assert Undone(x.after, d).pc == d.oldPc;
    hide Undone, Redone;
  }

  /** Undo and redo are inverse to each other wherever they do anything, except that the program counter is not put
      back where a step that threw had moved it. */
  lemma UndoRedoInverse(v: Vm, t: Timeline)
    requires Follows(v, t)
    ensures v.undo != [] && !Lasting(t.steps[t.cursor - 1]) ==>
      Redo(Undo(v)) == v.(core := v.core.(pc := v.undo[|v.undo| - 1].newPc))
    ensures v.redo != [] ==> Undo(Redo(v)) == v.(core := v.core.(pc := v.redo[|v.redo| - 1].oldPc))
  {
    hide Links, SameButPc, Undo, Redo, Lasting;
    if v.undo != [] && !Lasting(t.steps[t.cursor - 1]) { RedoAfterUndo(v, t.steps[t.cursor - 1]); }
    if v.redo != [] {
      assert Links(t.steps[|t.steps| - 1 - (|v.redo| - 1)], v.redo[|v.redo| - 1]);
      UndoAfterRedo(v, t.steps[t.cursor]);
    }
  }

  // ----- counters -----

  lemma CountsUp(n: nat, k: nat)
    ensures Wrap32(Wrap32(n + k) + 1) == Wrap32(n + k + 1)
    ensures k > 0 ==> Wrap32(Wrap32(n + k) - 1) == Wrap32(n + k - 1)
  {
    var q, r := (n + k) / B32, (n + k) % B32;
    DivUnique(n + k + 1, if r + 1 < B32 then q else q + 1, if r + 1 < B32 then r + 1 else 0, B32);
    if k > 0 { DivUnique(n + k - 1, if r > 0 then q else q - 1, if r > 0 then r - 1 else B32 - 1, B32); }
  }

  /** The counters of retired instructions and cycles are, modulo 2^32, where they started plus the cursor: a step
      counts one up, an undo one down, a redo one up again, and a step that throws or is idle counts nothing. */
  ghost predicate Counts(v: Vm, t: Timeline, start: Core) {
    && t.cursor <= |t.steps| && |v.undo| == t.cursor && |v.redo| == |t.steps| - t.cursor
    && v.core.retired == Wrap32(start.retired + t.cursor) && v.core.cycles == Wrap32(start.cycles + t.cursor)
  }

  lemma DoCounts(v: Vm, t: Timeline, c: Command, size: nat, memorySize: U64, start: Core)
    requires Counts(v, t, start)
    ensures var outcome, reached := StepOutcome(v, size, memorySize), Performed(v.core, v.latches, Next(v.core));
      Counts(Do(v, c, size, memorySize), Move(t, c, outcome, reached), start)
  {
    CountsUp(start.retired, t.cursor);
    CountsUp(start.cycles, t.cursor);
    hide StepOutcome, Next, RegsAfter, CsrsAfter, MemoryAfter, NextPc, Delta, LatchesAfter, OldRegs, OldMemory, NewRegs,
      NewMemory, Wrap32, Wrap64;
  }

  /** After any history of steps, undos and redos the counters tell how many steps are done. */
  lemma {:induction false} CountersAreCursor(v: Vm, commands: seq<Command>, size: nat, memorySize: U64)
    requires v.undo == [] && v.redo == []
    ensures Counts(Play(v, commands, size, memorySize), Visited(v, commands, size, memorySize), v.core)
    decreases |commands|
  {
    hide Do, Move, StepOutcome, Performed, Next;
    if commands != [] {
      var n := |commands| - 1;
      CountersAreCursor(v, commands[..n], size, memorySize);
      var before, t := Play(v, commands[..n], size, memorySize), Visited(v, commands[..n], size, memorySize);
      DoCounts(before, t, commands[n], size, memorySize, v.core);
    }
  }
}
