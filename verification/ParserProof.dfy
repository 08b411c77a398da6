/** What a parse without errors guarantees about the intermediate code. */
module ParserProof {
  import opened Words
  import opened Wrappers
  import opened Instructions
  import opened Tokens
  import opened CodeGenerator
  import opened ParseFormats
  import opened ParserSpec

  /** The instruction the machine word keeps: the generator cuts a U immediate to 20 bits. */
  function Normal(i: Inst): Inst {
    match i
    case InstU(op, rd, imm) => InstU(op, rd, imm % 0x10_0000)
    case _ => i
  }

  /** A unit whose operands are complete and in range, and whose label, if it has one, is resolved for
      position `index`. Fences have no encoding. */
  predicate Settled(u: ICUnit, index: nat, symbols: SymbolTable) {
    u.op.Fence? || u.op.FenceI? || (Instruction(u).Ok? &&
      match u.target
      case None => WellFormed(Normal(Instruction(u).value))
      case Some(name) => Resolved(u, name, index, symbols))
  }

  predicate Resolved(u: ICUnit, name: Name, index: nat, symbols: SymbolTable) {
    && name in symbols
    && (u.op.B? ==> !symbols[name].isData)
    && u.imm == Some(Offset(symbols[name].address, index))
    && InReach(u.op, u.imm.value)
  }

  /** A unit that lacks only its offset. */
  predicate Waiting(u: ICUnit) {
    u.target.Some? && u.imm.None? && ((u.op.B? && u.rs1.Some? && u.rs2.Some?) || (u.op.Jal? && u.rd.Some?))
  }

  predicate OutcomeSettled(outcome: Outcome, index: nat, symbols: SymbolTable) {
    match outcome
    case Emitted(us) => forall k | 0 <= k < |us| :: Settled(us[k], index + k, symbols)
    case Deferred(u) => Waiting(u)
    case _ => true
  }

  // ----- formats -----

  lemma LabelSettled(u: ICUnit, name: Name, index: nat, symbols: SymbolTable)
    requires u.target.None? && u.imm.None?
    requires (u.op.B? && u.rs1.Some? && u.rs2.Some?) || (u.op.Jal? && u.rd.Some?)
    ensures var outcome := ToLabel(u, name, index, symbols, if u.op.B? then 0x1000 else 0x10_0000);
      && OutcomeSettled(outcome, index, symbols)
      && if name in symbols && !symbols[name].isData then
           var offset := Offset(symbols[name].address, index);
           outcome == if InReach(u.op, offset) then Emitted([u.(imm := Some(offset), target := Some(name))])
             else Rejected
         else outcome == Deferred(u.(target := Some(name)))
  {
    hide Offset;
  }

  /** The high part is rounded, so the low part always fits twelve signed bits. */
  lemma LowPartFits(o: Options, address: U64, index: nat)
    ensures var offset := Signed64(Wrap64(o.dataStart + address)) - TextAddress(index);
      PcRelativeParts(o, address, index).1 == (offset + 0x800) % 0x1000 - 0x800
    ensures -2048 <= PcRelativeParts(o, address, index).1 <= 2047
  {
    var offset := Signed64(Wrap64(o.dataStart + address)) - TextAddress(index);
    LowPart(offset);
    hide Signed64, Signed32, Wrap64, Wrap32, TextAddress;
  }

  lemma LowPart(offset: int)
    ensures var hi20 := Signed32(Wrap32((offset + 0x800) / 0x1000));
      Signed32(Wrap32(offset - Signed32(Wrap32(hi20 * 0x1000)))) == (offset + 0x800) % 0x1000 - 0x800
  {
    var q, low := (offset + 0x800) / 0x1000, (offset + 0x800) % 0x1000 - 0x800;
    var hi20 := Signed32(Wrap32(q));
    var shifted := Signed32(Wrap32(hi20 * 0x1000));
    var k := Cycles(q);
    var j := Cycles(hi20 * 0x1000);
    hide Signed32, Wrap32;
    assert offset - shifted == low + (k * 0x1000 + j) * B32;
    SameWord(offset - shifted, low, k * 0x1000 + j);
  }

  /** Reading a number as `int32_t` changes it by a multiple of 2^32. */
  lemma Cycles(n: int) returns (k: int)
    ensures n == Signed32(Wrap32(n)) + k * B32
  {
    k := if Wrap32(n) < B31 then n / B32 else n / B32 + 1;
  }

  lemma SameWord(a: int, b: int, k: int)
    requires a == b + k * B32 && -B31 <= b < B31
    ensures Signed32(Wrap32(a)) == b
  {
    if b >= 0 { DivUnique(a, k, b, B32); } else { DivUnique(a, k - 1, b + B32, B32); }
  }

  lemma PcRelativeSettled(u: ICUnit, reg: Reg, name: Name, index: nat, symbols: SymbolTable, o: Options)
    requires u.op.I1? && u.target.None?
    ensures OutcomeSettled(PcRelative(u, reg, name, index, symbols, o), index, symbols)
  {
    if name in symbols {
      LowPartFits(o, symbols[name].address, index);
      hide PcRelativeParts;
      var parts: (int, int) := PcRelativeParts(o, symbols[name].address, index);
      PartRange(o, symbols[name].address, index);
    }
  }

  lemma PartRange(o: Options, address: U64, index: nat)
    ensures -B31 <= PcRelativeParts(o, address, index).0 < B31
  {}

  lemma LoadImmediateSettled(u: ICUnit, rd: Reg, imm: int, index: nat, symbols: SymbolTable)
    requires u.target.None?
    ensures OutcomeSettled(LoadImmediate(u, rd, imm), index, symbols)
  {}

  lemma PseudoSettled(u: ICUnit, l: seq<Lexeme>, index: nat, symbols: SymbolTable, o: Options)
    requires u.op.Pseudo? && u == Unit(u.op, u.line)
    ensures OutcomeSettled(FormatPseudo(u, l, index, symbols, o), index, symbols)
  {
    hide PcRelative, LoadImmediate;
    var a := Operands(l);
    if u.op.p == La && |a| == 2 && a[0].Gpr? && a[1].LabelRef? {
      PcRelativeSettled(u.(op := I1(Addi)), a[0].reg, a[1].name, index, symbols, o);
    }
    if u.op.p == Li && |a| == 2 && a[0].Gpr? && a[1].Num? {
      LoadImmediateSettled(u, a[0].reg, a[1].number, index, symbols);
    }
  }

  lemma FloatSettled(x: Syntax, u: ICUnit, a: seq<Lexeme>, index: nat, symbols: SymbolTable)
    requires x in Syntaxes(u.op) && u == Unit(u.op, u.line) && (u.op.FR? || u.op.FR1? || u.op.FR4?)
    ensures OutcomeSettled(FormatFloat(x, u, a), index, symbols)
  {}

  lemma ConversionSettled(x: Syntax, u: ICUnit, a: seq<Lexeme>, index: nat, symbols: SymbolTable)
    requires x in Syntaxes(u.op) && u == Unit(u.op, u.line) && (u.op.FR2? || u.op.FR3?)
    ensures OutcomeSettled(FormatFloat(x, u, a), index, symbols)
  {}

  lemma ImmediateSettled(u: ICUnit, first: Reg, second: Reg, imm: int, index: nat, symbols: SymbolTable)
    requires u == Unit(u.op, u.line) && (u.op.I1? || u.op.I2?)
    ensures OutcomeSettled(FormatGprGprI(u, first, second, imm), index, symbols)
  {
    hide Resolved;
  }

  lemma BranchSettled(u: ICUnit, first: Reg, second: Reg, imm: int, index: nat, symbols: SymbolTable)
    requires u == Unit(u.op, u.line) && u.op.B?
    ensures OutcomeSettled(FormatGprGprI(u, first, second, imm), index, symbols)
  {
    hide Resolved;
    if imm % 4 == 0 {
      MultipleOfFour(imm);
      assert imm % 2 == 0;
      var v := u.(rs1 := Some(first), rs2 := Some(second), imm := Some(imm));
      assert -4096 <= imm <= 4095 ==> WellFormed(InstB(u.op.b, first, second, imm));
      assert -4096 <= imm <= 4095 ==> Instruction(v) == Ok(InstB(u.op.b, first, second, imm));
    }
  }

  lemma MultipleOfFour(n: int)
    requires n % 4 == 0
    ensures n % 2 == 0
  {
    DivUnique(n, n / 4 * 2, 0, 2);
  }

  lemma UpperSettled(u: ICUnit, rd: Reg, imm: int, index: nat, symbols: SymbolTable)
    requires u == Unit(u.op, u.line) && (u.op.U? || u.op.Jal?)
    ensures OutcomeSettled(FormatGprI(u, rd, imm), index, symbols)
  {}

  lemma MemorySettled(u: ICUnit, reg: Reg, imm: int, base: Reg, index: nat, symbols: SymbolTable)
    requires u == Unit(u.op, u.line)
    ensures u.op.I1? || u.op.FI? ==> OutcomeSettled(FormatMemory(u, reg, imm, base, true, false), index, symbols)
    ensures u.op.S? || u.op.FS? ==> OutcomeSettled(FormatMemory(u, reg, imm, base, false, true), index, symbols)
  {}

  lemma PlainSettled(x: Syntax, u: ICUnit, l: seq<Lexeme>, index: nat, symbols: SymbolTable, o: Options)
    requires x in Syntaxes(u.op) && u == Unit(u.op, u.line) && x in {O, OGprGprGpr, OGprCsrGpr, OGprCsrI}
    ensures OutcomeSettled(Format(x, u, l, index, symbols, o), index, symbols)
  {
    hide Operands, FormatPseudo;
  }

  lemma FormatSettled(x: Syntax, u: ICUnit, l: seq<Lexeme>, index: nat, symbols: SymbolTable, o: Options)
    requires x in Syntaxes(u.op) && u == Unit(u.op, u.line)
    ensures OutcomeSettled(Format(x, u, l, index, symbols, o), index, symbols)
  {
    hide FormatPseudo, FormatFloat, ToLabel, PcRelative, Operands, FormatGprGprI, FormatGprI, FormatMemory, Settled,
      Waiting;
    var a := Operands(l);
    match x
    case OPseudo => PseudoSettled(u, l, index, symbols, o);
    case OGprDL =>
      if |a| == 2 && a[0].Gpr? && a[1].LabelRef? { PcRelativeSettled(u, a[0].reg, a[1].name, index, symbols, o); }
    case OGprIL =>
      if |a| == 2 && a[0].Gpr? && a[1].LabelRef? { LabelSettled(u.(rd := Some(a[0].reg)), a[1].name, index, symbols); }
    case OGprGprIL =>
      if |a| == 3 && a[0].Gpr? && a[1].Gpr? && a[2].LabelRef? {
        LabelSettled(u.(rs1 := Some(a[0].reg), rs2 := Some(a[1].reg)), a[2].name, index, symbols);
      }
    case OGprGprI =>
      if |a| == 3 && a[0].Gpr? && a[1].Gpr? && a[2].Num? {
        if u.op.B? { BranchSettled(u, a[0].reg, a[1].reg, a[2].number, index, symbols); }
        else { ImmediateSettled(u, a[0].reg, a[1].reg, a[2].number, index, symbols); }
      }
    case OGprI => if |a| == 2 && a[0].Gpr? && a[1].Num? { UpperSettled(u, a[0].reg, a[1].number, index, symbols); }
    case OGprILpGprRp =>
      if IsMemoryOperand(l) && l[0].Gpr? { MemorySettled(u, l[0].reg, l[2].number, l[4].reg, index, symbols); }
    case OFprILpGprRp =>
      if IsMemoryOperand(l) && l[0].Fpr? { MemorySettled(u, l[0].reg, l[2].number, l[4].reg, index, symbols); }
    case _ =>
      if x in {O, OGprGprGpr, OGprCsrGpr, OGprCsrI} { PlainSettled(x, u, l, index, symbols, o); }
      else if u.op.FR2? || u.op.FR3? { ConversionSettled(x, u, a, index, symbols); }
      else { FloatSettled(x, u, a, index, symbols); }
  }

  // ----- the second pass -----

  /** The intermediate code so far: flagged units are settled, the others are listed for patching. */
  predicate TextInv(s: State) {
    && s.index == |s.code| && LinesRecorded(s)
    && (forall i | 0 <= i < |s.code| ::
        if s.code[i].1 then Settled(s.code[i].0, i, s.symbols) else Waiting(s.code[i].0) && i in s.backPatch)
    && (forall j | 0 <= j < |s.backPatch| :: s.backPatch[j] < |s.code| && !s.code[s.backPatch[j]].1)
    && (forall j, k | 0 <= j < k < |s.backPatch| :: s.backPatch[j] < s.backPatch[k])
    && LabelsPlaced(s)
  }

  /** The line mapping has exactly the instruction numbers so far, each with its unit's line. */
  predicate LinesRecorded(s: State) {
    && |s.code| == s.index
    && (forall i | 0 <= i < s.index :: i in s.lines && s.lines[i] == s.code[i].0.line)
    && (forall i <- s.lines :: i < s.index)
  }

  /** A text label has the address of the unit that follows it. */
  predicate LabelsPlaced(s: State) {
    forall n <- s.symbols :: n in s.marks
      && (!s.symbols[n].isData ==> s.marks[n] <= s.index && s.symbols[n].address == TextAddress(s.marks[n]))
  }

  /** What the second pass keeps: the data section, and every symbol once it is defined. */
  predicate Extends(s: State, s': State) {
    && (s'.data, s'.dataIndex) == (s.data, s.dataIndex)
    && (forall n <- s.symbols :: n in s'.symbols && s'.symbols[n] == s.symbols[n])
    && (forall n <- s.symbols :: n in s.marks ==> n in s'.marks && s'.marks[n] == s.marks[n])
    && (forall n <- s'.symbols :: n !in s.symbols ==> !s'.symbols[n].isData)
    && |s.errors| <= |s'.errors|
  }

  lemma SettledStays(u: ICUnit, index: nat, s: State, s': State)
    requires Settled(u, index, s.symbols) && Extends(s, s')
    ensures Settled(u, index, s'.symbols)
  {
    hide Instruction, WellFormed, InReach, Normal;
  }

  lemma EmitKeeps(s: State, u: ICUnit, resolved: bool)
    requires TextInv(s)
    requires if resolved then Settled(u, s.index, s.symbols) else Waiting(u)
    ensures var s1 := if resolved then s else s.(backPatch := s.backPatch + [s.index]);
      TextInv(Emit(s1, u, resolved)) && Extends(s, Emit(s1, u, resolved))
  {
    hide Settled, Waiting;
    var s1 := if resolved then s else s.(backPatch := s.backPatch + [s.index]);
    var s2 := Emit(s1, u, resolved);
    forall i | 0 <= i < |s2.code|
      ensures if s2.code[i].1 then Settled(s2.code[i].0, i, s2.symbols) else Waiting(s2.code[i].0) && i in s2.backPatch
    {
      if i == s.index { assert !resolved ==> s2.backPatch[|s.backPatch|] == i; }
      else if !s2.code[i].1 { assert i in s.backPatch; }
    }
  }

  lemma {:induction false} EmitAllKeeps(s: State, us: seq<ICUnit>)
    requires TextInv(s) && forall k | 0 <= k < |us| :: Settled(us[k], s.index + k, s.symbols)
    ensures TextInv(EmitAll(s, us)) && Extends(s, EmitAll(s, us))
    ensures EmitAll(s, us).index == s.index + |us| && EmitAll(s, us).symbols == s.symbols
    decreases |us|
  {
    hide Settled, Waiting;
    if us != [] {
      var n := |us| - 1;
      EmitAllKeeps(s, us[..n]);
      EmitKeeps(EmitAll(s, us[..n]), us[n], true);
    }
  }

  lemma {:induction false} FirstMatchSettled(xs: seq<Syntax>, u: ICUnit, l: seq<Lexeme>, index: nat,
    symbols: SymbolTable, o: Options)
    requires u == Unit(u.op, u.line) && forall x <- xs :: x in Syntaxes(u.op)
    ensures OutcomeSettled(FirstMatch(xs, u, l, index, symbols, o), index, symbols)
    decreases |xs|
  {
    hide Settled, Waiting, Syntaxes, Format;
    if xs != [] {
      FormatSettled(xs[0], u, l, index, symbols, o);
      FirstMatchSettled(xs[1..], u, l, index, symbols, o);
    }
  }

  /** The state with a text label defined at the unit to come. */
  function Defined(s: State, name: Name, line: nat): State {
    s.(symbols := s.symbols[name := Symbol(TextAddress(s.index), line, false)], marks := s.marks[name := s.index])
  }

  lemma DefineExtends(s: State, name: Name, line: nat)
    requires name !in s.symbols
    ensures Extends(s, Defined(s, name, line))
  {
    hide TextAddress;
  }

  lemma DefinePlaces(s: State, name: Name, line: nat)
    requires LabelsPlaced(s)
    ensures LabelsPlaced(Defined(s, name, line))
  {
    hide TextAddress;
  }

  lemma DefineKeeps(s: State, name: Name, line: nat)
    requires TextInv(s) && name !in s.symbols
    ensures TextInv(Defined(s, name, line)) && Extends(s, Defined(s, name, line))
  {
    var s' := Defined(s, name, line);
    DefineExtends(s, name, line);
    DefinePlaces(s, name, line);
    hide Settled, Waiting, LabelsPlaced, TextAddress, Extends;
    forall i | 0 <= i < |s.code| && s.code[i].1 ensures Settled(s.code[i].0, i, s'.symbols) {
      SettledStays(s.code[i].0, i, s, s');
    }
  }

  lemma ApplyKeeps(s: State, outcome: Outcome, line: nat)
    requires TextInv(s) && OutcomeSettled(outcome, s.index, s.symbols)
    ensures TextInv(Apply(s, outcome, line)) && Extends(s, Apply(s, outcome, line))
  {
    hide Settled, Waiting;
    match outcome
    case Emitted(us) => EmitAllKeeps(s, us);
    case Deferred(u) => EmitKeeps(s, u, false);
    case _ =>
  }

  lemma RecordKeeps(s: State, line: nat, pos: nat)
    requires TextInv(s)
    ensures TextInv(Record(s, line).(pos := pos)) && Extends(s, Record(s, line).(pos := pos))
  {
    hide Settled, Waiting;
  }

  lemma MoveKeeps(s: State, s1: State, pos: nat)
    requires TextInv(s1) && Extends(s, s1)
    ensures TextInv(s1.(pos := pos)) && Extends(s, s1.(pos := pos))
  {
    hide Settled, Waiting;
  }

  lemma TextStepKeeps(ts: seq<Token>, s: State, o: Options)
    requires s.pos < |ts| && !ts[s.pos].lexeme.Eof? && TextInv(s)
    ensures TextInv(TextStep(ts, s, o)) && Extends(s, TextStep(ts, s, o))
  {
    hide TextInv, Extends, Apply, OutcomeSettled, SkipLine, RestOfLine, TextAddress, Enabled, Syntaxes, FirstMatch;
    var t := ts[s.pos];
    if t.lexeme.Label? {
      if t.lexeme.name !in s.symbols {
        DefineKeeps(s, t.lexeme.name, t.line);
        MoveKeeps(s, TextStep(ts, s, o).(pos := s.pos), s.pos + 1);
      } else {
        RecordKeeps(s, t.line, s.pos + 1);
      }
    } else if t.lexeme.Opcode? && Enabled(t.lexeme.op, o) {
      var u, l := Unit(t.lexeme.op, t.line), RestOfLine(ts, s.pos + 1, t.line);
      FirstMatchSettled(Syntaxes(u.op), u, l, s.index, s.symbols, o);
      var outcome := FirstMatch(Syntaxes(u.op), u, l, s.index, s.symbols, o);
      ApplyKeeps(s, outcome, t.line);
      MoveKeeps(s, Apply(s, outcome, t.line), SkipLine(ts, s.pos, t.line));
    } else {
      RecordKeeps(s, t.line, SkipLine(ts, s.pos, t.line));
    }
  }

  lemma ExtendsTransitive(s: State, s1: State, s2: State)
    requires Extends(s, s1) && Extends(s1, s2)
    ensures Extends(s, s2)
  {}

  lemma {:induction false} TextDirectiveKeeps(ts: seq<Token>, s: State, o: Options)
    requires s.pos <= |ts| && TextInv(s)
    ensures TextInv(TextDirective(ts, s, o)) && Extends(s, TextDirective(ts, s, o))
    decreases |ts| - s.pos
  {
    hide TextInv, TextStep;
    var t := Current(ts, s);
    if !t.lexeme.Directive? && !t.lexeme.Eof? {
      TextStepKeeps(ts, s, o);
      TextDirectiveKeeps(ts, TextStep(ts, s, o), o);
      ExtendsTransitive(s, TextStep(ts, s, o), TextDirective(ts, s, o));
    }
  }

  lemma SecondStepKeeps(ts: seq<Token>, s: State, o: Options)
    requires s.pos < |ts| && TextInv(s)
    ensures TextInv(SecondStep(ts, s, o)) && Extends(s, SecondStep(ts, s, o))
  {
    hide TextInv, Extends, TextDirective, SkipTo, Spells;
    var t := Current(ts, s);
    RecordKeeps(s, t.line, s.pos + 1);
    Reflexive(s);
    MoveKeeps(s, s, SecondStep(ts, s, o).pos);
    if IsDirective(t, KwText) {
      MoveKeeps(s, s, s.pos + 1);
      TextDirectiveKeeps(ts, Next(s), o);
      ExtendsTransitive(s, Next(s), TextDirective(ts, Next(s), o));
    } else {
      TextDirectiveKeeps(ts, s, o);
    }
  }

  lemma Reflexive(s: State)
    ensures Extends(s, s)
  {}

  lemma {:induction false} SecondPassKeeps(ts: seq<Token>, s: State, o: Options)
    requires s.pos <= |ts| && TextInv(s)
    ensures TextInv(SecondPass(ts, s, o)) && Extends(s, SecondPass(ts, s, o))
    decreases |ts| - s.pos
  {
    hide TextInv, SecondStep, Extends;
    Reflexive(s);
    if !Current(ts, s).lexeme.Eof? {
      SecondStepKeeps(ts, s, o);
      SecondPassKeeps(ts, SecondStep(ts, s, o), o);
      ExtendsTransitive(s, SecondStep(ts, s, o), SecondPass(ts, s, o));
    }
  }

  // ----- the first pass -----

  /** The first pass defines data labels and emits no code. */
  predicate DataOnly(s: State) {
    (s.index, s.code, s.backPatch, s.lines) == (0, [], [], map[]) && forall n <- s.symbols ::
      s.symbols[n].isData && n in s.marks
  }

  lemma {:induction false} OperandListOnly(ts: seq<Token>, s: State, k: DataKind)
    requires s.pos <= |ts| && DataOnly(s)
    ensures DataOnly(OperandList(ts, s, k))
    decreases |ts| - s.pos
  {
    hide DataOf, IsOperand;
    var t := Current(ts, s);
    if t.lexeme.Comma? { OperandListOnly(ts, Next(s), k); }
    else if IsOperand(k, t) && s.pos < |ts| { OperandListOnly(ts, Next(Operand(s, k, t)), k); }
  }

  lemma {:induction false} DataDirectiveOnly(ts: seq<Token>, s: State)
    requires s.pos <= |ts| && DataOnly(s)
    ensures DataOnly(DataDirective(ts, s))
    decreases |ts| - s.pos
  {
    hide KindOf, OperandList, AlignIndex, Spells;
    var t := Current(ts, s);
    if !EndsSection(t) {
      if !t.lexeme.Label? && KindOf(t).Some? { OperandListOnly(ts, Next(s), KindOf(t).value); }
      DataDirectiveOnly(ts, DataStep(ts, s));
    }
  }

  lemma {:induction false} FirstPassOnly(ts: seq<Token>, s: State)
    requires s.pos <= |ts| && Terminates(ts) && Live(ts, s.pos) && DataOnly(s)
    ensures DataOnly(FirstPass(ts, s))
    decreases |ts| - s.pos
  {
    hide DataDirective, SkipTo, Spells, Terminates, Live;
    if !Current(ts, s).lexeme.Eof? {
      FirstStepLives(ts, s);
      if IsDirective(Current(ts, s), KwData) { DataDirectiveOnly(ts, Next(s)); }
      Advances(ts, s);
      FirstPassOnly(ts, FirstStep(ts, s));
    }
  }

  /** On token lists that terminate, every turn of the first loop consumes a token. */
  lemma Advances(ts: seq<Token>, s: State)
    requires s.pos < |ts| && Terminates(ts) && Live(ts, s.pos) && !Current(ts, s).lexeme.Eof?
    ensures FirstStep(ts, s).pos > s.pos
  {
    hide FirstStep;
  }

  // ----- back-patching -----

  /** The parser's state when its second pass ends. */
  function Unpatched(ts: seq<Token>, o: Options): (s: State)
    requires Terminates(ts)
    ensures TextInv(s)
  {
    var s1 := FirstPass(ts, INITIAL).(pos := 0, index := 0);
    FirstPassOnly(ts, INITIAL);
    SecondPassKeeps(ts, s1, o);
    SecondPass(ts, s1, o)
  }

  /** `Parser::parse`. */
  function Parse(ts: seq<Token>, o: Options): State
    requires Terminates(ts)
  {
    PatchAll(Unpatched(ts, o), Unpatched(ts, o).backPatch)
  }

  /** What a waiting unit needs: a label that is defined, for a branch in the text, and in reach. */
  predicate Resolvable(u: ICUnit, index: nat, symbols: SymbolTable) {
    && u.target.Some? && u.target.value in symbols
    && (u.op.B? ==> !symbols[u.target.value].isData)
    && InReach(u.op, Offset(symbols[u.target.value].address, index))
  }

  lemma PatchSettles(u: ICUnit, index: nat, symbols: SymbolTable)
    requires Waiting(u) && Resolvable(u, index, symbols)
    ensures Settled(u.(imm := Some(Offset(symbols[u.target.value].address, index))), index, symbols)
  {
    hide Offset;
  }

  /** The patching loop after `n` turns without an error: the first `n` listed units are settled, the rest wait. */
  predicate Patched(s: State, t: State, n: nat)
    requires n <= |s.backPatch|
  {
    && t == s.(code := t.code) && |t.code| == |s.code|
    && forall i | 0 <= i < |t.code| ::
        if i in s.backPatch[n..] then t.code[i] == s.code[i]
        else t.code[i].1 && Settled(t.code[i].0, i, s.symbols) && t.code[i].0.line == s.code[i].0.line
  }

  lemma PatchStep(s: State, t: State, n: nat)
    requires TextInv(s) && n < |s.backPatch| && Patched(s, t, n)
    ensures var index := s.backPatch[n];
      if Resolvable(s.code[index].0, index, s.symbols) then Patched(s, Patch(t, index), n + 1)
      else |Patch(t, index).errors| > |s.errors|
  {
    hide Settled, Offset, InReach, LabelsPlaced, LinesRecorded;
    var index := s.backPatch[n];
    assert s.backPatch[n..] == [index] + s.backPatch[n + 1..];
    assert t.code[index] == s.code[index];
    assert Waiting(s.code[index].0);
    hide Waiting;
    if Resolvable(s.code[index].0, index, s.symbols) {
      PatchSettles(s.code[index].0, index, s.symbols);
    }
  }

  lemma PatchRecords(s: State, index: nat)
    requires index < |s.code|
    ensures |Patch(s, index).errors| >= |s.errors|
  {
    hide Offset, InReach;
  }

  /** The first `n` listed units can all be resolved. */
  predicate AllResolvable(s: State, n: nat)
    requires n <= |s.backPatch| && forall j | 0 <= j < |s.backPatch| :: s.backPatch[j] < |s.code|
  {
    forall j | 0 <= j < n :: Resolvable(s.code[s.backPatch[j]].0, s.backPatch[j], s.symbols)
  }

  /** What `n` turns of the patching loop leave, whether every unit so far could be resolved or not. */
  predicate PatchedOrReported(s: State, t: State, n: nat)
    requires n <= |s.backPatch| && forall j | 0 <= j < |s.backPatch| :: s.backPatch[j] < |s.code|
  {
    if AllResolvable(s, n) then Patched(s, t, n) else |t.errors| > |s.errors|
  }

  lemma NothingPatched(s: State)
    requires TextInv(s)
    ensures PatchedOrReported(s, s, 0)
  {
    hide Settled, Waiting, LabelsPlaced, LinesRecorded;
    forall i | 0 <= i < |s.code| && i !in s.backPatch[0..] ensures s.code[i].1 && Settled(s.code[i].0, i, s.symbols) {
      assert s.backPatch[0..] == s.backPatch;
    }
  }

  lemma Listed(s: State)
    requires TextInv(s)
    ensures forall j | 0 <= j < |s.backPatch| :: s.backPatch[j] < |s.code|
  {
    hide Settled, Waiting, LabelsPlaced, LinesRecorded;
  }

  /** A turn after turns that resolved every unit. */
  lemma ResolvedTurn(s: State, t: State, n: nat)
    requires TextInv(s) && n < |s.backPatch| && AllResolvable(s, n) && Patched(s, t, n)
    ensures |t.code| == |s.code| && PatchedOrReported(s, Patch(t, s.backPatch[n]), n + 1)
  {
    PatchStep(s, t, n);
    hide Resolvable, Patch, Settled, Waiting, LabelsPlaced, LinesRecorded;
    assert AllResolvable(s, n + 1) <==> Resolvable(s.code[s.backPatch[n]].0, s.backPatch[n], s.symbols);
  }

  /** A turn after an unresolvable unit was reported. */
  lemma ReportedTurn(s: State, t: State, n: nat)
    requires TextInv(s) && n < |s.backPatch| && !AllResolvable(s, n) && |t.errors| > |s.errors| && |t.code| == |s.code|
    ensures PatchedOrReported(s, Patch(t, s.backPatch[n]), n + 1)
  {
    Listed(s);
    PatchRecords(t, s.backPatch[n]);
    hide TextInv, Resolvable, Patched, Patch;
  }

  lemma Turn(s: State, t: State, n: nat)
    requires TextInv(s) && n < |s.backPatch| && PatchedOrReported(s, t, n) && |t.code| == |s.code|
    ensures PatchedOrReported(s, Patch(t, s.backPatch[n]), n + 1)
  {
    if AllResolvable(s, n) { ResolvedTurn(s, t, n); } else { ReportedTurn(s, t, n); }
    hide *;
  }

  lemma NextTurn(s: State, n: nat)
    requires n < |s.backPatch| && forall j | 0 <= j < |s.backPatch| :: s.backPatch[j] < |s.code|
    ensures PatchAll(s, s.backPatch[..n + 1]) == Patch(PatchAll(s, s.backPatch[..n]), s.backPatch[n])
  {
    hide Patch;
    assert s.backPatch[..n + 1][..n] == s.backPatch[..n];
  }

  lemma {:induction false} PatchAllSettles(s: State, n: nat)
    requires TextInv(s) && n <= |s.backPatch|
    ensures PatchedOrReported(s, PatchAll(s, s.backPatch[..n]), n)
  {
    Listed(s);
    if n == 0 { NothingPatched(s); }
    else {
      hide *;
      PatchAllSettles(s, n - 1);
      Turn(s, PatchAll(s, s.backPatch[..n - 1]), n - 1);
      NextTurn(s, n - 1);
    }
  }

  /** Back-patching adds no error exactly if every unit that waits for a label can be resolved. */
  lemma PatchesCleanlyIff(ts: seq<Token>, o: Options)
    requires Terminates(ts)
    ensures var s := Unpatched(ts, o);
      Parse(ts, o).errors == s.errors <==>
      forall i | 0 <= i < |s.code| && !s.code[i].1 :: Resolvable(s.code[i].0, i, s.symbols)
  {
    var s := Unpatched(ts, o);
    hide Unpatched, Settled, Waiting, Resolvable, LabelsPlaced, LinesRecorded;
    PatchAllSettles(s, |s.backPatch|);
    assert s.backPatch[..|s.backPatch|] == s.backPatch;
    if AllResolvable(s, |s.backPatch|) {
      forall i | 0 <= i < |s.code| && !s.code[i].1 ensures Resolvable(s.code[i].0, i, s.symbols) {
        assert i in s.backPatch;
      }
    }
  }

  lemma PatchedIsDone(s: State, t: State)
    requires TextInv(s) && Patched(s, t, |s.backPatch|)
    ensures (forall i | 0 <= i < |t.code| :: t.code[i].1 && Settled(t.code[i].0, i, t.symbols))
    ensures LabelsPlaced(t) && LinesRecorded(t) && t == s.(code := t.code)
  {
    hide Settled, Waiting;
    assert s.backPatch[|s.backPatch|..] == [];
  }

  /** A parse without errors leaves every unit flagged and settled: operands complete and in range, every label
      resolved, and each text label at the unit that follows it. */
  lemma CleanParse(ts: seq<Token>, o: Options)
    requires Terminates(ts) && Parse(ts, o).errors == []
    ensures var (s, t) := (Unpatched(ts, o), Parse(ts, o));
      && (forall i | 0 <= i < |t.code| :: t.code[i].1 && Settled(t.code[i].0, i, t.symbols))
      && LabelsPlaced(t) && LinesRecorded(t) && t == s.(code := t.code)
  {
    var s := Unpatched(ts, o);
    hide Unpatched, TextInv, Patched, Settled, Resolvable, LabelsPlaced, LinesRecorded;
    PatchAllSettles(s, |s.backPatch|);
    assert s.backPatch[..|s.backPatch|] == s.backPatch;
    PatchedIsDone(s, Parse(ts, o));
  }
}
