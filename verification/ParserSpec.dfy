/** The assembler's two passes and back-patching as functions of the parser's state: the specification of
    the class in Parser.dfy (src/assembler/parser.cpp). */
module ParserSpec {
  import opened Words
  import opened Wrappers
  import opened Instructions
  import opened Tokens
  import opened CodeGenerator
  import opened ParseFormats

  /** One element of the data buffer. Floating-point data is held as its bits. */
  datatype Datum =
    | Byte(byte: U8) | Half(half: U16) | Word(word: U32) | Double(double: U64)
    | Float32(bits32: U32) | Float64(bits64: U64) | Bytes(bytes: seq<U8>)

  function Alignment(d: Datum): (a: nat)
    ensures a in {1, 2, 4, 8}
  {
    match d
    case Byte(_) => 1
    case Half(_) => 2
    case Word(_) => 4
    case Double(_) => 8
    case Float32(_) => 4
    case Float64(_) => 8
    case Bytes(_) => 1
  }

  function Size(d: Datum): nat { if d.Bytes? then |d.bytes| else Alignment(d) }

  /** The parser's `align` lambda, in `uint64_t`. */
  function AlignIndex(x: U64, a: nat): U64
    requires a > 0
  {
    if x % a != 0 then Wrap64(x + (a - x % a)) else x
  }

  /** The parser's fields. `errors` holds the line of each recorded error; `marks` is a history variable: for
      a data label the number of data emitted when it was last defined, for a text label the number of units. */
  datatype State = State(
    pos: nat, index: nat, errors: seq<nat>, data: seq<Datum>, dataIndex: U64, symbols: SymbolTable,
    backPatch: seq<nat>, code: seq<(ICUnit, bool)>, lines: map<nat, nat>, marks: map<Name, nat>)

  const INITIAL := State(0, 0, [], [], 0, map[], [], [], map[], map[])

  function Current(ts: seq<Token>, s: State): Token { Peek(ts, s.pos) }

  function Next(s: State): State { s.(pos := s.pos + 1) }

  function Record(s: State, line: nat): State { s.(errors := s.errors + [line]) }

  // ----- data section -----

  predicate EndsSection(t: Token) {
    t.lexeme.Eof? || Spells(t, KwText) || Spells(t, KwData) || Spells(t, KwBss) || Spells(t, KwSection)
  }

  datatype DataKind = KDword | KWord | KHalfword | KByte | KFloat | KDouble | KZero | KString

  function KindOf(t: Token): Option<DataKind> {
    if Spells(t, KwDword) then Some(KDword)
    else if Spells(t, KwWord) then Some(KWord)
    else if Spells(t, KwHalfword) then Some(KHalfword)
    else if Spells(t, KwByte) then Some(KByte)
    else if Spells(t, KwFloat) then Some(KFloat)
    else if Spells(t, KwDouble) then Some(KDouble)
    else if Spells(t, KwZero) then Some(KZero)
    else if Spells(t, KwString) then Some(KString)
    else None
  }

  function KindAlignment(k: DataKind): (a: nat)
    ensures a in {1, 2, 4, 8}
  {
    match k
    case KDword => 8
    case KWord => 4
    case KHalfword => 2
    case KFloat => 4
    case KDouble => 8
    case _ => 1
  }

  predicate IsOperand(k: DataKind, t: Token) {
    match k
    case KFloat => t.lexeme.FloatNum?
    case KDouble => t.lexeme.FloatNum?
    case KString => t.lexeme.Str?
    case _ => t.lexeme.Num?
  }

  /** What an operand appends: `stoull` wraps negative numbers, and the narrower types truncate. */
  function DataOf(k: DataKind, t: Token): seq<Datum>
    requires IsOperand(k, t)
  {
    match k
    case KDword => [Double(Wrap64(t.lexeme.number))]
    case KWord => [Word(Wrap32(t.lexeme.number))]
    case KHalfword => [Half(t.lexeme.number % 0x1_0000)]
    case KByte => [Byte(t.lexeme.number % 0x100)]
    case KFloat => [Float32(t.lexeme.single)]
    case KDouble => [Float64(t.lexeme.double)]
    case KString => [Bytes(t.lexeme.bytes + [0])]
    case KZero => seq(Wrap64(t.lexeme.number), _ => Byte(0))
  }

  function Append(s: State, d: Datum): State {
    s.(data := s.data + [d], dataIndex := Wrap64(AlignIndex(s.dataIndex, Alignment(d)) + Size(d)))
  }

  function AppendAll(s: State, ds: seq<Datum>): (s': State)
    ensures s'.(data := s.data, dataIndex := s.dataIndex) == s
    decreases |ds|
  {
    if ds == [] then s else Append(AppendAll(s, ds[..|ds| - 1]), ds[|ds| - 1])
  }

  /** A `.zero` of no bytes is an error. */
  function Operand(s: State, k: DataKind, t: Token): (s': State)
    requires IsOperand(k, t)
    ensures s'.pos == s.pos
  {
    if DataOf(k, t) == [] then Record(s, t.line) else AppendAll(s, DataOf(k, t))
  }

  function OperandList(ts: seq<Token>, s: State, k: DataKind): (s': State)
    requires s.pos <= |ts|
    ensures s.pos <= s'.pos <= |ts|
    decreases |ts| - s.pos
  {
    var t := Current(ts, s);
    if t.lexeme.Comma? then OperandList(ts, Next(s), k)
    else if IsOperand(k, t) && s.pos < |ts| then OperandList(ts, Next(Operand(s, k, t)), k)
    else s
  }

  /** A label aligns the data index for the directive named after it and records the result. */
  function DataLabel(ts: seq<Token>, s: State, name: Name): (s': State)
    ensures s'.pos == s.pos + 1
  {
    var k := KindOf(Peek(ts, s.pos + 1));
    var s1 := if k.Some? then s.(dataIndex := AlignIndex(s.dataIndex, KindAlignment(k.value)))
      else Record(s, Current(ts, s).line);
    Next(s1.(symbols := s1.symbols[name := Symbol(s1.dataIndex, Current(ts, s).line, true)],
      marks := s1.marks[name := |s.data|]))
  }

  function DataStep(ts: seq<Token>, s: State): (s': State)
    requires s.pos < |ts|
    ensures s.pos < s'.pos <= |ts|
  {
    var t := Current(ts, s);
    if t.lexeme.Label? then DataLabel(ts, s, t.lexeme.name)
    else if KindOf(t).Some? then OperandList(ts, Next(s), KindOf(t).value)
    else Next(Record(s, t.line))
  }

  function DataDirective(ts: seq<Token>, s: State): (s': State)
    requires s.pos <= |ts|
    ensures s.pos <= s'.pos <= |ts|
    decreases |ts| - s.pos
  {
    if EndsSection(Current(ts, s)) then s else DataDirective(ts, DataStep(ts, s))
  }

  /** Skipping: in `.bss`, over text in the first pass, over data in the second. */
  datatype Skip = SkipBss | SkipText | SkipData

  predicate StopsSkip(k: Skip, t: Token) {
    match k
    case SkipBss => EndsSection(t)
    case SkipText => t.lexeme.Eof? || Spells(t, KwData) || Spells(t, KwSection) || Spells(t, KwBss)
    case SkipData => t.lexeme.Eof? || Spells(t, KwText)
  }

  function SkipTo(ts: seq<Token>, k: Skip, pos: nat): (end: nat)
    requires pos <= |ts|
    ensures pos <= end <= |ts|
    ensures StopsSkip(k, Peek(ts, end))
    ensures forall i | pos <= i < end :: !StopsSkip(k, ts[i])
    decreases |ts| - pos
  {
    if StopsSkip(k, Peek(ts, pos)) then pos else SkipTo(ts, k, pos + 1)
  }

  // ----- first pass -----

  predicate IsDirective(t: Token, name: Name) { t.lexeme.Directive? && t.lexeme.name == name }

  /** One turn of the first loop of `parse`. */
  function FirstStep(ts: seq<Token>, s: State): (s': State)
    requires s.pos < |ts|
    ensures s.pos <= s'.pos <= |ts|
    ensures s'.pos == s.pos ==> Sticks(Current(ts, s))
  {
    var t := Current(ts, s);
    if IsDirective(t, KwSection) then Next(s)
    else if IsDirective(t, KwData) then DataDirective(ts, Next(s))
    else if IsDirective(t, KwBss) then s.(pos := SkipTo(ts, SkipBss, s.pos + 1))
    else if IsDirective(t, KwText) || t.lexeme.Label? || t.lexeme.Opcode? then s.(pos := SkipTo(ts, SkipText, s.pos))
    else Next(Record(s, t.line))
  }

  /** The label names on which the first pass makes no progress. */
  predicate Sticks(t: Token) { t.lexeme.Label? && t.lexeme.name in {KwData, KwSection, KwBss} }

  predicate Terminates(ts: seq<Token>) {
    forall i | 0 <= i < |ts| && Sticks(ts[i]) :: exists j | 0 <= j < i :: ts[j].lexeme.Eof?
  }

  /** No end-of-file token has been passed. */
  predicate Live(ts: seq<Token>, pos: nat)
    requires pos <= |ts|
  {
    forall j | 0 <= j < pos :: !ts[j].lexeme.Eof?
  }

  function FirstPass(ts: seq<Token>, s: State): (s': State)
    requires s.pos <= |ts| && Terminates(ts) && Live(ts, s.pos)
    decreases |ts| - s.pos
  {
    if Current(ts, s).lexeme.Eof? then s
    else
      FirstStepLives(ts, s);
      FirstPass(ts, FirstStep(ts, s))
  }

  lemma FirstStepLives(ts: seq<Token>, s: State)
    requires s.pos < |ts| && Live(ts, s.pos) && !ts[s.pos].lexeme.Eof?
    ensures Live(ts, FirstStep(ts, s).pos)
  {
    var t := Current(ts, s);
    if IsDirective(t, KwData) { DataDirectiveLives(ts, Next(s)); }
  }

  lemma {:induction false} DataDirectiveLives(ts: seq<Token>, s: State)
    requires s.pos <= |ts| && Live(ts, s.pos)
    ensures Live(ts, DataDirective(ts, s).pos)
    decreases |ts| - s.pos
  {
    hide KindOf, DataLabel, OperandList, IsOperand, Spells;
    var t := Current(ts, s);
    if !EndsSection(t) {
      if !t.lexeme.Label? && KindOf(t).Some? { OperandsLive(ts, Next(s), KindOf(t).value); }
      DataDirectiveLives(ts, DataStep(ts, s));
    }
  }

  lemma {:induction false} OperandsLive(ts: seq<Token>, s: State, k: DataKind)
    requires s.pos <= |ts| && Live(ts, s.pos)
    ensures Live(ts, OperandList(ts, s, k).pos)
    decreases |ts| - s.pos
  {
    var t := Current(ts, s);
    if t.lexeme.Comma? { OperandsLive(ts, Next(s), k); }
    else if IsOperand(k, t) && s.pos < |ts| { OperandsLive(ts, Next(Operand(s, k, t)), k); }
  }

  // ----- text section -----

  /** Appends a unit; `resolved` is false when its label is still to come. */
  function Emit(s: State, unit: ICUnit, resolved: bool): State {
    s.(code := s.code + [(unit, resolved)], lines := s.lines[s.index := unit.line], index := s.index + 1)
  }

  function EmitAll(s: State, units: seq<ICUnit>): (s': State)
    ensures s'.pos == s.pos
    decreases |units|
  {
    if units == [] then s else Emit(EmitAll(s, units[..|units| - 1]), units[|units| - 1], true)
  }

  function Apply(s: State, outcome: Outcome, line: nat): (s': State)
    ensures s'.pos == s.pos
  {
    match outcome
    case Emitted(units) => EmitAll(s, units)
    case Deferred(unit) => Emit(s.(backPatch := s.backPatch + [s.index]), unit, false)
    case _ => Record(s, line)
  }

  function Assembled(ts: seq<Token>, s: State, op: Op, o: Options): Outcome
    requires s.pos < |ts|
  {
    var t := ts[s.pos];
    FirstMatch(Syntaxes(op), Unit(op, t.line), RestOfLine(ts, s.pos + 1, t.line), s.index, s.symbols, o)
  }

  /** One turn of `parseTextDirective`. */
  function TextStep(ts: seq<Token>, s: State, o: Options): (s': State)
    requires s.pos < |ts| && !ts[s.pos].lexeme.Eof?
    ensures s.pos < s'.pos <= |ts|
  {
    var t := ts[s.pos];
    if t.lexeme.Label? then
      if t.lexeme.name in s.symbols then Next(Record(s, t.line))
      else Next(s.(symbols := s.symbols[t.lexeme.name := Symbol(TextAddress(s.index), t.line, false)],
                   marks := s.marks[t.lexeme.name := s.index]))
    else
      var s1 := if t.lexeme.Opcode? && Enabled(t.lexeme.op, o) then Apply(s, Assembled(ts, s, t.lexeme.op, o), t.line)
                else Record(s, t.line);
      s1.(pos := SkipLine(ts, s.pos, t.line))
  }

  function TextDirective(ts: seq<Token>, s: State, o: Options): (s': State)
    requires s.pos <= |ts|
    ensures s.pos <= s'.pos <= |ts|
    ensures s'.pos == s.pos ==> Current(ts, s).lexeme.Directive? || Current(ts, s).lexeme.Eof?
    decreases |ts| - s.pos
  {
    var t := Current(ts, s);
    if t.lexeme.Directive? || t.lexeme.Eof? then s else TextDirective(ts, TextStep(ts, s, o), o)
  }

  // ----- second pass -----

  function SecondStep(ts: seq<Token>, s: State, o: Options): (s': State)
    requires s.pos < |ts|
    ensures s.pos < s'.pos <= |ts|
  {
    var t := Current(ts, s);
    if IsDirective(t, KwSection) then Next(s)
    else if IsDirective(t, KwData) || IsDirective(t, KwBss) then s.(pos := SkipTo(ts, SkipData, s.pos))
    else if IsDirective(t, KwText) then TextDirective(ts, Next(s), o)
    else if t.lexeme.Label? || t.lexeme.Opcode? then TextDirective(ts, s, o)
    else Next(Record(s, t.line))
  }

  function SecondPass(ts: seq<Token>, s: State, o: Options): (s': State)
    requires s.pos <= |ts|
    decreases |ts| - s.pos
  {
    if Current(ts, s).lexeme.Eof? then s else SecondPass(ts, SecondStep(ts, s, o), o)
  }

  // ----- back-patching -----

  predicate InReach(op: Op, offset: int) {
    (op.B? && -4096 <= offset <= 4095) || (op.Jal? && -1048576 <= offset <= 1048575)
  }

  /** One turn of the last loop of `parse`. A branch to a data label is reported, yet marked resolved. */
  function Patch(s: State, index: nat): State
    requires index < |s.code|
  {
    var unit := s.code[index].0;
    if unit.target.None? || unit.target.value !in s.symbols then Record(s, unit.line)
    else
      var symbol := s.symbols[unit.target.value];
      var offset := Offset(symbol.address, index);
      if unit.op.B? && symbol.isData then Record(s, unit.line).(code := s.code[index := (unit, true)])
      else if InReach(unit.op, offset) then s.(code := s.code[index := (unit.(imm := Some(offset)), true)])
      else Record(s, unit.line)
  }

  function PatchAll(s: State, indices: seq<nat>): (s': State)
    requires forall i | 0 <= i < |indices| :: indices[i] < |s.code|
    ensures |s'.code| == |s.code|
    decreases |indices|
  {
    if indices == [] then s else Patch(PatchAll(s, indices[..|indices| - 1]), indices[|indices| - 1])
  }
}
