/** From text lines to instructions: every label and line of the text sections, in order, and what the parser has made
    of it when there was no error. */
module TextLines {
  import opened Words
  import opened Wrappers
  import opened Instructions
  import opened Tokens
  import opened CodeGenerator
  import opened ParseFormats
  import opened ParserSpec
  import opened ParserProof
  import opened LineGrammar
  import opened LineOrder
  import opened FlatMemory
  import opened LoadedImage
  import opened EndToEnd
  import Decoder
  import Printing
  import VmBase

  /** A label of a text section, a line with an instruction, or what is neither and stands in no data section. */
  datatype Piece =
    | LabelPiece(name: Name) | LinePiece(op: Op, operands: seq<Lexeme>, line: nat) | StrayPiece(line: nat)

  // ----- the pieces of a token list -----

  function Lexemes(ts: seq<Token>, pos: nat, end: nat): (l: seq<Lexeme>)
    requires pos <= end <= |ts|
    ensures |l| == end - pos && forall i | 0 <= i < |l| :: l[i] == ts[pos + i].lexeme
  {
    seq(end - pos, i requires 0 <= i < end - pos => ts[pos + i].lexeme)
  }

  /** Where the line goes on after position `pos`: behind a label, or else at the next line. */
  function LineEnd(ts: seq<Token>, pos: nat): (end: nat)
    requires pos < |ts| && !ts[pos].lexeme.Eof?
    ensures pos < end <= |ts|
  {
    if ts[pos].lexeme.Label? then pos + 1 else SkipLine(ts, pos, ts[pos].line)
  }

  function PieceAt(ts: seq<Token>, pos: nat): seq<Piece>
    requires pos < |ts| && !ts[pos].lexeme.Eof?
  {
    var t := ts[pos];
    if t.lexeme.Label? then [LabelPiece(t.lexeme.name)]
    else if t.lexeme.Opcode? then [LinePiece(t.lexeme.op, Lexemes(ts, pos + 1, LineEnd(ts, pos)), t.line)]
    else [StrayPiece(t.line)]
  }

  function SectionEnd(ts: seq<Token>, pos: nat): (end: nat)
    requires pos <= |ts|
    ensures pos <= end <= |ts|
    ensures end == pos ==> Peek(ts, pos).lexeme.Directive? || Peek(ts, pos).lexeme.Eof?
    decreases |ts| - pos
  {
    if Peek(ts, pos).lexeme.Directive? || Peek(ts, pos).lexeme.Eof? then pos else SectionEnd(ts, LineEnd(ts, pos))
  }

  function SectionPieces(ts: seq<Token>, pos: nat): seq<Piece>
    requires pos <= |ts|
    decreases |ts| - pos
  {
    if Peek(ts, pos).lexeme.Directive? || Peek(ts, pos).lexeme.Eof? then []
    else PieceAt(ts, pos) + SectionPieces(ts, LineEnd(ts, pos))
  }

  /** The text section that a turn of the second pass reads, if any, starts here. */
  function TextStart(ts: seq<Token>, pos: nat): (start: Option<nat>)
    requires pos < |ts|
    ensures start.Some? ==> pos <= start.value <= |ts|
  {
    var t := ts[pos];
    if IsDirective(t, KwSection) || IsDirective(t, KwData) || IsDirective(t, KwBss) then None
    else if IsDirective(t, KwText) then Some(pos + 1)
    else if t.lexeme.Label? || t.lexeme.Opcode? then Some(pos)
    else None
  }

  function TurnPieces(ts: seq<Token>, pos: nat): seq<Piece>
    requires pos < |ts|
  {
    var t := ts[pos];
    if TextStart(ts, pos).Some? then SectionPieces(ts, TextStart(ts, pos).value)
    else if IsDirective(t, KwSection) || IsDirective(t, KwData) || IsDirective(t, KwBss) then []
    else [StrayPiece(t.line)]
  }

  function TurnEnd(ts: seq<Token>, pos: nat): (end: nat)
    requires pos < |ts|
    ensures pos < end <= |ts|
  {
    var t := ts[pos];
    if TextStart(ts, pos).Some? then SectionEnd(ts, TextStart(ts, pos).value)
    else if !IsDirective(t, KwSection) && (IsDirective(t, KwData) || IsDirective(t, KwBss))
      then SkipTo(ts, SkipData, pos)
    else pos + 1
  }

  function FilePieces(ts: seq<Token>, pos: nat): seq<Piece>
    requires pos <= |ts|
    decreases |ts| - pos
  {
    if Peek(ts, pos).lexeme.Eof? then [] else TurnPieces(ts, pos) + FilePieces(ts, TurnEnd(ts, pos))
  }

  /** The labels and lines of all text sections, and what is stray. */
  function Pieces(ts: seq<Token>): seq<Piece> { FilePieces(ts, 0) }

  // ----- units -----

  /** The number of instructions that a statement takes. */
  function Width(st: Statement): nat {
    match st
    case LoadFrom(_, _, _) => 2
    case AddressOf(_, _) => 2
    case Constant(_, imm) => if -2048 <= imm <= 2047 || imm % 0x1000 == 0 then 1 else 2
    case _ => 1
  }

  function PieceWidth(p: Piece): nat {
    match p
    case LabelPiece(_) => 0
    case StrayPiece(_) => 0
    case LinePiece(op, l, _) => if Read(op, l).Some? then Width(Read(op, l).value) else 0
  }

  /** The number of the first instruction of piece `j`. */
  function Start(ps: seq<Piece>, j: nat): nat
    requires j <= |ps|
  {
    if j == 0 then 0 else Start(ps, j - 1) + PieceWidth(ps[j - 1])
  }

  lemma {:induction false} StartSame(ps: seq<Piece>, qs: seq<Piece>, j: nat)
    requires j <= |ps|
    ensures Start(ps + qs, j) == Start(ps, j)
  {
    hide PieceWidth;
    if j > 0 { StartSame(ps, qs, j - 1); }
  }

  function Units(us: seq<(ICUnit, bool)>): (r: seq<ICUnit>)
    ensures |r| == |us| && forall k | 0 <= k < |us| :: r[k] == us[k].0
  {
    seq(|us|, k requires 0 <= k < |us| => us[k].0)
  }

  /** The units of a statement before back-patching: as it says, or one that waits for a label. */
  ghost predicate Parsed(us: seq<(ICUnit, bool)>, st: Statement, index: nat, symbols: SymbolTable, o: Options) {
    && |us| == Width(st)
    && if forall k | 0 <= k < |us| :: us[k].1 then Says(Emitted(Units(us)), st, index, symbols, o)
       else (st.BranchTo? || st.JumpTo?) && !us[0].1 && Awaits(us[0].0, st)
  }

  ghost predicate Traced(s: State, ps: seq<Piece>, j: nat, o: Options)
    requires j < |ps|
  {
    var k := Start(ps, j);
    match ps[j]
    case LabelPiece(n) => n in s.symbols && !s.symbols[n].isData && s.symbols[n].address == TextAddress(k)
    case StrayPiece(_) => false
    case LinePiece(op, l, line) =>
      && Enabled(op, o) && Read(op, l).Some? && k + Width(Read(op, l).value) <= |s.code|
      && Parsed(s.code[k..k + Width(Read(op, l).value)], Read(op, l).value, k, s.symbols, o)
      && forall i | k <= i < k + Width(Read(op, l).value) :: s.code[i].0.line == line
  }

  /** As long as there is no error, code and labels are those of the pieces so far. */
  ghost predicate AllTraced(s: State, ps: seq<Piece>, o: Options) {
    s.errors == [] ==>
      && |s.code| == s.index == Start(ps, |ps|)
      && (forall j | 0 <= j < |ps| :: Traced(s, ps, j, o))
      && (forall n <- s.symbols :: s.symbols[n].isData || LabelPiece(n) in ps)
  }

  // ----- a line -----

  lemma ConstantWidth(imm: int, hi: int, lo: int)
    requires -2048 <= lo <= 2047 && hi * 0x1000 + lo == imm
    ensures lo == 0 <==> imm % 0x1000 == 0
  {
    if lo >= 0 { DivUnique(imm, hi, lo, 0x1000); } else { DivUnique(imm, hi - 1, lo + 0x1000, 0x1000); }
  }

  /** What says a statement has its width. */
  lemma SaidWidth(us: seq<ICUnit>, st: Statement, index: nat, symbols: SymbolTable, o: Options)
    requires Says(Emitted(us), st, index, symbols, o)
    ensures |us| == Width(st)
  {
    hide Offset, Instruction, Admitted, Distance;
    if st.Constant? && !(-2048 <= st.imm <= 2047) && -B31 <= st.imm < B31 {
      var hi, lo :| BuildsBy(Emitted(us), st.rd, st.imm, hi, lo);
      ConstantWidth(st.imm, hi, lo);
    }
  }

  /** What is said stays so when symbols are added. */
  lemma SaidStays(us: seq<ICUnit>, st: Statement, index: nat, symbols: SymbolTable, symbols': SymbolTable, o: Options)
    requires Says(Emitted(us), st, index, symbols, o)
    requires forall n <- symbols :: n in symbols' && symbols'[n] == symbols[n]
    ensures Says(Emitted(us), st, index, symbols', o)
  {
    hide Offset, Instruction, Admitted, Distance, Approaches, Builds, Yields;
  }

  lemma PrefixSlice<T>(s: seq<T>, s': seq<T>, a: nat, b: nat)
    requires a <= b <= |s| <= |s'| && s'[..|s|] == s
    ensures s'[a..b] == s[a..b] && forall i | a <= i < b :: s'[i] == s[i]
  {
    forall i | a <= i < b ensures s'[i] == s[i] { assert s'[i] == s'[..|s|][i]; }
  }

  lemma TracedStays(s: State, s': State, ps: seq<Piece>, p: Piece, j: nat, o: Options)
    requires j < |ps| && Traced(s, ps, j, o)
    requires |s.code| <= |s'.code| && s'.code[..|s.code|] == s.code
    requires forall n <- s.symbols :: n in s'.symbols && s'.symbols[n] == s.symbols[n]
    ensures Traced(s', ps + [p], j, o)
  {
    hide TextAddress, Read, Width, Says, Awaits, Enabled;
    StartSame(ps, [p], j);
    if ps[j].LinePiece? {
      var k, st := Start(ps, j), Read(ps[j].op, ps[j].operands).value;
      PrefixSlice(s.code, s'.code, k, k + Width(st));
      var us := s.code[k..k + Width(st)];
      if forall i | 0 <= i < |us| :: us[i].1 { SaidStays(Units(us), st, k, s.symbols, s'.symbols, o); }
    }
  }

  /** The units of an outcome, flagged. */
  function Flagged(us: seq<ICUnit>): (r: seq<(ICUnit, bool)>)
    ensures |r| == |us| && forall k | 0 <= k < |us| :: r[k] == (us[k], true)
  {
    seq(|us|, k requires 0 <= k < |us| => (us[k], true))
  }

  lemma {:induction false} AllEmitted(s: State, us: seq<ICUnit>)
    ensures var s' := EmitAll(s, us);
      && s'.code == s.code + Flagged(us) && s'.index == s.index + |us| && s'.symbols == s.symbols
      && s'.errors == s.errors
    decreases |us|
  {
    if us != [] {
      AllEmitted(s, us[..|us| - 1]);
      assert Flagged(us) == Flagged(us[..|us| - 1]) + [(us[|us| - 1], true)];
    }
  }

  /** What an outcome adds to the code, if it is no error. */
  function Added(outcome: Outcome): seq<(ICUnit, bool)> {
    match outcome
    case Emitted(us) => Flagged(us)
    case Deferred(u) => [(u, false)]
    case _ => []
  }

  lemma Applied(s: State, outcome: Outcome, line: nat)
    ensures var s' := Apply(s, outcome, line);
      && s'.symbols == s.symbols
      && if Fails(outcome) then s'.errors == s.errors + [line]
         else s'.errors == s.errors && s'.code == s.code + Added(outcome) && s'.index == s.index + |Added(outcome)|
  {
    if outcome.Emitted? { AllEmitted(s, outcome.units); }
  }

  lemma LineParsed(op: Op, l: seq<Lexeme>, line: nat, index: nat, symbols: SymbolTable, o: Options)
    requires !Fails(Printing.AssembledLine(op, l, line, index, symbols, o))
    ensures var outcome := Printing.AssembledLine(op, l, line, index, symbols, o);
      && Read(op, l).Some? && Parsed(Added(outcome), Read(op, l).value, index, symbols, o)
      && forall k | 0 <= k < |Added(outcome)| :: Added(outcome)[k].0.line == line
  {
    hide Offset, Instruction, Admitted, Distance, Approaches, Builds, Yields, Read, Width, FirstMatch, Awaits;
    LineAssembles(op, l, line, index, symbols, o);
    FirstMatchOnLine(Syntaxes(op), Unit(op, line), l, index, symbols, o);
    var outcome, st := Printing.AssembledLine(op, l, line, index, symbols, o), Read(op, l).value;
    if outcome.Emitted? {
      SaidWidth(outcome.units, st, index, symbols, o);
      assert Units(Added(outcome)) == outcome.units;
    } else {
      OnlyTransfersWait(outcome.unit, st, index, symbols, o);
    }
  }

  lemma OnlyTransfersWait(u: ICUnit, st: Statement, index: nat, symbols: SymbolTable, o: Options)
    requires Says(Deferred(u), st, index, symbols, o)
    ensures (st.BranchTo? || st.JumpTo?) && Awaits(u, st) && Width(st) == 1
  {
    hide Offset, Instruction, Admitted, Distance, Awaits;
  }

  /** A line adds its units. */
  lemma LineTraced(s: State, ps: seq<Piece>, op: Op, l: seq<Lexeme>, line: nat, o: Options)
    requires AllTraced(s, ps, o) && Enabled(op, o)
    ensures var outcome := Printing.AssembledLine(op, l, line, s.index, s.symbols, o);
      AllTraced(Apply(s, outcome, line), ps + [LinePiece(op, l, line)], o)
  {
    hide Traced, Enabled, Printing.AssembledLine, Read, Apply, Added;
    var outcome := Printing.AssembledLine(op, l, line, s.index, s.symbols, o);
    var s', p := Apply(s, outcome, line), LinePiece(op, l, line);
    Applied(s, outcome, line);
    if s'.errors != [] { return; }
    LineParsed(op, l, line, s.index, s.symbols, o);
    var qs := ps + [p];
    StartSame(ps, [p], |ps|);
    AddedLine(s, s', ps, op, l, line, Added(outcome), o);
    assert s'.code[..|s.code|] == s.code;
    forall j | 0 <= j < |qs| ensures Traced(s', qs, j, o) {
      if j < |ps| { TracedStays(s, s', ps, p, j, o); }
    }
  }

  lemma AddedLine(s: State, s': State, ps: seq<Piece>, op: Op, l: seq<Lexeme>, line: nat, us: seq<(ICUnit, bool)>,
    o: Options)
    requires |s.code| == Start(ps, |ps|) && Enabled(op, o) && Read(op, l).Some?
    requires s'.code == s.code + us && Parsed(us, Read(op, l).value, |s.code|, s.symbols, o)
    requires s'.symbols == s.symbols && forall k | 0 <= k < |us| :: us[k].0.line == line
    ensures var qs := ps + [LinePiece(op, l, line)];
      Traced(s', qs, |ps|, o) && |s'.code| == Start(qs, |qs|)
  {
    hide Enabled, Read, Says, Awaits, Width;
    var p := LinePiece(op, l, line);
    StartSame(ps, [p], |ps|);
    assert s'.code[|s.code|..|s.code| + |us|] == us;
    assert forall i | |s.code| <= i < |s'.code| :: s'.code[i] == us[i - |s.code|];
  }

  /** A label stands for the instruction that comes next. */
  lemma LabelTraced(s: State, ps: seq<Piece>, n: Name, line: nat, o: Options)
    requires AllTraced(s, ps, o) && n !in s.symbols
    ensures AllTraced(Defined(s, n, line), ps + [LabelPiece(n)], o)
  {
    hide Traced, TextAddress;
    var s', p := Defined(s, n, line), LabelPiece(n);
    if s.errors != [] { return; }
    var qs := ps + [p];
    StartSame(ps, [p], |ps|);
    assert PieceWidth(p) == 0;
    NewLabel(s', qs, |ps|, o);
    forall j | 0 <= j < |qs| ensures Traced(s', qs, j, o) {
      if j < |ps| { TracedStays(s, s', ps, p, j, o); }
    }
    forall m <- s'.symbols ensures s'.symbols[m].isData || LabelPiece(m) in qs {
      if m != n { assert m in s.symbols; } else { assert qs[|ps|] == p; }
    }
  }

  lemma NewLabel(s: State, ps: seq<Piece>, j: nat, o: Options)
    requires j < |ps| && ps[j].LabelPiece? && ps[j].name in s.symbols && !s.symbols[ps[j].name].isData
    requires s.symbols[ps[j].name].address == TextAddress(Start(ps, j))
    ensures Traced(s, ps, j, o)
  {}

  lemma TracedAnywhere(s: State, s': State, ps: seq<Piece>, o: Options)
    requires AllTraced(s, ps, o) && (s'.code, s'.symbols, s'.index) == (s.code, s.symbols, s.index)
    requires s'.errors == s.errors || s'.errors != []
    ensures AllTraced(s', ps, o)
  {
    hide Start, Parsed, Enabled, Read, Width;
    if s'.errors == [] {
      forall j | 0 <= j < |ps| ensures Traced(s', ps, j, o) { assert Traced(s, ps, j, o); }
    }
  }

  /** Once there is an error there is nothing to show. */
  lemma NotTraced(s: State, ps: seq<Piece>, o: Options)
    requires s.errors != []
    ensures AllTraced(s, ps, o)
  {}

  lemma {:induction false} RestIsLexemes(ts: seq<Token>, pos: nat, line: nat)
    requires pos <= |ts|
    ensures RestOfLine(ts, pos, line) == Lexemes(ts, pos, SkipLine(ts, pos, line))
    decreases |ts| - pos
  {
    if pos < |ts| && ts[pos].line == line && !ts[pos].lexeme.Eof? { RestIsLexemes(ts, pos + 1, line); }
  }

  lemma SkipsTogether(ts: seq<Token>, pos: nat)
    requires pos < |ts| && !ts[pos].lexeme.Eof?
    ensures SkipLine(ts, pos, ts[pos].line) == SkipLine(ts, pos + 1, ts[pos].line)
  {}

  /** One turn of the text loop. */
  lemma StepTraced(ts: seq<Token>, s: State, ps: seq<Piece>, o: Options)
    requires s.pos < |ts| && !ts[s.pos].lexeme.Eof? && AllTraced(s, ps, o)
    ensures var s' := TextStep(ts, s, o);
      s'.pos == LineEnd(ts, s.pos) && AllTraced(s', ps + PieceAt(ts, s.pos), o)
  {
    hide AllTraced, Apply, SkipLine, RestOfLine, TextAddress, Enabled, Syntaxes, FirstMatch, Lexemes;
    var t, s' := ts[s.pos], TextStep(ts, s, o);
    assert ps + [] == ps;
    if t.lexeme.Label? {
      if t.lexeme.name in s.symbols { NotTraced(s', ps + PieceAt(ts, s.pos), o); }
      else {
        LabelTraced(s, ps, t.lexeme.name, t.line, o);
        TracedAnywhere(Defined(s, t.lexeme.name, t.line), s', ps + PieceAt(ts, s.pos), o);
      }
    } else if t.lexeme.Opcode? && Enabled(t.lexeme.op, o) {
      var l := RestOfLine(ts, s.pos + 1, t.line);
      RestIsLexemes(ts, s.pos + 1, t.line);
      SkipsTogether(ts, s.pos);
      LineTraced(s, ps, t.lexeme.op, l, t.line, o);
      TracedAnywhere(Apply(s, Assembled(ts, s, t.lexeme.op, o), t.line), s', ps + PieceAt(ts, s.pos), o);
    } else {
      NotTraced(s', ps + PieceAt(ts, s.pos), o);
    }
  }

  lemma {:induction false} SectionTraced(ts: seq<Token>, s: State, ps: seq<Piece>, o: Options)
    requires s.pos <= |ts| && AllTraced(s, ps, o)
    ensures var s' := TextDirective(ts, s, o);
      s'.pos == SectionEnd(ts, s.pos) && AllTraced(s', ps + SectionPieces(ts, s.pos), o)
    decreases |ts| - s.pos
  {
    hide AllTraced, TextStep, PieceAt, LineEnd;
    var t := Current(ts, s);
    if t.lexeme.Directive? || t.lexeme.Eof? { assert ps + [] == ps; return; }
    StepTraced(ts, s, ps, o);
    var s', head := TextStep(ts, s, o), PieceAt(ts, s.pos);
    SectionTraced(ts, s', ps + head, o);
    assert ps + (head + SectionPieces(ts, s'.pos)) == ps + head + SectionPieces(ts, s'.pos);
  }

  lemma TurnTraced(ts: seq<Token>, s: State, ps: seq<Piece>, o: Options)
    requires s.pos < |ts| && AllTraced(s, ps, o)
    ensures var s' := SecondStep(ts, s, o);
      s'.pos == TurnEnd(ts, s.pos) && AllTraced(s', ps + TurnPieces(ts, s.pos), o)
  {
    hide AllTraced, TextDirective, SectionEnd, SectionPieces, SkipTo, IsDirective;
    assert ps + [] == ps;
    var t, s' := ts[s.pos], SecondStep(ts, s, o);
    TracedAnywhere(s, Next(s), ps, o);
    if IsDirective(t, KwSection) {}
    else if IsDirective(t, KwData) || IsDirective(t, KwBss) { TracedAnywhere(s, s', ps, o); }
    else if IsDirective(t, KwText) { SectionTraced(ts, Next(s), ps, o); }
    else if t.lexeme.Label? || t.lexeme.Opcode? { SectionTraced(ts, s, ps, o); }
    else { NotTraced(s', ps + TurnPieces(ts, s.pos), o); }
  }

  lemma {:induction false} FileTraced(ts: seq<Token>, s: State, ps: seq<Piece>, o: Options)
    requires s.pos <= |ts| && AllTraced(s, ps, o)
    ensures AllTraced(SecondPass(ts, s, o), ps + FilePieces(ts, s.pos), o)
    decreases |ts| - s.pos
  {
    hide AllTraced, SecondStep, TurnPieces, TurnEnd;
    if Current(ts, s).lexeme.Eof? { assert ps + [] == ps; return; }
    TurnTraced(ts, s, ps, o);
    var s', head := SecondStep(ts, s, o), TurnPieces(ts, s.pos);
    FileTraced(ts, s', ps + head, o);
    assert ps + (head + FilePieces(ts, s'.pos)) == ps + head + FilePieces(ts, s'.pos);
  }

  lemma UnpatchedTraced(ts: seq<Token>, o: Options)
    requires Terminates(ts)
    ensures AllTraced(Unpatched(ts, o), Pieces(ts), o)
  {
    var s1 := FirstPass(ts, INITIAL).(pos := 0, index := 0);
    FirstPassOnly(ts, INITIAL);
    hide FirstPass, SecondPass, FilePieces;
    assert AllTraced(s1, [], o);
    FileTraced(ts, s1, [], o);
    assert [] + FilePieces(ts, 0) == FilePieces(ts, 0);
  }

  // ----- back-patching -----

  /** Back-patching changes nothing but the offsets of the units that it lists. */
  predicate OnlyOffsets(s: State, t: State, indices: seq<nat>) {
    && |t.code| == |s.code|
    && forall i | 0 <= i < |s.code| ::
        && t.code[i].0 == s.code[i].0.(imm := t.code[i].0.imm)
        && (i !in indices ==> t.code[i] == s.code[i])
  }

  lemma PatchOffset(s: State, index: nat)
    requires index < |s.code|
    ensures OnlyOffsets(s, Patch(s, index), [index])
  {
    hide Offset, InReach;
  }

  lemma {:induction false} PatchOffsets(s: State, indices: seq<nat>)
    requires forall i | 0 <= i < |indices| :: indices[i] < |s.code|
    ensures OnlyOffsets(s, PatchAll(s, indices), indices)
    decreases |indices|
  {
    hide Patch;
    if indices != [] {
      var init: seq<nat>, last := indices[..|indices| - 1], indices[|indices| - 1];
      PatchOffsets(s, init);
      PatchOffset(PatchAll(s, init), last);
      assert forall i :: i in init || i == last ==> i in indices;
    }
  }

  /** A statement in the finished code, from unit `k` on. */
  ghost predicate Stands(s: State, k: nat, st: Statement, o: Options) {
    && k + Width(st) <= |s.code|
    && match st
       case BranchTo(_, _, _, n) =>
         && n in s.symbols && !s.symbols[n].isData && s.code[k].0.target == Some(n)
         && Instruction(s.code[k].0) == Ok(Aimed(st, Offset(s.symbols[n].address, k)))
       case JumpTo(_, n) =>
         && n in s.symbols && s.code[k].0.target == Some(n)
         && Instruction(s.code[k].0) == Ok(Aimed(st, Offset(s.symbols[n].address, k)))
       case _ => Says(Emitted(Units(s.code[k..k + Width(st)])), st, k, s.symbols, o)
  }

  /** What a text label or a line has become: the label has the address of the next instruction, and the instructions
      are those that the line says, with the offsets to their labels filled in. */
  ghost predicate Became(s: State, ps: seq<Piece>, j: nat, o: Options)
    requires j < |ps|
  {
    var k := Start(ps, j);
    match ps[j]
    case LabelPiece(n) => n in s.symbols && !s.symbols[n].isData && s.symbols[n].address == TextAddress(k)
    case StrayPiece(_) => false
    case LinePiece(op, l, line) =>
      && Enabled(op, o) && Read(op, l).Some? && Stands(s, k, Read(op, l).value, o)
      && forall i | k <= i < k + Width(Read(op, l).value) :: s.code[i].0.line == line
  }

  lemma TransferStands(u: ICUnit, u': ICUnit, st: Statement, k: nat, symbols: SymbolTable)
    requires st.BranchTo? || st.JumpTo?
    requires Awaits(u, st) && u' == u.(imm := u'.imm) && Settled(u', k, symbols)
    ensures st.target in symbols && (st.BranchTo? ==> !symbols[st.target].isData) && u'.target == Some(st.target)
    ensures Instruction(u') == Ok(Aimed(st, Offset(symbols[st.target].address, k)))
  {
    hide Offset;
    assert Instruction(u.(imm := Some(0))) == Ok(Aimed(st, 0));
    assert u.op.B? <==> st.BranchTo?;
  }

  lemma SaidTransfer(u: ICUnit, st: Statement, k: nat, symbols: SymbolTable, o: Options)
    requires (st.BranchTo? || st.JumpTo?) && Says(Emitted([u]), st, k, symbols, o)
    ensures st.target in symbols && !symbols[st.target].isData && u.target == Some(st.target)
    ensures Instruction(u) == Ok(Aimed(st, Offset(symbols[st.target].address, k)))
  {
    hide Offset, Instruction;
  }

  /** A parsed statement, once its unit is patched. */
  lemma ParsedStands(s: State, t: State, k: nat, st: Statement, o: Options)
    requires k + Width(st) <= |s.code| && Parsed(s.code[k..k + Width(st)], st, k, s.symbols, o)
    requires t.symbols == s.symbols && |t.code| == |s.code|
    requires forall i | k <= i < k + Width(st) ::
      && t.code[i].0 == s.code[i].0.(imm := t.code[i].0.imm) && (s.code[i].1 ==> t.code[i] == s.code[i])
      && Settled(t.code[i].0, i, t.symbols)
    ensures Stands(t, k, st, o)
  {
    hide Says, Awaits, Settled, Instruction, Offset, Aimed, Read;
    var us := s.code[k..k + Width(st)];
    if forall i | 0 <= i < |us| :: us[i].1 {
      assert forall i | k <= i < k + Width(st) :: s.code[i] == us[i - k];
      assert t.code[k..k + Width(st)] == us;
      if st.BranchTo? || st.JumpTo? {
        assert Units(us) == [s.code[k].0];
        SaidTransfer(s.code[k].0, st, k, s.symbols, o);
      }
    } else {
      assert us[0] == s.code[k];
      TransferStands(s.code[k].0, t.code[k].0, st, k, t.symbols);
    }
  }

  lemma PieceBecame(s: State, t: State, ps: seq<Piece>, j: nat, o: Options)
    requires j < |ps| && Traced(s, ps, j, o) && t.symbols == s.symbols && |t.code| == |s.code|
    requires forall i | 0 <= i < |s.code| ::
      && t.code[i].0 == s.code[i].0.(imm := t.code[i].0.imm) && (s.code[i].1 ==> t.code[i] == s.code[i])
      && Settled(t.code[i].0, i, t.symbols)
    ensures Became(t, ps, j, o)
  {
    hide Start, Read, Width, Parsed, Stands, Settled, Enabled, TextAddress;
    if ps[j].LinePiece? { ParsedStands(s, t, Start(ps, j), Read(ps[j].op, ps[j].operands).value, o); }
  }

  /** The flagged units are not patched. */
  lemma FlaggedStay(s: State, t: State)
    requires TextInv(s) && OnlyOffsets(s, t, s.backPatch)
    ensures forall i | 0 <= i < |s.code| && s.code[i].1 :: t.code[i] == s.code[i]
  {
    hide Settled, Waiting, LabelsPlaced, LinesRecorded;
  }

  /** The text sections, end to end. In a parse without errors the code is, line after line, what the lines of the text
      sections say, each enabled by its extension, and every label has the address of the instruction that follows it.
      No other text label and no other instruction is there. */
  lemma LinesAreAssembled(ts: seq<Token>, o: Options, j: nat)
    requires Terminates(ts) && Parse(ts, o).errors == [] && j < |Pieces(ts)|
    ensures var (s, ps) := (Parse(ts, o), Pieces(ts));
      && |s.code| == Start(ps, |ps|) && Became(s, ps, j, o)
      && forall n <- s.symbols :: s.symbols[n].isData || LabelPiece(n) in ps
  {
    var s, t, ps := Unpatched(ts, o), Parse(ts, o), Pieces(ts);
    hide Unpatched, Pieces, Traced, Became, TextInv, Settled, Start, OnlyOffsets, LabelsPlaced, LinesRecorded;
    CleanParse(ts, o);
    UnpatchedTraced(ts, o);
    Listed(s);
    PatchOffsets(s, s.backPatch);
    FlaggedStay(s, t);
    Offsets(s, t);
    PieceBecame(s, t, ps, j, o);
  }

  lemma Offsets(s: State, t: State)
    requires OnlyOffsets(s, t, s.backPatch)
    ensures |t.code| == |s.code| && forall i | 0 <= i < |s.code| :: t.code[i].0 == s.code[i].0.(imm := t.code[i].0.imm)
  {}

  // ----- from line to word -----

  /** A line that names no label is fetched as a word that decodes to the instruction it says. */
  lemma LineIsFetched(ts: seq<Token>, o: Options, p: VmBase.Program, m: Flat, j: nat, i: Inst)
    requires Terminates(ts) && Assembles(ts, o, p) && Separate(o.dataStart, p) && j < |Pieces(ts)|
    requires Pieces(ts)[j].LinePiece? && Read(Pieces(ts)[j].op, Pieces(ts)[j].operands) == Some(Complete(i))
    ensures var k := Start(Pieces(ts), j); k < |p.text| && Decoder.Decode(Fetched(m, o, p, k)) == Some(i)
  {
    hide Parse, Pieces, Start, Separate, Read, Instruction, Decoder.Decode, Fetched, Enabled, Admitted;
    LinesAreAssembled(ts, o, j);
    var s, k := Parse(ts, o), Start(Pieces(ts), j);
    CompleteStands(s, k, i, o);
    SameLength(ts, o, p);
    CodeDecodes(ts, o, p, m, k);
  }

  lemma CompleteStands(s: State, k: nat, i: Inst, o: Options)
    requires Stands(s, k, Complete(i), o)
    ensures k < |s.code| && Instruction(s.code[k].0) == Ok(i) && s.code[k].0.target.None? && Normal(i) == i
  {
    hide Instruction;
    assert Units(s.code[k..k + 1])[0] == s.code[k].0;
  }

  lemma SameLength(ts: seq<Token>, o: Options, p: VmBase.Program)
    requires Terminates(ts) && Assembles(ts, o, p)
    ensures Parse(ts, o).errors == [] && |Parse(ts, o).code| == |p.text|
  {
    hide Parse;
  }

  /** A branch or jump to a label of the text is fetched as a word that decodes to it with the distance to the
      instruction behind the label. */
  lemma TransferIsFetched(ts: seq<Token>, o: Options, p: VmBase.Program, m: Flat, j: nat, st: Statement, q: nat)
    requires Terminates(ts) && Assembles(ts, o, p) && Separate(o.dataStart, p) && j < |Pieces(ts)| && q < |Pieces(ts)|
    requires Pieces(ts)[j].LinePiece? && Read(Pieces(ts)[j].op, Pieces(ts)[j].operands) == Some(st)
    requires (st.BranchTo? || st.JumpTo?) && Pieces(ts)[q] == LabelPiece(st.target)
    ensures var (k, address) := (Start(Pieces(ts), j), TextAddress(Start(Pieces(ts), q)));
      k < |p.text| && Decoder.Decode(Fetched(m, o, p, k)) == Some(Aimed(st, address - 4 * k))
  {
    hide Parse, Pieces, Start, Separate, Read, Instruction, Decoder.Decode, Fetched, Enabled, Aimed, Offset,
      TextAddress, Says;
    LinesAreAssembled(ts, o, j);
    LinesAreAssembled(ts, o, q);
    var s, k := Parse(ts, o), Start(Pieces(ts), j);
    TransferUnit(s, k, st, o);
    SameLength(ts, o, p);
    TextIsAligned(Start(Pieces(ts), q));
    TextDistance(s.symbols[st.target].address, k);
    SmallAddress(k, |p.text|, o, p);
    CodeDecodes(ts, o, p, m, k);
    AimedNormal(st, s.symbols[st.target].address - 4 * k);
  }

  lemma TransferUnit(s: State, k: nat, st: Statement, o: Options)
    requires (st.BranchTo? || st.JumpTo?) && Stands(s, k, st, o)
    ensures k < |s.code| && st.target in s.symbols && s.code[k].0.target == Some(st.target)
    ensures Instruction(s.code[k].0) == Ok(Aimed(st, Offset(s.symbols[st.target].address, k)))
  {
    hide Instruction, Offset;
  }

  lemma TextIsAligned(k: nat)
    ensures TextAddress(k) % 4 == 0
  {
    VmBase.SizeIsAligned(k);
  }

  lemma AimedNormal(st: Statement, d: int)
    requires st.BranchTo? || st.JumpTo?
    ensures Normal(Aimed(st, d)) == Aimed(st, d)
  {}
}
