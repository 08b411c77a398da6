/** Which programs the assembler accepts: exactly those in which every directive has operands, and every line says
    something that can be done with the labels there are. */
module Acceptance {
  import opened Words
  import opened Wrappers
  import opened Instructions
  import opened Tokens
  import opened CodeGenerator
  import opened ParseFormats
  import opened ParserSpec
  import opened ParserProof
  import opened LineGrammar
  import opened TextLines
  import DataOperands
  import Printing

  // ----- the data sections -----

  /** A `.zero` of no bytes. */
  predicate Voids(k: DataKind, t: Token) { k == KZero && t.lexeme.Num? && Wrap64(t.lexeme.number) == 0 }

  function ListErrors(ts: seq<Token>, pos: nat, end: nat, k: DataKind): seq<nat>
    requires pos <= end <= |ts|
    decreases end - pos
  {
    if pos == end then [] else (if Voids(k, ts[pos]) then [ts[pos].line] else []) + ListErrors(ts, pos + 1, end, k)
  }

  /** Where a label, a directive with its operands, or what is neither ends. */
  function EntryEnd(ts: seq<Token>, pos: nat): (end: nat)
    requires pos < |ts|
    ensures pos < end <= |ts|
  {
    var t := ts[pos];
    if !t.lexeme.Label? && KindOf(t).Some? then DataOperands.ListEnd(ts, pos + 1, KindOf(t).value) else pos + 1
  }

  /** The lines in error there: of a label without a directive behind it, of a `.zero` of no bytes, and of what is
      neither label nor directive nor operand. */
  function EntryErrors(ts: seq<Token>, pos: nat): seq<nat>
    requires pos < |ts|
  {
    var t := ts[pos];
    if t.lexeme.Label? then if KindOf(Peek(ts, pos + 1)).None? then [t.line] else []
    else if KindOf(t).Some? then ListErrors(ts, pos + 1, EntryEnd(ts, pos), KindOf(t).value)
    else [t.line]
  }

  function SectionErrors(ts: seq<Token>, pos: nat): seq<nat>
    requires pos <= |ts|
    decreases |ts| - pos
  {
    if EndsSection(Peek(ts, pos)) then []
    else
      DataOperands.NotAtEnd(ts, pos);
      EntryErrors(ts, pos) + SectionErrors(ts, EntryEnd(ts, pos))
  }

  /** Outside the data sections the first pass passes over sections, and over text. */
  predicate PassedOver(t: Token) {
    || IsDirective(t, KwSection) || IsDirective(t, KwBss) || IsDirective(t, KwText)
    || t.lexeme.Label? || t.lexeme.Opcode?
  }

  function TurnErrors(ts: seq<Token>, pos: nat): seq<nat>
    requires pos < |ts|
  {
    var t := ts[pos];
    if IsDirective(t, KwData) then SectionErrors(ts, pos + 1) else if PassedOver(t) then [] else [t.line]
  }

  /** The lines that the first pass reports. */
  function FileErrors(ts: seq<Token>, pos: nat): seq<nat>
    requires pos <= |ts| && Terminates(ts) && Live(ts, pos)
    decreases |ts| - pos
  {
    if Peek(ts, pos).lexeme.Eof? then []
    else
      var s := INITIAL.(pos := pos);
      FirstStepLives(ts, s);
      TurnErrors(ts, pos) + FileErrors(ts, FirstStep(ts, s).pos)
  }

  lemma OperandRecorded(s: State, k: DataKind, t: Token)
    requires IsOperand(k, t)
    ensures Operand(s, k, t).errors == s.errors + if Voids(k, t) then [t.line] else []
  {
    DataOperands.CountIsData(k, t);
    hide AppendAll, Wrap64;
    var s' := AppendAll(s, DataOf(k, t));
    assert s'.(data := s.data, dataIndex := s.dataIndex) == s;
    assert s.errors + [] == s.errors;
  }

  lemma ListGoes(ts: seq<Token>, pos: nat, k: DataKind)
    requires pos < |ts|
    ensures var (t, end) := (ts[pos], DataOperands.ListEnd(ts, pos, k));
      ListErrors(ts, pos, end, k) == if !DataOperands.Continues(k, t) then []
        else (if Voids(k, t) then [t.line] else []) + ListErrors(ts, pos + 1, DataOperands.ListEnd(ts, pos + 1, k), k)
    ensures ts[pos].lexeme.Comma? ==> !Voids(k, ts[pos])
  {
    hide Wrap64, IsOperand;
  }

  lemma {:induction false} ListRecorded(ts: seq<Token>, s: State, k: DataKind)
    requires s.pos <= |ts|
    ensures var (s', end) := (OperandList(ts, s, k), DataOperands.ListEnd(ts, s.pos, k));
      s'.pos == end && s'.errors == s.errors + ListErrors(ts, s.pos, end, k)
    decreases |ts| - s.pos
  {
    hide *;
    if s.pos == |ts| { ListEnds(ts, s, k); return; }
    ListTurn(ts, s, k);
    if DataOperands.Continues(k, ts[s.pos]) { ListRecorded(ts, NextOperand(ts, s, k), k); }
  }

  /** The state behind a comma or an operand. */
  function NextOperand(ts: seq<Token>, s: State, k: DataKind): (s': State)
    requires s.pos < |ts| && DataOperands.Continues(k, ts[s.pos])
    ensures s'.pos == s.pos + 1
  {
    Next(if ts[s.pos].lexeme.Comma? then s else Operand(s, k, ts[s.pos]))
  }

  lemma ListTurn(ts: seq<Token>, s: State, k: DataKind)
    requires s.pos < |ts|
    ensures var (s', end) := (OperandList(ts, s, k), DataOperands.ListEnd(ts, s.pos, k));
      if DataOperands.Continues(k, ts[s.pos]) then
        var s1 := NextOperand(ts, s, k);
        var end1 := DataOperands.ListEnd(ts, s1.pos, k);
        && s' == OperandList(ts, s1, k) && end == end1
        && s.errors + ListErrors(ts, s.pos, end, k) == s1.errors + ListErrors(ts, s1.pos, end1, k)
      else s' == s && end == s.pos && s.errors + ListErrors(ts, s.pos, end, k) == s.errors
  {
    hide *;
    ListGoes(ts, s.pos, k);
    ListMoves(ts, s, k);
    if DataOperands.Continues(k, ts[s.pos]) {
      NextRecorded(ts, s, k);
      var head: seq<nat> := if Voids(k, ts[s.pos]) then [ts[s.pos].line] else [];
      Joined(s.errors, head, ListErrors(ts, s.pos + 1, DataOperands.ListEnd(ts, s.pos + 1, k), k));
    } else {
      Joined(s.errors, [], []);
    }
  }

  lemma ListMoves(ts: seq<Token>, s: State, k: DataKind)
    requires s.pos < |ts|
    ensures if DataOperands.Continues(k, ts[s.pos]) then
        && OperandList(ts, s, k) == OperandList(ts, NextOperand(ts, s, k), k)
        && DataOperands.ListEnd(ts, s.pos, k) == DataOperands.ListEnd(ts, s.pos + 1, k)
      else OperandList(ts, s, k) == s && DataOperands.ListEnd(ts, s.pos, k) == s.pos
  {
    hide Operand, IsOperand;
  }

  lemma Joined(a: seq<nat>, b: seq<nat>, c: seq<nat>)
    ensures a + (b + c) == a + b + c && a + [] == a
  {}

  lemma NextRecorded(ts: seq<Token>, s: State, k: DataKind)
    requires s.pos < |ts| && DataOperands.Continues(k, ts[s.pos])
    ensures NextOperand(ts, s, k).errors == s.errors + if Voids(k, ts[s.pos]) then [ts[s.pos].line] else []
  {
    hide Operand, IsOperand;
    Joined(s.errors, [], []);
    if !ts[s.pos].lexeme.Comma? { OperandRecorded(s, k, ts[s.pos]); }
  }

  lemma ListEnds(ts: seq<Token>, s: State, k: DataKind)
    requires s.pos == |ts|
    ensures var end := DataOperands.ListEnd(ts, s.pos, k);
      end == s.pos && OperandList(ts, s, k) == s && ListErrors(ts, s.pos, end, k) == []
  {
    DataOperands.ListDone(ts, s, k);
  }

  lemma EntryRecorded(ts: seq<Token>, s: State)
    requires s.pos < |ts|
    ensures var s' := DataStep(ts, s); s'.errors == s.errors + EntryErrors(ts, s.pos) && s'.pos == EntryEnd(ts, s.pos)
  {
    hide KindOf, OperandList, DataOperands.ListEnd, ListErrors;
    var t := ts[s.pos];
    assert s.errors + [] == s.errors;
    if !t.lexeme.Label? && KindOf(t).Some? { ListRecorded(ts, Next(s), KindOf(t).value); }
  }

  lemma {:induction false} SectionRecorded(ts: seq<Token>, s: State)
    requires s.pos <= |ts|
    ensures DataDirective(ts, s).errors == s.errors + SectionErrors(ts, s.pos)
    decreases |ts| - s.pos
  {
    hide DataStep, EntryErrors, EntryEnd, EndsSection;
    if EndsSection(Current(ts, s)) { assert s.errors + [] == s.errors; return; }
    DataOperands.NotAtEnd(ts, s.pos);
    EntryRecorded(ts, s);
    var s', head := DataStep(ts, s), EntryErrors(ts, s.pos);
    SectionRecorded(ts, s');
    assert s.errors + (head + SectionErrors(ts, s'.pos)) == s.errors + head + SectionErrors(ts, s'.pos);
  }

  lemma TurnRecorded(ts: seq<Token>, s: State)
    requires s.pos < |ts|
    ensures FirstStep(ts, s).errors == s.errors + TurnErrors(ts, s.pos)
  {
    hide DataDirective, SkipTo, SectionErrors;
    assert s.errors + [] == s.errors;
    if IsDirective(ts[s.pos], KwData) { SectionRecorded(ts, Next(s)); }
  }

  lemma {:induction false} FileRecorded(ts: seq<Token>, s: State)
    requires s.pos <= |ts| && Terminates(ts) && Live(ts, s.pos)
    ensures FirstPass(ts, s).errors == s.errors + FileErrors(ts, s.pos)
    decreases |ts| - s.pos
  {
    hide FirstStep, TurnErrors, Terminates, Live, FileErrors, FirstPass;
    FileEnds(ts, s);
    if Current(ts, s).lexeme.Eof? { assert s.errors + [] == s.errors; return; }
    var s', head := FirstStep(ts, s), TurnErrors(ts, s.pos);
    FileGoes(ts, s);
    TurnRecorded(ts, s);
    FileRecorded(ts, s');
    assert s.errors + (head + FileErrors(ts, s'.pos)) == s.errors + head + FileErrors(ts, s'.pos);
  }

  lemma FileEnds(ts: seq<Token>, s: State)
    requires s.pos <= |ts| && Terminates(ts) && Live(ts, s.pos)
    ensures if Current(ts, s).lexeme.Eof? then FirstPass(ts, s) == s && FileErrors(ts, s.pos) == [] else s.pos < |ts|
  {
    hide FirstStep, TurnErrors, Terminates, Live;
  }

  lemma FileGoes(ts: seq<Token>, s: State)
    requires s.pos < |ts| && Terminates(ts) && Live(ts, s.pos) && !ts[s.pos].lexeme.Eof?
    ensures var s' := FirstStep(ts, s);
      && s.pos < s'.pos && Live(ts, s'.pos) && FirstPass(ts, s) == FirstPass(ts, s')
      && FileErrors(ts, s.pos) == TurnErrors(ts, s.pos) + FileErrors(ts, s'.pos)
  {
    hide FirstStep, Terminates, Live, TurnErrors;
    FirstStepLives(ts, s);
    DataOperands.SameStep(ts, s);
    Advances(ts, s);
  }

  /** The first pass reports these lines, in this order. */
  lemma FirstPassReports(ts: seq<Token>)
    requires Terminates(ts)
    ensures FirstPass(ts, INITIAL).errors == FileErrors(ts, 0)
  {
    hide FirstPass, FileErrors;
    FileRecorded(ts, INITIAL);
    assert [] + FileErrors(ts, 0) == FileErrors(ts, 0);
  }

  // ----- the text sections -----

  /** The offset is one that the transfer can have. */
  predicate InRange(st: Statement, offset: int) {
    if st.BranchTo? then -0x1000 <= offset < 0x1000 else -0x10_0000 <= offset < 0x10_0000
  }

  /** Piece `q` is the label. */
  predicate IsLabel(ps: seq<Piece>, n: Name, q: nat) { q < |ps| && ps[q] == LabelPiece(n) }

  /** The offset from instruction `k` to the instruction behind label `q`. */
  function Reach(ps: seq<Piece>, q: nat, k: nat): int
    requires q <= |ps|
  {
    Offset(TextAddress(Start(ps, q)), k)
  }

  /** A transfer has a label of the text in reach; a jump may also name data. */
  predicate Leads(st: Statement, ps: seq<Piece>, k: nat, data: SymbolTable)
    requires st.BranchTo? || st.JumpTo?
  {
    || (exists q | 0 <= q < |ps| :: IsLabel(ps, st.target, q) && InRange(st, Reach(ps, q, k)))
    || (st.JumpTo? && st.target in data && InRange(st, Offset(data[st.target].address, k)))
  }

  /** What a statement at instruction `k` says can be done. */
  predicate Possible(st: Statement, ps: seq<Piece>, k: nat, data: SymbolTable) {
    match st
    case Complete(i) => Admitted(i)
    case BranchTo(_, _, _, _) => Leads(st, ps, k, data)
    case JumpTo(_, _) => Leads(st, ps, k, data)
    case LoadFrom(_, _, n) => n in data
    case AddressOf(_, n) => n in data
    case Constant(_, imm) => -B31 <= imm < B31
    case AFence => true
  }

  /** The piece is a label that is defined once and not in the data, or a line that is enabled and says something
      possible. */
  predicate Fine(ps: seq<Piece>, j: nat, data: SymbolTable, o: Options)
    requires j < |ps|
  {
    match ps[j]
    case LabelPiece(n) => n !in data && LabelPiece(n) !in ps[..j]
    case LinePiece(op, l, _) =>
      Enabled(op, o) && Read(op, l).Some? && Possible(Read(op, l).value, ps, Start(ps, j), data)
    case StrayPiece(_) => false
  }

  // ----- as far as the second pass can tell -----

  /** As `Possible`, where labels further on are still to come. */
  predicate Hopeful(st: Statement, ps: seq<Piece>, j: nat, data: SymbolTable)
    requires j <= |ps|
  {
    match st
    case BranchTo(_, _, _, n) => forall q | 0 <= q < j && IsLabel(ps, n, q) :: InRange(st, Reach(ps, q, Start(ps, j)))
    case JumpTo(_, n) => forall q | 0 <= q < j && IsLabel(ps, n, q) :: InRange(st, Reach(ps, q, Start(ps, j)))
    case _ => Possible(st, ps, Start(ps, j), data)
  }

  predicate FineSoFar(ps: seq<Piece>, j: nat, data: SymbolTable, o: Options)
    requires j < |ps|
  {
    match ps[j]
    case LabelPiece(n) => n !in data && LabelPiece(n) !in ps[..j]
    case LinePiece(op, l, _) => Enabled(op, o) && Read(op, l).Some? && Hopeful(Read(op, l).value, ps, j, data)
    case StrayPiece(_) => false
  }

  predicate AllFineSoFar(ps: seq<Piece>, data: SymbolTable, o: Options) {
    forall j | 0 <= j < |ps| :: FineSoFar(ps, j, data, o)
  }

  /** What the symbols of a state are, besides what `AllTraced` says of the labels of the text. */
  predicate DataKept(symbols: SymbolTable, data: SymbolTable) {
    && (forall n <- data :: n in symbols && symbols[n] == data[n] && data[n].isData)
    && (forall n <- symbols :: symbols[n].isData ==> n in data)
  }

  ghost predicate Judged(s: State, ps: seq<Piece>, data: SymbolTable, o: Options) {
    && AllTraced(s, ps, o) && DataKept(s.symbols, data)
    && (s.errors == [] <==> AllFineSoFar(ps, data, o))
  }

  /** What holds so far depends on the pieces so far. */
  lemma SoFar(ps: seq<Piece>, qs: seq<Piece>, j: nat, data: SymbolTable, o: Options)
    requires j < |ps|
    ensures FineSoFar(ps + qs, j, data, o) <==> FineSoFar(ps, j, data, o)
  {
    hide Read, Enabled, Admitted, InRange, Offset, TextAddress, Start;
    StartSame(ps, qs, j);
    assert (ps + qs)[..j] == ps[..j];
    var k := Start(ps, j);
    forall q: nat | q < j ensures Reach(ps + qs, q, k) == Reach(ps, q, k) { StartSame(ps, qs, q); }
    assert forall n, q: nat | q < j :: IsLabel(ps + qs, n, q) <==> IsLabel(ps, n, q);
  }

  // ----- a line -----

  /** What a statement says can be done with the symbols so far. */
  predicate Doable(st: Statement, index: nat, symbols: SymbolTable) {
    match st
    case Complete(i) => Admitted(i)
    case BranchTo(_, _, _, n) => TextSymbol(symbols, n) ==> InRange(st, Offset(symbols[n].address, index))
    case JumpTo(_, n) => TextSymbol(symbols, n) ==> InRange(st, Offset(symbols[n].address, index))
    case LoadFrom(_, _, n) => n in symbols && symbols[n].isData
    case AddressOf(_, n) => n in symbols && symbols[n].isData
    case Constant(_, imm) => -B31 <= imm < B31
    case AFence => true
  }

  predicate TextSymbol(symbols: SymbolTable, n: Name) { n in symbols && !symbols[n].isData }

  lemma SaysFails(outcome: Outcome, st: Statement, index: nat, symbols: SymbolTable, o: Options)
    requires Says(outcome, st, index, symbols, o)
    ensures Fails(outcome) <==> !Doable(st, index, symbols)
  {
    hide Offset, Instruction, Admitted, Distance, Awaits;
  }

  lemma FailsIff(op: Op, l: seq<Lexeme>, line: nat, index: nat, symbols: SymbolTable, o: Options)
    ensures Fails(Printing.AssembledLine(op, l, line, index, symbols, o))
      <==> !(Read(op, l).Some? && Doable(Read(op, l).value, index, symbols))
  {
    hide Printing.AssembledLine, Read, Says, Fails, Doable;
    LineAssembles(op, l, line, index, symbols, o);
    var st, outcome := Read(op, l), Printing.AssembledLine(op, l, line, index, symbols, o);
    if st.Some? { SaysFails(outcome, st.value, index, symbols, o); }
  }

  lemma LabelKnown(s: State, ps: seq<Piece>, n: Name, q: nat, o: Options)
    requires AllTraced(s, ps, o) && s.errors == [] && IsLabel(ps, n, q)
    ensures TextSymbol(s.symbols, n) && s.symbols[n].address == TextAddress(Start(ps, q))
  {
    hide TextAddress, Start;
    assert Traced(s, ps, q, o);
  }

  lemma KnownIsLabel(s: State, ps: seq<Piece>, n: Name, o: Options) returns (q: nat)
    requires AllTraced(s, ps, o) && s.errors == [] && TextSymbol(s.symbols, n)
    ensures IsLabel(ps, n, q)
  {
    hide Traced, Start;
    assert LabelPiece(n) in ps;
    q :| q < |ps| && ps[q] == LabelPiece(n);
  }

  lemma TransferIs(s: State, ps: seq<Piece>, st: Statement, o: Options)
    requires AllTraced(s, ps, o) && s.errors == [] && (st.BranchTo? || st.JumpTo?)
    ensures var (n, k) := (st.target, Start(ps, |ps|));
      (TextSymbol(s.symbols, n) ==> InRange(st, Offset(s.symbols[n].address, k)))
      <==> forall q | 0 <= q < |ps| && IsLabel(ps, n, q) :: InRange(st, Reach(ps, q, k))
  {
    hide AllTraced, InRange, Offset, TextAddress, Start;
    var n, k := st.target, Start(ps, |ps|);
    forall q: nat | IsLabel(ps, n, q)
      ensures TextSymbol(s.symbols, n) && s.symbols[n].address == TextAddress(Start(ps, q))
    {
      LabelKnown(s, ps, n, q, o);
    }
    if TextSymbol(s.symbols, n) { var q := KnownIsLabel(s, ps, n, o); }
  }

  lemma HopefulIs(s: State, ps: seq<Piece>, st: Statement, data: SymbolTable, o: Options)
    requires AllTraced(s, ps, o) && s.errors == [] && DataKept(s.symbols, data)
    ensures Doable(st, s.index, s.symbols) <==> Hopeful(st, ps, |ps|, data)
  {
    assert s.index == Start(ps, |ps|);
    hide AllTraced, InRange, Offset, TextAddress, Start, Reach, Admitted, TextSymbol, IsLabel;
    if st.BranchTo? || st.JumpTo? { TransferIs(s, ps, st, o); }
  }

  // ----- one piece after another -----

  /** The symbols after a turn of the text loop. */
  lemma StepKeepsData(ts: seq<Token>, s: State, data: SymbolTable, o: Options)
    requires s.pos < |ts| && !ts[s.pos].lexeme.Eof? && DataKept(s.symbols, data)
    ensures var s' := TextStep(ts, s, o); DataKept(s'.symbols, data) && |s.errors| <= |s'.errors|
  {
    hide Apply, Assembled, Enabled, SkipLine, TextAddress;
    var t := ts[s.pos];
    if t.lexeme.Opcode? && Enabled(t.lexeme.op, o) { Applied(s, Assembled(ts, s, t.lexeme.op, o), t.line); }
  }

  /** The turn reports an error exactly if the piece is not fine. */
  lemma StepReports(ts: seq<Token>, s: State, ps: seq<Piece>, data: SymbolTable, o: Options)
    requires s.pos < |ts| && !ts[s.pos].lexeme.Eof?
    requires AllTraced(s, ps, o) && s.errors == [] && DataKept(s.symbols, data)
    ensures TextStep(ts, s, o).errors == [] <==> FineSoFar(ps + PieceAt(ts, s.pos), |ps|, data, o)
  {
    hide AllTraced, DataKept, Enabled, SkipLine, Apply, Assembled, Lexemes, TextAddress, Hopeful;
    var t := ts[s.pos];
    if t.lexeme.Label? { LabelReports(s, ps, t.lexeme.name, data, o); }
    else if t.lexeme.Opcode? {
      LineIsAssembled(ts, s, o);
      LineReports(s, ps, t.lexeme.op, Lexemes(ts, s.pos + 1, LineEnd(ts, s.pos)), t.line, data, o);
      Applied(s, Assembled(ts, s, t.lexeme.op, o), t.line);
    }
  }

  lemma LineIsAssembled(ts: seq<Token>, s: State, o: Options)
    requires s.pos < |ts| && ts[s.pos].lexeme.Opcode?
    ensures var t := ts[s.pos];
      Assembled(ts, s, t.lexeme.op, o)
      == Printing.AssembledLine(t.lexeme.op, Lexemes(ts, s.pos + 1, LineEnd(ts, s.pos)), t.line, s.index, s.symbols, o)
  {
    hide FirstMatch, SkipLine, Lexemes, RestOfLine;
    RestIsLexemes(ts, s.pos + 1, ts[s.pos].line);
    SkipsTogether(ts, s.pos);
  }

  lemma LabelReports(s: State, ps: seq<Piece>, n: Name, data: SymbolTable, o: Options)
    requires AllTraced(s, ps, o) && s.errors == [] && DataKept(s.symbols, data)
    ensures n in s.symbols <==> n in data || LabelPiece(n) in ps
    ensures FineSoFar(ps + [LabelPiece(n)], |ps|, data, o) <==> n !in data && LabelPiece(n) !in ps
  {
    hide AllTraced, Traced, Start;
    assert (ps + [LabelPiece(n)])[..|ps|] == ps;
    if n in s.symbols && !s.symbols[n].isData { var q := KnownIsLabel(s, ps, n, o); }
    if LabelPiece(n) in ps {
      var q :| 0 <= q < |ps| && ps[q] == LabelPiece(n);
      LabelKnown(s, ps, n, q, o);
    }
  }

  lemma LineReports(s: State, ps: seq<Piece>, op: Op, l: seq<Lexeme>, line: nat, data: SymbolTable, o: Options)
    requires AllTraced(s, ps, o) && s.errors == [] && DataKept(s.symbols, data)
    ensures var p := LinePiece(op, l, line);
      FineSoFar(ps + [p], |ps|, data, o)
      <==> Enabled(op, o) && !Fails(Printing.AssembledLine(op, l, line, s.index, s.symbols, o))
  {
    hide AllTraced, DataKept, Fails, Doable, Hopeful, Read, Enabled, Printing.AssembledLine;
    FailsIff(op, l, line, s.index, s.symbols, o);
    if Read(op, l).Some? {
      HopefulIs(s, ps, Read(op, l).value, data, o);
      HopefulSoFar(Read(op, l).value, ps, [LinePiece(op, l, line)], data);
    }
  }

  lemma HopefulSoFar(st: Statement, ps: seq<Piece>, qs: seq<Piece>, data: SymbolTable)
    ensures Hopeful(st, ps + qs, |ps|, data) <==> Hopeful(st, ps, |ps|, data)
  {
    hide Admitted, InRange, Offset, TextAddress, Start;
    StartSame(ps, qs, |ps|);
    var k := Start(ps, |ps|);
    forall q: nat | q < |ps| ensures Reach(ps + qs, q, k) == Reach(ps, q, k) { StartSame(ps, qs, q); }
    assert forall n, q: nat | q < |ps| :: IsLabel(ps + qs, n, q) <==> IsLabel(ps, n, q);
  }

  /** All pieces are fine so far exactly if the first ones are, and the rest. */
  lemma AllSoFar(ps: seq<Piece>, p: Piece, data: SymbolTable, o: Options)
    ensures AllFineSoFar(ps + [p], data, o) <==> AllFineSoFar(ps, data, o) && FineSoFar(ps + [p], |ps|, data, o)
  {
    hide FineSoFar;
    forall j | 0 <= j < |ps| ensures FineSoFar(ps + [p], j, data, o) <==> FineSoFar(ps, j, data, o) {
      SoFar(ps, [p], j, data, o);
    }
    if AllFineSoFar(ps + [p], data, o) {
      forall j | 0 <= j < |ps| ensures FineSoFar(ps, j, data, o) { assert FineSoFar(ps + [p], j, data, o); }
    }
  }

  lemma StepJudged(ts: seq<Token>, s: State, ps: seq<Piece>, data: SymbolTable, o: Options)
    requires s.pos < |ts| && !ts[s.pos].lexeme.Eof? && Judged(s, ps, data, o)
    ensures var s' := TextStep(ts, s, o); s'.pos == LineEnd(ts, s.pos) && Judged(s', ps + PieceAt(ts, s.pos), data, o)
  {
    hide TextStep, LineEnd, AllTraced, DataKept, AllFineSoFar, FineSoFar, Lexemes;
    StepTraced(ts, s, ps, o);
    StepKeepsData(ts, s, data, o);
    AllSoFar(ps, PieceAt(ts, s.pos)[0], data, o);
    assert PieceAt(ts, s.pos) == [PieceAt(ts, s.pos)[0]];
    if s.errors == [] { StepReports(ts, s, ps, data, o); }
  }

  lemma {:induction false} SectionJudged(ts: seq<Token>, s: State, ps: seq<Piece>, data: SymbolTable, o: Options)
    requires s.pos <= |ts| && Judged(s, ps, data, o)
    ensures var s' := TextDirective(ts, s, o);
      s'.pos == TextLines.SectionEnd(ts, s.pos) && Judged(s', ps + SectionPieces(ts, s.pos), data, o)
    decreases |ts| - s.pos
  {
    hide Judged, TextStep, PieceAt, LineEnd;
    var t := Current(ts, s);
    if t.lexeme.Directive? || t.lexeme.Eof? { assert ps + [] == ps; return; }
    StepJudged(ts, s, ps, data, o);
    var s', head := TextStep(ts, s, o), PieceAt(ts, s.pos);
    SectionJudged(ts, s', ps + head, data, o);
    assert ps + (head + SectionPieces(ts, s'.pos)) == ps + head + SectionPieces(ts, s'.pos);
  }

  lemma JudgedAnywhere(s: State, ps: seq<Piece>, pos: nat, data: SymbolTable, o: Options)
    requires Judged(s, ps, data, o)
    ensures Judged(s.(pos := pos), ps, data, o)
  {
    hide AllTraced, DataKept, AllFineSoFar;
    TracedAnywhere(s, s.(pos := pos), ps, o);
  }

  lemma StrayJudged(s: State, ps: seq<Piece>, line: nat, pos: nat, data: SymbolTable, o: Options)
    requires Judged(s, ps, data, o)
    ensures Judged(Record(s, line).(pos := pos), ps + [StrayPiece(line)], data, o)
  {
    hide AllTraced, DataKept, AllFineSoFar;
    NotTraced(Record(s, line).(pos := pos), ps + [StrayPiece(line)], o);
    AllSoFar(ps, StrayPiece(line), data, o);
  }

  lemma TurnJudged(ts: seq<Token>, s: State, ps: seq<Piece>, data: SymbolTable, o: Options)
    requires s.pos < |ts| && Judged(s, ps, data, o)
    ensures var s' := SecondStep(ts, s, o);
      s'.pos == TurnEnd(ts, s.pos) && Judged(s', ps + TurnPieces(ts, s.pos), data, o)
  {
    hide Judged, TextDirective, TextLines.SectionEnd, SectionPieces, SkipTo, IsDirective;
    assert ps + [] == ps;
    var t, s' := ts[s.pos], SecondStep(ts, s, o);
    JudgedAnywhere(s, ps, s.pos + 1, data, o);
    JudgedAnywhere(s, ps, s'.pos, data, o);
    StrayJudged(s, ps, t.line, s.pos + 1, data, o);
    if IsDirective(t, KwSection) || IsDirective(t, KwData) || IsDirective(t, KwBss) {}
    else if IsDirective(t, KwText) { SectionJudged(ts, Next(s), ps, data, o); }
    else if t.lexeme.Label? || t.lexeme.Opcode? { SectionJudged(ts, s, ps, data, o); }
  }

  lemma {:induction false} FileJudged(ts: seq<Token>, s: State, ps: seq<Piece>, data: SymbolTable, o: Options)
    requires s.pos <= |ts| && Judged(s, ps, data, o)
    ensures Judged(SecondPass(ts, s, o), ps + FilePieces(ts, s.pos), data, o)
    decreases |ts| - s.pos
  {
    hide Judged, SecondStep, TurnPieces, TurnEnd;
    if Current(ts, s).lexeme.Eof? { assert ps + [] == ps; return; }
    TurnJudged(ts, s, ps, data, o);
    var s', head := SecondStep(ts, s, o), TurnPieces(ts, s.pos);
    FileJudged(ts, s', ps + head, data, o);
    assert ps + (head + FilePieces(ts, s'.pos)) == ps + head + FilePieces(ts, s'.pos);
  }

  // ----- with all labels known -----

  /** The label of a transfer is there, in the text if it is a branch, and in reach. */
  predicate Arrives(st: Statement, index: nat, symbols: SymbolTable)
    requires st.BranchTo? || st.JumpTo?
  {
    && st.target in symbols && (st.BranchTo? ==> !symbols[st.target].isData)
    && InRange(st, Offset(symbols[st.target].address, index))
  }

  lemma LeadsIff(s: State, ps: seq<Piece>, st: Statement, k: nat, data: SymbolTable, o: Options)
    requires AllTraced(s, ps, o) && s.errors == [] && DataKept(s.symbols, data) && (st.BranchTo? || st.JumpTo?)
    ensures Leads(st, ps, k, data) <==> Arrives(st, k, s.symbols)
  {
    hide AllTraced, InRange, Offset, TextAddress, Start;
    var n := st.target;
    forall q: nat | IsLabel(ps, n, q)
      ensures TextSymbol(s.symbols, n) && s.symbols[n].address == TextAddress(Start(ps, q))
    {
      LabelKnown(s, ps, n, q, o);
    }
    if TextSymbol(s.symbols, n) { var q := KnownIsLabel(s, ps, n, o); }
  }

  lemma AwaitsIs(u: ICUnit, st: Statement)
    requires (st.BranchTo? || st.JumpTo?) && Awaits(u, st)
    ensures u.target == Some(st.target) && (u.op.B? <==> st.BranchTo?) && (u.op.Jal? <==> st.JumpTo?)
  {
    assert Instruction(u.(imm := Some(0))) == Ok(Aimed(st, 0));
  }

  lemma ResolvableIff(u: ICUnit, st: Statement, k: nat, symbols: SymbolTable)
    requires (st.BranchTo? || st.JumpTo?) && Awaits(u, st)
    ensures Resolvable(u, k, symbols) <==> Arrives(st, k, symbols)
  {
    hide Awaits, Offset;
    AwaitsIs(u, st);
  }

  function StatementOf(p: Piece): Option<Statement> { if p.LinePiece? then Read(p.op, p.operands) else None }

  predicate IsTransfer(p: Piece) {
    StatementOf(p).Some? && (StatementOf(p).value.BranchTo? || StatementOf(p).value.JumpTo?)
  }

  /** The unit of a transfer waits for its label, or has arrived. */
  lemma WaitsOrArrives(s: State, ps: seq<Piece>, j: nat, o: Options)
    requires j < |ps| && Traced(s, ps, j, o) && IsTransfer(ps[j])
    ensures var (k, st) := (Start(ps, j), StatementOf(ps[j]).value);
      && k < |s.code|
      && if s.code[k].1 then Arrives(st, k, s.symbols) else Awaits(s.code[k].0, st)
  {
    hide Awaits, Read, Enabled, Start, Offset, Yields;
    var k, st := Start(ps, j), StatementOf(ps[j]).value;
    assert s.code[k..k + 1][0] == s.code[k];
  }

  /** Only transfers wait. */
  lemma OthersAreDone(s: State, ps: seq<Piece>, j: nat, i: nat, o: Options)
    requires j < |ps| && Traced(s, ps, j, o) && Start(ps, j) <= i < Start(ps, j) + PieceWidth(ps[j])
    ensures i < |s.code| && (!s.code[i].1 ==> IsTransfer(ps[j]) && i == Start(ps, j))
  {
    hide Awaits, Read, Enabled, Start, Says;
    var k, st := Start(ps, j), StatementOf(ps[j]).value;
    assert s.code[k..k + Width(st)][i - k] == s.code[i];
  }

  lemma {:induction false} PieceOf(ps: seq<Piece>, m: nat, i: nat) returns (j: nat)
    requires m <= |ps| && i < Start(ps, m)
    ensures j < m && Start(ps, j) <= i < Start(ps, j) + PieceWidth(ps[j])
  {
    hide PieceWidth;
    if i >= Start(ps, m - 1) { j := m - 1; } else { j := PieceOf(ps, m - 1, i); }
  }

  /** With all labels known a piece that was fine so far is fine, unless it is a transfer that does not arrive. */
  lemma FineIff(s: State, ps: seq<Piece>, j: nat, data: SymbolTable, o: Options)
    requires j < |ps| && AllTraced(s, ps, o) && s.errors == [] && DataKept(s.symbols, data)
    requires FineSoFar(ps, j, data, o)
    ensures Fine(ps, j, data, o)
      <==> (IsTransfer(ps[j]) ==> Arrives(StatementOf(ps[j]).value, Start(ps, j), s.symbols))
  {
    hide AllTraced, DataKept, Read, Enabled, Start, Arrives, Leads, InRange;
    if IsTransfer(ps[j]) { LeadsIff(s, ps, StatementOf(ps[j]).value, Start(ps, j), data, o); }
  }

  lemma FineIsSoFar(ps: seq<Piece>, data: SymbolTable, o: Options)
    requires forall j | 0 <= j < |ps| :: Fine(ps, j, data, o)
    ensures AllFineSoFar(ps, data, o)
  {
    hide Read, Enabled, Admitted, InRange, Reach, Start, Offset;
    forall j | 0 <= j < |ps| ensures FineSoFar(ps, j, data, o) {
      assert Fine(ps, j, data, o);
      if IsTransfer(ps[j]) {
        var st, k := StatementOf(ps[j]).value, Start(ps, j);
        forall q | 0 <= q < j && IsLabel(ps, st.target, q) ensures InRange(st, Reach(ps, q, k)) {
          OneLabel(ps, st.target, q, data, o);
        }
      }
    }
  }

  lemma OneLabel(ps: seq<Piece>, n: Name, q: nat, data: SymbolTable, o: Options)
    requires (forall j | 0 <= j < |ps| :: Fine(ps, j, data, o)) && IsLabel(ps, n, q)
    ensures n !in data && forall r: nat | IsLabel(ps, n, r) :: r == q
  {
    hide Possible;
    Precede(ps);
    assert Fine(ps, q, data, o);
    forall r: nat | IsLabel(ps, n, r) ensures r == q { assert Fine(ps, r, data, o); }
  }

  lemma Precede(ps: seq<Piece>)
    ensures forall q, r | 0 <= q < r < |ps| :: ps[q] in ps[..r]
  {
    forall q, r | 0 <= q < r < |ps| ensures ps[q] in ps[..r] { assert ps[..r][q] == ps[q]; }
  }

  /** When the second pass has reported nothing, patching reports nothing exactly if all pieces are fine. */
  lemma PatchesIff(s: State, ps: seq<Piece>, data: SymbolTable, o: Options)
    requires AllTraced(s, ps, o) && s.errors == [] && DataKept(s.symbols, data) && AllFineSoFar(ps, data, o)
    ensures (forall i | 0 <= i < |s.code| && !s.code[i].1 :: Resolvable(s.code[i].0, i, s.symbols))
      <==> forall j | 0 <= j < |ps| :: Fine(ps, j, data, o)
  {
    hide Traced, Fine, FineSoFar, Resolvable, Start, PieceWidth, IsTransfer, Arrives, DataKept;
    if forall i | 0 <= i < |s.code| && !s.code[i].1 :: Resolvable(s.code[i].0, i, s.symbols) {
      forall j | 0 <= j < |ps| ensures Fine(ps, j, data, o) { ResolvedIsFine(s, ps, j, data, o); }
    }
    if forall j | 0 <= j < |ps| :: Fine(ps, j, data, o) {
      forall i | 0 <= i < |s.code| && !s.code[i].1 ensures Resolvable(s.code[i].0, i, s.symbols) {
        var j := PieceOf(ps, |ps|, i);
        FineIsResolved(s, ps, j, i, data, o);
      }
    }
  }

  lemma ResolvedIsFine(s: State, ps: seq<Piece>, j: nat, data: SymbolTable, o: Options)
    requires AllTraced(s, ps, o) && s.errors == [] && DataKept(s.symbols, data) && AllFineSoFar(ps, data, o) && j < |ps|
    requires forall i | 0 <= i < |s.code| && !s.code[i].1 :: Resolvable(s.code[i].0, i, s.symbols)
    ensures Fine(ps, j, data, o)
  {
    assert Traced(s, ps, j, o) && FineSoFar(ps, j, data, o);
    hide AllTraced, Traced, Fine, FineSoFar, Resolvable, Start, IsTransfer, Arrives, DataKept, Awaits;
    FineIff(s, ps, j, data, o);
    if IsTransfer(ps[j]) {
      var k := Start(ps, j);
      WaitsOrArrives(s, ps, j, o);
      if !s.code[k].1 { ResolvableIff(s.code[k].0, StatementOf(ps[j]).value, k, s.symbols); }
    }
  }

  lemma FineIsResolved(s: State, ps: seq<Piece>, j: nat, i: nat, data: SymbolTable, o: Options)
    requires AllTraced(s, ps, o) && s.errors == [] && DataKept(s.symbols, data) && AllFineSoFar(ps, data, o) && j < |ps|
    requires Fine(ps, j, data, o) && Start(ps, j) <= i < Start(ps, j) + PieceWidth(ps[j])
    requires i < |s.code| && !s.code[i].1
    ensures Resolvable(s.code[i].0, i, s.symbols)
  {
    assert Traced(s, ps, j, o) && FineSoFar(ps, j, data, o);
    hide AllTraced, Traced, Fine, FineSoFar, Resolvable, Start, PieceWidth, IsTransfer, Arrives, DataKept, Awaits;
    FineIff(s, ps, j, data, o);
    OthersAreDone(s, ps, j, i, o);
    WaitsOrArrives(s, ps, j, o);
    ResolvableIff(s.code[i].0, StatementOf(ps[j]).value, i, s.symbols);
  }

  // ----- the program -----

  /** The data labels, with their places. */
  function DataSymbols(ts: seq<Token>): SymbolTable
    requires Terminates(ts)
  {
    FirstPass(ts, INITIAL).symbols
  }

  /** They are those of the data sections. */
  lemma DataLabelIff(ts: seq<Token>, n: Name)
    requires Terminates(ts)
    ensures n in DataSymbols(ts) <==> DataOperands.LabelItem(n) in DataOperands.Items(ts)
  {
    hide FirstPass, DataOperands.Items, DataOperands.Before;
    DataOperands.ItemsAreLaid(ts);
    var xs, x := DataOperands.Items(ts), DataOperands.LabelItem(n);
    if x in xs {
      var i :| 0 <= i < |xs| && xs[i] == x;
      DataOperands.LaidParts(FirstPass(ts, INITIAL), xs, i);
    }
    if n in DataSymbols(ts) { assert DataOperands.LabelledAt(FirstPass(ts, INITIAL), xs, n); }
  }

  /** Nothing in the data sections is in error, and every piece is fine. */
  predicate Acceptable(ts: seq<Token>, o: Options)
    requires Terminates(ts)
  {
    FileErrors(ts, 0) == [] && forall j | 0 <= j < |Pieces(ts)| :: Fine(Pieces(ts), j, DataSymbols(ts), o)
  }

  lemma UnpatchedJudged(ts: seq<Token>, o: Options)
    requires Terminates(ts) && FirstPass(ts, INITIAL).errors == []
    ensures Judged(Unpatched(ts, o), Pieces(ts), DataSymbols(ts), o)
  {
    hide FirstPass, SecondPass, FilePieces, Judged;
    FirstPassOnly(ts, INITIAL);
    NothingJudged(FirstPass(ts, INITIAL), o);
    FileJudged(ts, FirstPass(ts, INITIAL).(pos := 0, index := 0), [], DataSymbols(ts), o);
    assert [] + FilePieces(ts, 0) == FilePieces(ts, 0);
  }

  lemma NothingJudged(s: State, o: Options)
    requires DataOnly(s) && s.errors == []
    ensures Judged(s.(pos := 0, index := 0), [], s.symbols, o)
  {}

  lemma ErrorsStay(ts: seq<Token>, o: Options)
    requires Terminates(ts) && Parse(ts, o).errors == []
    ensures FirstPass(ts, INITIAL).errors == [] && Unpatched(ts, o).errors == []
  {
    hide *;
    CleanParse(ts, o);
    SecondPassAdds(ts, o);
  }

  lemma SecondPassAdds(ts: seq<Token>, o: Options)
    requires Terminates(ts)
    ensures |FirstPass(ts, INITIAL).errors| <= |Unpatched(ts, o).errors|
  {
    hide FirstPass, SecondPass;
    FirstPassOnly(ts, INITIAL);
    SecondPassKeeps(ts, FirstPass(ts, INITIAL).(pos := 0, index := 0), o);
  }

  /** The assembler accepts exactly the programs in which every data directive is in order and every line of the text
      says something possible. */
  lemma AcceptedIff(ts: seq<Token>, o: Options)
    requires Terminates(ts)
    ensures Parse(ts, o).errors == [] <==> Acceptable(ts, o)
  {
    hide FirstPass, Unpatched, Parse, FileErrors, Pieces, Judged, AllFineSoFar, Fine;
    FirstPassReports(ts);
    if Parse(ts, o).errors == [] { ErrorsStay(ts, o); }
    if FirstPass(ts, INITIAL).errors == [] { SecondPassDecides(ts, o); }
  }

  lemma SecondPassDecides(ts: seq<Token>, o: Options)
    requires Terminates(ts) && FirstPass(ts, INITIAL).errors == []
    ensures Parse(ts, o).errors == [] <==> forall j | 0 <= j < |Pieces(ts)| :: Fine(Pieces(ts), j, DataSymbols(ts), o)
  {
    var s, ps, data := Unpatched(ts, o), Pieces(ts), DataSymbols(ts);
    hide FirstPass, Unpatched, Parse, Pieces, AllFineSoFar, Fine, AllTraced, DataKept, Resolvable, DataSymbols;
    UnpatchedJudged(ts, o);
    PatchesCleanlyIff(ts, o);
    if Parse(ts, o).errors == [] { ErrorsStay(ts, o); }
    if forall j | 0 <= j < |ps| :: Fine(ps, j, data, o) { FineIsSoFar(ps, data, o); }
    if s.errors == [] { PatchesIff(s, ps, data, o); }
  }
}
