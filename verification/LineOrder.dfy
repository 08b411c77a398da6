/** Instructions are emitted in line order, so that the assembler's line map is the adjoint of their lines. */
module LineOrder {
  import opened Words
  import opened Tokens
  import opened CodeGenerator
  import opened ParseFormats
  import opened ParserSpec
  import opened ParserProof
  import opened Assembler
  import VmBase

  /** As the lexer leaves them. */
  predicate SortedLines(ts: seq<Token>) { forall i, j | 0 <= i < j < |ts| :: ts[i].line <= ts[j].line }

  predicate OnLine(outcome: Outcome, line: nat) {
    match outcome
    case Emitted(us) => forall k | 0 <= k < |us| :: us[k].line == line
    case Deferred(u) => u.line == line
    case _ => true
  }

  lemma FloatOnLine(x: Syntax, u: ICUnit, a: seq<Lexeme>)
    ensures OnLine(FormatFloat(x, u, a), u.line)
  {}

  lemma PseudoOnLine(u: ICUnit, l: seq<Lexeme>, index: nat, symbols: SymbolTable, o: Options)
    requires u.op.Pseudo?
    ensures OnLine(FormatPseudo(u, l, index, symbols, o), u.line)
  {
    hide Operands, PcRelativeParts, Upper;
  }

  lemma FormatOnLine(x: Syntax, u: ICUnit, l: seq<Lexeme>, index: nat, symbols: SymbolTable, o: Options)
    ensures OnLine(Format(x, u, l, index, symbols, o), u.line)
  {
    hide Operands, PcRelativeParts, FormatFloat, FormatPseudo, Offset;
    if u.op.Pseudo? { PseudoOnLine(u, l, index, symbols, o); }
    FloatOnLine(x, u, Operands(l));
  }

  lemma {:induction false} FirstMatchOnLine(xs: seq<Syntax>, u: ICUnit, l: seq<Lexeme>, index: nat,
    symbols: SymbolTable, o: Options)
    ensures OnLine(FirstMatch(xs, u, l, index, symbols, o), u.line)
    decreases |xs|
  {
    hide Format;
    if xs != [] {
      FormatOnLine(xs[0], u, l, index, symbols, o);
      FirstMatchOnLine(xs[1..], u, l, index, symbols, o);
    }
  }

  /** The code so far is in line order, and no later than the tokens to come. */
  predicate CodeInOrder(ts: seq<Token>, s: State) {
    && (forall j, k | 0 <= j < k < |s.code| :: s.code[j].0.line <= s.code[k].0.line)
    && (forall k, p | 0 <= k < |s.code| && s.pos <= p < |ts| :: s.code[k].0.line <= ts[p].line)
  }

  lemma EmitInOrder(ts: seq<Token>, s: State, u: ICUnit, resolved: bool)
    requires CodeInOrder(ts, s) && s.pos < |ts| && u.line == ts[s.pos].line && SortedLines(ts)
    ensures CodeInOrder(ts, Emit(s, u, resolved))
  {}

  lemma {:induction false} EmitAllInOrder(ts: seq<Token>, s: State, us: seq<ICUnit>)
    requires CodeInOrder(ts, s) && s.pos < |ts| && SortedLines(ts) && forall k | 0 <= k < |us| ::
      us[k].line == ts[s.pos].line
    ensures CodeInOrder(ts, EmitAll(s, us))
    decreases |us|
  {
    hide CodeInOrder, SortedLines;
    if us != [] {
      EmitAllInOrder(ts, s, us[..|us| - 1]);
      EmitInOrder(ts, EmitAll(s, us[..|us| - 1]), us[|us| - 1], true);
    }
  }

  lemma LaterInOrder(ts: seq<Token>, s: State, pos: nat)
    requires CodeInOrder(ts, s) && s.pos <= pos
    ensures CodeInOrder(ts, s.(pos := pos))
  {}

  lemma SameCodeInOrder(ts: seq<Token>, s: State, s': State)
    requires CodeInOrder(ts, s) && s'.code == s.code && s.pos <= s'.pos
    ensures CodeInOrder(ts, s')
  {}

  lemma TextStepInOrder(ts: seq<Token>, s: State, o: Options)
    requires CodeInOrder(ts, s) && SortedLines(ts) && s.pos < |ts| && !ts[s.pos].lexeme.Eof?
    ensures CodeInOrder(ts, TextStep(ts, s, o))
  {
    hide CodeInOrder, SortedLines, FirstMatch, SkipLine, RestOfLine, Enabled, Syntaxes, TextAddress;
    var t, s' := ts[s.pos], TextStep(ts, s, o);
    if t.lexeme.Opcode? && Enabled(t.lexeme.op, o) {
      var outcome := Assembled(ts, s, t.lexeme.op, o);
      FirstMatchOnLine(Syntaxes(t.lexeme.op), Unit(t.lexeme.op, t.line), RestOfLine(ts, s.pos + 1, t.line), s.index,
        s.symbols, o);
      match outcome {
        case Emitted(us) => EmitAllInOrder(ts, s, us);
        case Deferred(u) =>
          SameCodeInOrder(ts, s, s.(backPatch := s.backPatch + [s.index]));
          EmitInOrder(ts, s.(backPatch := s.backPatch + [s.index]), u, false);
        case _ => SameCodeInOrder(ts, s, Record(s, t.line));
      }
      LaterInOrder(ts, Apply(s, outcome, t.line), s'.pos);
    } else {
      SameCodeInOrder(ts, s, s');
    }
  }

  lemma {:induction false} TextDirectiveInOrder(ts: seq<Token>, s: State, o: Options)
    requires CodeInOrder(ts, s) && SortedLines(ts) && s.pos <= |ts|
    ensures CodeInOrder(ts, TextDirective(ts, s, o))
    decreases |ts| - s.pos
  {
    hide CodeInOrder, SortedLines, TextStep;
    if !Current(ts, s).lexeme.Directive? && !Current(ts, s).lexeme.Eof? {
      TextStepInOrder(ts, s, o);
      TextDirectiveInOrder(ts, TextStep(ts, s, o), o);
    }
  }

  lemma {:induction false} SecondPassInOrder(ts: seq<Token>, s: State, o: Options)
    requires CodeInOrder(ts, s) && SortedLines(ts) && s.pos <= |ts|
    ensures CodeInOrder(ts, SecondPass(ts, s, o))
    decreases |ts| - s.pos
  {
    hide CodeInOrder, SortedLines, TextDirective, SkipTo, Spells;
    if !Current(ts, s).lexeme.Eof? {
      var s' := SecondStep(ts, s, o);
      if IsDirective(Current(ts, s), KwText) {
        LaterInOrder(ts, s, s.pos + 1);
        TextDirectiveInOrder(ts, Next(s), o);
      } else {
        TextDirectiveInOrder(ts, s, o);
      }
      if s'.code == s.code { SameCodeInOrder(ts, s, s'); }
      SecondPassInOrder(ts, s', o);
    }
  }

  /** Back-patching keeps every unit's line. */
  lemma {:induction false} PatchKeepsLines(s: State, indices: seq<nat>)
    requires forall i | 0 <= i < |indices| :: indices[i] < |s.code|
    ensures var t := PatchAll(s, indices); forall k | 0 <= k < |s.code| :: t.code[k].0.line == s.code[k].0.line
    decreases |indices|
  {
    hide Offset, InReach;
    if indices != [] { PatchKeepsLines(s, indices[..|indices| - 1]); }
  }

  /** From source lines in order, the parser's instructions are in line order. */
  lemma CodeLinesInOrder(ts: seq<Token>, o: Options)
    requires Terminates(ts) && SortedLines(ts)
    ensures InOrder(UnitLines(Parse(ts, o).code))
  {
    hide FirstPass, SecondPass, PatchAll, SortedLines, Terminates;
    FirstPassOnly(ts, INITIAL);
    SecondPassInOrder(ts, FirstPass(ts, INITIAL).(pos := 0, index := 0), o);
    PatchKeepsLines(Unpatched(ts, o), Unpatched(ts, o).backPatch);
  }

  /** A breakpoint set on a source line of an assembled program is the address of the first instruction at or after
      that line, modulo 2^32; lines after the last instruction have none. */
  lemma SourceBreakpoint(ts: seq<Token>, o: Options, p: VmBase.Program, value: U64)
    requires Terminates(ts) && SortedLines(ts) && Translates(p, Parse(ts, o)) && |p.text| < 0x4000_0000
    ensures var lines, line := UnitLines(Parse(ts, o).code), Wrap32(value);
      match VmBase.Named(p.lineMap, value, true)
      case None => line == 0 || forall k | 0 <= k < |lines| :: lines[k] < line
      case Some(address) => address % 4 == 0 && FirstFrom(lines, line, address / 4)
  {
    CodeLinesInOrder(ts, o);
    var lines := UnitLines(Parse(ts, o).code);
    hide Parse, Terminates, UnitLines, Inverted, VmBase.Named, FirstFrom, Wrap32;
    LineBreakpoint(lines, value);
    AfterLast(lines, Wrap32(value));
  }

  lemma AfterLast(lines: seq<nat>, line: nat)
    requires InOrder(lines)
    ensures line >= NextLine(lines) ==> forall k | 0 <= k < |lines| :: lines[k] < line
  {
    assert forall k | 0 <= k < |lines| :: lines[k] <= lines[|lines| - 1];
  }
}
