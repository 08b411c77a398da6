/** The parser as an object that moves over its tokens (src/assembler/parser.cpp, include/assembler/parser.h). */
module Parser {
  import opened Words
  import opened Wrappers
  import opened Instructions
  import opened Tokens
  import opened CodeGenerator
  import opened ParseFormats
  import opened ParserSpec
  import opened ParserProof

  class Parser {
    const tokens: seq<Token>
    const options: Options

    var pos: nat
    var instructionIndex: nat
    var errors: seq<nat>
    var dataBuffer: seq<Datum>
    var dataIndex: U64
    var symbolTable: SymbolTable
    var backPatch: seq<nat>
    var intermediateCode: seq<(ICUnit, bool)>
    var lineMapping: map<nat, nat>
    ghost var marks: map<Name, nat>

    ghost function State(): State
      reads this
    {
      ParserSpec.State(pos, instructionIndex, errors, dataBuffer, dataIndex, symbolTable, backPatch, intermediateCode,
                       lineMapping, marks)
    }

    constructor (tokens: seq<Token>, options: Options)
      ensures this.tokens == tokens && this.options == options && State() == INITIAL
    {
      this.tokens, this.options := tokens, options;
      pos, instructionIndex, errors, dataBuffer, dataIndex := 0, 0, [], [], 0;
      symbolTable, backPatch, intermediateCode, lineMapping, marks := map[], [], [], map[], map[];
    }

    function CurrentToken(): Token
      reads this
    {
      Peek(tokens, pos)
    }

    method NextToken()
      requires pos < |tokens|
      modifies this`pos
      ensures State() == Next(old(State()))
    {
      pos := pos + 1;
    }

    method RecordError(line: nat)
      modifies this`errors
      ensures State() == Record(old(State()), line)
    {
      errors := errors + [line];
    }

    method SkipCurrentLine()
      requires pos <= |tokens|
      modifies this`pos
      ensures pos == SkipLine(tokens, old(pos), old(CurrentToken()).line)
    {
      var line := CurrentToken().line;
      while CurrentToken().line == line && !CurrentToken().lexeme.Eof?
        invariant pos <= |tokens| && SkipLine(tokens, pos, line) == SkipLine(tokens, old(pos), line)
        decreases |tokens| - pos
      {
        NextToken();
      }
    }

    // ----- data section -----

    method Align(alignment: nat)
      requires alignment > 0
      modifies this`dataIndex
      ensures dataIndex == AlignIndex(old(dataIndex), alignment)
    {
      if dataIndex % alignment != 0 { dataIndex := Wrap64(dataIndex + (alignment - dataIndex % alignment)); }
    }

    method EmplaceDatum(d: Datum)
      modifies this`dataBuffer, this`dataIndex
      ensures State() == Append(old(State()), d)
    {
      Align(Alignment(d));
      dataBuffer := dataBuffer + [d];
      dataIndex := Wrap64(dataIndex + Size(d));
    }

    /** One operand of a data directive. */
    method EmplaceOperand(k: DataKind)
      requires IsOperand(k, CurrentToken())
      modifies this`dataBuffer, this`dataIndex, this`errors
      ensures State() == Operand(old(State()), k, old(CurrentToken()))
    {
      hide Append;
      var ds := DataOf(k, CurrentToken());
      if ds == [] {
        RecordError(CurrentToken().line);
      } else {
        for i := 0 to |ds|
          invariant State() == AppendAll(old(State()), ds[..i])
        {
          EmplaceDatum(ds[i]);
          assert ds[..i + 1][..i] == ds[..i];
        }
        assert ds[..|ds|] == ds;
      }
    }

    method ParseOperands(k: DataKind)
      requires pos <= |tokens|
      modifies this`pos, this`dataBuffer, this`dataIndex, this`errors
      ensures State() == OperandList(tokens, old(State()), k) && pos <= |tokens|
    {
      hide Operand;
      while CurrentToken().lexeme.Comma? || IsOperand(k, CurrentToken())
        invariant pos <= |tokens| && OperandList(tokens, State(), k) == OperandList(tokens, old(State()), k)
        decreases |tokens| - pos
      {
        if !CurrentToken().lexeme.Comma? { EmplaceOperand(k); }
        NextToken();
      }
    }

    method ParseDataLabel()
      requires pos < |tokens| && tokens[pos].lexeme.Label?
      modifies this`pos, this`dataIndex, this`errors, this`symbolTable, this`marks
      ensures State() == DataLabel(tokens, old(State()), tokens[old(pos)].lexeme.name)
    {
      hide KindOf, AlignIndex;
      var t, k := CurrentToken(), KindOf(Peek(tokens, pos + 1));
      if k.Some? { Align(KindAlignment(k.value)); } else { RecordError(t.line); }
      symbolTable := symbolTable[t.lexeme.name := Symbol(dataIndex, t.line, true)];
      marks := marks[t.lexeme.name := |dataBuffer|];
      NextToken();
    }

    method ParseDataDirective()
      requires pos <= |tokens|
      modifies this`pos, this`dataBuffer, this`dataIndex, this`errors, this`symbolTable, this`marks
      ensures State() == DataDirective(tokens, old(State())) && pos <= |tokens|
    {
      hide KindOf, OperandList, DataLabel, EndsSection;
      while !EndsSection(CurrentToken())
        invariant pos <= |tokens| && DataDirective(tokens, State()) == DataDirective(tokens, old(State()))
        decreases |tokens| - pos
      {
        EndsAtEnd(pos);
        var t := CurrentToken();
        if t.lexeme.Label? {
          ParseDataLabel();
          continue;
        }
        if KindOf(t).Some? {
          NextToken();
          ParseOperands(KindOf(t).value);
        } else {
          RecordError(t.line);
          NextToken();
        }
      }
    }

    lemma EndsAtEnd(i: nat)
      ensures !EndsSection(Peek(tokens, i)) ==> i < |tokens|
    {}

    method SkipTokens(k: Skip)
      requires pos <= |tokens|
      modifies this`pos
      ensures pos == SkipTo(tokens, k, old(pos))
    {
      while !StopsSkip(k, CurrentToken())
        invariant pos <= |tokens| && SkipTo(tokens, k, pos) == SkipTo(tokens, k, old(pos))
        decreases |tokens| - pos
      {
        NextToken();
      }
    }

    // ----- text section -----

    method EmplaceUnit(unit: ICUnit, resolved: bool)
      modifies this`intermediateCode, this`lineMapping, this`instructionIndex
      ensures State() == Emit(old(State()), unit, resolved)
    {
      intermediateCode := intermediateCode + [(unit, resolved)];
      lineMapping := lineMapping[instructionIndex := unit.line];
      instructionIndex := instructionIndex + 1;
    }

    /** Tries the formats of an opcode in order. */
    method ParseInstruction(op: Op)
      requires pos < |tokens| && tokens[pos].lexeme == Opcode(op)
      modifies this`intermediateCode, this`lineMapping, this`instructionIndex, this`backPatch, this`errors
      ensures State() == Apply(old(State()), Assembled(tokens, old(State()), op, options), tokens[pos].line)
    {
      hide Format, Syntaxes, Emit;
      var line := CurrentToken().line;
      var unit, rest := Unit(op, line), RestOfLine(tokens, pos + 1, line);
      var syntaxes, outcome, n := Syntaxes(op), NoMatch, 0;
      while n < |syntaxes| && outcome.NoMatch?
        invariant n <= |syntaxes|
        invariant FirstMatch(syntaxes, unit, rest, instructionIndex, symbolTable, options)
          == if outcome.NoMatch? then FirstMatch(syntaxes[n..], unit, rest, instructionIndex, symbolTable, options)
            else outcome
      {
        outcome := Format(syntaxes[n], unit, rest, instructionIndex, symbolTable, options);
        n := n + 1;
      }
      match outcome
      case Emitted(units) =>
        for i := 0 to |units|
          invariant State() == EmitAll(old(State()), units[..i])
        {
          EmplaceUnit(units[i], true);
          assert units[..i + 1][..i] == units[..i];
        }
        assert units[..|units|] == units;
      case Deferred(unit) =>
        backPatch := backPatch + [instructionIndex];
        EmplaceUnit(unit, false);
      case _ =>
        RecordError(line);
    }

    method ParseTextDirective()
      requires pos <= |tokens|
      modifies this`pos, this`intermediateCode, this`lineMapping, this`instructionIndex, this`backPatch, this`errors,
        this`symbolTable, this`marks
      ensures State() == TextDirective(tokens, old(State()), options) && pos <= |tokens|
    {
      hide Apply, Assembled, SkipLine, Enabled, TextAddress;
      while !CurrentToken().lexeme.Directive? && !CurrentToken().lexeme.Eof?
        invariant pos <= |tokens|
          && TextDirective(tokens, State(), options) == TextDirective(tokens, old(State()), options)
        decreases |tokens| - pos
      {
        var t := CurrentToken();
        if t.lexeme.Label? {
          if t.lexeme.name in symbolTable {
            RecordError(t.line);
            NextToken();
            continue;
          }
          symbolTable := symbolTable[t.lexeme.name := Symbol(TextAddress(instructionIndex), t.line, false)];
          marks := marks[t.lexeme.name := instructionIndex];
          NextToken();
        } else {
          if t.lexeme.Opcode? && Enabled(t.lexeme.op, options) {
            ParseInstruction(t.lexeme.op);
          } else {
            RecordError(t.line);
          }
          SkipCurrentLine();
        }
      }
    }

    // ----- labels -----

    method PatchUnit(index: nat)
      requires index < |intermediateCode|
      modifies this`intermediateCode, this`errors
      ensures State() == Patch(old(State()), index)
    {
      hide Offset, InReach;
      var unit := intermediateCode[index].0;
      if unit.target.None? || unit.target.value !in symbolTable {
        RecordError(unit.line);
        return;
      }
      var symbol := symbolTable[unit.target.value];
      var offset := Offset(symbol.address, index);
      if unit.op.B? && symbol.isData {
        RecordError(unit.line);
      } else if InReach(unit.op, offset) {
        unit := unit.(imm := Some(offset));
      } else {
        RecordError(unit.line);
        return;
      }
      intermediateCode := intermediateCode[index := (unit, true)];
    }

    method PatchLabels()
      requires forall i | 0 <= i < |backPatch| :: backPatch[i] < |intermediateCode|
      modifies this`intermediateCode, this`errors
      ensures State() == PatchAll(old(State()), backPatch)
    {
      hide Patch;
      for n := 0 to |backPatch|
        invariant State() == PatchAll(old(State()), backPatch[..n])
      {
        assert backPatch[..n + 1][..n] == backPatch[..n];
        PatchUnit(backPatch[n]);
      }
      assert backPatch[..|backPatch|] == backPatch;
    }

    method FirstPass()
      requires pos <= |tokens| && Terminates(tokens) && Live(tokens, pos)
      modifies this`pos, this`dataBuffer, this`dataIndex, this`errors, this`symbolTable, this`marks
      ensures State() == ParserSpec.FirstPass(tokens, old(State()))
    {
      hide DataDirective, SkipTo, Spells;
      while !CurrentToken().lexeme.Eof?
        invariant pos <= |tokens| && Live(tokens, pos)
        invariant ParserSpec.FirstPass(tokens, State()) == ParserSpec.FirstPass(tokens, old(State()))
        decreases |tokens| - pos
      {
        ghost var s := State();
        FirstStepLives(tokens, s);
        var t := CurrentToken();
        if IsDirective(t, KwSection) {
          NextToken();
        } else if IsDirective(t, KwData) {
          NextToken();
          ParseDataDirective();
        } else if IsDirective(t, KwBss) {
          NextToken();
          SkipTokens(SkipBss);
        } else if IsDirective(t, KwText) || t.lexeme.Label? || t.lexeme.Opcode? {
          SkipTokens(SkipText);
        } else {
          RecordError(t.line);
          NextToken();
        }
        assert State() == FirstStep(tokens, s);
      }
    }

    method SecondPass()
      requires pos <= |tokens|
      modifies this`pos, this`intermediateCode, this`lineMapping, this`instructionIndex, this`backPatch, this`errors,
        this`symbolTable, this`marks
      ensures State() == ParserSpec.SecondPass(tokens, old(State()), options)
    {
      hide TextDirective, SkipTo, Spells;
      while !CurrentToken().lexeme.Eof?
        invariant pos <= |tokens|
        invariant ParserSpec.SecondPass(tokens, State(), options)
          == ParserSpec.SecondPass(tokens, old(State()), options)
        decreases |tokens| - pos
      {
        ghost var s := State();
        var t := CurrentToken();
        if IsDirective(t, KwSection) {
          NextToken();
        } else if IsDirective(t, KwData) || IsDirective(t, KwBss) {
          SkipTokens(SkipData);
        } else if IsDirective(t, KwText) {
          NextToken();
          ParseTextDirective();
        } else if t.lexeme.Label? || t.lexeme.Opcode? {
          ParseTextDirective();
        } else {
          RecordError(t.line);
          NextToken();
        }
        assert State() == SecondStep(tokens, s, options);
      }
    }

    /** Both passes, then the labels that were not known when they were used. */
    method Parse()
      requires State() == INITIAL && Terminates(tokens)
      modifies this
      ensures State() == ParserProof.Parse(tokens, options)
    {
      hide ParserSpec.FirstPass, ParserSpec.SecondPass, PatchAll, Terminates;
      FirstPass();
      pos, instructionIndex := 0, 0;
      SecondPass();
      assert State() == Unpatched(tokens, options);
      PatchLabels();
    }
  }
}
