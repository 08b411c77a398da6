/** Assembling: parse, generate machine code, and invert the line mapping (src/assembler/assembler.cpp). */
module Assembler {
  import opened Words
  import opened Wrappers
  import opened Tokens
  import opened CodeGenerator
  import opened ParseFormats
  import opened ParserSpec
  import opened ParserProof
  import Parser
  import opened VmBase

  // ----- lines to instructions -----

  /** The line after that of the last instruction so far; lines count from 1. */
  function NextLine(lines: seq<nat>): nat { if lines == [] then 1 else lines[|lines| - 1] + 1 }

  /** `m` with the lines from `from` up to, not including, `end` sent to `v`. */
  function Fill(m: map<nat, nat>, from: nat, end: nat, v: nat): map<nat, nat>
    decreases end
  {
    if end <= from then m else Fill(m, from, end - 1, v)[end - 1 := v]
  }

  /** The line map of the instructions whose lines are `lines`. */
  function Inverted(lines: seq<nat>): map<nat, nat>
    decreases |lines|
  {
    if lines == [] then map[]
    else
      var init := lines[..|lines| - 1];
      Fill(Inverted(init), NextLine(init), lines[|lines| - 1] + 1, |init|)
  }

  method InvertLineMap(lines: seq<nat>) returns (m: map<nat, nat>)
    ensures m == Inverted(lines)
  {
    hide Fill;
    m := map[];
    var prevInstruction: nat, prevLine: nat := 0, 1;
    for k := 0 to |lines|
      invariant prevInstruction == k && prevLine == NextLine(lines[..k]) && m == Inverted(lines[..k])
    {
      assert lines[..k + 1][..k] == lines[..k];
      m := FillLines(m, prevLine, lines[k], prevInstruction);
      prevInstruction := prevInstruction + 1;
      prevLine := lines[k] + 1;
    }
    assert lines[..|lines|] == lines;
  }

  method FillLines(before: map<nat, nat>, from: nat, to: nat, v: nat) returns (m: map<nat, nat>)
    ensures m == Fill(before, from, to + 1, v)
  {
    m := before;
    var i := from;
    SameFill(before, from, to + 1, v);
    while i <= to
      invariant from <= i && (i <= to + 1 || (i == from && to < from))
      invariant m == Fill(before, from, i, v)
    {
      m := m[i := v];
      i := i + 1;
    }
  }

  lemma SameFill(m: map<nat, nat>, from: nat, end: nat, v: nat)
    ensures end <= from ==> Fill(m, from, end, v) == Fill(m, from, from, v)
  {}

  lemma {:induction false} FillAt(m: map<nat, nat>, from: nat, end: nat, v: nat, l: nat)
    ensures l in Fill(m, from, end, v) <==> l in m || from <= l < end
    ensures l in Fill(m, from, end, v) ==> Fill(m, from, end, v)[l] == (if from <= l < end then v else m[l])
    decreases end
  {
    if end > from { FillAt(m, from, end - 1, v, l); }
  }

  predicate InOrder(lines: seq<nat>) { forall j, k | 0 <= j < k < |lines| :: lines[j] <= lines[k] }

  /** For instructions in line order, a line maps to the first instruction at or after it: the line map is adjoint
      to the instructions' lines, and defined up to the last one. */
  lemma {:induction false} LineMapIsAdjoint(lines: seq<nat>, l: nat)
    requires InOrder(lines)
    ensures l in Inverted(lines) <==> 1 <= l < NextLine(lines)
    ensures l in Inverted(lines) ==> Inverted(lines)[l] < |lines|
    ensures l in Inverted(lines) ==> forall k | 0 <= k < |lines| :: Inverted(lines)[l] <= k <==> l <= lines[k]
    decreases |lines|
  {
    hide Fill;
    if lines != [] {
      var init: seq<nat> := lines[..|lines| - 1];
      LineMapIsAdjoint(init, l);
      FillAt(Inverted(init), NextLine(init), lines[|lines| - 1] + 1, |init|, l);
      forall k | l in Inverted(lines) && 0 <= k < |lines| ensures Inverted(lines)[l] <= k <==> l <= lines[k] {
        if k < |init| { assert init[k] == lines[k]; }
      }
    }
  }

  /** Instruction `k` is the first at or after the line. */
  predicate FirstFrom(lines: seq<nat>, line: nat, k: nat) {
    k < |lines| && line <= lines[k] && forall j | 0 <= j < k :: lines[j] < line
  }

  /** A breakpoint on a line is the address of the first instruction at or after that line, modulo 2^32. */
  lemma LineBreakpoint(lines: seq<nat>, value: U64)
    requires InOrder(lines) && |lines| < 0x4000_0000
    ensures var line := Wrap32(value);
      match Named(Inverted(lines), value, true)
      case None => line == 0 || line >= NextLine(lines)
      case Some(address) => 1 <= line < NextLine(lines) && address % 4 == 0 && FirstFrom(lines, line, address / 4)
  {
    var line := Wrap32(value);
    LineMapIsAdjoint(lines, line);
    hide Inverted, NextLine, InOrder, Wrap32;
    if line in Inverted(lines) {
      var k := Inverted(lines)[line];
      assert FirstFrom(lines, line, k);
      SmallTextAddress(k);
    }
  }

  lemma SmallTextAddress(k: nat)
    requires k < 0x4000_0000
    ensures Wrap32(4 * k) == 4 * k && 4 * k % 4 == 0 && 4 * k / 4 == k
  {}

  // ----- assembling -----

  predicate IsFence(u: ICUnit) { u.op.Fence? || u.op.FenceI? }

  function UnitLines(code: seq<(ICUnit, bool)>): (lines: seq<nat>)
    ensures |lines| == |code| && forall i | 0 <= i < |code| :: lines[i] == code[i].0.line
  {
    seq(|code|, i requires 0 <= i < |code| => code[i].0.line)
  }

  lemma SettledUnits(code: seq<(ICUnit, bool)>, symbols: SymbolTable)
    requires forall i | 0 <= i < |code| :: code[i].1 && Settled(code[i].0, i, symbols)
    ensures (forall i | 0 <= i < |code| :: Generable(code[i].0))
      <==> (forall i | 0 <= i < |code| :: !IsFence(code[i].0))
  {
    forall i | 0 <= i < |code|
      ensures Generable(code[i].0) <==> !IsFence(code[i].0)
    {
      SettledUnit(code[i].0, i, symbols);
    }
  }

  lemma SettledUnit(u: ICUnit, i: nat, symbols: SymbolTable)
    requires Settled(u, i, symbols)
    ensures Generable(u) <==> !IsFence(u)
  {
    hide Resolved, WellFormed;
  }

  lemma RecordedLines(s: State, lines: seq<nat>)
    requires LinesRecorded(s) && |lines| == s.index && forall i | 0 <= i < s.index ::
      i in s.lines && lines[i] == s.lines[i]
    ensures lines == UnitLines(s.code)
  {}

  lemma Mapped(tokens: seq<Token>, options: Options)
    requires Terminates(tokens)
    ensures var s := Parse(tokens, options); s.errors == [] ==> forall i | 0 <= i < s.index :: i in s.lines
  {
    hide ParserProof.Parse, Settled, Terminates;
    if Parse(tokens, options).errors == [] { CleanParse(tokens, options); }
  }

  /** `assemble`. It throws if the parse has errors, and on a program with a fence, for which the generator has no
      encoding. */
  method Assemble(tokens: seq<Token>, options: Options) returns (r: Result<Program>)
    requires Terminates(tokens)
    ensures var s := Parse(tokens, options);
      && (r.Ok? <==> s.errors == [] && forall i | 0 <= i < |s.code| :: !IsFence(s.code[i].0))
      && (r.Ok? ==> Translates(r.value, s))
  {
    hide ParserProof.Parse, Settled, Generable, IsFence, LabelsPlaced, LinesRecorded, Terminates, Inverted, UnitLines,
      Generate, Instruction;
    Mapped(tokens, options);
    var parser := new Parser.Parser(tokens, options);
    parser.Parse();
    if parser.errors != [] { return Thrown; }
    CleanParse(tokens, options);
    ghost var s := Parse(tokens, options);
    SettledUnits(s.code, s.symbols);
    var text := GenerateMachineCode(parser.intermediateCode);
    if text.Thrown? { return Thrown; }
    var lineMapping, count := parser.lineMapping, parser.instructionIndex;
    var lines := seq(count, i requires 0 <= i < count && i in lineMapping => lineMapping[i]);
    RecordedLines(s, lines);
    var lineMap := InvertLineMap(lines);
    r := Ok(Program(text.value, parser.dataBuffer, lineMap));
  }

  /** The program that a state's code and data make: one word per unit. */
  predicate Translates(p: Program, s: State) {
    && p.data == s.data && p.lineMap == Inverted(UnitLines(s.code))
    && |p.text| == |s.code|
    && forall i | 0 <= i < |s.code| :: Generable(s.code[i].0) && p.text[i] == Generate(Instruction(s.code[i].0).value)
  }
}
