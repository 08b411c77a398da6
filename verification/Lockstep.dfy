/** The two data layouts agree: a label's recorded address is where the loader puts the first datum after it. */
module Lockstep {
  import opened Words
  import opened Wrappers
  import opened Tokens
  import opened ParseFormats
  import opened ParserSpec
  import opened DataLayout
  import opened ParserProof

  /** The first operand from `pos` on, after any commas, contributes data. */
  predicate HasDatum(ts: seq<Token>, pos: nat, k: DataKind)
    decreases |ts| - pos
  {
    if pos < |ts| && ts[pos].lexeme.Comma? then HasDatum(ts, pos + 1, k)
    else IsOperand(k, Peek(ts, pos)) && DataOf(k, Peek(ts, pos)) != []
  }

  /** Every labelled directive has at least one datum. */
  predicate LabelledData(ts: seq<Token>) {
    forall i | 0 <= i < |ts| && ts[i].lexeme.Label? && KindOf(Peek(ts, i + 1)).Some? ::
      !ts[i + 1].lexeme.Label? && HasDatum(ts, i + 2, KindOf(ts[i + 1]).value)
  }

  /** The token before `pos` is a label and the one at `pos` names the directive it aligned for. */
  predicate AfterLabel(ts: seq<Token>, pos: nat) {
    0 < pos < |ts| && ts[pos - 1].lexeme.Label? && KindOf(ts[pos]).Some?
  }

  function Pending(ts: seq<Token>, pos: nat): (a: nat)
    ensures a in {1, 2, 4, 8}
  {
    if AfterLabel(ts, pos) then KindAlignment(KindOf(ts[pos]).value) else 1
  }

  /** The parser's index is a replay of the data buffer with an alignment pending. */
  predicate Agree(s: State, a: nat)
    requires a > 0
  {
    s.dataIndex == AlignIndex(Index(s.data), a)
  }

  predicate LabelPlaced(ts: seq<Token>, s: State, n: Name)
    requires n in s.symbols && n in s.marks
  {
    var address := s.symbols[n].address;
    if s.marks[n] < |s.data| then address == IndexOf(s.data, s.marks[n])
    else s.marks[n] == |s.data| && AfterLabel(ts, s.pos) && address == AlignIndex(Index(s.data), Pending(ts, s.pos))
  }

  /** The data section so far: the layouts in step, and every label in place. */
  predicate DataInv(ts: seq<Token>, s: State) {
    && Agree(s, Pending(ts, s.pos))
    && (forall n <- s.symbols :: n in s.marks)
    && (s.errors == [] ==> forall n <- s.symbols :: LabelPlaced(ts, s, n))
  }

  // ----- data -----

  lemma IndexAppend(ds: seq<Datum>, d: Datum)
    ensures Index(ds + [d]) == Wrap64(AlignIndex(Index(ds), Alignment(d)) + Size(d))
  {
    assert (ds + [d])[..|ds|] == ds;
  }

  lemma AppendAgrees(s: State, d: Datum, a: nat)
    requires (a == 1 || a == Alignment(d)) && Agree(s, a)
    ensures Agree(Append(s, d), 1)
  {
    hide Wrap64, AlignIndex, Index, Size, Alignment;
    IndexAppend(s.data, d);
    AlignAgain(Index(s.data), Alignment(d));
    AlignOne(Index(s.data));
    AlignOne(Index(s.data + [d]));
  }

  lemma AlignOne(x: U64)
    ensures AlignIndex(x, 1) == x
  {}

  lemma {:induction false} AppendAllAgrees(s: State, ds: seq<Datum>, a: nat)
    requires ds != [] && a > 0 && (forall d <- ds :: a == 1 || a == Alignment(d)) && Agree(s, a)
    ensures Agree(AppendAll(s, ds), 1) && AppendAll(s, ds).data == s.data + ds
    decreases |ds|
  {
    hide Agree;
    var n := |ds| - 1;
    var init: seq<Datum> := ds[..n];
    assert ds == init + [ds[n]];
    if init == [] { AppendAgrees(s, ds[n], a); }
    else {
      AppendAllAgrees(s, init, a);
      AppendAgrees(AppendAll(s, init), ds[n], 1);
    }
  }

  lemma OperandAlignment(k: DataKind, t: Token)
    requires IsOperand(k, t)
    ensures forall d <- DataOf(k, t) :: Alignment(d) == KindAlignment(k)
  {}

  /** What an operand list leaves behind. */
  predicate Grows(s: State, s': State, a: nat) {
    && s' == s.(pos := s'.pos, errors := s'.errors, data := s'.data, dataIndex := s'.dataIndex)
    && |s.errors| <= |s'.errors|
    && |s.data| <= |s'.data| && s'.data[..|s.data|] == s.data
    && (|s.data| < |s'.data| ==> Alignment(s'.data[|s.data|]) == a)
  }

  lemma OperandGrows(s: State, k: DataKind, t: Token, a: nat)
    requires IsOperand(k, t) && a in {1, KindAlignment(k)} && Agree(s, a)
    ensures Grows(s, Operand(s, k, t), KindAlignment(k))
    ensures var s' := Operand(s, k, t); if DataOf(k, t) == [] then Agree(s', a) && s'.data == s.data
      else Agree(s', 1) && |s'.data| > |s.data|
  {
    hide DataOf, KindAlignment, Alignment, IsOperand, Append, Index;
    OperandAlignment(k, t);
    if DataOf(k, t) != [] { AppendAllAgrees(s, DataOf(k, t), a); }
  }

  lemma GrowsTransitive(s: State, s1: State, s2: State, a: nat)
    requires Grows(s, s1, a) && Grows(s1, s2, a)
    ensures Grows(s, s2, a)
  {
    assert s2.data[..|s.data|] == s2.data[..|s1.data|][..|s.data|];
    assert |s.data| < |s1.data| ==> s2.data[..|s1.data|][|s.data|] == s1.data[|s.data|];
  }

  lemma {:induction false} OperandsAgree(ts: seq<Token>, s: State, k: DataKind, a: nat)
    requires s.pos <= |ts| && a in {1, KindAlignment(k)} && Agree(s, a)
    ensures var s' := OperandList(ts, s, k);
      Grows(s, s', KindAlignment(k)) && (a == 1 || HasDatum(ts, s.pos, k) ==> Agree(s', 1))
      && (HasDatum(ts, s.pos, k) ==> |s'.data| > |s.data|)
    decreases |ts| - s.pos
  {
    hide DataOf, KindAlignment, Operand, Agree, Alignment;
    var t := Current(ts, s);
    if t.lexeme.Comma? {
      SamePlace(s, a);
      OperandsAgree(ts, Next(s), k, a);
    } else if IsOperand(k, t) && s.pos < |ts| {
      OperandGrows(s, k, t, a);
      var s1, b := Operand(s, k, t), if DataOf(k, t) == [] then a else 1;
      SamePlace(s1, b);
      OperandsAgree(ts, Next(s1), k, b);
      GrowsTransitive(s, s1, OperandList(ts, Next(s1), k), KindAlignment(k));
    }
  }

  lemma SamePlace(s: State, a: nat)
    requires a > 0
    ensures Agree(Next(s), a) == Agree(s, a)
  {}

  // ----- the data section -----

  lemma PlacedStays(s: State, s': State, k: nat, a: nat)
    requires Grows(s, s', a) && k < |s.data|
    ensures IndexOf(s'.data, k) == IndexOf(s.data, k)
  {
    assert s'.data[..k] == s'.data[..|s.data|][..k];
    assert s'.data[k] == s'.data[..|s.data|][k];
  }

  /** A label seen in step is placed where its directive's first datum will go. */
  lemma LabelKeeps(ts: seq<Token>, s: State)
    requires DataInv(ts, s) && LabelledData(ts) && s.pos < |ts| && ts[s.pos].lexeme.Label?
    ensures DataInv(ts, DataLabel(ts, s, ts[s.pos].lexeme.name))
  {
    hide KindOf, KindAlignment, HasDatum, Index, AlignIndex;
    var s' := DataLabel(ts, s, ts[s.pos].lexeme.name);
    assert Pending(ts, s.pos) == 1;
    AlignOne(Index(s.data));
    var k := KindOf(Peek(ts, s.pos + 1));
    assert AfterLabel(ts, s'.pos) <==> k.Some? by { KindEnds(ts, s.pos + 1); }
  }

  lemma KindEnds(ts: seq<Token>, pos: nat)
    ensures KindOf(Peek(ts, pos)).Some? ==> pos < |ts|
  {}

  /** A directive brings the layouts back in step and places the labels before it. */
  lemma OperandsKeep(ts: seq<Token>, s: State, k: DataKind)
    requires DataInv(ts, s) && LabelledData(ts) && s.pos < |ts| && !ts[s.pos].lexeme.Label?
      && KindOf(ts[s.pos]) == Some(k)
    ensures DataInv(ts, OperandList(ts, Next(s), k))
  {
    hide KindOf, KindAlignment, HasDatum, Index, AlignIndex, Alignment, OperandList, Agree;
    var a, s' := Pending(ts, s.pos), OperandList(ts, Next(s), k);
    SamePlace(s, a);
    OperandsAgree(ts, Next(s), k, a);
    assert AfterLabel(ts, s.pos) ==> HasDatum(ts, s.pos + 1, k) by {
      assert AfterLabel(ts, s.pos) ==> ts[s.pos - 1].lexeme.Label? && KindOf(Peek(ts, s.pos - 1 + 1)).Some?;
    }
    NotAfterLabel(ts, Next(s), k);
    if s'.errors == [] {
      forall n <- s'.symbols ensures LabelPlaced(ts, s', n) {
        assert LabelPlaced(ts, s, n);
        if s.marks[n] < |s.data| { PlacedStays(Next(s), s', s.marks[n], KindAlignment(k)); }
        else { assert s'.data[..|s.data|] == s.data; }
      }
    }
  }

  /** An operand list does not end just after a label. */
  lemma {:induction false} NotAfterLabel(ts: seq<Token>, s: State, k: DataKind)
    requires 0 < s.pos <= |ts| && !ts[s.pos - 1].lexeme.Label?
    ensures !AfterLabel(ts, OperandList(ts, s, k).pos)
    decreases |ts| - s.pos
  {
    hide KindOf, Operand;
    var t := Current(ts, s);
    if t.lexeme.Comma? { NotAfterLabel(ts, Next(s), k); }
    else if IsOperand(k, t) && s.pos < |ts| { NotAfterLabel(ts, Next(Operand(s, k, t)), k); }
  }

  lemma MoveInv(ts: seq<Token>, s: State, pos: nat, line: nat)
    requires DataInv(ts, s) && !AfterLabel(ts, s.pos) && !AfterLabel(ts, pos)
    ensures DataInv(ts, s.(pos := pos)) && DataInv(ts, Record(s, line).(pos := pos))
  {
    hide KindOf, KindAlignment, Index, AlignIndex, IndexOf;
  }

  lemma DataStepKeeps(ts: seq<Token>, s: State)
    requires DataInv(ts, s) && LabelledData(ts) && s.pos < |ts|
    ensures DataInv(ts, DataStep(ts, s))
  {
    hide DataInv, KindOf, LabelledData, DataLabel, OperandList;
    var t := Current(ts, s);
    if t.lexeme.Label? { LabelKeeps(ts, s); }
    else if KindOf(t).Some? { OperandsKeep(ts, s, KindOf(t).value); }
    else { MoveInv(ts, s, s.pos + 1, t.line); }
  }

  lemma {:induction false} DataDirectiveKeeps(ts: seq<Token>, s: State)
    requires DataInv(ts, s) && LabelledData(ts) && s.pos <= |ts|
    ensures DataInv(ts, DataDirective(ts, s)) && EndsSection(Current(ts, DataDirective(ts, s)))
    decreases |ts| - s.pos
  {
    hide DataInv, LabelledData, DataStep;
    if !EndsSection(Current(ts, s)) {
      DataStepKeeps(ts, s);
      DataDirectiveKeeps(ts, DataStep(ts, s));
    }
  }

  // ----- the first pass -----

  lemma StopsAreNoKinds(t: Token, k: Skip)
    requires k != SkipData && StopsSkip(k, t)
    ensures KindOf(t).None?
  {}

  lemma FirstStepKeeps(ts: seq<Token>, s: State)
    requires DataInv(ts, s) && LabelledData(ts) && s.pos < |ts| && !AfterLabel(ts, s.pos)
    ensures DataInv(ts, FirstStep(ts, s)) && !AfterLabel(ts, FirstStep(ts, s).pos)
  {
    hide DataInv, LabelledData, KindOf, DataDirective, Spells, StopsSkip;
    var t, s' := Current(ts, s), FirstStep(ts, s);
    if IsDirective(t, KwData) {
      MoveInv(ts, s, s.pos + 1, 0);
      DataDirectiveKeeps(ts, Next(s));
      SectionEnds(Current(ts, s'));
    } else if IsDirective(t, KwBss) {
      StopsAreNoKinds(Peek(ts, s'.pos), SkipBss);
      MoveInv(ts, s, s'.pos, 0);
    } else if IsDirective(t, KwText) || t.lexeme.Label? || t.lexeme.Opcode? {
      StopsAreNoKinds(Peek(ts, s'.pos), SkipText);
      MoveInv(ts, s, s'.pos, 0);
    } else {
      MoveInv(ts, s, s.pos + 1, t.line);
    }
  }

  lemma SectionEnds(t: Token)
    requires EndsSection(t)
    ensures KindOf(t).None?
  {
    StopsAreNoKinds(t, SkipBss);
  }

  lemma {:induction false} FirstPassKeeps(ts: seq<Token>, s: State)
    requires s.pos <= |ts| && Terminates(ts) && Live(ts, s.pos)
    requires DataInv(ts, s) && LabelledData(ts) && !AfterLabel(ts, s.pos)
    ensures DataInv(ts, FirstPass(ts, s)) && !AfterLabel(ts, FirstPass(ts, s).pos)
    decreases |ts| - s.pos
  {
    hide DataInv, LabelledData, AfterLabel, FirstStep, Terminates, Live;
    if !Current(ts, s).lexeme.Eof? {
      FirstStepLives(ts, s);
      FirstStepKeeps(ts, s);
      Advances(ts, s);
      FirstPassKeeps(ts, FirstStep(ts, s));
    }
  }

  /** After the first pass the parser's index is what replaying the data buffer gives, so the loader's counter
      modulo 2^32; and every data label, unless an error was recorded, has the index of the datum that follows it. */
  lemma LayoutsAgree(ts: seq<Token>)
    requires Terminates(ts) && LabelledData(ts)
    ensures var s := FirstPass(ts, INITIAL);
      && s.dataIndex == Index(s.data) && Wrap32(s.dataIndex) == Counter(s.data)
      && (s.errors == [] ==> forall n <- s.symbols ::
          && n in s.marks && s.marks[n] < |s.data|
          && s.symbols[n].address == IndexOf(s.data, s.marks[n])
            && Wrap32(s.symbols[n].address) == Placed(s.data, s.marks[n]))
  {
    FirstPassKeeps(ts, INITIAL);
    var s := FirstPass(ts, INITIAL);
    AlignOne(Index(s.data));
    IndexIsCounter(s.data);
    hide FirstPass, IndexOf, Placed;
    forall n <- s.symbols | s.errors == []
      ensures s.marks[n] < |s.data| && s.symbols[n].address == IndexOf(s.data, s.marks[n])
      ensures Wrap32(s.symbols[n].address) == Placed(s.data, s.marks[n])
    {
      assert LabelPlaced(ts, s, n);
      IndexOfIsPlaced(s.data, s.marks[n]);
    }
  }

  /** Why a labelled directive must not be empty. With the layouts in step, an empty directive that aligned to `a`
      leaves them in step after the next datum exactly if that datum's place has the alignment `a` anyway. */
  lemma EmptyDirective(s: State, k: DataKind, d: Datum)
    requires Agree(s, 1)
    ensures Agree(Append(s.(dataIndex := AlignIndex(s.dataIndex, KindAlignment(k))), d), 1)
      <==> AlignIndex(s.dataIndex, Alignment(d)) % KindAlignment(k) == 0
  {
    hide Wrap64, AlignIndex, Index, Size, Alignment, KindAlignment;
    var a, b, x := KindAlignment(k), Alignment(d), s.dataIndex;
    AlignOne(x);
    AlignOne(Index(s.data));
    IndexAppend(s.data, d);
    AlignOne(Index(s.data + [d]));
    PendingAlignment(x, a, b);
    SameSum(AlignIndex(AlignIndex(x, a), b), AlignIndex(x, b), Size(d));
  }

  lemma SameSum(x: U64, y: U64, n: nat)
    ensures Wrap64(x + n) == Wrap64(y + n) <==> x == y
  {
    var p, q := (x + n) / B64, (y + n) / B64;
    assert x + n == p * B64 + Wrap64(x + n) && y + n == q * B64 + Wrap64(y + n);
  }

  lemma LabelledStep(ts: seq<Token>, s: State, k: DataKind)
    requires s.pos + 1 < |ts| && ts[s.pos].lexeme.Label? && KindOf(ts[s.pos + 1]) == Some(k)
    ensures var x, n := AlignIndex(s.dataIndex, KindAlignment(k)), ts[s.pos].lexeme.name;
      DataStep(ts, s)
        == s.(pos := s.pos + 1, dataIndex := x, symbols := s.symbols[n := Symbol(x, ts[s.pos].line, true)],
                            marks := s.marks[n := |s.data|])
  {
    hide KindOf, AlignIndex;
  }

  lemma EmptyStep(ts: seq<Token>, s: State)
    requires s.pos + 1 < |ts| && ts[s.pos].lexeme == Directive(KwDword) && ts[s.pos + 1].lexeme.Label?
    ensures DataStep(ts, s) == Next(s)
  {
    hide DataOf, Operand;
  }

  lemma ByteStep(ts: seq<Token>, s: State, n: int)
    requires s.pos + 1 < |ts| && ts[s.pos].lexeme == Directive(KwByte) && ts[s.pos + 1].lexeme == Num(n)
    requires var t := Peek(ts, s.pos + 2).lexeme; !t.Comma? && !t.Num?
    ensures DataStep(ts, s) == Append(s, Byte(n % 0x100)).(pos := s.pos + 2)
  {
    var t := ts[s.pos + 1];
    var s1 := Next(Operand(Next(s), KByte, t));
    OneDatum(s, Byte(n % 0x100));
    hide Append, AppendAll;
    assert OperandList(ts, s1, KByte) == s1;
  }

  lemma OneDatum(s: State, d: Datum)
    ensures AppendAll(Next(s), [d]) == Next(Append(s, d))
  {
    assert [d][..0] == [];
  }

  /** In `b: .dword  c: .byte n` the parser and the data buffer put c at the same place exactly if the index was
      a multiple of 8 already. */
  lemma EmptyDwordThenByte(ts: seq<Token>, s: State, n: int)
    requires s.pos + 4 < |ts| && Agree(s, 1)
    requires ts[s.pos].lexeme.Label? && ts[s.pos + 1].lexeme == Directive(KwDword)
    requires ts[s.pos + 2].lexeme.Label? && ts[s.pos + 3].lexeme == Directive(KwByte) && ts[s.pos + 4].lexeme == Num(n)
    requires var t := Peek(ts, s.pos + 5).lexeme; !t.Comma? && !t.Num?
    ensures var t := DataStep(ts, DataStep(ts, DataStep(ts, DataStep(ts, s))));
      var c := ts[s.pos + 2].lexeme.name;
      && t.errors == s.errors && |t.data| == |s.data| + 1
      && c in t.symbols && c in t.marks && t.marks[c] == |s.data|
      && (t.symbols[c].address == IndexOf(t.data, |s.data|) <==> Index(s.data) % 8 == 0)
  {
    hide DataStep, KindOf, Spells;
    Kinds(ts[s.pos + 1], ts[s.pos + 3]);
    LabelledStep(ts, s, KDword);
    var s1 := DataStep(ts, s);
    EmptyStep(ts, s1);
    LabelledStep(ts, Next(s1), KByte);
    var s3 := DataStep(ts, Next(s1));
    ByteStep(ts, s3, n);
    var d := Byte(n % 0x100);
    assert Append(s3, d).data[..|s.data|] == s.data;
    AlignOne(Index(s.data));
    AlignOne(s1.dataIndex);
    hide AlignIndex, Index, Wrap64;
    AlignedIff(Index(s.data));
  }

  lemma Kinds(t: Token, u: Token)
    requires t.lexeme == Directive(KwDword) && u.lexeme == Directive(KwByte)
    ensures KindOf(t) == Some(KDword) && KindOf(u) == Some(KByte)
  {}

  lemma AlignedIff(x: U64)
    ensures AlignIndex(x, 8) == x <==> x % 8 == 0
  {}
}
