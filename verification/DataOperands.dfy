/** From data directives to memory: every label and operand of the data sections, in order, and what memory holds for it
    once the program is loaded. */
module DataOperands {
  import opened Words
  import opened Wrappers
  import opened Tokens
  import opened FlatMemory
  import opened ParseFormats
  import opened ParserSpec
  import opened ParserProof
  import opened DataLayout
  import opened LoadedImage
  import opened Placement
  import opened EndToEnd
  import VmBase

  /** A label of a data section, or an operand of a directive. */
  datatype Item = LabelItem(name: Name) | OperandItem(kind: DataKind, operand: Lexeme)

  // ----- the items of a token list -----

  /** A list of operands goes on over commas and operands of its kind. */
  predicate Continues(k: DataKind, t: Token) { t.lexeme.Comma? || IsOperand(k, t) }

  function ListEnd(ts: seq<Token>, pos: nat, k: DataKind): (end: nat)
    requires pos <= |ts|
    ensures pos <= end <= |ts|
    ensures forall i | pos <= i < end :: Continues(k, ts[i])
    ensures end < |ts| ==> !Continues(k, ts[end])
    decreases |ts| - pos
  {
    if pos < |ts| && Continues(k, ts[pos]) then ListEnd(ts, pos + 1, k) else pos
  }

  /** The operands between two positions. */
  function ListItems(ts: seq<Token>, pos: nat, end: nat, k: DataKind): seq<Item>
    requires pos <= end <= |ts|
    decreases end - pos
  {
    if pos == end then []
    else (if ts[pos].lexeme.Comma? then [] else [OperandItem(k, ts[pos].lexeme)]) + ListItems(ts, pos + 1, end, k)
  }

  function SectionEnd(ts: seq<Token>, pos: nat): (end: nat)
    requires pos <= |ts|
    ensures pos <= end <= |ts| && EndsSection(Peek(ts, end))
    ensures forall i | pos <= i < end :: !EndsSection(ts[i])
    decreases |ts| - pos
  {
    if EndsSection(Peek(ts, pos)) then pos else SectionEnd(ts, pos + 1)
  }

  /** The keyword of a directive. */
  function KeywordOf(k: DataKind): Name {
    match k
    case KDword => KwDword
    case KWord => KwWord
    case KHalfword => KwHalfword
    case KByte => KwByte
    case KFloat => KwFloat
    case KDouble => KwDouble
    case KZero => KwZero
    case KString => KwString
  }

  lemma KindIff(t: Token, k: DataKind)
    ensures KindOf(t) == Some(k) <==> Spells(t, KeywordOf(k))
  {}

  /** The labels and operands of a data section. */
  function SectionItems(ts: seq<Token>, pos: nat): seq<Item>
    requires pos <= |ts|
    decreases |ts| - pos
  {
    var t := Peek(ts, pos);
    if EndsSection(t) then []
    else if t.lexeme.Label? then [LabelItem(t.lexeme.name)] + SectionItems(ts, pos + 1)
    else if KindOf(t).Some? then
      var end := ListEnd(ts, pos + 1, KindOf(t).value);
      ListItems(ts, pos + 1, end, KindOf(t).value) + SectionItems(ts, end)
    else SectionItems(ts, pos + 1)
  }

  /** The labels and operands of all data sections. */
  function FileItems(ts: seq<Token>, pos: nat): seq<Item>
    requires pos <= |ts| && Terminates(ts) && Live(ts, pos)
    decreases |ts| - pos
  {
    var t := Peek(ts, pos);
    if t.lexeme.Eof? then []
    else
      var s := INITIAL.(pos := pos);
      FirstStepLives(ts, s);
      (if IsDirective(t, KwData) then SectionItems(ts, pos + 1) else []) + FileItems(ts, FirstStep(ts, s).pos)
  }

  function Items(ts: seq<Token>): seq<Item>
    requires Terminates(ts)
  {
    FileItems(ts, 0)
  }

  // ----- how they are laid out -----

  /** The number of data that an item stands for: `.zero` takes a number of bytes, modulo 2^64. */
  function Count(x: Item): nat {
    match x
    case LabelItem(_) => 0
    case OperandItem(k, l) => if k == KZero && l.Num? then Wrap64(l.number) else 1
  }

  /** The number of data before item `i`. */
  function Before(xs: seq<Item>, i: nat): nat
    requires i <= |xs|
  {
    if i == 0 then 0 else Before(xs, i - 1) + Count(xs[i - 1])
  }

  lemma {:induction false} BeforeSame(xs: seq<Item>, ys: seq<Item>, i: nat)
    requires i <= |xs|
    ensures Before(xs + ys, i) == Before(xs, i)
  {
    hide Count;
    if i > 0 { BeforeSame(xs, ys, i - 1); }
  }

  lemma {:induction false} BeforeGrows(xs: seq<Item>, i: nat, j: nat)
    requires i <= j <= |xs|
    ensures Before(xs, i) <= Before(xs, j)
  {
    hide Count;
    if i < j { BeforeGrows(xs, i, j - 1); }
  }

  /** Item `i` is the last label of this name. */
  predicate LastLabel(xs: seq<Item>, i: nat, n: Name) {
    i < |xs| && xs[i] == LabelItem(n) && forall j | i < j < |xs| :: xs[j] != LabelItem(n)
  }

  /** The data for item `i`. */
  predicate LaidAt(data: seq<Datum>, xs: seq<Item>, i: nat)
    requires i < |xs|
  {
    xs[i].OperandItem? ==>
      && IsOperand(xs[i].kind, Token(xs[i].operand, 0))
      && Before(xs, i) + Count(xs[i]) <= |data|
      && data[Before(xs, i)..Before(xs, i) + Count(xs[i])] == DataOf(xs[i].kind, Token(xs[i].operand, 0))
  }

  predicate LabelledAt(s: State, xs: seq<Item>, n: Name)
    requires n in s.symbols
  {
    && s.symbols[n].isData && n in s.marks
    && exists i | 0 <= i < |xs| :: LastLabel(xs, i, n) && s.marks[n] == Before(xs, i)
  }

  /** The data buffer and the labels of a state are those of the items so far. */
  predicate Laid(s: State, xs: seq<Item>) {
    && |s.data| == Before(xs, |xs|)
    && (forall i | 0 <= i < |xs| :: LaidAt(s.data, xs, i))
    && (forall i | 0 <= i < |xs| && xs[i].LabelItem? :: xs[i].name in s.symbols)
    && (forall n <- s.symbols :: LabelledAt(s, xs, n))
  }

  lemma CountIsData(k: DataKind, t: Token)
    requires IsOperand(k, t)
    ensures DataOf(k, t) == DataOf(k, Token(t.lexeme, 0)) && IsOperand(k, Token(t.lexeme, 0))
    ensures |DataOf(k, t)| == Count(OperandItem(k, t.lexeme))
  {}

  lemma LabelsStay(s: State, s': State, xs: seq<Item>, x: Item, n: Name)
    requires n in s.symbols && LabelledAt(s, xs, n) && x != LabelItem(n)
    requires n in s'.symbols && s'.symbols[n] == s.symbols[n] && n in s'.marks && s'.marks[n] == s.marks[n]
    ensures LabelledAt(s', xs + [x], n)
  {
    var i :| 0 <= i < |xs| && LastLabel(xs, i, n) && s.marks[n] == Before(xs, i);
    BeforeSame(xs, [x], i);
    assert LastLabel(xs + [x], i, n);
  }

  lemma LaidStays(data: seq<Datum>, data': seq<Datum>, xs: seq<Item>, x: Item, i: nat)
    requires i < |xs| && LaidAt(data, xs, i) && |data| <= |data'| && data'[..|data|] == data
    ensures LaidAt(data', xs + [x], i)
  {
    hide DataOf, IsOperand, Count;
    BeforeSame(xs, [x], i);
    var a, b := Before(xs, i), Before(xs, i) + Count(xs[i]);
    if xs[i].OperandItem? { assert data'[a..b] == data'[..|data|][a..b]; }
  }

  /** An operand adds its data. */
  lemma OperandLaid(s: State, k: DataKind, t: Token, xs: seq<Item>)
    requires Laid(s, xs) && IsOperand(k, t)
    ensures Laid(Operand(s, k, t), xs + [OperandItem(k, t.lexeme)])
  {
    var x, s' := OperandItem(k, t.lexeme), Operand(s, k, t);
    CountIsData(k, t);
    OperandAppends(s, k, t);
    hide DataOf, IsOperand, Count, Operand, LabelledAt, LaidAt;
    var ys := xs + [x];
    BeforeSame(xs, [x], |xs|);
    forall i | 0 <= i < |ys| ensures LaidAt(s'.data, ys, i) {
      if i < |xs| { LaidStays(s.data, s'.data, xs, x, i); } else { NewLaid(s.data, xs, k, t); }
    }
    forall n <- s'.symbols ensures LabelledAt(s', ys, n) { LabelsStay(s, s', xs, x, n); }
  }

  lemma NewLaid(data: seq<Datum>, xs: seq<Item>, k: DataKind, t: Token)
    requires |data| == Before(xs, |xs|) && IsOperand(k, t)
    ensures LaidAt(data + DataOf(k, t), xs + [OperandItem(k, t.lexeme)], |xs|)
  {
    CountIsData(k, t);
    hide DataOf, IsOperand, Count;
    BeforeSame(xs, [OperandItem(k, t.lexeme)], |xs|);
    var all := data + DataOf(k, t);
    assert all[|data|..|data| + |DataOf(k, t)|] == DataOf(k, t);
  }

  lemma OperandAppends(s: State, k: DataKind, t: Token)
    requires IsOperand(k, t)
    ensures var s' := Operand(s, k, t);
      s'.data == s.data + DataOf(k, t) && s'.symbols == s.symbols && s'.marks == s.marks
  {
    hide DataOf, IsOperand;
    AllAppended(s, DataOf(k, t));
  }

  lemma {:induction false} AllAppended(s: State, ds: seq<Datum>)
    ensures AppendAll(s, ds).data == s.data + ds
    decreases |ds|
  {
    if ds != [] {
      AllAppended(s, ds[..|ds| - 1]);
      assert ds == ds[..|ds| - 1] + [ds[|ds| - 1]];
    }
  }

  /** One token further. */
  lemma ListStep(ts: seq<Token>, s: State, k: DataKind)
    requires s.pos < |ts|
    ensures var (t, end) := (ts[s.pos], ListEnd(ts, s.pos, k));
      && end == (if Continues(k, t) then ListEnd(ts, s.pos + 1, k) else s.pos)
      && ListItems(ts, s.pos, end, k) == (if !Continues(k, t) then [] else
          (if t.lexeme.Comma? then [] else [OperandItem(k, t.lexeme)]) + ListItems(ts, s.pos + 1, end, k))
      && (t.lexeme.Comma? ==> OperandList(ts, s, k) == OperandList(ts, Next(s), k))
      && (!t.lexeme.Comma? && IsOperand(k, t) ==>
          OperandList(ts, s, k) == OperandList(ts, Next(Operand(s, k, t)), k))
      && (!Continues(k, t) ==> OperandList(ts, s, k) == s)
  {
    hide Operand, IsOperand;
  }

  lemma ListDone(ts: seq<Token>, s: State, k: DataKind)
    requires s.pos == |ts|
    ensures ListEnd(ts, s.pos, k) == s.pos && ListItems(ts, s.pos, s.pos, k) == [] && OperandList(ts, s, k) == s
  {
    hide Operand;
  }

  lemma {:induction false} ListLaid(ts: seq<Token>, s: State, k: DataKind, xs: seq<Item>)
    requires s.pos <= |ts| && Laid(s, xs)
    ensures var (s', end) := (OperandList(ts, s, k), ListEnd(ts, s.pos, k));
      s'.pos == end && Laid(s', xs + ListItems(ts, s.pos, end, k))
    decreases |ts| - s.pos
  {
    hide Laid, Operand, IsOperand, ListEnd, ListItems, OperandList;
    if s.pos == |ts| {
      ListDone(ts, s, k);
      assert xs + [] == xs;
      return;
    }
    var t, end := ts[s.pos], ListEnd(ts, s.pos, k);
    ListStep(ts, s, k);
    if t.lexeme.Comma? {
      LaidAnywhere(s, xs, s.pos + 1);
      ListLaid(ts, Next(s), k, xs);
      assert [] + ListItems(ts, s.pos + 1, end, k) == ListItems(ts, s.pos + 1, end, k);
    } else if IsOperand(k, t) {
      var x, s1 := OperandItem(k, t.lexeme), Operand(s, k, t);
      OperandLaid(s, k, t, xs);
      LaidAnywhere(s1, xs + [x], s.pos + 1);
      ListLaid(ts, Next(s1), k, xs + [x]);
      assert xs + ([x] + ListItems(ts, s.pos + 1, end, k)) == xs + [x] + ListItems(ts, s.pos + 1, end, k);
    } else {
      assert xs + [] == xs;
    }
  }

  lemma LaidAnywhere(s: State, xs: seq<Item>, pos: nat)
    requires Laid(s, xs)
    ensures Laid(s.(pos := pos), xs)
    ensures forall line :: Laid(Record(s, line).(pos := pos), xs)
    ensures forall x: U64 :: Laid(s.(dataIndex := x), xs)
    ensures forall line, x: U64 :: Laid(Record(s, line).(dataIndex := x), xs)
  {
    hide LaidAt;
    forall s': State | (s'.data, s'.symbols, s'.marks) == (s.data, s.symbols, s.marks) ensures Laid(s', xs) {
      forall n <- s'.symbols ensures LabelledAt(s', xs, n) { assert LabelledAt(s, xs, n); }
    }
  }

  /** A label stands for the datum that comes next. */
  lemma LabelLaid(ts: seq<Token>, s: State, xs: seq<Item>, n: Name)
    requires Laid(s, xs)
    ensures Laid(DataLabel(ts, s, n), xs + [LabelItem(n)])
  {
    var s', x := DataLabel(ts, s, n), LabelItem(n);
    hide LaidAt, KindOf, AlignIndex;
    var ys := xs + [x];
    BeforeSame(xs, [x], |xs|);
    assert Before(ys, |ys|) == Before(ys, |xs|) + Count(x);
    forall i | 0 <= i < |ys| ensures LaidAt(s'.data, ys, i) {
      if i < |xs| { LaidStays(s.data, s'.data, xs, x, i); } else { LabelHasNoData(s'.data, ys, i); }
    }
    forall m <- s'.symbols ensures LabelledAt(s', ys, m) {
      if m != n { LabelsStay(s, s', xs, x, m); } else { assert LastLabel(ys, |xs|, n); }
    }
  }

  lemma LabelHasNoData(data: seq<Datum>, xs: seq<Item>, i: nat)
    requires i < |xs| && xs[i].LabelItem?
    ensures LaidAt(data, xs, i)
  {}

  lemma NotAtEnd(ts: seq<Token>, pos: nat)
    requires !EndsSection(Peek(ts, pos))
    ensures pos < |ts|
  {}

  /** One turn of the data loop. */
  lemma StepLaid(ts: seq<Token>, s: State, xs: seq<Item>)
    requires s.pos < |ts| && Laid(s, xs) && !EndsSection(ts[s.pos])
    ensures var t, s' := ts[s.pos], DataStep(ts, s);
      if t.lexeme.Label? then s'.pos == s.pos + 1 && Laid(s', xs + [LabelItem(t.lexeme.name)])
      else if KindOf(t).Some? then
        var end := ListEnd(ts, s.pos + 1, KindOf(t).value);
        s'.pos == end && Laid(s', xs + ListItems(ts, s.pos + 1, end, KindOf(t).value))
      else s'.pos == s.pos + 1 && Laid(s', xs)
  {
    hide Laid, KindOf, DataLabel, OperandList, ListItems, ListEnd, EndsSection;
    var t := ts[s.pos];
    if t.lexeme.Label? { LabelLaid(ts, s, xs, t.lexeme.name); }
    else {
      LaidAnywhere(s, xs, s.pos + 1);
      if KindOf(t).Some? { ListLaid(ts, Next(s), KindOf(t).value, xs); }
    }
  }

  lemma {:induction false} SectionLaid(ts: seq<Token>, s: State, xs: seq<Item>)
    requires s.pos <= |ts| && Laid(s, xs)
    ensures Laid(DataDirective(ts, s), xs + SectionItems(ts, s.pos))
    decreases |ts| - s.pos
  {
    hide Laid, KindOf, DataStep, ListItems, ListEnd, EndsSection;
    if EndsSection(Current(ts, s)) { assert xs + [] == xs; return; }
    NotAtEnd(ts, s.pos);
    StepLaid(ts, s, xs);
    var t, s' := ts[s.pos], DataStep(ts, s);
    var head := if t.lexeme.Label? then [LabelItem(t.lexeme.name)]
      else if KindOf(t).Some? then ListItems(ts, s.pos + 1, ListEnd(ts, s.pos + 1, KindOf(t).value), KindOf(t).value)
      else [];
    assert xs + [] == xs;
    assert SectionItems(ts, s.pos) == head + SectionItems(ts, s'.pos);
    SectionLaid(ts, s', xs + head);
    assert xs + (head + SectionItems(ts, s'.pos)) == xs + head + SectionItems(ts, s'.pos);
  }

  // ----- the first pass -----

  /** Where a turn of the first pass goes does not depend on what has been parsed. */
  lemma SameStep(ts: seq<Token>, s: State)
    requires s.pos < |ts|
    ensures FirstStep(ts, INITIAL.(pos := s.pos)).pos == FirstStep(ts, s).pos
  {
    hide DataDirective, SkipTo;
    if IsDirective(ts[s.pos], KwData) { SameSection(ts, Next(INITIAL.(pos := s.pos)), Next(s)); }
  }

  lemma {:induction false} SameSection(ts: seq<Token>, s: State, t: State)
    requires s.pos == t.pos <= |ts|
    ensures DataDirective(ts, s).pos == DataDirective(ts, t).pos
    decreases |ts| - s.pos
  {
    hide KindOf, DataLabel, OperandList, EndsSection;
    if !EndsSection(Current(ts, s)) {
      NotAtEnd(ts, s.pos);
      if KindOf(ts[s.pos]).Some? { SameList(ts, Next(s), Next(t), KindOf(ts[s.pos]).value); }
      SameSection(ts, DataStep(ts, s), DataStep(ts, t));
    }
  }

  lemma {:induction false} SameList(ts: seq<Token>, s: State, t: State, k: DataKind)
    requires s.pos == t.pos <= |ts|
    ensures OperandList(ts, s, k).pos == OperandList(ts, t, k).pos
    decreases |ts| - s.pos
  {
    hide Operand;
    var x := Current(ts, s);
    if x.lexeme.Comma? { SameList(ts, Next(s), Next(t), k); }
    else if IsOperand(k, x) && s.pos < |ts| { SameList(ts, Next(Operand(s, k, x)), Next(Operand(t, k, x)), k); }
  }

  lemma TurnLaid(ts: seq<Token>, s: State, xs: seq<Item>)
    requires s.pos < |ts| && Laid(s, xs) && !ts[s.pos].lexeme.Eof?
    ensures Laid(FirstStep(ts, s),
      xs + if IsDirective(ts[s.pos], KwData) then SectionItems(ts, s.pos + 1) else [])
  {
    hide Laid, DataDirective, SkipTo, SectionItems;
    assert xs + [] == xs;
    LaidAnywhere(s, xs, s.pos + 1);
    LaidAnywhere(s, xs, FirstStep(ts, s).pos);
    if IsDirective(ts[s.pos], KwData) { SectionLaid(ts, Next(s), xs); }
  }

  lemma {:induction false} FileLaid(ts: seq<Token>, s: State, xs: seq<Item>)
    requires s.pos <= |ts| && Terminates(ts) && Live(ts, s.pos) && Laid(s, xs)
    ensures Laid(FirstPass(ts, s), xs + FileItems(ts, s.pos))
    decreases |ts| - s.pos
  {
    hide Laid, FirstStep, SectionItems, Terminates, Live, IsDirective;
    var t := Current(ts, s);
    if t.lexeme.Eof? { assert xs + [] == xs; return; }
    var s' := FirstStep(ts, s);
    var head := if IsDirective(t, KwData) then SectionItems(ts, s.pos + 1) else [];
    FirstStepLives(ts, s);
    FirstStepLives(ts, INITIAL.(pos := s.pos));
    SameStep(ts, s);
    TurnLaid(ts, s, xs);
    Advances(ts, s);
    FileLaid(ts, s', xs + head);
    assert xs + (head + FileItems(ts, s'.pos)) == xs + head + FileItems(ts, s'.pos);
  }

  lemma NothingLaid()
    ensures Laid(INITIAL, [])
  {}

  lemma ItemsAreLaid(ts: seq<Token>)
    requires Terminates(ts)
    ensures Laid(FirstPass(ts, INITIAL), Items(ts))
  {
    hide Laid, FirstPass, FileItems;
    NothingLaid();
    FileLaid(ts, INITIAL, []);
    assert [] + Items(ts) == Items(ts);
  }

  // ----- memory -----

  ghost predicate HoldsBytes(m: Flat, a: nat, bytes: seq<U8>) { forall j | 0 <= j < |bytes| :: m[a + j] == bytes[j] }

  ghost predicate HoldsZeros(m: Flat, a: nat, n: nat) { forall b: nat | a <= b < a + n :: m[b] == 0 }

  /** The memory `m` holds the operand from address `a` on: a number modulo the width of its directive, the bits of a
      floating-point number, the bytes of a string and a zero behind them, or that many zeros. */
  ghost predicate Represents(m: Flat, a: nat, k: DataKind, l: Lexeme) {
    match k
    case KDword => l.Num? && LoadLE(m, a, 8) == Wrap64(l.number)
    case KWord => l.Num? && LoadLE(m, a, 4) == Wrap32(l.number)
    case KHalfword => l.Num? && LoadLE(m, a, 2) == l.number % 0x1_0000
    case KByte => l.Num? && LoadLE(m, a, 1) == l.number % 0x100
    case KFloat => l.FloatNum? && LoadLE(m, a, 4) == l.single
    case KDouble => l.FloatNum? && LoadLE(m, a, 8) == l.double
    case KString => l.Str? && HoldsBytes(m, a, l.bytes) && m[a + |l.bytes|] == 0
    case KZero => l.Num? && HoldsZeros(m, a, Wrap64(l.number))
  }

  /** Bytes without alignment stand one after the other. */
  lemma {:induction false} BytesFollow(ds: seq<Datum>, k: nat, j: nat)
    requires k <= j < |ds| && Extent(ds) < B32 && forall i | k <= i <= j :: ds[i].Byte?
    ensures Placed(ds, j) == Placed(ds, k) + (j - k)
    decreases j
  {
    hide Extent, Placed, Up;
    if k < j {
      BytesFollow(ds, k, j - 1);
      CounterIsExtent(ds, j - 1);
      CounterIsExtent(ds, j);
      assert ds[j - 1].Byte? && ds[j].Byte?;
      UpByOne(Extent(ds[..j]));
    }
  }

  lemma UpByOne(x: nat)
    ensures Up(x, 1) == x
  {}

  lemma NumberIsLoaded(m: Flat, base: U64, p: VmBase.Program, k: DataKind, l: Lexeme, i: nat)
    requires Separate(base, p) && i < |p.data| && IsOperand(k, Token(l, 0)) && k != KZero && k != KString
    requires DataOf(k, Token(l, 0)) == [p.data[i]]
    ensures Represents(VmBase.Image(m, base, p), base + Placed(p.data, i), k, l)
  {
    hide Separate, Placed, LoadLE, VmBase.Image, Wrap64, Wrap32;
    DatumReadsBack(m, base, p, i);
  }

  lemma StringIsLoaded(m: Flat, base: U64, p: VmBase.Program, bytes: seq<U8>, i: nat)
    requires Separate(base, p) && i < |p.data| && p.data[i] == Bytes(bytes + [0])
    ensures var (m', a) := (VmBase.Image(m, base, p), base + Placed(p.data, i));
      HoldsBytes(m', a, bytes) && m'[a + |bytes|] == 0
  {
    hide Placed, VmBase.Image, Separate, DatumByte, Size;
    ImageIsLoaded(m, base, p);
    StringBytes(p.data[i], bytes);
    var m', a := VmBase.Image(m, base, p), base + Placed(p.data, i);
    forall j | 0 <= j < |bytes| ensures m'[a + j] == bytes[j] {
      assert m'[base + Placed(p.data, i) + j] == DatumByte(p.data[i], j);
    }
    assert m'[base + Placed(p.data, i) + |bytes|] == DatumByte(p.data[i], |bytes|);
  }

  lemma StringBytes(d: Datum, bytes: seq<U8>)
    requires d == Bytes(bytes + [0])
    ensures Size(d) == |bytes| + 1 && (forall j | 0 <= j < |bytes| :: DatumByte(d, j) == bytes[j])
    ensures DatumByte(d, |bytes|) == 0
  {}

  lemma ZeroByte()
    ensures Size(Byte(0)) == 1 && DatumByte(Byte(0), 0) == 0
  {}

  lemma ExtentIsSmall(base: U64, p: VmBase.Program)
    requires Separate(base, p)
    ensures Extent(p.data) < B32
  {
    hide Extent;
  }

  lemma ZerosAreLoaded(m: Flat, base: U64, p: VmBase.Program, n: nat, i: nat)
    requires Separate(base, p) && 0 < n && i + n <= |p.data| && forall j | i <= j < i + n :: p.data[j] == Byte(0)
    ensures HoldsZeros(VmBase.Image(m, base, p), base + Placed(p.data, i), n)
  {
    hide Placed, VmBase.Image, Separate, Extent, DatumByte, Size;
    ImageIsLoaded(m, base, p);
    ExtentIsSmall(base, p);
    ZeroByte();
    var m', a := VmBase.Image(m, base, p), base + Placed(p.data, i);
    forall b: nat | a <= b < a + n ensures m'[b] == 0 {
      var j := i + (b - a);
      BytesFollow(p.data, i, j);
      assert p.data[j] == Byte(0);
      assert m'[base + Placed(p.data, j) + 0] == DatumByte(p.data[j], 0);
    }
  }

  lemma ZerosAre(data: seq<Datum>, l: Lexeme, i: nat, n: nat)
    requires l.Num? && n == Wrap64(l.number) && i + n <= |data| && data[i..i + n] == DataOf(KZero, Token(l, 0))
    ensures forall j | i <= j < i + n :: data[j] == Byte(0)
  {
    forall j | i <= j < i + n ensures data[j] == Byte(0) { assert data[j] == data[i..i + n][j - i]; }
  }

  /** What is in the data buffer for an operand is in memory. */
  lemma LaidIsLoaded(m: Flat, base: U64, p: VmBase.Program, xs: seq<Item>, i: nat)
    requires Separate(base, p) && i < |xs| && xs[i].OperandItem? && LaidAt(p.data, xs, i) && Count(xs[i]) > 0
    ensures Before(xs, i) < |p.data|
      && Represents(VmBase.Image(m, base, p), base + Placed(p.data, Before(xs, i)), xs[i].kind, xs[i].operand)
  {
    hide Separate, Placed, VmBase.Image, Before, Represents, DataOf, IsOperand, Count;
    var b, k, l := Before(xs, i), xs[i].kind, xs[i].operand;
    CountIsData(k, Token(l, 0));
    assert xs[i] == OperandItem(k, l);
    OperandIsLoaded(m, base, p, k, l, b);
  }

  lemma OperandIsLoaded(m: Flat, base: U64, p: VmBase.Program, k: DataKind, l: Lexeme, b: nat)
    requires Separate(base, p) && IsOperand(k, Token(l, 0)) && DataOf(k, Token(l, 0)) != []
    requires b + |DataOf(k, Token(l, 0))| <= |p.data|
    requires p.data[b..b + |DataOf(k, Token(l, 0))|] == DataOf(k, Token(l, 0))
    ensures Represents(VmBase.Image(m, base, p), base + Placed(p.data, b), k, l)
  {
    hide Separate, Placed, VmBase.Image, Represents, DataOf, HoldsBytes, HoldsZeros, Wrap64;
    CountIsData(k, Token(l, 0));
    if k == KZero {
      var n := |DataOf(k, Token(l, 0))|;
      ZerosAre(p.data, l, b, n);
      ZerosAreLoaded(m, base, p, n, b);
      ZerosRepresent(VmBase.Image(m, base, p), base + Placed(p.data, b), l);
    } else {
      assert p.data[b..b + 1] == [p.data[b]];
      if k == KString {
        StringDatum(p.data[b], l);
        StringIsLoaded(m, base, p, l.bytes, b);
        StringRepresents(VmBase.Image(m, base, p), base + Placed(p.data, b), l);
      } else { NumberIsLoaded(m, base, p, k, l, b); }
    }
  }

  lemma StringDatum(d: Datum, l: Lexeme)
    requires l.Str? && DataOf(KString, Token(l, 0)) == [d]
    ensures d == Bytes(l.bytes + [0])
  {}

  lemma StringRepresents(m: Flat, a: nat, l: Lexeme)
    requires l.Str? && HoldsBytes(m, a, l.bytes) && m[a + |l.bytes|] == 0
    ensures Represents(m, a, KString, l)
  {}

  lemma ZerosRepresent(m: Flat, a: nat, l: Lexeme)
    requires l.Num? && HoldsZeros(m, a, Wrap64(l.number))
    ensures Represents(m, a, KZero, l)
  {}

  // ----- end to end -----

  /** The data buffer and the data symbols of an assembled program are those of its items. */
  lemma ProgramIsLaid(ts: seq<Token>, o: Options, p: VmBase.Program)
    requires Terminates(ts) && Assembles(ts, o, p)
    ensures p.data == FirstPass(ts, INITIAL).data && Laid(FirstPass(ts, INITIAL), Items(ts))
  {
    hide Parse, FirstPass, Items, Laid, DataOnly;
    ItemsAreLaid(ts);
    DataIsKept(ts, o);
  }

  lemma ItemIsLaid(ts: seq<Token>, o: Options, p: VmBase.Program, i: nat)
    requires Terminates(ts) && Assembles(ts, o, p) && i < |Items(ts)|
    ensures |p.data| == Before(Items(ts), |Items(ts)|) && LaidAt(p.data, Items(ts), i)
  {
    hide Parse, FirstPass, Items, Laid, LaidAt, Before, Assembles;
    ProgramIsLaid(ts, o, p);
    LaidParts(FirstPass(ts, INITIAL), Items(ts), i);
  }

  /** The data sections, end to end. In an assembled and loaded program memory holds every operand of every data
      directive, in order, where the loader's layout puts its first datum. */
  lemma OperandsAreLoaded(ts: seq<Token>, o: Options, p: VmBase.Program, m: Flat, i: nat)
    requires Terminates(ts) && Assembles(ts, o, p) && Separate(o.dataStart, p)
    requires i < |Items(ts)| && Items(ts)[i].OperandItem? && Count(Items(ts)[i]) > 0
    ensures var xs := Items(ts);
      && |p.data| == Before(xs, |xs|) && Before(xs, i) < |p.data|
      && Represents(VmBase.Image(m, o.dataStart, p), o.dataStart + Placed(p.data, Before(xs, i)), xs[i].kind,
                    xs[i].operand)
  {
    hide *;
    ItemIsLaid(ts, o, p, i);
    LaidIsLoaded(m, o.dataStart, p, Items(ts), i);
  }

  lemma LaidParts(s: State, xs: seq<Item>, i: nat)
    requires Laid(s, xs) && i < |xs|
    ensures |s.data| == Before(xs, |xs|) && LaidAt(s.data, xs, i)
    ensures xs[i].LabelItem? ==> xs[i].name in s.symbols && LabelledAt(s, xs, xs[i].name)
  {
    hide LaidAt, LabelledAt, Before;
  }

  /** A data label of such a program stands where the next operand is, if every label has a datum after it and no
      harmful alignment pending. */
  lemma LabelledOperand(ts: seq<Token>, o: Options, p: VmBase.Program, m: Flat, i: nat, j: nat)
    requires Terminates(ts) && HarmlessLabels(ts) && Assembles(ts, o, p) && Separate(o.dataStart, p)
    requires var xs := Items(ts);
      && i < j < |xs| && xs[i].LabelItem? && LastLabel(xs, i, xs[i].name)
      && xs[j].OperandItem? && Count(xs[j]) > 0 && forall k | i < k < j :: Count(xs[k]) == 0
    ensures var (xs, s) := (Items(ts), Parse(ts, o));
      && xs[i].name in s.symbols && s.symbols[xs[i].name].isData
      && Represents(VmBase.Image(m, o.dataStart, p), o.dataStart + s.symbols[xs[i].name].address, xs[j].kind,
                    xs[j].operand)
  {
    hide *;
    LabelIsKept(ts, o, p, i);
    OperandsAreLoaded(ts, o, p, m, j);
    AssembledCleanly(ts, o, p);
    var n := Items(ts)[i].name;
    DataLabelPlaced(ts, o, n);
    NothingBetween(Items(ts), i, j);
  }

  lemma AssembledCleanly(ts: seq<Token>, o: Options, p: VmBase.Program)
    requires Terminates(ts) && Assembles(ts, o, p)
    ensures Parse(ts, o).errors == []
  {
    hide Parse;
  }

  /** A data label is marked with the number of data before it. */
  lemma LabelIsKept(ts: seq<Token>, o: Options, p: VmBase.Program, i: nat)
    requires Terminates(ts) && Assembles(ts, o, p) && Separate(o.dataStart, p)
    requires i < |Items(ts)| && Items(ts)[i].LabelItem?
      && LastLabel(Items(ts), i, Items(ts)[i].name)
    ensures var (xs, s) := (Items(ts), Parse(ts, o));
      && xs[i].name in s.symbols && s.symbols[xs[i].name].isData && xs[i].name in s.marks
      && s.marks[xs[i].name] == Before(xs, i) && s.data == p.data && Extent(s.data) < B32
  {
    hide Parse, FirstPass, Items, Laid, DataOnly, Before, LastLabel, Extent;
    var xs, t := Items(ts), FirstPass(ts, INITIAL);
    ProgramIsLaid(ts, o, p);
    LaidParts(t, xs, i);
    SymbolsStay(ts, o, xs[i].name);
    DataIsKept(ts, o);
    SameMark(t, xs, i, xs[i].name);
  }

  lemma SameMark(s: State, xs: seq<Item>, i: nat, n: Name)
    requires n in s.symbols && LabelledAt(s, xs, n) && LastLabel(xs, i, n)
    ensures n in s.marks && s.marks[n] == Before(xs, i) && s.symbols[n].isData
  {
    hide Before;
  }

  lemma {:induction false} NothingBetween(xs: seq<Item>, i: nat, j: nat)
    requires i < j < |xs| && xs[i].LabelItem? && forall k | i < k < j :: Count(xs[k]) == 0
    ensures Before(xs, j) == Before(xs, i)
    decreases j
  {
    if i + 1 < j { NothingBetween(xs, i, j - 1); }
  }

  /** The second pass keeps the data symbols. */
  lemma SymbolsStay(ts: seq<Token>, o: Options, n: Name)
    requires Terminates(ts) && n in FirstPass(ts, INITIAL).symbols
    ensures n in Parse(ts, o).symbols && Parse(ts, o).symbols[n] == FirstPass(ts, INITIAL).symbols[n]
  {
    var t := FirstPass(ts, INITIAL);
    FirstPassOnly(ts, INITIAL);
    SecondPassKeeps(ts, t.(pos := 0, index := 0), o);
    var s := Unpatched(ts, o);
    hide FirstPass, SecondPass, TextInv, Settled;
    PatchAllKeeps(s, s.backPatch);
  }
}
