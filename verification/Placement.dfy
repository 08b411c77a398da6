/** Exactly which data sections the two layouts agree on: every label, at every place it is defined, against the place
    of the datum that follows it. */
module Placement {
  import opened Words
  import opened Wrappers
  import opened Tokens
  import opened ParseFormats
  import opened ParserSpec
  import opened DataLayout
  import opened ParserProof
  import opened Lockstep

  /** A label in the data section: what its directive aligned to, the number of data before it, and the address that
      the parser recorded. */
  datatype Definition = Definition(name: Name, alignment: nat, mark: nat, address: U64)

  // ----- the labels of a pass -----

  function AlignmentAt(ts: seq<Token>, pos: nat): (a: nat)
    ensures a in {1, 2, 4, 8}
  {
    var k := KindOf(Peek(ts, pos + 1));
    if k.Some? then KindAlignment(k.value) else 1
  }

  /** `ds`, with the label that the next turn of the data loop defines, if it is one. */
  function Noted(ts: seq<Token>, s: State, ds: seq<Definition>): seq<Definition> {
    var t := Current(ts, s);
    if t.lexeme.Label?
    then ds + [Definition(t.lexeme.name, AlignmentAt(ts, s.pos), |s.data|,
      AlignIndex(s.dataIndex, AlignmentAt(ts, s.pos)))]
    else ds
  }

  /** `ds` with the labels that a data directive defines. */
  function DataDefinitions(ts: seq<Token>, s: State, ds: seq<Definition>): seq<Definition>
    requires s.pos <= |ts|
    decreases |ts| - s.pos
  {
    if EndsSection(Current(ts, s)) then ds else DataDefinitions(ts, DataStep(ts, s), Noted(ts, s, ds))
  }

  /** `ds` with the labels that the first pass defines. */
  function Definitions(ts: seq<Token>, s: State, ds: seq<Definition>): seq<Definition>
    requires s.pos <= |ts| && Terminates(ts) && Live(ts, s.pos)
    decreases |ts| - s.pos
  {
    if Current(ts, s).lexeme.Eof? then ds
    else
      FirstStepLives(ts, s);
      Definitions(ts, FirstStep(ts, s),
                  if IsDirective(Current(ts, s), KwData) then DataDefinitions(ts, Next(s), ds) else ds)
  }

  // ----- the condition -----

  function Max(a: nat, b: nat): nat { if a < b then b else a }

  /** The largest alignment among the labels since the last datum, up to label `j`. */
  function Widest(ds: seq<Definition>, j: nat): nat
    requires j < |ds|
  {
    if j > 0 && ds[j - 1].mark == ds[j].mark then Max(Widest(ds, j - 1), ds[j].alignment) else ds[j].alignment
  }

  /** Label `j` was recorded where the datum after it goes. */
  predicate IsPlaced(data: seq<Datum>, ds: seq<Definition>, j: nat)
    requires j < |ds| && ds[j].mark < |data|
  {
    ds[j].address == IndexOf(data, ds[j].mark)
  }

  /** The widest alignment up to label `j` moves the end of the data before it to where the datum after it goes. */
  predicate Harmless(data: seq<Datum>, ds: seq<Definition>, j: nat)
    requires j < |ds| && ds[j].mark < |data|
    requires forall i | 0 <= i < |ds| :: ds[i].alignment in {1, 2, 4, 8}
  {
    WidestIsAlignment(ds, j);
    AlignIndex(Index(data[..ds[j].mark]), Widest(ds, j)) == IndexOf(data, ds[j].mark)
  }

  lemma {:induction false} WidestIsAlignment(ds: seq<Definition>, j: nat)
    requires j < |ds| && forall i | 0 <= i < |ds| :: ds[i].alignment in {1, 2, 4, 8}
    ensures Widest(ds, j) in {1, 2, 4, 8}
  {
    if j > 0 { WidestIsAlignment(ds, j - 1); }
  }

  lemma {:induction false} WidestStays(ds: seq<Definition>, d: Definition, j: nat)
    requires j < |ds|
    ensures Widest(ds + [d], j) == Widest(ds, j)
  {
    if j > 0 { WidestStays(ds, d, j - 1); }
  }

  // ----- nested alignments -----

  lemma UpNested(r: nat, a: nat, b: nat)
    requires a in {1, 2, 4, 8} && b in {1, 2, 4, 8} && r < 8
    ensures Up(r, a) <= 8 && Up(Up(r, a), b) == Up(r, Max(a, b))
  {
    UpIsTable(r, a);
    UpIsTable(r, b);
    UpIsTable(Up(r, a), b);
    hide Up;
  }

  /** Aligning twice is aligning to the wider of the two. */
  lemma AlignNested(x: U64, a: nat, b: nat)
    requires a in {1, 2, 4, 8} && b in {1, 2, 4, 8}
    ensures AlignIndex(AlignIndex(x, a), b) == AlignIndex(x, Max(a, b))
  {
    hide AlignIndex, Wrap64, Up;
    var q, r := x / 8, x % 8;
    AlignEight(q, r, a);
    AlignEight(q, r, Max(a, b));
    UpNested(r, a, b);
    AlignUp(q, Up(r, a), b);
  }

  // ----- the invariant -----

  predicate WellNoted(data: seq<Datum>, ds: seq<Definition>) {
    && (forall j | 0 <= j < |ds| :: ds[j].alignment in {1, 2, 4, 8} && ds[j].mark <= |data|)
    && (forall i, j | 0 <= i < j < |ds| :: ds[i].mark <= ds[j].mark)
  }

  /** The alignment pending at the end of the data. */
  function PendingWidth(data: seq<Datum>, ds: seq<Definition>): nat {
    if ds != [] && ds[|ds| - 1].mark == |data| then Widest(ds, |ds| - 1) else 1
  }

  /** The labels that a datum follows already. */
  predicate AllPlaced(data: seq<Datum>, ds: seq<Definition>) {
    forall j | 0 <= j < |ds| && ds[j].mark < |data| :: IsPlaced(data, ds, j)
  }

  predicate AllHarmless(data: seq<Datum>, ds: seq<Definition>)
    requires WellNoted(data, ds)
  {
    forall j | 0 <= j < |ds| && ds[j].mark < |data| :: Harmless(data, ds, j)
  }

  /** The parser's index is a replay of the data with an alignment pending, and the labels waiting for a datum were
      recorded at such replays. */
  predicate InStep(s: State, ds: seq<Definition>)
    requires WellNoted(s.data, ds)
  {
    && PendingIsAlignment(s.data, ds)
    && s.dataIndex == AlignIndex(Index(s.data), PendingWidth(s.data, ds))
    && (forall j | 0 <= j < |ds| && ds[j].mark == |s.data| :: WaitsRight(s, ds, j))
  }

  predicate PendingIsAlignment(data: seq<Datum>, ds: seq<Definition>) { PendingWidth(data, ds) in {1, 2, 4, 8} }

  predicate WaitsRight(s: State, ds: seq<Definition>, j: nat)
    requires j < |ds|
  {
    Widest(ds, j) > 0 && ds[j].address == AlignIndex(Index(s.data), Widest(ds, j))
  }

  predicate PlacementInv(s: State, ds: seq<Definition>) {
    && WellNoted(s.data, ds)
    && (AllPlaced(s.data, ds) <==> AllHarmless(s.data, ds))
    && (AllHarmless(s.data, ds) ==> InStep(s, ds))
  }

  // ----- it is kept -----

  lemma NoteKeeps(s: State, s': State, ds: seq<Definition>, d: Definition)
    requires PlacementInv(s, ds) && d.alignment in {1, 2, 4, 8} && d.mark == |s.data|
    requires d.address == AlignIndex(s.dataIndex, d.alignment) == s'.dataIndex && s'.data == s.data
    ensures PlacementInv(s', ds + [d])
  {
    var ds' := ds + [d];
    NoteSame(s.data, ds, d);
    if AllHarmless(s.data, ds) { NoteInStep(s, s', ds, d); }
    hide AllHarmless, AllPlaced, InStep;
  }

  lemma NoteSame(data: seq<Datum>, ds: seq<Definition>, d: Definition)
    requires WellNoted(data, ds) && d.alignment in {1, 2, 4, 8} && d.mark == |data|
    ensures WellNoted(data, ds + [d])
    ensures AllPlaced(data, ds + [d]) <==> AllPlaced(data, ds)
    ensures AllHarmless(data, ds + [d]) <==> AllHarmless(data, ds)
  {
    var ds' := ds + [d];
    hide IndexOf, Index, AlignIndex, Widest;
    assert forall j | 0 <= j < |ds| :: ds'[j] == ds[j];
    forall j | 0 <= j < |ds| && ds[j].mark < |data| ensures Harmless(data, ds', j) <==> Harmless(data, ds, j) {
      WidestStays(ds, d, j);
    }
    forall j | 0 <= j < |ds| && ds[j].mark < |data| ensures IsPlaced(data, ds', j) <==> IsPlaced(data, ds, j) {}
  }

  lemma NotedWidth(data: seq<Datum>, ds: seq<Definition>, d: Definition)
    requires d.mark == |data| && d.alignment > 0
    ensures PendingWidth(data, ds + [d]) == Widest(ds + [d], |ds|) == Max(PendingWidth(data, ds), d.alignment)
  {
    hide Widest;
    var ds', n := ds + [d], |ds|;
    WidestUnfolds(ds', n);
    if n > 0 {
      WidestStays(ds, d, n - 1);
      assert ds'[n - 1] == ds[n - 1];
    }
  }

  lemma WidestUnfolds(ds: seq<Definition>, j: nat)
    requires j < |ds|
    ensures Widest(ds, j) == if j > 0 && ds[j - 1].mark == ds[j].mark then Max(Widest(ds, j - 1), ds[j].alignment)
                             else ds[j].alignment
  {}

  lemma NoteInStep(s: State, s': State, ds: seq<Definition>, d: Definition)
    requires WellNoted(s.data, ds) && InStep(s, ds) && d.alignment in {1, 2, 4, 8} && d.mark == |s.data|
    requires d.address == AlignIndex(s.dataIndex, d.alignment) == s'.dataIndex && s'.data == s.data
    ensures WellNoted(s'.data, ds + [d]) && InStep(s', ds + [d])
  {
    var p := PendingWidth(s.data, ds);
    AlignNested(Index(s.data), p, d.alignment);
    NotedWidth(s.data, ds, d);
    NoteWaits(s, s', ds, d);
    hide Index, AlignIndex, Widest, PendingWidth, WaitsRight;
  }

  lemma NoteWaits(s: State, s': State, ds: seq<Definition>, d: Definition)
    requires WellNoted(s.data, ds) && InStep(s, ds) && d.mark == |s.data|
    requires Widest(ds + [d], |ds|) > 0 && d.address == AlignIndex(Index(s.data), Widest(ds + [d], |ds|))
    requires s'.data == s.data
    ensures forall j | 0 <= j <= |ds| && (ds + [d])[j].mark == |s.data| :: WaitsRight(s', ds + [d], j)
  {
    hide Index, AlignIndex, Widest, PendingWidth, WellNoted;
    forall j | 0 <= j <= |ds| && (ds + [d])[j].mark == |s.data| ensures WaitsRight(s', ds + [d], j) {
      if j < |ds| {
        WidestStays(ds, d, j);
        assert WaitsRight(s, ds, j);
      }
    }
  }

  /** A datum that is appended moves no datum before it. */
  lemma Unmoved(data: seq<Datum>, d: Datum, k: nat)
    requires k <= |data|
    ensures Index((data + [d])[..k]) == Index(data[..k])
    ensures k < |data| ==> IndexOf(data + [d], k) == IndexOf(data, k)
    ensures k == |data| ==> IndexOf(data + [d], k) == AlignIndex(Index(data), Alignment(d))
  {
    hide Index, AlignIndex;
    assert (data + [d])[..k] == data[..k];
    assert data[..|data|] == data;
  }

  /** Which labels are placed and harmless once a datum is appended. */
  lemma AppendedLabels(s: State, ds: seq<Definition>, d: Datum)
    requires WellNoted(s.data, ds)
    ensures WellNoted(s.data + [d], ds)
    ensures AllPlaced(s.data + [d], ds)
      <==> AllPlaced(s.data, ds) && AllAt(s.data, ds, AlignIndex(Index(s.data), Alignment(d)))
    ensures AllHarmless(s.data + [d], ds) <==> AllHarmless(s.data, ds) && AllMatch(s.data, ds, d)
  {
    var data' := s.data + [d];
    forall j | 0 <= j < |ds| ensures ds[j].mark < |s.data| ==> (IsPlaced(data', ds, j) <==> IsPlaced(s.data, ds, j)) {
      Unmoved(s.data, d, ds[j].mark);
    }
    forall j | 0 <= j < |ds| ensures ds[j].mark < |s.data| ==> (Harmless(data', ds, j) <==> Harmless(s.data, ds, j)) {
      Unmoved(s.data, d, ds[j].mark);
    }
    forall j | 0 <= j < |ds| && ds[j].mark == |s.data|
      ensures IsPlaced(data', ds, j) <==> ds[j].address == AlignIndex(Index(s.data), Alignment(d))
      ensures Harmless(data', ds, j) <==> Matches(s.data, ds, d, j)
    {
      Unmoved(s.data, d, |s.data|);
      WidestIsAlignment(ds, j);
    }
    hide Harmless, IsPlaced, Matches, Index, AlignIndex;
  }

  /** The alignment pending at label `j` does what the datum's own does. */
  predicate Matches(data: seq<Datum>, ds: seq<Definition>, d: Datum, j: nat)
    requires j < |ds|
  {
    Widest(ds, j) > 0 && AlignIndex(Index(data), Widest(ds, j)) == AlignIndex(Index(data), Alignment(d))
  }

  /** The labels that wait for a datum were recorded at `address`. */
  predicate AllAt(data: seq<Datum>, ds: seq<Definition>, address: U64) {
    forall j | 0 <= j < |ds| && ds[j].mark == |data| :: ds[j].address == address
  }

  predicate AllMatch(data: seq<Datum>, ds: seq<Definition>, d: Datum) {
    forall j | 0 <= j < |ds| && ds[j].mark == |data| :: Matches(data, ds, d, j)
  }

  lemma AppendKeeps(s: State, ds: seq<Definition>, d: Datum)
    requires PlacementInv(s, ds)
    ensures PlacementInv(Append(s, d), ds)
  {
    AppendedLabels(s, ds, d);
    if AllHarmless(s.data, ds) {
      WaitingLabels(s, ds, d);
      if AllMatch(s.data, ds, d) { AppendInStep(s, ds, d); }
    }
    hide AllHarmless, AllPlaced, InStep, AllMatch, Index, AlignIndex, WellNoted, Alignment, Size, Wrap64;
  }

  lemma WaitingLabels(s: State, ds: seq<Definition>, d: Datum)
    requires WellNoted(s.data, ds) && InStep(s, ds)
    ensures AllMatch(s.data, ds, d) <==> AllAt(s.data, ds, AlignIndex(Index(s.data), Alignment(d)))
  {
    hide Index, AlignIndex, Widest;
    forall j | 0 <= j < |ds| && ds[j].mark == |s.data|
      ensures Matches(s.data, ds, d, j) <==> ds[j].address == AlignIndex(Index(s.data), Alignment(d))
    {
      assert WaitsRight(s, ds, j);
    }
    hide Matches;
  }

  lemma AppendInStep(s: State, ds: seq<Definition>, d: Datum)
    requires WellNoted(s.data, ds) && InStep(s, ds) && AllMatch(s.data, ds, d)
    ensures WellNoted(s.data + [d], ds) && InStep(Append(s, d), ds)
  {
    PendingMatches(s.data, ds, d);
    AppendedIndex(s, d, PendingWidth(s.data, ds));
    AlignOne(Index(s.data + [d]));
    NothingPending(s.data, ds, d);
    hide Index, AlignIndex, Widest, Wrap64, Size, Alignment, PendingWidth;
  }

  lemma NothingPending(data: seq<Datum>, ds: seq<Definition>, d: Datum)
    requires WellNoted(data, ds)
    ensures PendingWidth(data + [d], ds) == 1
  {
    hide Widest;
  }

  lemma PendingMatches(data: seq<Datum>, ds: seq<Definition>, d: Datum)
    requires WellNoted(data, ds) && AllMatch(data, ds, d) && PendingIsAlignment(data, ds)
    ensures var i, a := Index(data), Alignment(d);
      AlignIndex(AlignIndex(i, PendingWidth(data, ds)), a) == AlignIndex(i, a)
  {
    AlignAgain(Index(data), Alignment(d));
    AlignOne(Index(data));
    hide Index, AlignIndex, Widest, Alignment;
    if ds != [] && ds[|ds| - 1].mark == |data| { assert Matches(data, ds, d, |ds| - 1); }
  }

  lemma AppendedIndex(s: State, d: Datum, p: nat)
    requires p > 0 && s.dataIndex == AlignIndex(Index(s.data), p)
    requires var i, a := Index(s.data), Alignment(d); AlignIndex(AlignIndex(i, p), a) == AlignIndex(i, a)
    ensures Append(s, d).dataIndex == Index(s.data + [d])
  {
    IndexAppend(s.data, d);
    hide Index, AlignIndex, Wrap64, Size, Alignment;
  }

  lemma {:induction false} AppendAllKeeps(s: State, ds: seq<Definition>, data: seq<Datum>)
    requires PlacementInv(s, ds)
    ensures PlacementInv(AppendAll(s, data), ds)
    decreases |data|
  {
    hide PlacementInv, Append;
    if data != [] {
      AppendAllKeeps(s, ds, data[..|data| - 1]);
      AppendKeeps(AppendAll(s, data[..|data| - 1]), ds, data[|data| - 1]);
    }
  }

  /** The invariant looks at the data and the index alone. */
  lemma OnlyData(s: State, s': State, ds: seq<Definition>)
    requires PlacementInv(s, ds) && (s'.data, s'.dataIndex) == (s.data, s.dataIndex)
    ensures PlacementInv(s', ds)
  {
    hide AllPlaced, AllHarmless, WellNoted, PendingWidth, Index, AlignIndex;
  }

  lemma {:induction false} OperandListKeeps(ts: seq<Token>, s: State, k: DataKind, ds: seq<Definition>)
    requires s.pos <= |ts| && PlacementInv(s, ds)
    ensures PlacementInv(OperandList(ts, s, k), ds)
    decreases |ts| - s.pos
  {
    hide PlacementInv, DataOf, AppendAll;
    var t := Current(ts, s);
    if t.lexeme.Comma? {
      OnlyData(s, Next(s), ds);
      OperandListKeeps(ts, Next(s), k, ds);
    } else if IsOperand(k, t) && s.pos < |ts| {
      var s1 := Operand(s, k, t);
      if DataOf(k, t) == [] { OnlyData(s, s1, ds); } else { AppendAllKeeps(s, ds, DataOf(k, t)); }
      OnlyData(s1, Next(s1), ds);
      OperandListKeeps(ts, Next(s1), k, ds);
    }
  }

  lemma DataStepPlaces(ts: seq<Token>, s: State, ds: seq<Definition>)
    requires s.pos < |ts| && PlacementInv(s, ds)
    ensures PlacementInv(DataStep(ts, s), Noted(ts, s, ds))
  {
    hide PlacementInv, KindOf, KindAlignment, OperandList, AlignIndex;
    var t := Current(ts, s);
    if t.lexeme.Label? {
      AlignOne(s.dataIndex);
      var a := AlignmentAt(ts, s.pos);
      var d := Definition(t.lexeme.name, a, |s.data|, AlignIndex(s.dataIndex, a));
      NoteKeeps(s, DataStep(ts, s), ds, d);
    } else if KindOf(t).Some? {
      OnlyData(s, Next(s), ds);
      OperandListKeeps(ts, Next(s), KindOf(t).value, ds);
    } else {
      OnlyData(s, DataStep(ts, s), ds);
    }
  }

  lemma {:induction false} DataDirectivePlaces(ts: seq<Token>, s: State, ds: seq<Definition>)
    requires s.pos <= |ts| && PlacementInv(s, ds)
    ensures PlacementInv(DataDirective(ts, s), DataDefinitions(ts, s, ds))
    decreases |ts| - s.pos
  {
    hide PlacementInv, DataStep, Noted;
    if !EndsSection(Current(ts, s)) {
      DataStepPlaces(ts, s, ds);
      DataDirectivePlaces(ts, DataStep(ts, s), Noted(ts, s, ds));
    }
  }

  lemma {:induction false} FirstPassPlaces(ts: seq<Token>, s: State, ds: seq<Definition>)
    requires s.pos <= |ts| && Terminates(ts) && Live(ts, s.pos) && PlacementInv(s, ds)
    ensures PlacementInv(FirstPass(ts, s), Definitions(ts, s, ds))
    decreases |ts| - s.pos
  {
    hide PlacementInv, Terminates, Live, DataDirective, DataDefinitions, Sticks, SkipTo, Spells;
    if !Current(ts, s).lexeme.Eof? {
      FirstStepLives(ts, s);
      var t, s' := Current(ts, s), FirstStep(ts, s);
      if IsDirective(t, KwData) {
        OnlyData(s, Next(s), ds);
        DataDirectivePlaces(ts, Next(s), ds);
        Advances(ts, s);
        FirstPassPlaces(ts, s', DataDefinitions(ts, Next(s), ds));
      } else {
        OnlyData(s, s', ds);
        Advances(ts, s);
        FirstPassPlaces(ts, s', ds);
      }
    }
  }

  /** Every label is recorded where the datum after it goes, at every place it is defined, exactly if each has a datum
      after it and the widest alignment pending at each is harmless: aligning the end of the data so far to it gives the
      place of that datum. */
  lemma LabelsPlacedIff(ts: seq<Token>)
    requires Terminates(ts)
    ensures var data, ds := FirstPass(ts, INITIAL).data, Definitions(ts, INITIAL, []);
      && WellNoted(data, ds)
      && ((forall j | 0 <= j < |ds| :: ds[j].mark < |data| && IsPlaced(data, ds, j))
          <==> forall j | 0 <= j < |ds| :: ds[j].mark < |data| && Harmless(data, ds, j))
  {
    StartsPlaced();
    FirstPassPlaces(ts, INITIAL, []);
    hide FirstPass, Definitions, IsPlaced, Harmless, InStep;
  }

  lemma StartsPlaced()
    ensures PlacementInv(INITIAL, [])
  {
    AlignOne(0);
  }

  /** Every label has a datum after it, and the alignment pending at it is harmless. */
  predicate HarmlessLabels(ts: seq<Token>)
    requires Terminates(ts)
  {
    var data, ds := FirstPass(ts, INITIAL).data, Definitions(ts, INITIAL, []);
    WellNoted(data, ds) && forall j | 0 <= j < |ds| :: ds[j].mark < |data| && Harmless(data, ds, j)
  }

  // ----- the symbol table -----

  /** A label was defined with this mark and address. */
  predicate Defines(ds: seq<Definition>, n: Name, mark: nat, address: U64) {
    exists j | 0 <= j < |ds| :: ds[j].name == n && ds[j].mark == mark && ds[j].address == address
  }

  /** Every symbol stands for one of the definitions of its name. */
  predicate SymbolsDefined(s: State, ds: seq<Definition>) {
    forall n <- s.symbols :: n in s.marks && Defines(ds, n, s.marks[n], s.symbols[n].address)
  }

  lemma {:induction false} OperandsDefineNothing(ts: seq<Token>, s: State, k: DataKind)
    requires s.pos <= |ts|
    ensures var s' := OperandList(ts, s, k); s'.symbols == s.symbols && s'.marks == s.marks
    decreases |ts| - s.pos
  {
    hide DataOf;
    var t := Current(ts, s);
    if t.lexeme.Comma? { OperandsDefineNothing(ts, Next(s), k); }
    else if IsOperand(k, t) && s.pos < |ts| { OperandsDefineNothing(ts, Next(Operand(s, k, t)), k); }
  }

  lemma DataStepDefines(ts: seq<Token>, s: State, ds: seq<Definition>)
    requires s.pos < |ts| && SymbolsDefined(s, ds)
    ensures SymbolsDefined(DataStep(ts, s), Noted(ts, s, ds))
  {
    hide KindOf, KindAlignment, OperandList, AlignIndex;
    var t, s', ds' := Current(ts, s), DataStep(ts, s), Noted(ts, s, ds);
    if t.lexeme.Label? {
      AlignOne(s.dataIndex);
      forall n <- s'.symbols ensures n in s'.marks && Defines(ds', n, s'.marks[n], s'.symbols[n].address) {
        if n == t.lexeme.name { assert ds'[|ds|].name == n; } else {
          var j :| 0 <= j < |ds| && ds[j].name == n && ds[j].mark == s.marks[n]
            && ds[j].address == s.symbols[n].address;
          assert ds'[j] == ds[j];
        }
      }
    } else if KindOf(t).Some? {
      OperandsDefineNothing(ts, Next(s), KindOf(t).value);
    }
  }

  lemma {:induction false} DataDirectiveDefines(ts: seq<Token>, s: State, ds: seq<Definition>)
    requires s.pos <= |ts| && SymbolsDefined(s, ds)
    ensures SymbolsDefined(DataDirective(ts, s), DataDefinitions(ts, s, ds))
    decreases |ts| - s.pos
  {
    hide SymbolsDefined, DataStep, Noted;
    if !EndsSection(Current(ts, s)) {
      DataStepDefines(ts, s, ds);
      DataDirectiveDefines(ts, DataStep(ts, s), Noted(ts, s, ds));
    }
  }

  lemma {:induction false} FirstPassDefines(ts: seq<Token>, s: State, ds: seq<Definition>)
    requires s.pos <= |ts| && Terminates(ts) && Live(ts, s.pos) && SymbolsDefined(s, ds)
    ensures SymbolsDefined(FirstPass(ts, s), Definitions(ts, s, ds))
    decreases |ts| - s.pos
  {
    hide Defines, Terminates, Live, DataDirective, DataDefinitions, Sticks, SkipTo, Spells;
    if !Current(ts, s).lexeme.Eof? {
      FirstStepLives(ts, s);
      Advances(ts, s);
      if IsDirective(Current(ts, s), KwData) {
        DataDirectiveDefines(ts, Next(s), ds);
        hide SymbolsDefined;
        FirstPassDefines(ts, FirstStep(ts, s), DataDefinitions(ts, Next(s), ds));
      } else {
        FirstPassDefines(ts, FirstStep(ts, s), ds);
      }
    }
  }

  /** So in a data section with a datum after every label and every pending alignment harmless, each symbol is the place
      that the parser's layout, and modulo 2^32 the loader, give the datum after it. */
  lemma SymbolsArePlaced(ts: seq<Token>)
    requires Terminates(ts) && HarmlessLabels(ts)
    ensures var s := FirstPass(ts, INITIAL);
      forall n <- s.symbols ::
        && n in s.marks && s.marks[n] < |s.data| && s.symbols[n].address == IndexOf(s.data, s.marks[n])
        && Wrap32(s.symbols[n].address) == Placed(s.data, s.marks[n])
  {
    var s, ds := FirstPass(ts, INITIAL), Definitions(ts, INITIAL, []);
    LabelsPlacedIff(ts);
    FirstPassDefines(ts, INITIAL, []);
    hide FirstPass, Definitions, Harmless, Placed, IndexOf, WellNoted;
    forall n <- s.symbols
      ensures s.marks[n] < |s.data| && s.symbols[n].address == IndexOf(s.data, s.marks[n])
      ensures Wrap32(s.symbols[n].address) == Placed(s.data, s.marks[n])
    {
      assert Defines(ds, n, s.marks[n], s.symbols[n].address);
      var j :| 0 <= j < |ds| && ds[j].name == n && ds[j].mark == s.marks[n] && ds[j].address == s.symbols[n].address;
      assert IsPlaced(s.data, ds, j);
      IndexOfIsPlaced(s.data, s.marks[n]);
    }
  }

  // ----- a section that fails -----

  /** `.data a: .byte 1 b: .dword c: .byte 2`, on one line. */
  predicate EmptyDword(ts: seq<Token>, a: Name, b: Name, c: Name) {
    && |ts| == 9 && a.Spelled? && b.Spelled? && c.Spelled? && b != c
    && ts[0] == Token(Directive(KwData), 1)
    && ts[1] == Token(Label(a), 1) && ts[2] == Token(Directive(KwByte), 1) && ts[3] == Token(Num(1), 1)
    && ts[4] == Token(Label(b), 1) && ts[5] == Token(Directive(KwDword), 1)
    && ts[6] == Token(Label(c), 1) && ts[7] == Token(Directive(KwByte), 1) && ts[8] == Token(Num(2), 1)
  }

  lemma SectionGoesOn(ts: seq<Token>, s: State)
    requires s.pos < |ts| && !EndsSection(ts[s.pos])
    ensures DataDirective(ts, s) == DataDirective(ts, DataStep(ts, s))
  {
    hide DataStep, EndsSection;
  }

  lemma NoEnd(t: Token)
    requires t.lexeme == Directive(KwByte) || t.lexeme == Directive(KwDword)
      || (t.lexeme.Label? && t.lexeme.name.Spelled?)
    ensures !EndsSection(t)
  {}

  /** The state when the label `n` was recorded at `x`. */
  function Labelled(s: State, n: Name, x: U64): State {
    s.(pos := s.pos + 1, dataIndex := x, symbols := s.symbols[n := Symbol(x, 1, true)], marks := s.marks[n := |s.data|])
  }

  lemma LabelTurn(ts: seq<Token>, s: State, n: Name, k: DataKind)
    requires s.pos + 1 < |ts| && ts[s.pos] == Token(Label(n), 1) && n.Spelled? && (k == KDword || k == KByte)
    requires ts[s.pos + 1].lexeme == Directive(if k == KDword then KwDword else KwByte)
    ensures DataDirective(ts, s) == DataDirective(ts, Labelled(s, n, AlignIndex(s.dataIndex, KindAlignment(k))))
  {
    KindNamed(ts[s.pos + 1], k);
    hide DataStep, DataDirective, AlignIndex, KindAlignment, KindOf, EndsSection;
    NoEnd(ts[s.pos]);
    LabelledStep(ts, s, k);
    SectionGoesOn(ts, s);
  }

  lemma KindNamed(t: Token, k: DataKind)
    requires (k == KDword && t.lexeme == Directive(KwDword)) || (k == KByte && t.lexeme == Directive(KwByte))
    ensures KindOf(t) == Some(k)
  {}

  lemma ByteTurn(ts: seq<Token>, s: State, n: U8)
    requires s.pos + 1 < |ts| && ts[s.pos].lexeme == Directive(KwByte) && ts[s.pos + 1].lexeme == Num(n)
    requires var t := Peek(ts, s.pos + 2).lexeme; !t.Comma? && !t.Num?
    ensures DataDirective(ts, s) == DataDirective(ts, Append(s, Byte(n)).(pos := s.pos + 2))
  {
    hide DataStep, DataDirective, Append, EndsSection;
    NoEnd(ts[s.pos]);
    ByteStep(ts, s, n);
    SectionGoesOn(ts, s);
  }

  lemma EmptyTurn(ts: seq<Token>, s: State)
    requires s.pos + 1 < |ts| && ts[s.pos].lexeme == Directive(KwDword) && ts[s.pos + 1].lexeme.Label?
    ensures DataDirective(ts, s) == DataDirective(ts, Next(s))
  {
    hide DataStep, DataDirective, EndsSection;
    NoEnd(ts[s.pos]);
    EmptyStep(ts, s);
    SectionGoesOn(ts, s);
  }

  /** `s` with a label `n` recorded at `x` and the data `ds` after it. */
  predicate Grown(s: State, s': State, n: Name, x: U64, ds: seq<Datum>) {
    && s'.errors == s.errors && s'.data == s.data + ds
    && s'.symbols == s.symbols[n := Symbol(x, 1, true)] && s'.marks == s.marks[n := |s.data|]
  }

  /** A label with its byte. */
  lemma ByteLabelTurn(ts: seq<Token>, s: State, n: Name, v: U8) returns (s': State)
    requires s.pos + 2 < |ts| && ts[s.pos] == Token(Label(n), 1) && n.Spelled? && s.dataIndex < 100
    requires ts[s.pos + 1].lexeme == Directive(KwByte) && ts[s.pos + 2].lexeme == Num(v)
    requires var t := Peek(ts, s.pos + 3).lexeme; !t.Comma? && !t.Num?
    ensures s'.pos == s.pos + 3 && s'.dataIndex == s.dataIndex + 1 && Grown(s, s', n, s.dataIndex, [Byte(v)])
    ensures DataDirective(ts, s) == DataDirective(ts, s')
  {
    hide DataDirective;
    AlignOne(s.dataIndex);
    LabelTurn(ts, s, n, KByte);
    var s1 := Labelled(s, n, s.dataIndex);
    ByteTurn(ts, s1, v);
    s' := Append(s1, Byte(v)).(pos := s.pos + 3);
  }

  /** A label with an empty `.dword`. */
  lemma DwordLabelTurn(ts: seq<Token>, s: State, n: Name) returns (s': State)
    requires s.pos + 2 < |ts| && ts[s.pos] == Token(Label(n), 1) && n.Spelled?
    requires ts[s.pos + 1].lexeme == Directive(KwDword) && ts[s.pos + 2].lexeme.Label?
    ensures s'.pos == s.pos + 2 && s'.dataIndex == AlignIndex(s.dataIndex, 8) && Grown(s, s', n, s'.dataIndex, [])
    ensures DataDirective(ts, s) == DataDirective(ts, s')
  {
    hide DataDirective, AlignIndex;
    LabelTurn(ts, s, n, KDword);
    var s1 := Labelled(s, n, AlignIndex(s.dataIndex, 8));
    EmptyTurn(ts, s1);
    s' := Next(s1);
  }

  /** The parser recorded `b` and `c` at 8, and the loader puts the datum after them at 1. */
  predicate Misplaced(s: State, b: Name, c: Name) {
    && s.errors == [] && b in s.symbols && c in s.symbols && b in s.marks && c in s.marks
    && s.symbols[b].address == s.symbols[c].address == 8
    && s.marks[b] == s.marks[c] == 1 && |s.data| == 2 && Placed(s.data, 1) == 1
  }

  lemma ByteAtOne()
    ensures Placed([] + [Byte(1)] + [] + [Byte(2)], 1) == 1 && AlignIndex(1, 8) == 8
  {
    var data := [] + [Byte(1)] + [] + [Byte(2)];
    assert data[..1] == [Byte(1)] && [Byte(1)][..0] == [];
  }

  lemma DirectiveRuns(ts: seq<Token>, a: Name, b: Name, c: Name)
    requires EmptyDword(ts, a, b, c)
    ensures var s := DataDirective(ts, Next(INITIAL)); s.pos == 9 && Misplaced(s, b, c)
  {
    hide DataDirective, AlignIndex, Placed;
    var s0 := Next(INITIAL);
    var s1 := ByteLabelTurn(ts, s0, a, 1);
    ByteAtOne();
    var s2 := DwordLabelTurn(ts, s1, b);
    var s3 := ByteLabelTurn(ts, s2, c, 2);
    SectionStops(ts, s3);
  }

  lemma SectionStops(ts: seq<Token>, s: State)
    requires s.pos == |ts|
    ensures DataDirective(ts, s) == s
  {}

  lemma NeverSticks(ts: seq<Token>, a: Name, b: Name, c: Name)
    requires EmptyDword(ts, a, b, c)
    ensures Terminates(ts)
  {
    forall i | 0 <= i < |ts| ensures !Sticks(ts[i]) {}
  }

  /** A first pass over one data directive. */
  lemma OnePass(ts: seq<Token>)
    requires Terminates(ts) && ts != [] && ts[0].lexeme == Directive(KwData)
    requires DataDirective(ts, Next(INITIAL)).pos == |ts|
    ensures FirstPass(ts, INITIAL) == DataDirective(ts, Next(INITIAL))
  {
    hide DataDirective, Terminates;
    FirstStepLives(ts, INITIAL);
    var s := FirstStep(ts, INITIAL);
    assert s == DataDirective(ts, Next(INITIAL));
    hide FirstStep;
    assert FirstPass(ts, s) == s;
  }

  /** On this section, which has no error, the layouts disagree. */
  lemma EmptyDwordMisplaces(ts: seq<Token>, a: Name, b: Name, c: Name)
    requires EmptyDword(ts, a, b, c)
    ensures Terminates(ts) && Misplaced(FirstPass(ts, INITIAL), b, c)
  {
    DirectiveRuns(ts, a, b, c);
    NeverSticks(ts, a, b, c);
    hide DataDirective, Misplaced, FirstPass, Terminates;
    OnePass(ts);
  }

  /** There is such a section. */
  lemma EmptyDwordExists()
    ensures EmptyDword([Token(Directive(KwData), 1), Token(Label(Spelled("a")), 1), Token(Directive(KwByte), 1),
                        Token(Num(1), 1), Token(Label(Spelled("b")), 1), Token(Directive(KwDword), 1),
                        Token(Label(Spelled("c")), 1), Token(Directive(KwByte), 1), Token(Num(2), 1)],
                       Spelled("a"), Spelled("b"), Spelled("c"))
  {
    assert "b"[0] != "c"[0];
  }
}
