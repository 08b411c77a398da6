/** The disassembly listing and its line index (`DumpDisasssembly` in src/utils.cpp), with the output as a sequence of
    lines. */
module Disassembly {
  import opened Words
  import opened Wrappers
  import opened Tokens
  import opened CodeGenerator
  import opened ParseFormats

  /** A label line, the blank line before it, or the line of an instruction; the word is missing when the text buffer
      is shorter than the code. */
  datatype Line =
    | Blank | LabelLine(address: U32, name: Name)
    | CodeLine(number: nat, address: U32, word: Option<U32>, unit: ICUnit)

  function WordAt(text: seq<U32>, k: nat): Option<U32> { if k < |text| then Some(text[k]) else None }

  /** The labels of the text by address, from the symbols in the order of the symbol table. */
  function TextLabels(symbols: seq<(Name, Symbol)>): map<U64, Name>
    decreases |symbols|
  {
    if symbols == [] then map[] else
    var rest, (name, symbol) := TextLabels(symbols[..|symbols| - 1]), symbols[|symbols| - 1];
    if symbol.isData then rest else rest[symbol.address := name]
  }

  /** Symbol `i` is a text label at `a`. */
  predicate LabelsAt(symbols: seq<(Name, Symbol)>, i: nat, a: U64)
    requires i < |symbols|
  {
    !symbols[i].1.isData && symbols[i].1.address == a
  }

  predicate IsLastAt(symbols: seq<(Name, Symbol)>, i: nat, a: U64, name: Name)
    requires i < |symbols|
  {
    LabelsAt(symbols, i, a) && symbols[i].0 == name && forall j | i < j < |symbols| :: !LabelsAt(symbols, j, a)
  }

  /** An address has a label exactly if some text symbol stands there, and of several the last one is shown. */
  lemma {:induction false} LastLabelIsShown(symbols: seq<(Name, Symbol)>, a: U64)
    ensures a in TextLabels(symbols) <==> exists i | 0 <= i < |symbols| :: LabelsAt(symbols, i, a)
    ensures a in TextLabels(symbols) ==> exists i | 0 <= i < |symbols| ::
      IsLastAt(symbols, i, a, TextLabels(symbols)[a])
    decreases |symbols|
  {
    if symbols != [] {
      var n := |symbols| - 1;
      var init: seq<(Name, Symbol)> := symbols[..n];
      LastLabelIsShown(init, a);
      assert forall i | 0 <= i < n :: LabelsAt(init, i, a) == LabelsAt(symbols, i, a);
      if LabelsAt(symbols, n, a) { assert IsLastAt(symbols, n, a, symbols[n].0); }
      else if a in TextLabels(init) {
        var i :| 0 <= i < n && IsLastAt(init, i, a, TextLabels(init)[a]);
        assert IsLastAt(symbols, i, a, TextLabels(init)[a]);
      }
    }
  }

  /** The label table: text labels by address, with `start` at 0 unless the program labels it. */
  function WithStart(labels: map<U64, Name>): map<U64, Name> {
    if 0 in labels then labels else labels[0 := Spelled("start")]
  }

  /** The lines of instruction `k`; a blank line separates a label from what is above it. */
  function Block(labels: map<U64, Name>, code: seq<(ICUnit, bool)>, text: seq<U32>, k: nat): (b: seq<Line>)
    requires k < |code|
    ensures 1 <= |b| && b[|b| - 1] == CodeLine(k, TextAddress(k), WordAt(text, k), code[k].0)
    ensures forall i | 0 <= i < |b| - 1 :: !b[i].CodeLine?
  {
    var a := TextAddress(k);
    var heading := if a in labels then (if k > 0 then [Blank] else []) + [LabelLine(a, labels[a])] else [];
    heading + [CodeLine(k, a, WordAt(text, k), code[k].0)]
  }

  /** The listing of the first `n` instructions. */
  function Listing(labels: map<U64, Name>, code: seq<(ICUnit, bool)>, text: seq<U32>, n: nat): (lines: seq<Line>)
    requires n <= |code|
    ensures |lines| >= n
  {
    if n == 0 then [] else Listing(labels, code, text, n - 1) + Block(labels, code, text, n - 1)
  }

  method LabelTable(symbols: seq<(Name, Symbol)>) returns (labels: map<U64, Name>)
    ensures labels == WithStart(TextLabels(symbols))
  {
    labels := map[];
    for i := 0 to |symbols|
      invariant labels == TextLabels(symbols[..i])
    {
      assert symbols[..i + 1][..i] == symbols[..i];
      if !symbols[i].1.isData { labels := labels[symbols[i].1.address := symbols[i].0]; }
    }
    assert symbols[..|symbols|] == symbols;
    if 0 !in labels { labels := labels[0 := Spelled("start")]; }
  }

  method DumpDisassembly(symbols: seq<(Name, Symbol)>, code: seq<(ICUnit, bool)>, text: seq<U32>)
    returns (lines: seq<Line>, index: map<nat, nat>)
    ensures lines == Listing(WithStart(TextLabels(symbols)), code, text, |code|)
    ensures forall k <- index :: k < |code|
    ensures forall k | 0 <= k < |code| ::
      k in index && index[k] == |Listing(WithStart(TextLabels(symbols)), code, text, k + 1)|
  {
    hide TextAddress, WordAt, TextLabels, WithStart;
    var labels := LabelTable(symbols);
    lines, index := [], map[];
    var lineNumber := 1;
    for k := 0 to |code|
      invariant lineNumber == |lines| + 1 && lines == Listing(labels, code, text, k)
      invariant forall j <- index :: j < k
      invariant forall j | 0 <= j < k :: j in index && index[j] == |Listing(labels, code, text, j + 1)|
    {
      ghost var before := lines;
      var address := TextAddress(k);
      if address in labels {
        if lineNumber > 1 {
          lines := lines + [Blank];
          lineNumber := lineNumber + 1;
        }
        lines := lines + [LabelLine(address, labels[address])];
        lineNumber := lineNumber + 1;
      }
      lines := lines + [CodeLine(k, address, WordAt(text, k), code[k].0)];
      assert lines == before + Block(labels, code, text, k);
      index := index[k := lineNumber];
      lineNumber := lineNumber + 1;
    }
  }

  /** What is listed stays, and every instruction adds lines. */
  lemma {:induction false} ListingGrows(labels: map<U64, Name>, code: seq<(ICUnit, bool)>, text: seq<U32>, j: nat,
    k: nat)
    requires j <= k <= |code|
    ensures var (a, b) := (Listing(labels, code, text, j), Listing(labels, code, text, k));
      |b| >= |a| + (k - j) && b[..|a|] == a
    decreases k
  {
    hide Block;
    if j < k { ListingGrows(labels, code, text, j, k - 1); }
  }

  /** The index of an instruction is the 1-based number of the line that holds it, label and blank lines counted, and
      the index is strictly increasing. */
  lemma IndexIsLine(labels: map<U64, Name>, code: seq<(ICUnit, bool)>, text: seq<U32>, k: nat, j: nat)
    requires j <= k < |code|
    ensures var (lines, line) := (Listing(labels, code, text, |code|), |Listing(labels, code, text, k + 1)|);
      && 1 <= line <= |lines| && lines[line - 1] == CodeLine(k, TextAddress(k), WordAt(text, k), code[k].0)
      && (j < k ==> |Listing(labels, code, text, j + 1)| < line)
  {
    hide Block, TextAddress, WordAt;
    ListingGrows(labels, code, text, k + 1, |code|);
    if j < k { ListingGrows(labels, code, text, j + 1, k + 1); }
    var lines, upTo := Listing(labels, code, text, |code|), Listing(labels, code, text, k + 1);
    assert lines[..|upTo|][|upTo| - 1] == lines[|upTo| - 1];
  }

  /** Every instruction line is indexed: the listing has no others. */
  lemma {:induction false} LinesAreIndexed(labels: map<U64, Name>, code: seq<(ICUnit, bool)>, text: seq<U32>, n: nat,
    i: nat)
    requires n <= |code| && i < |Listing(labels, code, text, n)| && Listing(labels, code, text, n)[i].CodeLine?
    ensures var k := Listing(labels, code, text, n)[i].number;
      k < n && |Listing(labels, code, text, k + 1)| == i + 1
    decreases n
  {
    hide Block, TextAddress, WordAt;
    if n > 0 && i < |Listing(labels, code, text, n - 1)| { LinesAreIndexed(labels, code, text, n - 1, i); }
  }

  // ----- headings -----

  /** The instructions after the first, up to `k`, that stand at a label. */
  function Headed(labels: map<U64, Name>, k: nat): (r: set<nat>)
    ensures forall j :: j in r <==> 0 < j <= k && TextAddress(j) in labels
  {
    set j: nat | 0 < j <= k && TextAddress(j) in labels
  }

  lemma HeadedGrows(labels: map<U64, Name>, k: nat)
    requires k > 0
    ensures |Headed(labels, k)| == |Headed(labels, k - 1)| + if TextAddress(k) in labels then 1 else 0
  {
    hide TextAddress;
    var before, now := Headed(labels, k - 1), Headed(labels, k);
    if TextAddress(k) in labels { assert now == before + {k}; } else { assert now == before; }
  }

  lemma {:induction false} HeadingsCounted(labels: map<U64, Name>, code: seq<(ICUnit, bool)>, text: seq<U32>, k: nat)
    requires k < |code| && 0 in labels
    ensures |Listing(labels, code, text, k + 1)| == k + 2 + 2 * |Headed(labels, k)|
  {
    FirstAddress();
    hide TextAddress, WordAt, Headed;
    BlockHeading(labels, code, text, k);
    if k == 0 {
      NoneHeaded(labels);
      assert Listing(labels, code, text, 0) == [];
    } else {
      HeadingsCounted(labels, code, text, k - 1);
      HeadedGrows(labels, k);
    }
  }

  lemma FirstAddress()
    ensures TextAddress(0) == 0
  {}

  lemma NoneHeaded(labels: map<U64, Name>)
    ensures |Headed(labels, 0)| == 0
  {
    assert Headed(labels, 0) == {};
  }

  /** The lines that an instruction adds: its own, and above it its label, set off by a blank line from what is
      above. */
  lemma BlockHeading(labels: map<U64, Name>, code: seq<(ICUnit, bool)>, text: seq<U32>, k: nat)
    requires k < |code|
    ensures var (a, b) := (TextAddress(k), Block(labels, code, text, k));
      if a !in labels then |b| == 1
      else |b| == (if k == 0 then 2 else 3) && b[|b| - 2] == LabelLine(a, labels[a]) && (k > 0 ==> b[0] == Blank)
  {
    hide TextAddress;
  }

  /** The lines of an instruction end where its index says. */
  lemma Embedded(labels: map<U64, Name>, code: seq<(ICUnit, bool)>, text: seq<U32>, k: nat)
    requires k < |code|
    ensures var (lines, n) := (Listing(labels, code, text, |code|), |Listing(labels, code, text, k + 1)|);
      var b := Block(labels, code, text, k);
      |b| <= n <= |lines| && n - |b| == |Listing(labels, code, text, k)| && lines[n - |b|..n] == b
  {
    hide Block;
    ListingGrows(labels, code, text, k + 1, |code|);
    var lines, upTo := Listing(labels, code, text, |code|), Listing(labels, code, text, k + 1);
    assert lines[..|upTo|] == upTo == Listing(labels, code, text, k) + Block(labels, code, text, k);
  }

  /** The lines just above that of instruction `k`, which is line `i`. */
  predicate HeadedAt(lines: seq<Line>, labels: map<U64, Name>, k: nat, i: nat) {
    && i < |lines| && lines[i].CodeLine? && lines[i].number == k
    && if TextAddress(k) in labels then
         && i > 0 && lines[i - 1] == LabelLine(TextAddress(k), labels[TextAddress(k)])
         && (k > 0 ==> i >= 3 && lines[i - 2] == Blank && lines[i - 3].CodeLine? && lines[i - 3].number == k - 1)
       else k > 0 ==> i > 0 && lines[i - 1].CodeLine? && lines[i - 1].number == k - 1
  }

  lemma LinesAbove(labels: map<U64, Name>, code: seq<(ICUnit, bool)>, text: seq<U32>, k: nat)
    requires k < |code|
    ensures HeadedAt(Listing(labels, code, text, |code|), labels, k, |Listing(labels, code, text, k + 1)| - 1)
  {
    hide TextAddress, WordAt, Block, Listing;
    BlockHeading(labels, code, text, k);
    Embedded(labels, code, text, k);
    IndexIsLine(labels, code, text, k, 0);
    if k > 0 { IndexIsLine(labels, code, text, k - 1, 0); }
    var lines, n := Listing(labels, code, text, |code|), |Listing(labels, code, text, k + 1)|;
    var b := Block(labels, code, text, k);
    assert forall j | 0 <= j < |b| :: b[j] == lines[n - |b| + j];
  }

  /** What stands above instruction `k` in the listing: at a label, the line of that label, and above it a blank line
      unless it is the first; otherwise the instruction before. The index of an instruction counts these lines, and the
      first instruction always has a label. */
  lemma InstructionIsHeaded(symbols: seq<(Name, Symbol)>, code: seq<(ICUnit, bool)>, text: seq<U32>, k: nat)
    requires k < |code|
    ensures var labels := WithStart(TextLabels(symbols));
      var index := |Listing(labels, code, text, k + 1)|;
      && index == k + 2 + 2 * |Headed(labels, k)|
      && HeadedAt(Listing(labels, code, text, |code|), labels, k, index - 1)
      && (k == 0 ==> TextAddress(k) in labels)
  {
    hide *;
    var labels := WithStart(TextLabels(symbols));
    StartLabelled(TextLabels(symbols));
    FirstAddress();
    HeadingsCounted(labels, code, text, k);
    LinesAbove(labels, code, text, k);
  }

  lemma StartLabelled(labels: map<U64, Name>)
    ensures 0 in WithStart(labels)
  {}

  /** The label that heads an address: the last text symbol there, or `start` at 0 when there is none. */
  lemma HeadingIsLabel(symbols: seq<(Name, Symbol)>, a: U64)
    ensures var labels := WithStart(TextLabels(symbols));
      && (a in labels <==> a == 0 || exists i | 0 <= i < |symbols| :: LabelsAt(symbols, i, a))
      && (a in labels ==> if exists i | 0 <= i < |symbols| :: LabelsAt(symbols, i, a)
            then exists i | 0 <= i < |symbols| :: IsLastAt(symbols, i, a, labels[a])
            else labels[a] == Spelled("start"))
  {
    LastLabelIsShown(symbols, a);
    hide TextLabels, LabelsAt, IsLastAt;
  }
}
