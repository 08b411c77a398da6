/** From assembly source to control flow: what a program assembled without errors is once it is loaded. */
module EndToEnd {
  import opened Words
  import opened Wrappers
  import opened Instructions
  import opened Tokens
  import opened CodeGenerator
  import opened ImmGenerator
  import opened Decoder
  import opened FlatMemory
  import opened ParseFormats
  import opened ParserSpec
  import opened ParserProof
  import opened DataLayout
  import opened Placement
  import VmBase
  import opened LoadedImage
  import Assembler
  import Datapath
  import Alu
  import opened AluLaws

  /** `p` is the program that `assemble` makes of `ts`. */
  predicate Assembles(ts: seq<Token>, o: Options, p: VmBase.Program)
    requires Terminates(ts)
  {
    Parse(ts, o).errors == [] && Assembler.Translates(p, Parse(ts, o))
  }

  /** The word that instruction `i` is fetched as. */
  ghost function Fetched(m: Flat, o: Options, p: VmBase.Program, i: nat): U32 {
    LoadLE(VmBase.Image(m, o.dataStart, p), 4 * i, 4)
  }

  // ----- code -----

  lemma UnitIsFetched(ts: seq<Token>, o: Options, p: VmBase.Program, m: Flat, i: nat)
    requires Terminates(ts) && Assembles(ts, o, p) && Separate(o.dataStart, p) && i < |p.text|
    ensures var s := Parse(ts, o);
      && |s.code| == |p.text| && Settled(s.code[i].0, i, s.symbols) && Generable(s.code[i].0)
      && LabelsPlaced(s) && s.index == |s.code| && Fetched(m, o, p, i) == Generate(Instruction(s.code[i].0).value)
  {
    hide Parse, Settled, Generable, LabelsPlaced, Separate, VmBase.Image, LoadLE;
    CleanParse(ts, o);
    ImageIsLoaded(m, o.dataStart, p);
  }

  /** The generator does not see what normalising drops. */
  lemma GenerateNormal(i: Inst)
    ensures Generate(i) == Generate(Normal(i))
  {
    hide GenerateR, GenerateI1, GenerateI2, GenerateStore, GenerateB, GenerateJ, GenerateFR, GenerateFR1, GenerateFR2,
      GenerateFR3, GenerateFR4, GenerateFI, GenerateCsrR, GenerateCsrI, EncodingU;
    if i.InstU? { UpperCut(i.imm); }
  }

  lemma UpperCut(imm: int)
    ensures Bits(Wrap32(imm), 1, 0x10_0000) == Bits(Wrap32(imm % 0x10_0000), 1, 0x10_0000)
  {
    var q, r := imm / 0x10_0000, imm % 0x10_0000;
    var k := q / 0x1000;
    DivUnique(imm, k, (q % 0x1000) * 0x10_0000 + r, B32);
    DivUnique(Wrap32(imm), q % 0x1000, r, 0x10_0000);
  }

  /** The operands of a unit that has a label. */
  lemma LabelledUnit(u: ICUnit, index: nat, symbols: SymbolTable)
    requires Settled(u, index, symbols) && Generable(u) && u.target.Some? && u.target.value in symbols
    requires symbols[u.target.value].address % 4 == 0 && symbols[u.target.value].address < B32
    ensures var i := Instruction(u).value;
      (i.InstB? || i.InstJal?) && WellFormed(i) && i.imm == symbols[u.target.value].address - TextAddress(index)
  {
    TextDistance(symbols[u.target.value].address, index);
  }

  lemma TextDistance(address: U64, index: nat)
    requires address % 4 == 0 && address < B32
    ensures Offset(address, index) == address - TextAddress(index) && Offset(address, index) % 2 == 0
  {
    VmBase.SizeIsAligned(index);
    var d := address - TextAddress(index);
    SignedWrap64(d);
    DivUnique(d, 2 * (address / 4 - TextAddress(index) / 4), 0, 2);
  }

  /** A jal to a data label: the one kind of unit whose operand no target determines. */
  predicate JumpsToData(u: ICUnit, symbols: SymbolTable) {
    u.target.Some? && u.target.value in symbols && symbols[u.target.value].isData
  }

  lemma SettledWellFormed(u: ICUnit, index: nat, s: State)
    requires Settled(u, index, s.symbols) && Generable(u) && LabelsPlaced(s) && !JumpsToData(u, s.symbols)
    ensures WellFormed(Normal(Instruction(u).value))
  {
    if u.target.Some? {
      VmBase.SizeIsAligned(s.marks[u.target.value]);
      LabelledUnit(u, index, s.symbols);
    }
    hide Instruction, InReach, Offset;
  }

  /** Every instruction is fetched as the word generated for it, and, unless it is a jal to a data label, that word
      decodes to exactly its mnemonic and operands. */
  lemma CodeDecodes(ts: seq<Token>, o: Options, p: VmBase.Program, m: Flat, i: nat)
    requires Terminates(ts) && Assembles(ts, o, p) && Separate(o.dataStart, p) && i < |p.text|
    requires !JumpsToData(Parse(ts, o).code[i].0, Parse(ts, o).symbols)
    ensures Instruction(Parse(ts, o).code[i].0).Ok?
    ensures var inst := Normal(Instruction(Parse(ts, o).code[i].0).value);
      && WellFormed(inst)
      && Fetched(m, o, p, i) == Generate(inst) && Decode(Fetched(m, o, p, i)) == Some(inst)
  {
    hide Parse, Assembles, Separate, Decode, Generate, Instruction, LabelsPlaced, Fetched, WellFormed, Normal,
      Settled, JumpsToData;
    UnitIsFetched(ts, o, p, m, i);
    var u := Parse(ts, o).code[i].0;
    SettledWellFormed(u, i, Parse(ts, o));
    GenerateNormal(Instruction(u).value);
    DecodeInvertsGenerate(Normal(Instruction(u).value));
  }

  /** Control flow, end to end. A branch or jal that names a text label, resolved when it was parsed or patched
      later, is fetched from 4*i as a word whose decoded immediate, added to that program counter, is the address
      of the label: the address of the instruction that follows it. */
  lemma BranchReachesLabel(ts: seq<Token>, o: Options, p: VmBase.Program, m: Flat, i: nat, name: Name)
    requires Terminates(ts) && Assembles(ts, o, p) && Separate(o.dataStart, p) && i < |p.text|
    requires var s := Parse(ts, o); s.code[i].0.target == Some(name) && name in s.symbols && !s.symbols[name].isData
    ensures var (s, w) := (Parse(ts, o), Fetched(m, o, p, i));
      && name in s.marks && s.marks[name] <= |s.code|
      && Decode(w) == Some(Instruction(s.code[i].0).value)
      && Wrap64(4 * i + Immediate(w)) == s.symbols[name].address == 4 * s.marks[name] % B32
  {
    hide Parse, Assembles, Separate, Decode, Generate, Instruction, Fetched, WellFormed, Settled, Immediate;
    UnitIsFetched(ts, o, p, m, i);
    var s := Parse(ts, o);
    var u := s.code[i].0;
    VmBase.SizeIsAligned(s.marks[name]);
    LabelledUnit(u, i, s.symbols);
    DecodeInvertsGenerate(Instruction(u).value);
    ImmediateRoundTrip(Instruction(u).value);
    SmallAddress(i, |p.text|, o, p);
  }

  lemma SmallAddress(i: nat, n: nat, o: Options, p: VmBase.Program)
    requires i < n == |p.text| && Separate(o.dataStart, p)
    ensures TextAddress(i) == 4 * i
  {}

  /** The address at which the VM resolves a branch or jal it has fetched. */
  lemma VmBranchTarget(w: U32, pc: U64, a: U64, b: U64)
    requires ImmGenerator.Opcode(w) == 0x63 || ImmGenerator.Opcode(w) == 0x6F
    ensures var c := Datapath.Control(w);
      Datapath.Target(c, pc, Immediate(w), Datapath.AluResult(c, pc, Immediate(w), a, b)) == Wrap64(pc + Immediate(w))
  {
    ControlOfBranch(w);
    AddWraps(pc, Immediate(w));
    hide Immediate, Datapath.Control, Alu.Execute, Wrap64;
  }

  lemma ControlOfBranch(w: U32)
    requires ImmGenerator.Opcode(w) == 0x63 || ImmGenerator.Opcode(w) == 0x6F
    ensures var c := Datapath.Control(w);
      if ImmGenerator.Opcode(w) == 0x63 then !Datapath.IsJump(c)
      else c.branchOp == Datapath.BJal && c.aluSrcA == Datapath.SrcPc && c.aluOp == Alu.KAdd
  {}

  // ----- data -----

  lemma DataIsKept(ts: seq<Token>, o: Options)
    requires Terminates(ts)
    ensures var (t, s) := (FirstPass(ts, INITIAL), Parse(ts, o));
      s.data == t.data && |t.errors| <= |s.errors| && DataOnly(t)
      && forall n <- s.symbols :: s.symbols[n].isData ==>
          && n in t.symbols && t.symbols[n] == s.symbols[n]
          && n in t.marks && n in s.marks && s.marks[n] == t.marks[n]
  {
    var t := FirstPass(ts, INITIAL);
    FirstPassOnly(ts, INITIAL);
    SecondPassKeeps(ts, t.(pos := 0, index := 0), o);
    var s := Unpatched(ts, o);
    hide FirstPass, SecondPass, TextInv, Settled;
    PatchAllKeeps(s, s.backPatch);
  }

  lemma PatchKeeps(s: State, index: nat)
    requires index < |s.code|
    ensures var t := Patch(s, index); t == s.(code := t.code, errors := t.errors) && |s.errors| <= |t.errors|
  {
    hide Offset, InReach;
  }

  lemma {:induction false} PatchAllKeeps(s: State, indices: seq<nat>)
    requires forall i | 0 <= i < |indices| :: indices[i] < |s.code|
    ensures var t := PatchAll(s, indices); t == s.(code := t.code, errors := t.errors) && |s.errors| <= |t.errors|
    decreases |indices|
  {
    hide Patch;
    if indices != [] {
      PatchAllKeeps(s, indices[..|indices| - 1]);
      PatchKeeps(PatchAll(s, indices[..|indices| - 1]), indices[|indices| - 1]);
    }
  }

  lemma DataLabelPlaced(ts: seq<Token>, o: Options, name: Name)
    requires Terminates(ts) && HarmlessLabels(ts) && Parse(ts, o).errors == [] && Extent(Parse(ts, o).data) < B32
    requires name in Parse(ts, o).symbols && Parse(ts, o).symbols[name].isData
    ensures var s := Parse(ts, o);
      name in s.marks && s.marks[name] < |s.data| && s.symbols[name].address == Placed(s.data, s.marks[name])
  {
    hide Parse, FirstPass, HarmlessLabels, Placed, IndexOf, Index, Counter, DataOnly, Wrap32, Terminates, Extent;
    DataIsKept(ts, o);
    SymbolsArePlaced(ts);
    IndexIsExtent(Parse(ts, o).data, Parse(ts, o).marks[name]);
  }

  /** Data, end to end. If every label has a datum after it and no harmful alignment pending, a data label is the offset
      at which memory holds, byte by byte, the datum that follows it. */
  lemma DataLabelIsLoaded(ts: seq<Token>, o: Options, p: VmBase.Program, m: Flat, name: Name)
    requires Terminates(ts) && HarmlessLabels(ts) && Assembles(ts, o, p) && Separate(o.dataStart, p)
    requires name in Parse(ts, o).symbols && Parse(ts, o).symbols[name].isData
    ensures var s := Parse(ts, o);
      && name in s.marks && s.marks[name] < |p.data|
      && s.symbols[name].address == Placed(p.data, s.marks[name])
      && forall j | 0 <= j < Size(p.data[s.marks[name]]) ::
          VmBase.Image(m, o.dataStart, p)[o.dataStart + s.symbols[name].address + j]
            == DatumByte(p.data[s.marks[name]], j)
  {
    hide Parse, HarmlessLabels, VmBase.Image, Placed, Size, DatumByte, Terminates, Extent, Generate, Generable,
      Instruction;
    DataLabelPlaced(ts, o, name);
    ImageIsLoaded(m, o.dataStart, p);
  }
}
