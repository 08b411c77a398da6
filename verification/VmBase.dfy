/** Loading a program, breakpoints and the program counter (src/vm/vm_base.cpp). */
module VmBase {
  import opened Words
  import opened Wrappers
  import opened FlatMemory
  import opened MainMemory
  import opened ParserSpec
  import opened DataLayout

  /** What the loader takes from the assembler; `lineMap` sends source lines to instruction numbers. */
  datatype Program = Program(text: seq<U32>, data: seq<Datum>, lineMap: map<nat, nat>)

  function Value(d: Datum): nat
    requires !d.Bytes?
  {
    match d
    case Byte(v) => v
    case Half(v) => v
    case Word(v) => v
    case Double(v) => v
    case Float32(v) => v
    case Float64(v) => v
  }

  // ----- memory after loading -----

  ghost function TextImage(m: Flat, words: seq<U32>): Flat
    decreases |words|
  {
    if words == [] then m
    else StoreLE(TextImage(m, words[..|words| - 1]), Wrap32(4 * (|words| - 1)), 4, words[|words| - 1])
  }

  /** Where the loader writes byte `j` of a string that starts at counter `c`. */
  function ByteAddress(base: U64, c: U32, j: nat): U64 { Wrap64(base + Wrap32(c + j)) }

  /** The bytes of a string, written from counter `c` on. */
  ghost function BytesImage(m: Flat, base: U64, c: U32, bytes: seq<U8>): Flat
    decreases |bytes|
  {
    if bytes == [] then m
    else BytesImage(m, base, c, bytes[..|bytes| - 1])[ByteAddress(base, c, |bytes| - 1) := bytes[|bytes| - 1]]
  }

  /** `d` written at its place for counter `c`. */
  ghost function DatumImage(m: Flat, base: U64, c: U32, d: Datum): Flat {
    if d.Bytes? then BytesImage(m, base, Place(c, d), d.bytes)
    else StoreLE(m, Wrap64(base + Place(c, d)), Size(d), Value(d))
  }

  ghost function DataImage(m: Flat, base: U64, ds: seq<Datum>): Flat
    decreases |ds|
  {
    if ds == [] then m
    else DatumImage(DataImage(m, base, ds[..|ds| - 1]), base, Counter(ds[..|ds| - 1]), ds[|ds| - 1])
  }

  ghost function Image(m: Flat, base: U64, p: Program): Flat { DataImage(TextImage(m, p.text), base, p.data) }

  // ----- what fits -----

  predicate TextFits(words: nat, memorySize: U64) {
    forall i | 0 <= i < words :: Wrap32(4 * i) + 4 <= memorySize
  }

  predicate DatumFits(base: U64, c: U32, d: Datum, memorySize: U64) {
    if d.Bytes? then forall j | 0 <= j < |d.bytes| :: ByteAddress(base, Place(c, d), j) < memorySize
    else Wrap64(base + Place(c, d)) + Size(d) <= memorySize
  }

  predicate DataFits(base: U64, ds: seq<Datum>, memorySize: U64) {
    forall k | 0 <= k < |ds| :: DatumFits(base, Counter(ds[..k]), ds[k], memorySize)
  }

  predicate Fits(base: U64, p: Program, memorySize: U64) {
    TextFits(|p.text|, memorySize) && DataFits(base, p.data, memorySize)
  }

  lemma NextCounter(counter: U32, total: nat, d: nat)
    requires counter == Wrap32(total)
    ensures Wrap32(counter + d) == Wrap32(total + d)
  {
    WrapTwice(total, d);
  }

  lemma StartCounter(start: U32)
    ensures Wrap32(start + 0) == start
  {}

  lemma OneByte(m: Flat, a: nat, b: U8)
    ensures StoreLE(m, a, 1, b) == m[a := b]
  {}

  lemma NoData(m: Flat, base: U64)
    ensures Counter([]) == 0 && DataImage(m, base, []) == m
  {}

  lemma NextDatum(m: Flat, base: U64, data: seq<Datum>, k: nat)
    requires k < |data|
    ensures var c := Counter(data[..k]);
      && Counter(data[..k + 1]) == Wrap32(Place(c, data[k]) + Size(data[k]))
      && DataImage(m, base, data[..k + 1]) == DatumImage(DataImage(m, base, data[..k]), base, c, data[k])
  {
    hide DatumImage, Place, Size, Wrap32;
    assert data[..k + 1][..k] == data[..k];
  }

  // ----- breakpoints -----

  /** `breakpoints` is duplicate-free and holds instruction addresses only. */
  predicate Breakpoints(s: seq<U64>) {
    (forall i, j | 0 <= i < j < |s| :: s[i] != s[j]) && forall b <- s :: b % 4 == 0
  }

  function Without(s: seq<U64>, v: U64): (r: seq<U64>)
    ensures forall b :: b in r <==> b in s && b != v
    decreases |s|
  {
    if s == [] then [] else
    var r := Without(s[..|s| - 1], v);
    if s[|s| - 1] == v then r else r + [s[|s| - 1]]
  }

  lemma {:induction false} WithoutKeeps(s: seq<U64>, v: U64)
    requires Breakpoints(s)
    ensures Breakpoints(Without(s, v))
    decreases |s|
  {
    if s != [] {
      var init: seq<U64>, last := s[..|s| - 1], s[|s| - 1];
      forall b | b in init ensures b in s && b != last {
        var i :| 0 <= i < |init| && init[i] == b;
        assert s[i] != last;
      }
      assert Breakpoints(init);
      WithoutKeeps(init, v);
      var r := Without(init, v);
      forall i | 0 <= i < |r| ensures r[i] != last { assert r[i] in init; }
    }
  }

  /** The address that a breakpoint command names: for a line the address of its instruction. The map's keys are
      `unsigned int`, so only the low 32 bits of the line are looked up. */
  function Named(lineMap: map<nat, nat>, value: U64, isLine: bool): Option<U64> {
    if isLine then (if Wrap32(value) in lineMap then Some(Wrap32(4 * lineMap[Wrap32(value)])) else None)
    else if value % 4 == 0 then Some(value) else None
  }

  function Added(s: seq<U64>, address: Option<U64>): seq<U64> {
    if address.Some? && address.value !in s then s + [address.value] else s
  }

  function Removed(s: seq<U64>, address: Option<U64>): seq<U64> {
    if address.Some? && address.value in s then Without(s, address.value) else s
  }

  class VmBase {
    const memory: Memory
    const dataSectionStart: U64
    var programCounter: U64
    var programSize: U64
    var breakpoints: seq<U64>
    var program: Program

    constructor (memory: Memory, dataSectionStart: U64)
      ensures this.memory == memory && this.dataSectionStart == dataSectionStart
      ensures programCounter == 0 && programSize == 0 && breakpoints == [] && program == Program([], [], map[])
    {
      this.memory, this.dataSectionStart := memory, dataSectionStart;
      programCounter, programSize, breakpoints, program := 0, 0, [], Program([], [], map[]);
    }

    method UpdateProgramCounter(value: int)
      modifies this`programCounter
      ensures programCounter == Wrap64(old(programCounter) + value)
    {
      programCounter := Wrap64(Signed64(programCounter) + value);
    }

    function CheckBreakpoint(address: U64): bool
      reads this`breakpoints
    {
      address in breakpoints
    }

    method AddBreakpoint(value: U64, isLine: bool)
      requires Breakpoints(breakpoints)
      modifies this`breakpoints
      ensures breakpoints == Added(old(breakpoints), Named(program.lineMap, value, isLine))
      ensures Breakpoints(breakpoints)
    {
      var address := value;
      if isLine {
        var line := Wrap32(value);
        if line !in program.lineMap { return; }
        address := Wrap32(program.lineMap[line] * 4);
      } else if value % 4 != 0 {
        return;
      }
      AddressIsAligned(program.lineMap, value, isLine);
      if CheckBreakpoint(address) { return; }
      breakpoints := breakpoints + [address];
    }

    method RemoveBreakpoint(value: U64, isLine: bool)
      requires Breakpoints(breakpoints)
      modifies this`breakpoints
      ensures breakpoints == Removed(old(breakpoints), Named(program.lineMap, value, isLine))
      ensures Breakpoints(breakpoints)
    {
      var address := value;
      if isLine {
        var line := Wrap32(value);
        if line !in program.lineMap { return; }
        address := Wrap32(program.lineMap[line] * 4);
      } else if value % 4 != 0 {
        return;
      }
      if !CheckBreakpoint(address) { return; }
      ghost var all := breakpoints;
      var kept: seq<U64> := [];
      for i := 0 to |breakpoints|
        invariant kept == Without(breakpoints[..i], address)
      {
        assert breakpoints[..i + 1][..i] == breakpoints[..i];
        if breakpoints[i] != address { kept := kept + [breakpoints[i]]; }
      }
      assert breakpoints[..|breakpoints|] == breakpoints;
      WithoutKeeps(breakpoints, address);
      breakpoints := kept;
    }

    // ----- loading -----

    method WriteText(text: seq<U32>) returns (ok: bool)
      requires memory.Valid()
      modifies memory
      ensures memory.Valid() && ok == TextFits(|text|, memory.memorySize)
      ensures ok ==> memory.Bytes() == TextImage(old(memory.Bytes()), text)
    {
      hide Memory.Bytes, Memory.Valid, StoreLE;
      var counter: U32 := 0;
      for i := 0 to |text|
        invariant memory.Valid() && counter == Wrap32(4 * i) && TextFits(i, memory.memorySize)
        invariant memory.Bytes() == TextImage(old(memory.Bytes()), text[..i])
      {
        assert text[..i + 1][..i] == text[..i];
        var stored := memory.Store(counter, 4, text[i]);
        if !stored { return false; }
        NextCounter(counter, 4 * i, 4);
        counter := Wrap32(counter + 4);
      }
      assert text[..|text|] == text;
      ok := true;
    }

    /** The bytes of a string; `counter` has been aligned. */
    method WriteBytes(start: U32, bytes: seq<U8>) returns (ok: bool, counter: U32)
      requires memory.Valid()
      modifies memory
      ensures memory.Valid()
      ensures ok == forall j | 0 <= j < |bytes| :: ByteAddress(dataSectionStart, start, j) < memory.memorySize
      ensures ok ==> counter == Wrap32(start + |bytes|)
      ensures ok ==> memory.Bytes() == BytesImage(old(memory.Bytes()), dataSectionStart, start, bytes)
    {
      hide Memory.Bytes, Memory.Valid, Wrap64, Wrap32;
      ok, counter := true, start;
      StartCounter(start);
      for i := 0 to |bytes|
        invariant memory.Valid() && counter == Wrap32(start + i)
        invariant forall j | 0 <= j < i :: ByteAddress(dataSectionStart, start, j) < memory.memorySize
        invariant memory.Bytes() == BytesImage(old(memory.Bytes()), dataSectionStart, start, bytes[..i])
      {
        assert bytes[..i + 1][..i] == bytes[..i];
        assert Wrap64(dataSectionStart + counter) == ByteAddress(dataSectionStart, start, i);
        var stored := memory.Store(Wrap64(dataSectionStart + counter), 1, bytes[i]);
        if !stored { return false, counter; }
        OneByte(BytesImage(old(memory.Bytes()), dataSectionStart, start, bytes[..i]),
          Wrap64(dataSectionStart + counter), bytes[i]);
        NextCounter(counter, start + i, 1);
        counter := Wrap32(counter + 1);
      }
      assert bytes[..|bytes|] == bytes;
    }

    method WriteDatum(c: U32, d: Datum) returns (ok: bool, counter: U32)
      requires memory.Valid()
      modifies memory
      ensures memory.Valid() && ok == DatumFits(dataSectionStart, c, d, memory.memorySize)
      ensures ok ==> counter == Wrap32(Place(c, d) + Size(d))
      ensures ok ==> memory.Bytes() == DatumImage(old(memory.Bytes()), dataSectionStart, c, d)
    {
      hide Memory.Bytes, Memory.Valid, StoreLE, Wrap64, Wrap32;
      counter := AlignCounter(c, Alignment(d));
      assert counter == Place(c, d);
      if d.Bytes? {
        ok, counter := WriteBytes(counter, d.bytes);
      } else {
        ok := memory.Store(Wrap64(dataSectionStart + counter), Size(d), Value(d));
        counter := Wrap32(counter + Size(d));
      }
    }

    method WriteData(data: seq<Datum>) returns (ok: bool)
      requires memory.Valid()
      modifies memory
      ensures memory.Valid() && ok == DataFits(dataSectionStart, data, memory.memorySize)
      ensures ok ==> memory.Bytes() == DataImage(old(memory.Bytes()), dataSectionStart, data)
    {
      hide Memory.Bytes, Memory.Valid, DatumFits, DatumImage, Place, Counter, DataImage;
      NoData(memory.Bytes(), dataSectionStart);
      var counter: U32 := 0;
      for k := 0 to |data|
        invariant memory.Valid() && counter == Counter(data[..k])
        invariant forall j | 0 <= j < k :: DatumFits(dataSectionStart, Counter(data[..j]), data[j], memory.memorySize)
        invariant memory.Bytes() == DataImage(old(memory.Bytes()), dataSectionStart, data[..k])
      {
        NextDatum(old(memory.Bytes()), dataSectionStart, data, k);
        ok, counter := WriteDatum(counter, data[k]);
        if !ok { return; }
      }
      assert data[..|data|] == data;
      ok := true;
    }

    /** `LoadProgram`; `ok` is false when a write is out of range and throws. */
    method LoadProgram(p: Program) returns (ok: bool)
      requires memory.Valid() && Breakpoints(breakpoints)
      modifies this, memory
      ensures memory.Valid() && Breakpoints(breakpoints) && ok == Fits(dataSectionStart, p, memory.memorySize)
      ensures ok ==> memory.Bytes() == Image(old(memory.Bytes()), dataSectionStart, p)
      ensures ok ==> programSize == Wrap32(4 * |p.text|) && program == p && programCounter == old(programCounter)
      ensures ok ==> breakpoints == Added(old(breakpoints), Some(programSize))
    {
      hide Memory.Bytes, Memory.Valid, TextImage, DataImage, TextFits, DataFits;
      program := p;
      ok := WriteText(p.text);
      if !ok { return; }
      programSize := Wrap32(4 * |p.text|);
      SizeIsAligned(|p.text|);
      AddBreakpoint(programSize, false);
      ok := WriteData(p.data);
    }
  }

  lemma AddressIsAligned(lineMap: map<nat, nat>, value: U64, isLine: bool)
    ensures Named(lineMap, value, isLine).Some? ==> Named(lineMap, value, isLine).value % 4 == 0
  {
    if isLine && Wrap32(value) in lineMap { SizeIsAligned(lineMap[Wrap32(value)]); }
  }

  lemma SizeIsAligned(n: nat)
    ensures Wrap32(4 * n) % 4 == 0
  {
    Residue(4 * n, 4);
    DivUnique(4 * n, n, 0, 4);
  }
}
