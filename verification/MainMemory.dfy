/** The lazily allocated block memory (src/vm/main_memory.cpp, include/vm/main_memory.h), proved to behave as
    a flat map of bytes that starts at zero. */
module MainMemory {
  import opened Words
  import opened Wrappers
  import opened FlatMemory

  class Memory {
    const blockSize: nat
    const memorySize: U64
    var blocks: map<nat, seq<U8>>

    /** Every present block is exactly one block long. */
    ghost predicate Valid()
      reads this
    {
      blockSize > 0 && forall b <- blocks :: |blocks[b]| == blockSize
    }

    ghost function ByteAt(a: nat): U8
      requires Valid()
      reads this
    {
      if a / blockSize in blocks then blocks[a / blockSize][a % blockSize] else 0
    }

    /** The flat memory that the blocks represent. */
    ghost function Bytes(): Flat
      requires Valid()
      reads this
    {
      imap a: nat | true :: ByteAt(a)
    }

    constructor (blockSize: nat, memorySize: U64)
      requires blockSize > 0
      ensures Valid() && Bytes() == ZEROS
      ensures this.blockSize == blockSize && this.memorySize == memorySize
    {
      this.blockSize, this.memorySize := blockSize, memorySize;
      blocks := map[];
    }

    method Reset()
      requires Valid()
      modifies this
      ensures Valid() && Bytes() == ZEROS
    {
      blocks := map[];
    }

    function GetBlockIndex(address: U64): nat
      requires blockSize > 0
    {
      address / blockSize
    }

    function GetBlockOffset(address: U64): nat
      requires blockSize > 0
    {
      address % blockSize
    }

    method EnsureBlockExists(blockIndex: nat)
      requires Valid()
      modifies this
      ensures Valid() && blockIndex in blocks && Bytes() == old(Bytes())
    {
      if blockIndex !in blocks {
        blocks := blocks[blockIndex := seq(blockSize, _ => 0)];
        assert forall a: nat :: ByteAt(a) == old(ByteAt(a));
      }
    }

    method Read(address: U64) returns (r: Result<U8>)
      requires Valid()
      ensures r == if address < memorySize then Ok(Bytes()[address]) else Thrown
    {
      if address >= memorySize { return Thrown; }
      var blockIndex, offset := GetBlockIndex(address), GetBlockOffset(address);
      if blockIndex !in blocks { return Ok(0); }
      r := Ok(blocks[blockIndex][offset]);
    }

    method Write(address: U64, value: U8) returns (ok: bool)
      requires Valid()
      modifies this
      ensures Valid() && ok == (address < memorySize)
      ensures Bytes() == if ok then old(Bytes())[address := value] else old(Bytes())
    {
      if address >= memorySize { return false; }
      var blockIndex, offset := GetBlockIndex(address), GetBlockOffset(address);
      EnsureBlockExists(blockIndex);
      label Present:
      var block: seq<U8> := blocks[blockIndex];
      block := block[offset := value];
      blocks := blocks[blockIndex := block];
      forall a: nat ensures ByteAt(a) == if a == address then value else old@Present(ByteAt(a)) {
        SamePlace(address, a);
      }
      ok := true;
    }

    /** Block number and offset determine an address. */
    lemma SamePlace(a: nat, b: nat)
      requires blockSize > 0
      ensures a == b <==> a / blockSize == b / blockSize && a % blockSize == b % blockSize
    {
      assert a == a / blockSize * blockSize + a % blockSize;
      assert b == b / blockSize * blockSize + b % blockSize;
    }

    /** The loop shared by the reading accessors; it throws if any of its bytes is out of range. */
    method ReadGeneric(address: U64, n: nat) returns (r: Result<nat>)
      requires Valid() && n > 0
      ensures r == if address + n <= memorySize then Ok(LoadLE(Bytes(), address, n)) else Thrown
    {
      hide Combine, Bytes, Valid;
      var value: nat, weight: nat := 0, 1;
      ghost var m := Bytes();
      CombineEnds(0, 1, LoadFrom(m, address, n));
      for i := 0 to n
        invariant address + i <= memorySize || i == 0
        invariant Combine(value, weight, LoadFrom(m, address + i, n - i)) == LoadFrom(m, address, n)
      {
        var b := Read(Wrap64(address + i));
        if b.Thrown? { return Thrown; }
        CombineByte(value, weight, b.value, LoadFrom(m, address + i + 1, n - i - 1));
        value, weight := value + weight * b.value, weight * 256;
      }
      CombineEnds(value, weight, 0);
      r := Ok(value);
    }

    /** What has been read, with what is still to be read above it. */
    static ghost function Combine(value: nat, weight: nat, rest: nat): nat { value + weight * rest }

    static lemma CombineByte(value: nat, weight: nat, b: nat, rest: nat)
      ensures Combine(value + weight * b, weight * 256, rest) == Combine(value, weight, b + 256 * rest)
    {}

    static lemma CombineEnds(value: nat, weight: nat, rest: nat)
      ensures Combine(value, weight, 0) == value && Combine(0, 1, rest) == rest
    {}

    /** The loop shared by the writing accessors; bytes before the first one out of range are written. */
    method WriteGeneric(address: U64, n: nat, value: nat) returns (ok: bool)
      requires Valid() && n > 0
      modifies this
      ensures Valid() && ok == (address + n <= memorySize)
      ensures var written := if ok then n else if address < memorySize then memorySize - address else 0;
        Bytes() == StoreLE(old(Bytes()), address, written, value)
    {
      hide Bytes;
      var v := value;
      ghost var m := Bytes();
      ghost var last :=
        if address + n <= memorySize then n else if address < memorySize then memorySize - address else 0;
      for i := 0 to n
        invariant Valid() && i <= last
        invariant StoreLE(Bytes(), address + i, last - i, v) == StoreLE(m, address, last, value)
      {
        var stored := Write(Wrap64(address + i), v % 256);
        if !stored { return false; }
        v := v / 256;
      }
      ok := true;
    }

    /** `ReadByte`, `ReadHalfWord`, `ReadWord`, `ReadDoubleWord`: the guard subtracts in `uint64_t`. */
    method Load(address: U64, n: nat) returns (r: Result<nat>)
      requires Valid() && n in {1, 2, 4, 8}
      ensures r == if address + n <= memorySize then Ok(LoadLE(Bytes(), address, n)) else Thrown
    {
      if address >= Wrap64(memorySize - (n - 1)) { return Thrown; }
      r := ReadGeneric(address, n);
    }

    /** `WriteByte`, `WriteHalfWord`, `WriteWord`, `WriteDoubleWord`. A store that throws leaves memory as it
        was, except in a memory so small that the guard's subtraction wraps around. */
    method Store(address: U64, n: nat, value: nat) returns (ok: bool)
      requires Valid() && n in {1, 2, 4, 8}
      modifies this
      ensures Valid() && ok == (address + n <= memorySize)
      ensures ok ==> Bytes() == StoreLE(old(Bytes()), address, n, value)
      ensures !ok ==>
        var written := if address < memorySize < n - 1 then memorySize - address else 0;
        Bytes() == StoreLE(old(Bytes()), address, written, value)
    {
      hide Bytes;
      if address >= Wrap64(memorySize - (n - 1)) { return false; }
      ok := WriteGeneric(address, n, value);
    }
  }
}
