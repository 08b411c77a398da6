/** What memory holds after loading, and what a history of breakpoint commands leaves. */
module LoadedImage {
  import opened Words
  import opened Wrappers
  import opened FlatMemory
  import opened ParserSpec
  import opened DataLayout
  import opened VmBase

  // ----- offsets without wrap-around -----

  /** The number of bytes the data section takes. */
  function Extent(ds: seq<Datum>): nat
    decreases |ds|
  {
    if ds == [] then 0 else Up(Extent(ds[..|ds| - 1]), Alignment(ds[|ds| - 1])) + Size(ds[|ds| - 1])
  }

  lemma UpGrows(x: nat, a: nat)
    requires a > 0
    ensures x <= Up(x, a) && Up(x, a) % a == 0
  {
    DivUnique(Up(x, a), if x % a == 0 then x / a else x / a + 1, 0, a);
  }

  lemma ExtentStep(ds: seq<Datum>, k: nat)
    requires k < |ds|
    ensures Extent(ds[..k + 1]) == Up(Extent(ds[..k]), Alignment(ds[k])) + Size(ds[k])
    ensures Extent(ds[..k]) <= Extent(ds[..k + 1])
  {
    hide Up;
    assert ds[..k + 1][..k] == ds[..k];
    UpGrows(Extent(ds[..k]), Alignment(ds[k]));
  }

  lemma {:induction false} ExtentGrows(ds: seq<Datum>, j: nat, k: nat)
    requires j <= k <= |ds|
    ensures Extent(ds[..j]) <= Extent(ds[..k])
  {
    hide Extent;
    if j < k {
      ExtentGrows(ds, j, k - 1);
      ExtentStep(ds, k - 1);
    }
  }

  /** As long as the section is smaller than 4 GB, the loader's counter does not wrap. */
  lemma {:induction false} CounterIsExtent(ds: seq<Datum>, k: nat)
    requires k <= |ds| && Extent(ds) < B32
    ensures Counter(ds[..k]) == Extent(ds[..k])
    ensures k < |ds|
      ==> Placed(ds, k) == Up(Extent(ds[..k]), Alignment(ds[k])) && Placed(ds, k) + Size(ds[k]) == Extent(ds[..k + 1])
  {
    hide Extent, Counter, Size, Alignment, AlignCounter, Up, Wrap32, DataImage, DatumImage;
    assert ds[..|ds|] == ds;
    if k == 0 { Empty(); } else {
      CounterIsExtent(ds, k - 1);
      NextDatum(ZEROS, 0, ds, k - 1);
      ExtentGrows(ds, k, |ds|);
      NoWrap32(Extent(ds[..k]));
    }
    if k < |ds| {
      ExtentStep(ds, k);
      ExtentGrows(ds, k + 1, |ds|);
      NoWrap(Counter(ds[..k]), Alignment(ds[k]));
    }
  }

  /** Nor does the parser's index, so its labels are the loader's places. */
  lemma {:induction false} IndexIsExtent(ds: seq<Datum>, k: nat)
    requires k <= |ds| && Extent(ds) < B32
    ensures Index(ds[..k]) == Extent(ds[..k])
    ensures k < |ds| ==> IndexOf(ds, k) == Placed(ds, k)
  {
    hide Extent, Size, Alignment, AlignIndex, Up, Wrap64, Placed;
    assert ds[..|ds|] == ds;
    if k == 0 { Empty(); } else {
      IndexIsExtent(ds, k - 1);
      assert ds[..k][..k - 1] == ds[..k - 1];
      ExtentStep(ds, k - 1);
      ExtentGrows(ds, k, |ds|);
      UpGrows(Extent(ds[..k - 1]), Alignment(ds[k - 1]));
      NoWrap64(Extent(ds[..k - 1]), Alignment(ds[k - 1]), Size(ds[k - 1]));
    }
    if k < |ds| {
      ExtentStep(ds, k);
      ExtentGrows(ds, k + 1, |ds|);
      NoWrap64(Extent(ds[..k]), Alignment(ds[k]), Size(ds[k]));
      CounterIsExtent(ds, k);
    }
  }

  lemma NoWrap64(x: nat, a: nat, n: nat)
    requires a > 0 && Up(x, a) + n < B32
    ensures x < B32 && AlignIndex(x, a) == Up(x, a) && Wrap64(Up(x, a) + n) == Up(x, a) + n
  {}

  lemma NoWrap32(n: nat)
    requires n < B32
    ensures Wrap32(n) == n
  {}

  lemma NoWrap(c: U32, a: nat)
    requires a > 0 && Up(c, a) < B32
    ensures AlignCounter(c, a) == Up(c, a)
  {}

  lemma Empty()
    ensures Counter([]) == 0 && Extent([]) == 0 && Index([]) == 0
  {}

  /** Data do not overlap and keep their order. */
  lemma DataApart(ds: seq<Datum>, j: nat, k: nat)
    requires j < k < |ds| && Extent(ds) < B32
    ensures Placed(ds, j) + Size(ds[j]) <= Placed(ds, k)
  {
    hide Extent, Placed, Up;
    CounterIsExtent(ds, j);
    CounterIsExtent(ds, k);
    ExtentGrows(ds, j + 1, k);
    UpGrows(Extent(ds[..k]), Alignment(ds[k]));
  }

  /** What a datum is aligned to: numbers to their size. */
  function Grain(d: Datum): (g: nat)
    ensures g > 0
  {
    if d.Bytes? then 1 else Size(d)
  }

  /** Where the datum before `k` ends. */
  function EndBefore(ds: seq<Datum>, k: nat): nat
    requires k < |ds|
  {
    if k == 0 then 0 else Placed(ds, k - 1) + Size(ds[k - 1])
  }

  /** Every number stands at a multiple of its size and strings anywhere, and no place nearer to the datum before would
      do. */
  lemma NaturallyAligned(ds: seq<Datum>, k: nat)
    requires k < |ds| && Extent(ds) < B32
    ensures Placed(ds, k) % Grain(ds[k]) == 0 && EndBefore(ds, k) <= Placed(ds, k) < EndBefore(ds, k) + Grain(ds[k])
  {
    CounterIsExtent(ds, k);
    Empty();
    if k > 0 { CounterIsExtent(ds, k - 1); }
    UpTight(Extent(ds[..k]), Alignment(ds[k]));
    assert Grain(ds[k]) == Alignment(ds[k]);
    hide Extent, Placed, Up, Size, Alignment;
  }

  lemma UpTight(x: nat, a: nat)
    requires a > 0
    ensures Up(x, a) % a == 0 && x <= Up(x, a) < x + a
  {
    UpGrows(x, a);
  }

  // ----- bytes -----

  /** Byte `j` of a datum as it is laid out in memory. */
  function DatumByte(d: Datum, j: nat): U8
    requires j < Size(d)
  {
    if d.Bytes? then d.bytes[j] else ByteOf(Value(d), j)
  }

  lemma {:induction false} BytesImageAt(m: Flat, base: U64, c: U32, bytes: seq<U8>, a: nat)
    requires c + |bytes| <= B32 && base + c + |bytes| <= B64
    ensures BytesImage(m, base, c, bytes)[a] == if base + c <= a < base + c + |bytes| then bytes[a - base - c] else m[a]
    decreases |bytes|
  {
    hide ByteAddress;
    if bytes != [] {
      BytesImageAt(m, base, c, bytes[..|bytes| - 1], a);
      StraightAddress(base, c, |bytes| - 1);
    }
  }

  lemma StraightAddress(base: U64, c: U32, j: nat)
    requires c + j < B32 && base + c + j < B64
    ensures ByteAddress(base, c, j) == base + c + j
  {}

  lemma DatumImageAt(m: Flat, base: U64, c: U32, d: Datum, a: nat)
    requires Place(c, d) + Size(d) <= B32 && base + Place(c, d) + Size(d) <= B64
    ensures var start := base + Place(c, d);
      DatumImage(m, base, c, d)[a] == if start <= a < start + Size(d) then DatumByte(d, a - start) else m[a]
  {
    hide Place, ByteOf, StoreLE, Value, BytesImage;
    if d.Bytes? { BytesImageAt(m, base, Place(c, d), d.bytes, a); }
    else { StoreAt(m, base + Place(c, d), Size(d), Value(d), a); }
  }

  predicate Inside(base: U64, ds: seq<Datum>, k: nat, a: nat)
    requires k < |ds|
  {
    base + Placed(ds, k) <= a < base + Placed(ds, k) + Size(ds[k])
  }

  /** The first `n` data, as they are in memory. */
  lemma {:induction false} DataImageAt(m: Flat, base: U64, ds: seq<Datum>, n: nat, a: nat)
    requires n <= |ds| && Extent(ds) < B32 && base + Extent(ds) <= B64
    ensures (forall k | 0 <= k < n :: !Inside(base, ds, k, a)) ==> DataImage(m, base, ds[..n])[a] == m[a]
    ensures forall k | 0 <= k < n && Inside(base, ds, k, a) ::
      DataImage(m, base, ds[..n])[a] == DatumByte(ds[k], a - base - Placed(ds, k))
  {
    hide Extent, Counter, DatumImage, DatumByte, Place, Size, DataImage;
    NoData(m, base);
    if n > 0 {
      DataImageAt(m, base, ds, n - 1, a);
      NextDatum(m, base, ds, n - 1);
      CounterIsExtent(ds, n - 1);
      assert ds[..|ds|] == ds;
      ExtentGrows(ds, n, |ds|);
      DatumImageAt(DataImage(m, base, ds[..n - 1]), base, Counter(ds[..n - 1]), ds[n - 1], a);
      assert Inside(base, ds, n - 1, a) || !Inside(base, ds, n - 1, a);
      forall k | 0 <= k < n - 1 ensures !(Inside(base, ds, k, a) && Inside(base, ds, n - 1, a)) {
        DataApart(ds, k, n - 1);
      }
    }
  }

  lemma {:induction false} TextImageAt(m: Flat, words: seq<U32>, n: nat)
    requires n <= |words| && 4 * |words| <= B32
    ensures forall i | 0 <= i < n :: LoadLE(TextImage(m, words[..n]), 4 * i, 4) == words[i]
    ensures forall a: nat | a >= 4 * n :: TextImage(m, words[..n])[a] == m[a]
  {
    hide LoadLE, StoreLE;
    if n > 0 {
      TextImageAt(m, words, n - 1);
      assert words[..n][..n - 1] == words[..n - 1];
      var before := TextImage(m, words[..n - 1]);
      assert TextImage(m, words[..n]) == StoreLE(before, 4 * (n - 1), 4, words[n - 1]);
      WordReadsBack(before, 4 * (n - 1), words[n - 1]);
      forall i | 0 <= i < n - 1
        ensures LoadLE(StoreLE(before, 4 * (n - 1), 4, words[n - 1]), 4 * i, 4) == LoadLE(before, 4 * i, 4)
      {
        Disjoint(before, 4 * (n - 1), 4, words[n - 1], 4 * i, 4);
      }
      forall a: nat | a >= 4 * n ensures StoreLE(before, 4 * (n - 1), 4, words[n - 1])[a] == before[a] {
        StoreAt(before, 4 * (n - 1), 4, words[n - 1], a);
      }
    }
  }

  lemma WordReadsBack(m: Flat, a: nat, w: U32)
    ensures LoadLE(StoreLE(m, a, 4, w), a, 4) == w
  {
    StoreThenLoad(m, a, 4, w);
    Pow2Values();
  }

  predicate Separate(base: U64, p: Program) {
    4 * |p.text| <= base && 4 * |p.text| <= B32 && Extent(p.data) < B32 && base + Extent(p.data) <= B64
  }

  /** After loading a program whose sections are apart: every text word reads back at its address, every datum
      byte is at the datum's place, data do not overlap, and every other byte is as it was. */
  lemma ImageIsLoaded(m: Flat, base: U64, p: Program)
    requires Separate(base, p)
    ensures var m' := Image(m, base, p);
      && (forall i | 0 <= i < |p.text| :: LoadLE(m', 4 * i, 4) == p.text[i])
      && (forall k, j | 0 <= k < |p.data| && 0 <= j < Size(p.data[k]) ::
        m'[base + Placed(p.data, k) + j] == DatumByte(p.data[k], j))
      && (forall j, k | 0 <= j < k < |p.data| :: Placed(p.data, j) + Size(p.data[j]) <= Placed(p.data, k))
      && (forall a: nat | a >= 4 * |p.text| && forall k | 0 <= k < |p.data| :: !Inside(base, p.data, k, a) ::
        m'[a] == m[a])
  {
    hide LoadLE, Extent, Placed, Size, DatumByte, TextImage, DataImage;
    var m1, m' := TextImage(m, p.text), Image(m, base, p);
    assert p.text[..|p.text|] == p.text && p.data[..|p.data|] == p.data;
    TextImageAt(m, p.text, |p.text|);
    forall a: nat
      ensures (forall k | 0 <= k < |p.data| :: !Inside(base, p.data, k, a)) ==> m'[a] == m1[a]
      ensures forall k | 0 <= k < |p.data| && Inside(base, p.data, k, a) ::
        m'[a] == DatumByte(p.data[k], a - base - Placed(p.data, k))
    {
      DataImageAt(m1, base, p.data, |p.data|, a);
    }
    forall k, j | 0 <= k < |p.data| && 0 <= j < Size(p.data[k])
      ensures m'[base + Placed(p.data, k) + j] == DatumByte(p.data[k], j)
    {
      assert Inside(base, p.data, k, base + Placed(p.data, k) + j);
    }
    forall i | 0 <= i < |p.text| ensures LoadLE(m', 4 * i, 4) == p.text[i] { LoadSame(m', m1, 4 * i, 4); }
    forall j, k | 0 <= j < k < |p.data| ensures Placed(p.data, j) + Size(p.data[j]) <= Placed(p.data, k) {
      DataApart(p.data, j, k);
    }
  }

  /** A number is read back from its bytes. */
  lemma BytesReadBack(m: Flat, a: nat, n: nat, v: nat)
    requires v < Weight(n) && forall j | 0 <= j < n :: m[a + j] == ByteOf(v, j)
    ensures LoadLE(m, a, n) == v
  {
    hide LoadLE, StoreLE, ByteOf, Weight;
    var m' := StoreLE(m, a, n, v);
    forall b | a <= b < a + n ensures m[b] == m'[b] {
      StoreAt(m, a, n, v, b);
      assert m[a + (b - a)] == ByteOf(v, b - a);
    }
    LoadSame(m, m', a, n);
    StoreThenLoad(m, a, n, v);
  }

  lemma ValueFits(d: Datum)
    requires !d.Bytes?
    ensures Value(d) < Weight(Size(d))
  {
    Pow2Values();
  }

  /** Every numeric datum reads back as its value. */
  lemma DatumReadsBack(m: Flat, base: U64, p: Program, k: nat)
    requires Separate(base, p) && k < |p.data| && !p.data[k].Bytes?
    ensures LoadLE(Image(m, base, p), base + Placed(p.data, k), Size(p.data[k])) == Value(p.data[k])
  {
    hide Image, Separate, LoadLE, Placed, Value, Size;
    ImageIsLoaded(m, base, p);
    ValueFits(p.data[k]);
    var m', d := Image(m, base, p), p.data[k];
    forall j | 0 <= j < Size(d) ensures m'[base + Placed(p.data, k) + j] == ByteOf(Value(d), j) {
      assert m'[base + Placed(p.data, k) + j] == DatumByte(d, j);
    }
    BytesReadBack(m', base + Placed(p.data, k), Size(d), Value(d));
  }

  // ----- breakpoint commands -----

  datatype Command = Add(address: Option<U64>) | Remove(address: Option<U64>)

  /** The breakpoints after a history of commands. */
  function After(s: seq<U64>, commands: seq<Command>): seq<U64>
    decreases |commands|
  {
    if commands == [] then s else
    var before, last := After(s, commands[..|commands| - 1]), commands[|commands| - 1];
    match last
    case Add(a) => Added(before, a)
    case Remove(a) => Removed(before, a)
  }

  /** Whether the last command about `b` set it; `initially` when there is none. */
  predicate LastSet(commands: seq<Command>, b: U64, initially: bool)
    decreases |commands|
  {
    if commands == [] then initially
    else if commands[|commands| - 1].address == Some(b) then commands[|commands| - 1].Add?
    else LastSet(commands[..|commands| - 1], b, initially)
  }

  predicate Addresses(commands: seq<Command>) {
    forall c <- commands :: c.address.Some? ==> c.address.value % 4 == 0
  }

  /** After any history the list is duplicate-free, holds instruction addresses, and contains exactly the addresses
      whose last command was an addition. */
  lemma {:induction false} BreakpointHistory(s: seq<U64>, commands: seq<Command>)
    requires Breakpoints(s) && Addresses(commands)
    ensures Breakpoints(After(s, commands))
    ensures forall b: U64 :: b in After(s, commands) <==> LastSet(commands, b, b in s)
    decreases |commands|
  {
    if commands != [] {
      var init, last := commands[..|commands| - 1], commands[|commands| - 1];
      BreakpointHistory(s, init);
      var before := After(s, init);
      assert last in commands;
      if last.address.Some? { WithoutKeeps(before, last.address.value); }
    }
  }
}
