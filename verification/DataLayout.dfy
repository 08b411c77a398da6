/** The data layout, computed twice: by the parser as it assigns label addresses (src/assembler/parser.cpp) and by
    the loader from the data buffer alone (src/vm/vm_base.cpp). */
module DataLayout {
  import opened Words
  import opened ParserSpec

  // ----- the loader's counter -----

  /** The loader's `align` lambda, in `unsigned int`. */
  function AlignCounter(c: U32, a: nat): U32
    requires a > 0
  {
    if c % a != 0 then Wrap32(c + (a - c % a)) else c
  }

  /** The offset at which the loader writes `d` when its counter is `c`. */
  function Place(c: U32, d: Datum): U32 { AlignCounter(c, Alignment(d)) }

  /** The loader's counter after a data buffer. */
  function Counter(ds: seq<Datum>): U32
    decreases |ds|
  {
    if ds == [] then 0 else Wrap32(Place(Counter(ds[..|ds| - 1]), ds[|ds| - 1]) + Size(ds[|ds| - 1]))
  }

  function Placed(ds: seq<Datum>, k: nat): U32
    requires k < |ds|
  {
    Place(Counter(ds[..k]), ds[k])
  }

  // ----- the parser's index, replayed -----

  /** The parser's data index after emitting `ds` from an empty section. */
  function Index(ds: seq<Datum>): U64
    decreases |ds|
  {
    if ds == [] then 0 else Wrap64(AlignIndex(Index(ds[..|ds| - 1]), Alignment(ds[|ds| - 1])) + Size(ds[|ds| - 1]))
  }

  function IndexOf(ds: seq<Datum>, k: nat): U64
    requires k < |ds|
  {
    AlignIndex(Index(ds[..k]), Alignment(ds[k]))
  }

  // ----- alignment -----

  /** Alignments divide the width of a counter. */
  lemma SameResidue(x: nat, a: nat, k: nat)
    requires a > 0 && k > 0
    ensures a * k > 0 && x % (a * k) % a == x % a
  {
    var q, r := x / (a * k), x % (a * k);
    assert a * k > 0 by { MulGap(k, 0, a); }
    assert x == q * (a * k) + r;
    assert x == (q * k + r / a) * a + r % a;
    DivUnique(x, q * k + r / a, r % a, a);
  }

  lemma Residue(x: nat, a: nat)
    requires a in {1, 2, 4, 8}
    ensures Wrap32(x) % a == x % a
  {
    SameResidue(x, a,
                if a == 1 then B32 else if a == 2 then 0x8000_0000 else if a == 4 then 0x4000_0000 else 0x2000_0000);
  }

  lemma WrapTwice(x: nat, d: nat)
    ensures Wrap32(Wrap64(x)) == Wrap32(x) && Wrap32(Wrap32(x) + d) == Wrap32(x + d)
  {
    SameResidue(x, B32, B32);
    var q, r := (Wrap32(x) + d) / B32, (Wrap32(x) + d) % B32;
    DivUnique(x + d, x / B32 + q, r, B32);
  }

  /** The parser's alignment, taken modulo 2^32, is the loader's. */
  lemma AlignWraps(x: U64, a: nat)
    requires a in {1, 2, 4, 8}
    ensures Wrap32(AlignIndex(x, a)) == AlignCounter(Wrap32(x), a)
  {
    Residue(x, a);
    hide Wrap32;
    WrapTwice(x, a - x % a);
    WrapTwice(x + (a - x % a), 0);
  }

  lemma Appended(x: U64, d: Datum)
    ensures Wrap32(Wrap64(AlignIndex(x, Alignment(d)) + Size(d))) == Wrap32(Place(Wrap32(x), d) + Size(d))
  {
    var y := AlignIndex(x, Alignment(d));
    AlignWraps(x, Alignment(d));
    hide Wrap32, AlignIndex;
    WrapTwice(y, Size(d));
    WrapTwice(y + Size(d), 0);
  }

  /** The two counters agree modulo 2^32, whatever the data. */
  lemma {:induction false} IndexIsCounter(ds: seq<Datum>)
    ensures Wrap32(Index(ds)) == Counter(ds)
    decreases |ds|
  {
    hide Wrap32, AlignIndex, AlignCounter, Size, Alignment, Place;
    if ds == [] { ZeroWraps(); }
    else {
      IndexIsCounter(ds[..|ds| - 1]);
      Appended(Index(ds[..|ds| - 1]), ds[|ds| - 1]);
    }
  }

  lemma ZeroWraps()
    ensures Wrap32(0) == 0
  {}

  lemma IndexOfIsPlaced(ds: seq<Datum>, k: nat)
    requires k < |ds|
    ensures Wrap32(IndexOf(ds, k)) == Placed(ds, k)
  {
    hide Wrap32, AlignIndex, AlignCounter, Alignment, Index, Counter;
    IndexIsCounter(ds[..k]);
    AlignWraps(Index(ds[..k]), Alignment(ds[k]));
  }

  function Up(r: nat, a: nat): nat
    requires a > 0
  {
    if r % a != 0 then r + (a - r % a) else r
  }

  lemma Residue64(x: nat, a: nat)
    requires a in {1, 2, 4, 8}
    ensures Wrap64(x) % a == x % a
  {
    SameResidue(x, a,
                if a == 1 then B64 else if a == 2 then B63
                else if a == 4 then 0x4000_0000_0000_0000 else 0x2000_0000_0000_0000);
  }

  /** Aligning only looks at the last three bits. */
  lemma AlignEight(q: nat, r: nat, a: nat)
    requires a in {1, 2, 4, 8} && r < 8 && 8 * q + r < B64
    ensures AlignIndex(8 * q + r, a) == Wrap64(8 * q + Up(r, a))
  {
    assert (8 * q + r) % a == r % a by { SameInEight(q, r, a); }
  }

  lemma SameInEight(q: nat, r: nat, a: nat)
    requires a in {1, 2, 4, 8}
    ensures (8 * q + r) % a == r % a
  {
    DivUnique(8 * q + r, (if a == 1 then 8 else if a == 2 then 4 else if a == 4 then 2 else 1) * q + r / a, r % a, a);
  }

  lemma AlignAgain(c: U64, a: nat)
    requires a in {1, 2, 4, 8}
    ensures AlignIndex(c, a) % a == 0 && AlignIndex(AlignIndex(c, a), a) == AlignIndex(c, a)
  {
    Residue64(c + (a - c % a), a);
    DivUnique(c + (a - c % a), c / a + 1, 0, a);
  }

  /** An alignment that is still pending when a datum comes is harmless exactly if the datum's own place has it. */
  lemma PendingAlignment(c: U64, a: nat, b: nat)
    requires a in {1, 2, 4, 8} && b in {1, 2, 4, 8}
    ensures AlignIndex(AlignIndex(c, a), b) == AlignIndex(c, b) <==> AlignIndex(c, b) % a == 0
  {
    hide AlignIndex, Wrap64;
    var q, r := c / 8, c % 8;
    AlignEight(q, r, a);
    AlignEight(q, r, b);
    UpTwice(r, a, b);
    AlignUp(q, Up(r, a), b);
    ResidueUp(q, Up(r, b), a);
    SameUp(q, Up(Up(r, a), b), Up(r, b));
  }

  function Table(r: nat, a: nat): nat {
    if a == 1 then r
    else if a == 2 then r + r % 2
    else if r == 0 then 0
    else if r <= 4 then (if a == 4 then 4 else 8)
    else 8
  }

  lemma UpIsTable(r: nat, a: nat)
    requires a in {1, 2, 4, 8} && r <= 8
    ensures Up(r, a) == Table(r, a)
    ensures r % a == if a == 1 then 0 else if a == 2 then r % 2 else if a == 4 then r % 4 else r % 8
  {
    if a == 2 { DivUnique(r, r / 2, r % 2, a); }
    else if a == 4 { DivUnique(r, r / 4, r % 4, a); }
    else if a == 8 { DivUnique(r, r / 8, r % 8, a); }
    else { DivUnique(r, r, 0, a); }
  }

  lemma UpTwice(r: nat, a: nat, b: nat)
    requires a in {1, 2, 4, 8} && b in {1, 2, 4, 8} && r < 8
    ensures Up(r, a) <= 8 && Up(r, b) <= 8 && Up(Up(r, a), b) <= 8
    ensures Up(Up(r, a), b) == Up(r, b) <==> Up(r, b) % a == 0
    ensures !(Up(Up(r, a), b) == 8 && Up(r, b) == 0) && !(Up(Up(r, a), b) == 0 && Up(r, b) == 8)
  {
    UpIsTable(r, a);
    UpIsTable(r, b);
    UpIsTable(Up(r, b), a);
    UpIsTable(Up(r, a), b);
    hide Up;
  }

  lemma AlignUp(q: nat, u: nat, b: nat)
    requires b in {1, 2, 4, 8} && u <= 8 && 8 * q < B64
    ensures AlignIndex(Wrap64(8 * q + u), b) == Wrap64(8 * q + Up(u, b))
  {
    UpIsTable(8, b);
    UpIsTable(0, b);
    WrapSmall(8 * q + u);
    hide AlignIndex, Up, Wrap64, Table;
    if u < 8 { AlignEight(q, u, b); }
    else if 8 * q + 8 < B64 { AlignEight(q + 1, 0, b); }
    else { AlignEight(0, 0, b); }
  }

  lemma WrapSmall(n: nat)
    ensures n < B64 ==> Wrap64(n) == n
    ensures n == B64 ==> Wrap64(n) == 0 && Wrap64(0) == 0
  {}

  lemma ResidueUp(q: nat, u: nat, a: nat)
    requires a in {1, 2, 4, 8}
    ensures Wrap64(8 * q + u) % a == u % a
  {
    Residue64(8 * q + u, a);
    SameInEight(q, u, a);
  }

  lemma SameUp(q: nat, u: nat, v: nat)
    requires 8 * q < B64 && u <= 8 && v <= 8 && !(u == 8 && v == 0) && !(u == 0 && v == 8)
    ensures Wrap64(8 * q + u) == Wrap64(8 * q + v) <==> u == v
  {}
}
