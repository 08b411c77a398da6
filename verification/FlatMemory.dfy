/** The reference view of memory: a total map from addresses to bytes, read and written little-endian. */
module FlatMemory {
  import opened Words

  ghost predicate Total(m: imap<nat, U8>) { forall a: nat :: a in m }

  type Flat = m: imap<nat, U8> | Total(m) ghost witness imap a: nat | true :: 0

  ghost const ZEROS: Flat := imap a: nat | true :: 0

  /** The value of the `n` bytes from `a` on, least significant first. */
  ghost function LoadLE(m: Flat, a: nat, n: nat): (v: nat)
    ensures n == 1 ==> v < 0x100
    ensures n == 2 ==> v < 0x1_0000
    ensures n == 4 ==> v < B32
    ensures n == 8 ==> v < B64
    decreases n
  {
    LoadBound(m, a, n);
    Pow2Values();
    LoadFrom(m, a, n)
  }

  ghost function LoadFrom(m: Flat, a: nat, n: nat): nat
    decreases n
  {
    if n == 0 then 0 else m[a] + 256 * LoadFrom(m, a + 1, n - 1)
  }

  /** `m` with the low `n` bytes of `v` stored from `a` on. */
  ghost function StoreLE(m: Flat, a: nat, n: nat, v: nat): Flat
    decreases n
  {
    if n == 0 then m else StoreLE(m[a := v % 256], a + 1, n - 1, v / 256)
  }

  /** 256^k, the weight of byte `k`. */
  function Weight(k: nat): (p: nat)
    ensures p > 0
  {
    if k == 0 then 1 else 256 * Weight(k - 1)
  }

  /** Byte `k` of a number. */
  function ByteOf(v: nat, k: nat): U8 {
    if k == 0 then v % 256 else ByteOf(v / 256, k - 1)
  }

  lemma Pow2Values()
    ensures Weight(1) == 0x100 && Weight(2) == 0x1_0000 && Weight(4) == B32 && Weight(8) == B64
  {
    assert Weight(2) == 256 * Weight(1);
    assert Weight(3) == 256 * Weight(2);
    assert Weight(5) == 256 * Weight(4);
    assert Weight(6) == 256 * Weight(5);
    assert Weight(7) == 256 * Weight(6);
  }

  lemma {:induction false} LoadBound(m: Flat, a: nat, n: nat)
    ensures LoadFrom(m, a, n) < Weight(n)
    decreases n
  {
    if n > 0 { LoadBound(m, a + 1, n - 1); }
  }

  /** A store changes exactly its own bytes. */
  lemma {:induction false} StoreAt(m: Flat, a: nat, n: nat, v: nat, b: nat)
    ensures StoreLE(m, a, n, v)[b] == if a <= b < a + n then ByteOf(v, b - a) else m[b]
    decreases n
  {
    if n > 0 { StoreAt(m[a := v % 256], a + 1, n - 1, v / 256, b); }
  }

  lemma {:induction false} LoadAt(m: Flat, a: nat, n: nat, k: nat)
    requires k < n
    ensures ByteOf(LoadLE(m, a, n), k) == m[a + k]
    decreases n
  {
    DivUnique(LoadFrom(m, a, n), LoadFrom(m, a + 1, n - 1), m[a], 256);
    if k > 0 { LoadAt(m, a + 1, n - 1, k - 1); }
  }

  /** A load after a store sees, byte by byte, the stored value where the two overlap and the old bytes
      elsewhere, whatever the two addresses and widths. */
  lemma LoadAfterStore(m: Flat, a: nat, n: nat, v: nat, b: nat, w: nat, k: nat)
    requires k < w
    ensures ByteOf(LoadLE(StoreLE(m, a, n, v), b, w), k)
         == if a <= b + k < a + n then ByteOf(v, b + k - a) else m[b + k]
  {
    LoadAt(StoreLE(m, a, n, v), b, w, k);
    StoreAt(m, a, n, v, b + k);
  }

  /** Loads only look at their own bytes. */
  lemma {:induction false} LoadSame(m: Flat, m': Flat, a: nat, n: nat)
    requires forall b :: a <= b < a + n ==> m[b] == m'[b]
    ensures LoadLE(m, a, n) == LoadLE(m', a, n)
    decreases n
  {
    if n > 0 { LoadSame(m, m', a + 1, n - 1); }
  }

  /** Storing and loading back at the same place returns the value, cut to the width. */
  lemma {:induction false} StoreThenLoad(m: Flat, a: nat, n: nat, v: nat)
    ensures LoadLE(StoreLE(m, a, n, v), a, n) == v % Weight(n)
    decreases n
  {
    if n > 0 {
      var m1 := m[a := v % 256];
      StoreThenLoad(m1, a + 1, n - 1, v / 256);
      StoreAt(m1, a + 1, n - 1, v / 256, a);
      Shifted(v, Weight(n - 1));
    }
  }

  lemma Shifted(v: nat, p: nat)
    requires p > 0
    ensures v % (256 * p) == v % 256 + 256 * (v / 256 % p)
  {
    Nest(v, v / 256, v / 256 / p, v / 256 % p, v % 256, 256, p);
  }

  lemma Disjoint(m: Flat, a: nat, n: nat, v: nat, b: nat, w: nat)
    requires b + w <= a || a + n <= b
    ensures LoadLE(StoreLE(m, a, n, v), b, w) == LoadLE(m, b, w)
  {
    forall c | b <= c < b + w ensures StoreLE(m, a, n, v)[c] == m[c] { StoreAt(m, a, n, v, c); }
    LoadSame(StoreLE(m, a, n, v), m, b, w);
  }
}
