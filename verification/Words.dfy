/** Fixed-width machine integers, held as mathematical integers with explicit wrap-around.
    A bit field `(w >> k) & (2^m - 1)` is written `Bits(w, 2^k, 2^m)`, and an `|` of disjoint
    fields is written as their sum. */
module Words {
  const B31 := 0x8000_0000
  const B32 := 0x1_0000_0000
  const B63 := 0x8000_0000_0000_0000
  const B64 := 0x1_0000_0000_0000_0000

  type U8 = n: nat | n < 0x100
  type U16 = n: nat | n < 0x1_0000
  type U32 = n: nat | n < 0x1_0000_0000
  type U64 = n: nat | n < 0x1_0000_0000_0000_0000

  /** Conversion to `uint32_t`. */
  function Wrap32(n: int): U32 { n % 0x1_0000_0000 }

  /** Conversion to `uint64_t`. */
  function Wrap64(n: int): U64 { n % 0x1_0000_0000_0000_0000 }

  /** The value a `uint64_t` has as `int64_t`. */
  function Signed64(u: U64): (s: int)
    ensures -B63 <= s < B63
  {
    if u < 0x8000_0000_0000_0000 then u else u - 0x1_0000_0000_0000_0000
  }

  /** The value a `uint32_t` has as `int32_t`. */
  function Signed32(u: U32): (s: int)
    ensures -B31 <= s < B31
  {
    if u < 0x8000_0000 then u else u - 0x1_0000_0000
  }

  lemma WrapSigned64(u: U64)
    ensures Wrap64(Signed64(u)) == u
  {}

  /** Wrapping and reading back as signed is the identity exactly on the `int64_t` range. */
  lemma SignedWrap64(n: int)
    ensures Signed64(Wrap64(n)) == n <==> -B63 <= n < B63
  {}

  function Pow2(k: nat): (p: nat)
    ensures p > 0
  {
    if k == 0 then 1 else 2 * Pow2(k - 1)
  }

  lemma {:induction false} Pow2Add(j: nat, k: nat)
    ensures Pow2(j + k) == Pow2(j) * Pow2(k)
  {
    if j > 0 { Pow2Add(j - 1, k); }
  }

  lemma MulGap(x: int, y: int, d: int)
    requires y < x && d > 0
    ensures x * d >= y * d + d
  {
    var k := x - y - 1;
    Distributes(y + 1, k, d);
    Distributes(y, 1, d);
    assert k * d >= 0;
  }

  lemma Distributes(a: int, b: int, d: int)
    ensures (a + b) * d == a * d + b * d
  {}

  /** Quotient and remainder are the only pair with the remainder in range. */
  lemma DivUnique(a: int, q: int, r: int, d: int)
    requires 0 <= r < d && a == q * d + r
    ensures a / d == q && a % d == r
  {
    var q', r' := a / d, a % d;
    assert a == q' * d + r';
    if q' < q { MulGap(q, q', d); }
    if q < q' { MulGap(q', q, d); }
  }

  /** The field of `w` that starts at the bit worth `p` and holds values below `n`. */
  function Bits(w: int, p: nat, n: nat): (f: nat)
    requires p > 0 && n > 0
    ensures f < n
  {
    (w / p) % n
  }

  /** A field is recognised from what stands above and below it. */
  lemma BitsAre(w: int, hi: int, f: int, low: int, p: nat, n: nat)
    requires 0 <= f < n && 0 <= low < p
    requires w == (hi * n + f) * p + low
    ensures Bits(w, p, n) == f
  {
    DivUnique(w, hi * n + f, low, p);
    DivUnique(hi * n + f, hi, f, n);
  }

  /** The low part of a number is one field above a shorter low part. */
  lemma LowBits(i: int, p: nat, n: nat)
    requires p > 0 && n > 0
    ensures p * n > 0
    ensures i % (p * n) == Bits(i, p, n) * p + i % p
  {
    var q, r := i / p, i % p;
    var h, f := q / n, q % n;
    Nest(i, q, h, f, r, p, n);
  }

  lemma Nest(i: int, q: int, h: int, f: int, r: int, p: nat, n: nat)
    requires 0 <= f < n && 0 <= r < p && q == h * n + f && i == q * p + r
    ensures p * n > 0
    ensures i % (p * n) == f * p + r && i / (p * n) == h
  {
    assert i == h * (p * n) + (f * p + r);
    assert f * p + r < p * n by { MulGap(n, f, p); }
    DivUnique(i, h, f * p + r, p * n);
  }
}
