/** Laws relating the results of different ALU operations. */
module AluLaws {
  import opened Words
  import opened Alu

  function Value(op: AluOp, a: U64, b: U64): U64 { Execute(op, a, b).0 }

  lemma ShiftValue(op: AluOp, a: U64, b: U64)
    requires op in {KSll, KSllw, KSrl, KSrlw, KSra, KSraw}
    ensures Value(op, a, b) == Shift(op, a, b)
  {
    hide Shift, Bitwise, Divide, High, Checked64, Checked32;
  }

  lemma XorValue(a: U64, b: U64)
    ensures Value(KXor, a, b) == Bitwise(KXor, a, b, 64)
  {
    BitwiseFits(KXor, a, b);
    hide Shift, Bitwise, Divide, High, Checked64, Checked32, Defined, Wrap64, Wrap32, Signed64, Signed32, Pow2;
  }

  lemma BitwiseFits(op: AluOp, a: U64, b: U64)
    ensures Bitwise(op, a, b, 64) < B64 && Wrap64(Bitwise(op, a, b, 64)) == Bitwise(op, a, b, 64)
  {
    hide Bitwise;
    PowersOfTwo();
  }

  lemma LessThanValue(a: U64, b: U64)
    ensures Value(KSlt, a, b) == if Signed64(a) < Signed64(b) then 1 else 0
  {
    hide Shift, Bitwise, Divide, High, Checked64, Checked32, Defined, Wrap32, Signed32, Signed64, Pow2;
  }

  lemma UnsignedLessThanValue(a: U64, b: U64)
    ensures Value(KSltu, a, b) == if a < b then 1 else 0
  {
    hide Shift, Bitwise, Divide, High, Checked64, Checked32, Defined, Wrap32, Signed32, Signed64, Pow2;
  }

  // ----- products -----

  lemma HighSigned(p: int)
    requires -(B63 * B64) <= p < B63 * B64
    ensures Signed64(High(p)) == p / B64
  {
    if p < 0 { DivUnique(p, -1, p + B64 * B64, B64 * B64); } else { DivUnique(p, 0, p, B64 * B64); }
    assert -B63 <= p / B64 < B63;
    SignedWrap64(p / B64);
  }

  lemma HighUnsigned(p: int)
    requires 0 <= p < B64 * B64
    ensures High(p) == p / B64
  {
    DivUnique(p, 0, p, B64 * B64);
    var q, r := p / B64, p % B64;
    if p >= B63 * B64 {
      DivUnique(p - B64 * B64, q - B64, r, B64);
      DivUnique(q - B64, -1, q, B64);
    } else {
      DivUnique(q, 0, q, B64);
    }
  }

  lemma ProductBounds(x: int, y: int, m: int, n: int)
    requires -m <= x <= m && -n <= y <= n && m >= 0 && n >= 0
    ensures -(m * n) <= x * y <= m * n
  {
    if x >= 0 { Scale(x, y, n); Scale(n, x, m); } else { Scale(-x, y, n); Scale(n, -x, m); }
    if y >= 0 { Scale(y, x, m); } else { Scale(-y, x, m); }
  }

  lemma Scale(k: int, y: int, n: int)
    requires k >= 0 && -n <= y <= n
    ensures -(k * n) <= k * y <= k * n
  {
    assert k * (n - y) >= 0 && k * (n + y) >= 0;
  }

  /** Products of the unsigned readings differ from signed ones by multiples of 2^64. */
  lemma Readings(a: U64, b: U64)
    ensures a * b == Signed64(a) * Signed64(b)
      + B64 * ((if Signed64(a) < 0 then b else 0) + (if Signed64(b) < 0 then a else 0)
               - (if Signed64(a) < 0 && Signed64(b) < 0 then B64 else 0))
    ensures Signed64(a) * b == Signed64(a) * Signed64(b) + B64 * (if Signed64(b) < 0 then Signed64(a) else 0)
  {
    var sa, sb := Signed64(a), Signed64(b);
    var i, j := if sa < 0 then 1 else 0, if sb < 0 then 1 else 0;
    assert a == sa + i * B64 && b == sb + j * B64;
    if i == 0 && j == 1 { assert a * b == sa * sb + sa * B64; }
    if i == 1 && j == 0 { assert a * b == sa * sb + B64 * sb; }
    if i == 1 && j == 1 { assert a * b == sa * sb + B64 * sb + sa * B64 + B64 * B64; }
  }

  lemma SameLow(p: int, q: int, k: int)
    requires p == q + B64 * k
    ensures Wrap64(p) == Wrap64(q)
  {
    DivUnique(p, q / B64 + k, q % B64, B64);
  }

  lemma ProductsFit(a: U64, b: U64)
    ensures -(B63 * B64) <= Signed64(a) * Signed64(b) < B63 * B64
    ensures -(B63 * B64) <= Signed64(a) * b < B63 * B64
    ensures 0 <= a * b < B64 * B64
  {
    hide Signed64;
    ProductBounds(Signed64(a), Signed64(b), B63, B63);
    ProductBounds(Signed64(a), b, B63, B64 - 1);
    ProductBounds(a, b, B64 - 1, B64 - 1);
    NonNegative(a, b);
  }

  lemma NonNegative(x: nat, y: nat)
    ensures x * y >= 0
  {}

  /** mul with mulh, mulhsu and mulhu gives the exact 128-bit product of each pair of readings, and mul
      overflows exactly when the high half is not the sign of the low half. */
  lemma HighAndLowProduct(a: U64, b: U64)
    ensures var (lo, overflow) := Execute(KMul, a, b);
      && Signed64(Value(KMulh, a, b)) * B64 + lo == Signed64(a) * Signed64(b)
      && Signed64(Value(KMulhsu, a, b)) * B64 + lo == Signed64(a) * b
      && Value(KMulhu, a, b) * B64 + lo == a * b
      && (overflow <==> Value(KMulh, a, b) != if lo < B63 then 0 else B64 - 1)
  {
    hide High;
    var sa, sb := Signed64(a), Signed64(b);
    ProductsFit(a, b);
    Readings(a, b);
    HighSigned(sa * sb); HighSigned(sa * b); HighUnsigned(a * b);
    SameLow(a * b, sa * sb, (if sa < 0 then b else 0)
      + (if sb < 0 then a else 0) - (if sa < 0 && sb < 0 then B64 else 0));
    SameLow(sa * b, sa * sb, if sb < 0 then sa else 0);
  }

  /** The unsigned high half is the signed one, corrected by each operand whose partner is negative. */
  lemma HighHalves(a: U64, b: U64)
    ensures Value(KMulhu, a, b)
         == Wrap64(Value(KMulh, a, b) + (if Signed64(a) < 0 then b else 0) + (if Signed64(b) < 0 then a else 0))
  {
    hide High;
    var sa, sb := Signed64(a), Signed64(b);
    var c := (if sa < 0 then b else 0) + (if sb < 0 then a else 0);
    ProductsFit(a, b);
    Readings(a, b);
    HighSigned(sa * sb); HighUnsigned(a * b);
    Corrected(sa * sb, a * b, c - (if sa < 0 && sb < 0 then B64 else 0), High(sa * sb), High(a * b), c);
  }

  lemma Corrected(p: int, pu: int, cu: int, h: U64, hu: U64, c: int)
    requires pu == p + B64 * cu && Signed64(h) == p / B64 && hu == pu / B64
    requires cu == c || cu == c - B64
    ensures hu == Wrap64(h + c)
  {
    DivUnique(pu, p / B64 + cu, p % B64, B64);
    var k := (if h < B63 then 0 else -1) + (if cu == c then 0 else -1);
    assert hu == h + c + k * B64;
    DivUnique(h + c, -k, hu, B64);
  }

  // ----- division -----

  lemma QuotientBound(a: nat, b: nat)
    requires b > 0
    ensures a == a / b * b + a % b && a / b <= a
    ensures a / b == a ==> a == 0 || b == 1
  {
    var q, r := a / b, a % b;
    NonNegative(q, b - 1);
    assert a == q * (b - 1) + q + r;
    if q > 0 && b > 1 { MulGap(b - 1, 0, q); }
  }

  lemma Signs(q: int, d: int)
    ensures (-q) * d == -(q * d) && q * (-d) == -(q * d) && (-q) * (-d) == q * d
  {}

  lemma TruncLaw(x: int, y: int)
    requires y != 0
    ensures x == TruncDiv(x, y) * y + TruncMod(x, y)
    ensures Abs(TruncMod(x, y)) < Abs(y)
    ensures TruncMod(x, y) == 0 || (TruncMod(x, y) < 0 <==> x < 0)
    ensures Abs(TruncDiv(x, y)) <= Abs(x)
    ensures Abs(TruncDiv(x, y)) == Abs(x) ==> x == 0 || Abs(y) == 1
  {
    var q, d := Abs(x) / Abs(y), Abs(y);
    QuotientBound(Abs(x), d);
    Signs(q, d);
  }

  /** Signed division and remainder satisfy dividend == quotient * divisor + remainder, with the remainder
      smaller than the divisor and of the dividend's sign. */
  lemma SignedDivision(a: U64, b: U64)
    requires b != 0 && !(Signed64(a) == -B63 && Signed64(b) == -1)
    ensures var (x, y, q, r) := (Signed64(a), Signed64(b), Signed64(Value(KDiv, a, b)), Signed64(Value(KRem, a, b)));
      x == q * y + r && Abs(r) < Abs(y) && (r == 0 || (r < 0 <==> x < 0))
  {
    hide TruncDiv, TruncMod;
    TruncLaw(Signed64(a), Signed64(b));
    SignedWrap64(TruncDiv(Signed64(a), Signed64(b)));
    SignedWrap64(TruncMod(Signed64(a), Signed64(b)));
  }

  lemma SignedDivisionWord(a: U64, b: U64)
    requires Wrap32(b) != 0 && !(Signed32(Wrap32(a)) == -B31 && Signed32(Wrap32(b)) == -1)
    ensures var (x, y) := (Signed32(Wrap32(a)), Signed32(Wrap32(b)));
      var (q, r) := (Signed64(Value(KDivw, a, b)), Signed64(Value(KRemw, a, b)));
      x == q * y + r && Abs(r) < Abs(y) && (r == 0 || (r < 0 <==> x < 0))
  {
    hide TruncDiv, TruncMod;
    var x, y := Signed32(Wrap32(a)), Signed32(Wrap32(b));
    TruncLaw(x, y);
    SignedWrap64(TruncDiv(x, y));
    SignedWrap64(TruncMod(x, y));
  }

  lemma Unwrapped(n: U64)
    ensures Wrap64(n) == n
  {}

  lemma QuotientSmall(a: nat, b: nat)
    requires b > 0
    ensures 0 <= a / b <= a && 0 <= a % b <= a
  {
    QuotientBound(a, b);
    NonNegative(a / b, b);
  }

  lemma QuotientFits(a: U64, b: nat)
    requires b > 0
    ensures Wrap64(a / b) == a / b && Wrap64(a % b) == a % b
  {
    hide Wrap64;
    QuotientSmall(a, b);
    Unwrapped(a / b);
    Unwrapped(a % b);
  }

  lemma UnsignedValues(a: U64, b: U64)
    ensures b != 0 ==> Value(KDivu, a, b) == a / b && Value(KRemu, a, b) == a % b
    ensures Wrap32(b) != 0 ==>
      Value(KDivuw, a, b) == Wrap32(a) / Wrap32(b) && Value(KRemuw, a, b) == Wrap32(a) % Wrap32(b)
  {
    assert Wrap32(b) != 0 ==> b != 0;
    hide Bitwise, Shift, High, TruncDiv, TruncMod, Signed64, Signed32, Wrap64, Wrap32;
    if b != 0 { QuotientFits(a, b); }
    if Wrap32(b) != 0 { QuotientFits(Wrap32(a), Wrap32(b)); }
  }

  /** The unsigned pairs satisfy the same identity, on all 64 bits and on the low words. */
  lemma UnsignedDivision(a: U64, b: U64)
    ensures b != 0 ==> a == Value(KDivu, a, b) * b + Value(KRemu, a, b) && Value(KRemu, a, b) < b
    ensures Wrap32(b) != 0 ==>
      && Wrap32(a) == Value(KDivuw, a, b) * Wrap32(b) + Value(KRemuw, a, b)
      && Value(KRemuw, a, b) < Wrap32(b)
  {
    hide *;
    UnsignedValues(a, b);
    if b != 0 { QuotientBound(a, b); }
    if Wrap32(b) != 0 { QuotientBound(Wrap32(a), Wrap32(b)); }
  }

  // ----- word forms, comparisons and shifts -----

  lemma Low32(n: int)
    ensures Wrap32(Wrap64(n)) == Wrap32(n)
  {
    var q, r := n / B64, n % B64;
    DivUnique(n, q * B32 + r / B32, r % B32, B32);
  }

  lemma SameLow32(p: int, q: int, k: int)
    requires p == q + B32 * k
    ensures Wrap32(p) == Wrap32(q)
  {
    DivUnique(p, q / B32 + k, q % B32, B32);
  }

  /** `x` is the signed value of the low word of `a`: the two agree modulo 2^32 with both readings of `a`. */
  lemma WordReading(a: U64) returns (k: int)
    ensures Signed64(a) == Signed32(Wrap32(a)) + B32 * k
  {
    k := (Signed64(a) - Signed32(Wrap32(a))) / B32;
    var q := a / B32;
    assert a == q * B32 + Wrap32(a);
    k := q + (if Wrap32(a) < B31 then 0 else 1) - (if a < B63 then 0 else B32);
  }

  /** addw, subw and mulw are the sign-extended low words of add, sub and mul. */
  lemma WordForms(a: U64, b: U64)
    ensures Value(KAddw, a, b) == Sext32(Value(KAdd, a, b))
    ensures Value(KSubw, a, b) == Sext32(Value(KSub, a, b))
    ensures Value(KMulw, a, b) == Sext32(Value(KMul, a, b))
  {
    var j := WordReading(a);
    var k := WordReading(b);
    var sa, sb, wa, wb := Signed64(a), Signed64(b), Signed32(Wrap32(a)), Signed32(Wrap32(b));
    CheckedValues(a, b);
    hide Signed64, Signed32, Wrap32, Wrap64, Value, Sext32;
    SameLow32(sa + sb, wa + wb, j + k);
    SameLow32(sa - sb, wa - wb, j - k);
    SameLowProduct(sa, sb, wa, wb, j, k);
    LowWord(sa + sb, wa + wb);
    LowWord(sa - sb, wa - wb);
    LowWord(sa * sb, wa * wb);
  }

  lemma CheckedValues(a: U64, b: U64)
    ensures var (sa, sb, wa, wb) := (Signed64(a), Signed64(b), Signed32(Wrap32(a)), Signed32(Wrap32(b)));
      && Value(KAdd, a, b) == Wrap64(sa + sb) && Value(KAddw, a, b) == Sext32(wa + wb)
      && Value(KSub, a, b) == Wrap64(sa - sb) && Value(KSubw, a, b) == Sext32(wa - wb)
      && Value(KMul, a, b) == Wrap64(sa * sb) && Value(KMulw, a, b) == Sext32(wa * wb)
  {
    hide Signed64, Signed32, Wrap32, Wrap64, Sext32, Bitwise, Shift, Divide, High, Defined;
  }

  lemma LowWord(n: int, m: int)
    requires Wrap32(n) == Wrap32(m)
    ensures Sext32(m) == Sext32(Wrap64(n))
  {
    Low32(n);
    hide Wrap32, Wrap64;
  }

  lemma SameLowProduct(sa: int, sb: int, wa: int, wb: int, j: int, k: int)
    requires sa == wa + B32 * j && sb == wb + B32 * k
    ensures Wrap32(sa * sb) == Wrap32(wa * wb)
  {
    assert sa * sb == wa * wb + B32 * (wa * k + j * wb + B32 * (j * k));
    SameLow32(sa * sb, wa * wb, wa * k + j * wb + B32 * (j * k));
  }

  /** slt is the sign of the difference, corrected by the overflow flag of sub. */
  lemma LessThanFromSub(a: U64, b: U64)
    ensures var (d, overflow) := Execute(KSub, a, b);
      Value(KSlt, a, b) == 1 <==> (Signed64(d) < 0) != overflow
  {
    hide Bitwise, Shift, Divide, High;
  }

  lemma {:induction false} BitwiseXorTop(a: nat, k: nat)
    requires a < Pow2(k + 1)
    ensures Bitwise(KXor, a, Pow2(k), k + 1) == if a < Pow2(k) then a + Pow2(k) else a - Pow2(k)
    decreases k
  {
    if k > 0 {
      var t := Pow2(k - 1);
      BitwiseXorTop(a / 2, k - 1);
      XorTopStep(a, k, t);
    } else {
      assert Bitwise(KXor, a / 2, 0, 0) == 0;
    }
  }

  lemma XorTopStep(a: nat, k: nat, t: nat)
    requires k > 0 && t == Pow2(k - 1)
    ensures Pow2(k) == 2 * t && (a < 2 * t <==> a / 2 < t)
    ensures Bitwise(KXor, a, 2 * t, k + 1) == a % 2 + 2 * Bitwise(KXor, a / 2, t, k)
  {
    hide Bitwise;
    XorStep(a, 2 * t, k);
  }

  lemma XorStep(a: nat, b: nat, k: nat)
    ensures Bitwise(KXor, a, b, k + 1) == (a % 2 + b % 2) % 2 + 2 * Bitwise(KXor, a / 2, b / 2, k)
  {}

  lemma XorSignBit(a: U64)
    ensures Value(KXor, a, B63) == if a < B63 then a + B63 else a - B63
  {
    hide Bitwise, Value;
    PowersOfTwo();
    BitwiseXorTop(a, 63);
    XorValue(a, B63);
  }

  /** Exclusive-or with the sign bit turns the signed order into the unsigned one. */
  lemma SignedThroughUnsigned(a: U64, b: U64)
    ensures Value(KSlt, a, b) == Value(KSltu, Value(KXor, a, B63), Value(KXor, b, B63))
  {
    hide Value;
    XorSignBit(a);
    XorSignBit(b);
    LessThanValue(a, b);
    UnsignedLessThanValue(Value(KXor, a, B63), Value(KXor, b, B63));
  }

  lemma PowersOfTwo()
    ensures Pow2(32) == B32 && Pow2(63) == B63 && Pow2(64) == B64
  {
    assert Pow2(8) == 0x100;
    Pow2Add(8, 8); Pow2Add(16, 16); Pow2Add(32, 32);
    assert Pow2(64) == 2 * Pow2(63);
  }

  lemma {:induction false} BitwiseNot(a: nat, k: nat)
    requires a < Pow2(k)
    ensures Bitwise(KXor, a, Pow2(k) - 1, k) == Pow2(k) - 1 - a
    decreases k
  {
    hide Pow2, Bitwise;
    if k == 0 {
      NoBits(a);
    } else {
      var p := Pow2(k - 1);
      Pow2Twice(k);
      Halves(p, a);
      BitwiseNot(a / 2, k - 1);
      NotStep(a, k - 1, p);
    }
  }

  lemma NoBits(a: nat)
    ensures Pow2(0) == 1 && Bitwise(KXor, a, 0, 0) == 0
  {}

  lemma NotStep(a: nat, k: nat, p: nat)
    requires p > 0
    ensures Bitwise(KXor, a, 2 * p - 1, k + 1) == 1 - a % 2 + 2 * Bitwise(KXor, a / 2, p - 1, k)
  {
    XorStep(a, 2 * p - 1, k);
    hide Bitwise;
    assert (2 * p - 1) % 2 == 1 && (2 * p - 1) / 2 == p - 1;
  }

  lemma Pow2Twice(k: nat)
    requires k > 0
    ensures Pow2(k) == 2 * Pow2(k - 1)
  {}

  lemma Halves(p: nat, a: nat)
    requires a < 2 * p
    ensures (2 * p - 1 - a) % 2 == 1 - a % 2 && (2 * p - 1 - a) / 2 == p - 1 - a / 2 && a / 2 < p
  {}

  lemma Digits(n: nat, t: nat, h: nat)
    requires t < 2
    ensures t + 2 * h == n <==> t == n % 2 && h == n / 2
  {}

  /** Or-ing `b` into `a` changes it exactly if `b` has a bit that `a` lacks. */
  lemma {:induction false} OrChangesIff(a: nat, b: nat, k: nat)
    requires a < Pow2(k)
    ensures Bitwise(KOr, a, b, k) != a <==> Bitwise(KAnd, b, Pow2(k) - 1 - a, k) != 0
    decreases k
  {
    if k > 0 {
      var p := Pow2(k - 1);
      Pow2Twice(k);
      hide Pow2, Bitwise;
      Halves(p, a);
      OrChangesIff(a / 2, b / 2, k - 1);
      OrStep(a, b, k - 1, p);
    }
  }

  lemma OrStep(a: nat, b: nat, k: nat, p: nat)
    requires a < 2 * p
    requires a / 2 < p && (Bitwise(KOr, a / 2, b / 2, k) != a / 2 <==> Bitwise(KAnd, b / 2, p - 1 - a / 2, k) != 0)
    ensures Bitwise(KOr, a, b, k + 1) != a <==> Bitwise(KAnd, b, 2 * p - 1 - a, k + 1) != 0
  {
    hide Bitwise;
    Halves(p, a);
    BitwiseSteps(a, b, k);
    BitwiseSteps(b, 2 * p - 1 - a, k);
    Digits(a, if a % 2 == 1 || b % 2 == 1 then 1 else 0, Bitwise(KOr, a / 2, b / 2, k));
  }

  /** Clearing the bits of `b` in `a` changes it exactly if they share a bit. */
  lemma {:induction false} ClearChangesIff(a: nat, b: nat, k: nat)
    requires a < Pow2(k) && b < Pow2(k)
    ensures Bitwise(KAnd, a, Pow2(k) - 1 - b, k) != a <==> Bitwise(KAnd, b, a, k) != 0
    decreases k
  {
    if k > 0 {
      var p := Pow2(k - 1);
      Pow2Twice(k);
      hide Pow2, Bitwise;
      Halves(p, a);
      Halves(p, b);
      ClearChangesIff(a / 2, b / 2, k - 1);
      ClearStep(a, b, k - 1, p);
    }
  }

  lemma ClearStep(a: nat, b: nat, k: nat, p: nat)
    requires b < 2 * p
    requires b / 2 < p && (Bitwise(KAnd, a / 2, p - 1 - b / 2, k) != a / 2 <==> Bitwise(KAnd, b / 2, a / 2, k) != 0)
    ensures Bitwise(KAnd, a, 2 * p - 1 - b, k + 1) != a <==> Bitwise(KAnd, b, a, k + 1) != 0
  {
    hide Bitwise;
    Halves(p, b);
    BitwiseSteps(a, 2 * p - 1 - b, k);
    BitwiseSteps(b, a, k);
    Digits(a, if a % 2 == 1 && b % 2 == 0 then 1 else 0, Bitwise(KAnd, a / 2, p - 1 - b / 2, k));
  }

  lemma BitwiseSteps(a: nat, b: nat, k: nat)
    ensures Bitwise(KAnd, a, b, k + 1)
         == (if a % 2 == 1 && b % 2 == 1 then 1 else 0) + 2 * Bitwise(KAnd, a / 2, b / 2, k)
    ensures Bitwise(KOr, a, b, k + 1)
         == (if a % 2 == 1 || b % 2 == 1 then 1 else 0) + 2 * Bitwise(KOr, a / 2, b / 2, k)
  {
    hide Pow2;
  }

  /** `xori rd, rs, -1`, the expansion of `not`, complements every bit. */
  lemma XorWithMinusOne(a: U64)
    ensures Value(KXor, a, Wrap64(-1)) == B64 - 1 - a
  {
    hide Bitwise, Value;
    PowersOfTwo();
    BitwiseNot(a, 64);
    XorValue(a, Wrap64(-1));
  }

  /** An arithmetic right shift is floor division by a power of two: the logical shift with the sign bit copied into the
      vacated places. A left shift loses exactly the bits a logical right shift back does not return. */
  lemma ShiftsCompared(a: U64, b: U64)
    ensures var n := b % 64;
      && Pow2(n) * Pow2(64 - n) == B64
      && (var q := Signed64(Value(KSra, a, b)); q * Pow2(n) <= Signed64(a) < (q + 1) * Pow2(n))
      && Value(KSra, a, b) == Value(KSrl, a, b) + (if a < B63 then 0 else B64 - Pow2(64 - n))
      && Value(KSrl, Value(KSll, a, b), b) == a % Pow2(64 - n)
  {
    var n := b % 64;
    PowersOfTwo();
    Pow2Add(n, 64 - n);
    hide *;
    FloorShift(a, b, Pow2(n));
    ShiftedBoth(a, b, Pow2(n), Pow2(64 - n));
  }

  lemma FloorShift(a: U64, b: U64, p: nat)
    requires p == Pow2(b % 64) && p > 0
    ensures var q := Signed64(Value(KSra, a, b)); q * p <= Signed64(a) < (q + 1) * p
  {
    ShiftValue(KSra, a, b);
    QuotientInRange(Signed64(a), p);
    SignedWrap64(Signed64(a) / p);
    hide Value, Wrap64, Signed64, Pow2;
    Floor(Signed64(a), p);
  }

  lemma QuotientInRange(x: int, p: nat)
    requires p > 0 && -B63 <= x < B63
    ensures -B63 <= x / p < B63
  {
    var q := x / p;
    Floor(x, p);
    if x >= 0 { QuotientBound(x, p); }
    else if q >= 0 { NonNegative(q, p); }
    else if q < -B63 { LowQuotient(q, p); }
  }

  lemma LowQuotient(q: int, p: nat)
    requires q < -B63 && p > 0
    ensures (q + 1) * p <= -B63
  {
    if q + 1 < -B63 { MulGap(-B63, q + 1, p); }
    NonNegative(B63, p - 1);
    assert -B63 * p == -B63 - B63 * (p - 1);
  }

  lemma Floor(x: int, p: nat)
    requires p > 0
    ensures x / p * p <= x < (x / p + 1) * p
  {
    assert x == x / p * p + x % p;
    assert (x / p + 1) * p == x / p * p + p;
  }

  lemma ShiftedBoth(a: U64, b: U64, p: nat, r: nat)
    requires p == Pow2(b % 64) && r > 0 && p * r == B64
    ensures Value(KSra, a, b) == Value(KSrl, a, b) + (if a < B63 then 0 else B64 - r)
    ensures Value(KSrl, Value(KSll, a, b), b) == a % r
  {
    hide Value, Wrap64, Signed64, Pow2, Sext32;
    ShiftValue(KSra, a, b); ShiftValue(KSrl, a, b); ShiftValue(KSll, a, b);
    ShiftValue(KSrl, Value(KSll, a, b), b);
    ArithmeticShift(a, p, r);
    LeftThenRight(a, p, r);
  }

  lemma ArithmeticShift(a: U64, p: nat, r: nat)
    requires p > 0 && p * r == B64
    ensures Wrap64(a / p) == a / p
    ensures Wrap64(Signed64(a) / p) == a / p + (if a < B63 then 0 else B64 - r)
  {
    QuotientFits(a, p);
    QuotientBound(a, p);
    hide Wrap64;
    if a >= B63 { NegativeShift(a, p, r, a / p, a % p); }
  }

  lemma NegativeShift(a: U64, p: nat, r: nat, q: nat, m: nat)
    requires p > 0 && p * r == B64 && a == q * p + m && m < p
    ensures Wrap64((a - B64) / p) == q + B64 - r
  {
    assert (q - r) * p + m == a - B64 by { assert (q - r) * p == q * p - r * p; }
    DivUnique(a - B64, q - r, m, p);
    if q >= r { if q > r { MulGap(q, r, p); } assert false; }
    if r > B64 { MulGap(r, B64, p); MulGap(p + 1, 1, B64); assert false; }
    DivUnique(q - r, -1, q - r + B64, B64);
  }

  lemma Regroup(q: int, r: int, m: int, p: int)
    ensures (q * r + m) * p == q * (p * r) + m * p
  {
    Distributes(q * r, m, p);
    assert q * r * p == q * (p * r);
  }

  lemma LeftThenRight(a: U64, p: nat, r: nat)
    requires p > 0 && r > 0 && p * r == B64
    ensures Wrap64(Wrap64(a * p) / p) == a % r
  {
    var q, m := a / r, a % r;
    Regroup(q, r, m, p);
    MulGap(r, m, p);
    NonNegative(m, p);
    assert Wrap64(a * p) == m * p by { DivUnique(a * p, q, m * p, B64); }
    hide Wrap64;
    DivUnique(m * p, m, 0, p);
    QuotientBound(a, r);
    Unwrapped(m);
  }

  /** sllw is the sign-extended low word of sll, and srlw and sraw are shifts of the extended low word. */
  lemma WordShifts(a: U64, b: U64)
    requires b < 32
    ensures Value(KSllw, a, b) == Sext32(Value(KSll, a, b))
    ensures Value(KSraw, a, b) == Value(KSra, Sext32(a), b)
    ensures Value(KSrlw, a, b) == Sext32(Value(KSrl, Wrap32(a), b))
  {
    hide Value, Signed32, Signed64, Wrap32, Wrap64, Pow2;
    ShiftValue(KSllw, a, b); ShiftValue(KSll, a, b);
    ShiftValue(KSraw, a, b); ShiftValue(KSra, Sext32(a), b);
    ShiftValue(KSrlw, a, b); ShiftValue(KSrl, Wrap32(a), b);
    Low32(a * Pow2(b));
    Low32(Wrap32(a) / Pow2(b));
    SignedWrap64(Signed32(Wrap32(a)));
  }

  /** Shifting by a decoded immediate that still carries funct6 above the amount shifts by the amount. */
  lemma ShiftIgnoresFunct6(op: AluOp, a: U64, funct6: nat, shamt: nat)
    requires shamt < 64 && funct6 < 64 && op in {KSll, KSrl, KSra}
    ensures Value(op, a, funct6 * 64 + shamt) == Value(op, a, shamt)
  {
    hide Value, Signed64, Wrap64, Sext32, Pow2;
    ShiftValue(op, a, funct6 * 64 + shamt);
    ShiftValue(op, a, shamt);
    DivUnique(funct6 * 64 + shamt, funct6, shamt, 64);
  }

  /** Adding a sign-extended immediate. */
  lemma AddWraps(a: U64, n: int)
    ensures Execute(KAdd, a, Wrap64(n)).0 == Wrap64(a + n)
  {
    var j, k := (Signed64(a) - a) / B64, (Signed64(Wrap64(n)) - n) / B64;
    WrapSigned64(Wrap64(n));
    assert Signed64(a) == a + B64 * j;
    assert n == n / B64 * B64 + Wrap64(n);
    assert Signed64(Wrap64(n)) == n + B64 * k;
    SameWrap(Signed64(a) + Signed64(Wrap64(n)), a + n, j + k);
  }

  lemma SameWrap(x: int, y: int, k: int)
    requires x == y + B64 * k
    ensures Wrap64(x) == Wrap64(y)
  {
    DivUnique(x, y / B64 + k, y % B64, B64);
  }
}
