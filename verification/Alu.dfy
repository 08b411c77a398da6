/** The integer operations of `Alu::execute` (src/vm/alu.cpp). */
module Alu {
  import opened Words

  datatype AluOp = KNone | KAdd | KAddw | KSub | KSubw | KMul | KMulh | KMulhsu | KMulhu | KMulw
    | KDiv | KDivw | KDivu | KDivuw | KRem | KRemw | KRemu | KRemuw | KAnd | KOr | KXor
    | KSll | KSllw | KSrl | KSrlw | KSra | KSraw | KSlt | KSltu

  const INT64_MAX := B63 - 1

  /** C++ division rounds toward zero. */
  function TruncDiv(x: int, y: int): int
    requires y != 0
  {
    var q := Abs(x) / Abs(y);
    if (x < 0) == (y < 0) then q else -q
  }

  /** The C++ remainder takes the sign of the dividend. */
  function TruncMod(x: int, y: int): int
    requires y != 0
  {
    var r := Abs(x) % Abs(y);
    if x < 0 then -r else r
  }

  function Abs(x: int): nat { if x < 0 then -x else x }

  /** Bit by bit, on the low `k` bits. */
  function Bitwise(op: AluOp, a: nat, b: nat, k: nat): (r: nat)
    ensures r < Pow2(k)
    decreases k
  {
    if k == 0 then 0 else
      var bit := match op
        case KAnd => (a % 2) * (b % 2)
        case KOr => if a % 2 + b % 2 > 0 then 1 else 0
        case _ => (a % 2 + b % 2) % 2;
      bit + 2 * Bitwise(op, a / 2, b / 2, k - 1)
  }

  /** The sign extension of the low 32 bits. */
  function Sext32(n: int): U64 { Wrap64(Signed32(Wrap32(n))) }

  /** Reading a 128-bit product as `__int128`. */
  function Signed128(n: int): int {
    var u := n % (B64 * B64);
    if u < B63 * B64 then u else u - B64 * B64
  }

  /** The operands on which the source's arithmetic is defined: the remainder operations do not guard the
      overflowing quotient, and the word operations test all 64 bits of a divisor of which they use 32. */
  predicate Defined(op: AluOp, a: U64, b: U64) {
    match op
    case KRem => !(Signed64(a) == -B63 && Signed64(b) == -1)
    case KRemw => b == 0 || (Wrap32(b) != 0 && !(Signed32(Wrap32(a)) == -B31 && Signed32(Wrap32(b)) == -1))
    case KDivuw => b == 0 || Wrap32(b) != 0
    case KRemuw => b == 0 || Wrap32(b) != 0
    case _ => true
  }

  function Ok(n: int): (U64, bool) { (Wrap64(n), false) }

  /** `sum` with the flag that says it did not fit. */
  function Checked64(n: int): (U64, bool) { (Wrap64(n), !(-B63 <= n < B63)) }

  function Checked32(n: int): (U64, bool) { (Sext32(n), !(-B31 <= n < B31)) }

  /** The high half of a 128-bit product. */
  function High(product: int): U64 { Wrap64(Signed128(product) / B64) }

  function Divide(op: AluOp, a: U64, b: U64): (U64, bool)
    requires Defined(op, a, b)
  {
    var sa, sb := Signed64(a), Signed64(b);
    var wa, wb := Signed32(Wrap32(a)), Signed32(Wrap32(b));
    match op
    case KDiv =>
      if sb == 0 then Ok(0) else if sa == -B63 && sb == -1 then (INT64_MAX, true) else Ok(TruncDiv(sa, sb))
    case KDivw =>
      if wb == 0 then Ok(0) else if wa == -B31 && wb == -1 then (Wrap64(-B31), true) else Ok(TruncDiv(wa, wb))
    case KDivu => if b == 0 then Ok(0) else Ok(a / b)
    case KDivuw => if b == 0 then Ok(0) else Ok(Wrap32(a) / Wrap32(b))
    case KRem => if b == 0 then Ok(0) else Ok(TruncMod(sa, sb))
    case KRemw => if b == 0 then Ok(0) else Ok(TruncMod(wa, wb))
    case KRemu => if b == 0 then Ok(0) else Ok(a % b)
    case KRemuw => if b == 0 then Ok(0) else Ok(Wrap32(a) % Wrap32(b))
    case _ => Ok(0)
  }

  function Shift(op: AluOp, a: U64, b: U64): U64 {
    match op
    case KSll => Wrap64(a * Pow2(b % 64))
    case KSllw => Sext32(a * Pow2(b % 32))
    case KSrl => Wrap64(a / Pow2(b % 64))
    case KSrlw => Sext32(Wrap32(a) / Pow2(b % 32))
    case KSra => Wrap64(Signed64(a) / Pow2(b % 64))
    case KSraw => Wrap64(Signed32(Wrap32(a)) / Pow2(b % 32))
    case _ => 0
  }

  /** Result and overflow flag; where the source is undefined the result is taken to be 0. */
  function Execute(op: AluOp, a: U64, b: U64): (U64, bool) {
    var sa, sb := Signed64(a), Signed64(b);
    var wa, wb := Signed32(Wrap32(a)), Signed32(Wrap32(b));
    match op
    case KNone => Ok(0)
    case KAdd => Checked64(sa + sb)
    case KAddw => Checked32(wa + wb)
    case KSub => Checked64(sa - sb)
    case KSubw => Checked32(wa - wb)
    case KMul => Checked64(sa * sb)
    case KMulh => (High(sa * sb), false)
    case KMulhsu => (High(sa * b), false)
    case KMulhu => (High(a * b), false)
    case KMulw => Checked32(wa * wb)
    case KAnd => Ok(Bitwise(op, a, b, 64))
    case KOr => Ok(Bitwise(op, a, b, 64))
    case KXor => Ok(Bitwise(op, a, b, 64))
    case KSlt => Ok(if sa < sb then 1 else 0)
    case KSltu => Ok(if a < b then 1 else 0)
    case KSll | KSllw | KSrl | KSrlw | KSra | KSraw => (Shift(op, a, b), false)
    case _ => if Defined(op, a, b) then Divide(op, a, b) else Ok(0)
  }
}
