/** The bitwise operations, bit by bit. */
module BitLaws {
  import opened Words
  import opened Alu
  import opened AluLaws

  /** Bit `j` of a number. */
  function BitOf(n: nat, j: nat): (b: nat)
    ensures b < 2
  {
    if j == 0 then n % 2 else BitOf(n / 2, j - 1)
  }

  /** Two words are the same if their bits are. */
  lemma {:induction false} SameBits(a: nat, b: nat, k: nat)
    requires a < Pow2(k) && b < Pow2(k) && forall j: nat :: j < k ==> BitOf(a, j) == BitOf(b, j)
    ensures a == b
    decreases k
  {
    if k > 0 {
      forall j: nat | j < k - 1 ensures BitOf(a / 2, j) == BitOf(b / 2, j) {
        assert BitOf(a, j + 1) == BitOf(b, j + 1);
      }
      assert BitOf(a, 0) == BitOf(b, 0);
      SameBits(a / 2, b / 2, k - 1);
    }
  }

  /** and, or and xor combine the bits of their operands, each bit for itself. */
  lemma {:induction false} BitwiseBit(op: AluOp, a: nat, b: nat, k: nat, j: nat)
    requires j < k && op in {KAnd, KOr, KXor}
    ensures BitOf(Bitwise(op, a, b, k), j) == match op
      case KAnd => (if BitOf(a, j) == 1 && BitOf(b, j) == 1 then 1 else 0)
      case KOr => (if BitOf(a, j) == 1 || BitOf(b, j) == 1 then 1 else 0)
      case _ => (if BitOf(a, j) != BitOf(b, j) then 1 else 0)
    decreases k
  {
    var rest := Bitwise(op, a / 2, b / 2, k - 1);
    var low := Bitwise(op, a, b, k) - 2 * rest;
    LowBit(op, a, b, k);
    Digits(Bitwise(op, a, b, k), low, rest);
    if j > 0 { BitwiseBit(op, a / 2, b / 2, k - 1, j - 1); }
    hide Bitwise;
  }

  lemma LowBit(op: AluOp, a: nat, b: nat, k: nat)
    requires k > 0 && op in {KAnd, KOr, KXor}
    ensures Bitwise(op, a, b, k) - 2 * Bitwise(op, a / 2, b / 2, k - 1) == match op
      case KAnd => (if a % 2 == 1 && b % 2 == 1 then 1 else 0)
      case KOr => (if a % 2 == 1 || b % 2 == 1 then 1 else 0)
      case _ => (if a % 2 != b % 2 then 1 else 0)
  {}

  /** The complement has the opposite bits. */
  lemma {:induction false} ComplementBit(x: nat, k: nat, j: nat)
    requires x < Pow2(k) && j < k
    ensures BitOf(Pow2(k) - 1 - x, j) == 1 - BitOf(x, j)
    decreases k
  {
    Pow2Twice(k);
    Halves(Pow2(k - 1), x);
    hide Pow2;
    if j > 0 { ComplementBit(x / 2, k - 1, j - 1); }
  }
}
