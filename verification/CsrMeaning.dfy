/** What the six CSR instructions mean, mnemonic by mnemonic. */
module CsrMeaning {
  import opened Words
  import opened Instructions
  import opened CodeGenerator
  import opened ImmGenerator
  import opened Alu
  import opened AluLaws
  import opened BitLaws
  import opened Datapath
  import opened Rvss
  import Decoder

  /** The CSR that an instruction names, its destination, and the value that it brings: a register or, for the immediate
      forms, a number. */
  function CsrNamed(i: Inst): nat
    requires i.InstCsrR? || i.InstCsrI?
  {
    i.csr
  }

  function Brought(i: Inst, r: Regs): nat
    requires WellFormed(i) && (i.InstCsrR? || i.InstCsrI?)
  {
    if i.InstCsrR? then ReadGpr(r, i.rs1) else i.imm
  }

  /** `now` is the CSR `was` with `x` brought to it: written, or its bits set, or its bits cleared. */
  ghost predicate Combined(i: Inst, was: U64, x: nat, now: U64)
    requires i.InstCsrR? || i.InstCsrI?
  {
    if i.InstCsrR? then
      match i.cr
      case Csrrw => now == x
      case Csrrs => BitsSet(was, x, now)
      case Csrrc => BitsCleared(was, x, now)
    else
      match i.ci
      case Csrrwi => now == x
      case Csrrsi => BitsSet(was, x, now)
      case Csrrci => BitsCleared(was, x, now)
  }

  ghost predicate BitsSet(was: U64, x: nat, now: U64) {
    forall j: nat :: j < 64 ==> BitOf(now, j) == if BitOf(was, j) == 1 || BitOf(x, j) == 1 then 1 else 0
  }

  ghost predicate BitsCleared(was: U64, x: nat, now: U64) {
    forall j: nat :: j < 64 ==> BitOf(now, j) == if BitOf(was, j) == 1 && BitOf(x, j) == 0 then 1 else 0
  }

  lemma {:induction false} NoBits(j: nat)
    ensures BitOf(0, j) == 0
  {
    if j > 0 { NoBits(j - 1); }
  }

  lemma OrSets(was: U64, x: U64)
    ensures BitsSet(was, x, if x == 0 then was else Wrap64(Bitwise(KOr, was, x, 64)))
  {
    BitwiseFits(KOr, was, x);
    hide Wrap64, Bitwise, BitOf;
    forall j: nat | j < 64
      ensures BitOf(if x == 0 then was else Wrap64(Bitwise(KOr, was, x, 64)), j)
        == if BitOf(was, j) == 1 || BitOf(x, j) == 1 then 1 else 0
    {
      BitwiseBit(KOr, was, x, 64, j);
      NoBits(j);
    }
  }

  lemma AndClears(was: U64, x: U64)
    ensures BitsCleared(was, x, if x == 0 then was else Wrap64(Bitwise(KAnd, was, B64 - 1 - x, 64)))
  {
    hide Wrap64, Bitwise, BitOf;
    var c: U64 := B64 - 1 - x;
    BitwiseFits(KAnd, was, c);
    forall j: nat | j < 64
      ensures BitOf(x, j) == 0 || x != 0
      ensures BitOf(Bitwise(KAnd, was, c, 64), j) == if BitOf(was, j) == 1 && BitOf(x, j) == 0 then 1 else 0
    {
      BitwiseBit(KAnd, was, c, 64, j);
      Complement64(x, j);
      NoBits(j);
    }
  }

  lemma Complement64(x: U64, j: nat)
    requires j < 64
    ensures BitOf(B64 - 1 - x, j) == 1 - BitOf(x, j)
  {
    hide Pow2, BitOf;
    PowersOfTwo();
    ComplementBit(x, 64, j);
  }

  /** The fields of a generated CSR instruction. */
  predicate HasFields(w: U32, f3: nat, rd: Reg, rs1: Reg, csr: nat) {
    Opcode(w) == 0x73 && Funct3(w) == f3 && Rd(w) == rd && Rs1(w) == rs1 && CsrIndex(w) == csr
  }

  lemma RegisterFields(op: CsrROp, rd: Reg, rs1: Reg, csr: nat)
    requires csr < 0x1000
    ensures HasFields(GenerateCsrR(op, rd, rs1, csr), EncodingCsrR(op).funct3, rd, rs1, csr)
  {
    hide Bits, Opcode, Funct3, Rd, Rs1;
    BitsOne(csr, 0x1000);
    Unpack(GenerateCsrR(op, rd, rs1, csr), csr / 32, csr % 32, rs1, EncodingCsrR(op).funct3, rd, 0x73);
  }

  lemma ImmediateFields(op: CsrIOp, rd: Reg, imm: int, csr: nat)
    requires 0 <= imm < 32 && csr < 0x1000
    ensures HasFields(GenerateCsrI(op, rd, imm, csr), EncodingCsrI(op).funct3, rd, imm, csr)
  {
    hide Bits, Opcode, Funct3, Rd, Rs1, GenerateCsrI;
    Decoder.CsrWord(op, rd, imm, csr);
  }

  /** What a CSR that held `was` holds once `x` is brought to it. */
  function Written(f3: nat, was: U64, x: U64): U64 {
    if f3 == 1 || f3 == 5 then x
    else if x == 0 then was
    else if f3 == 2 || f3 == 6 then Wrap64(Bitwise(KOr, was, x, 64))
    else Wrap64(Bitwise(KAnd, was, B64 - 1 - x, 64))
  }

  function Given(s: Core, f3: nat, rs1: Reg): U64 { if f3 >= 5 then rs1 else ReadGpr(s.regs, rs1) }

  /** What the VM does with a word that has these fields. */
  lemma CsrsPerformed(s: Core, w: U32, f3: nat, rd: Reg, rs1: Reg, csr: nat)
    requires HasFields(w, f3, rd, rs1, csr) && csr < 4096 && f3 in {1, 2, 3, 5, 6, 7}
    ensures CsrsAfter(s, w) == s.csrs[csr := Written(f3, s.csrs[csr], Given(s, f3, rs1))]
  {
    hide Opcode, Funct3, Rd, Rs1, CsrIndex, Bitwise, Wrap64, ReadGpr;
    assert s.csrs[csr := s.csrs[csr]] == s.csrs;
  }

  lemma RegistersPerformed(s: Core, l: Latches, w: U32, f3: nat, rd: Reg, rs1: Reg, csr: nat)
    requires HasFields(w, f3, rd, rs1, csr) && csr < 4096 && f3 in {1, 2, 3, 5, 6, 7}
    ensures RegsAfter(s, l, w) == WriteGpr(s.regs, rd, s.csrs[csr])
  {
    hide Opcode, Funct3, Rd, Rs1, CsrIndex, Result, MemoryResult, UpperImmediate, WriteGpr;
  }

  lemma OthersPerformed(s: Core, l: Latches, w: U32, f3: nat, rd: Reg, rs1: Reg, csr: nat)
    requires HasFields(w, f3, rd, rs1, csr)
    ensures NextPc(s, l, w) == Wrap64(s.pc + 4) && MemoryAfter(s, w) == s.mem
    ensures forall size: U64 :: !Throws(s, w, size)
  {
    hide Opcode, Funct3, Rd, Rs1, CsrIndex, Result, BranchFlag, Wrap64, ReadGpr;
  }

  lemma FieldsPerformed(s: Core, l: Latches, w: U32, f3: nat, rd: Reg, rs1: Reg, csr: nat)
    requires HasFields(w, f3, rd, rs1, csr) && csr < 4096 && f3 in {1, 2, 3, 5, 6, 7}
    ensures var t := Performed(s, l, w);
      && t.pc == Wrap64(s.pc + 4) && t.regs == WriteGpr(s.regs, rd, s.csrs[csr]) && t.mem == s.mem
      && t.csrs == s.csrs[csr := Written(f3, s.csrs[csr], Given(s, f3, rs1))]
    ensures forall size: U64 :: !Throws(s, w, size)
  {
    hide HasFields, CsrsAfter, RegsAfter, NextPc, MemoryAfter, Throws, Wrap64, Wrap32, WriteGpr, Written, Given;
    CsrsPerformed(s, w, f3, rd, rs1, csr);
    RegistersPerformed(s, l, w, f3, rd, rs1, csr);
    OthersPerformed(s, l, w, f3, rd, rs1, csr);
  }

  /** A CSR instruction gives its destination the old value of the CSR that it names, gives that CSR the value of its
      source register or its immediate, or sets or clears the bits of it, goes on to the next instruction, and changes
      no other CSR or register, and no byte of memory. */
  lemma CsrMeans(s: Core, l: Latches, i: Inst)
    requires WellFormed(i) && (i.InstCsrR? || i.InstCsrI?)
    ensures var (t, csr) := (Performed(s, l, Generate(i)), CsrNamed(i));
      && t.pc == Wrap64(s.pc + 4) && t.mem == s.mem
      && t.regs == WriteGpr(s.regs, i.rd, s.csrs[csr])
      && t.csrs == s.csrs[csr := t.csrs[csr]]
      && Combined(i, s.csrs[csr], Brought(i, s.regs), t.csrs[csr])
    ensures forall size: U64 :: !Throws(s, Generate(i), size)
  {
    hide Performed, Throws, GenerateCsrR, GenerateCsrI, BitsSet, BitsCleared, HasFields, Bitwise, Wrap64, WriteGpr,
      ReadGpr;
    var was, x := s.csrs[i.csr], Brought(i, s.regs);
    if i.InstCsrR? {
      RegisterFields(i.cr, i.rd, i.rs1, i.csr);
      FieldsPerformed(s, l, Generate(i), EncodingCsrR(i.cr).funct3, i.rd, i.rs1, i.csr);
    } else {
      ImmediateFields(i.ci, i.rd, i.imm, i.csr);
      FieldsPerformed(s, l, Generate(i), EncodingCsrI(i.ci).funct3, i.rd, i.imm, i.csr);
    }
    OrSets(was, x);
    AndClears(was, x);
  }
}
