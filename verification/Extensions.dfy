/** Which instructions need the M, F and D extensions, told from their encodings. */
module Extensions {
  import opened Instructions
  import opened ParseFormats

  /** The fixed fields of an opcode's words, if it has any. */
  function CodeOf(op: Op): Code {
    match op
    case R(r) => EncodingR(r)
    case I1(i) => EncodingI1(i)
    case I2(i) => EncodingI2(i)
    case Ecall => Code(0x73)
    case S(s) => EncodingS(s)
    case B(b) => EncodingB(b)
    case U(u) => EncodingU(u)
    case Jal => Code(0x6F)
    case CsrR(c) => EncodingCsrR(c)
    case CsrI(c) => EncodingCsrI(c)
    case FR(f) => EncodingFR(f)
    case FR1(f) => EncodingFR1(f)
    case FR2(f) => EncodingFR2(f)
    case FR3(f) => EncodingFR3(f)
    case FR4(f) => EncodingFR4(f)
    case FI(f) => EncodingFI(f)
    case FS(f) => EncodingFS(f)
    case _ => Code(0)
  }

  /** The conversions between single and double precision: they need both extensions. */
  predicate Converts(c: Code) { c.opcode == 0x53 && c.funct7 in {0x20, 0x21} }

  /** The format field of a floating-point operation: 0 for single precision, 1 for double. */
  predicate HasFormat(c: Code, format: nat) {
    || (c.opcode == 0x53 && c.funct7 % 4 == format)
    || (c.opcode in {0x43, 0x47, 0x4B, 0x4F} && c.funct2 == format)
    || (c.opcode in {0x07, 0x27} && c.funct3 == 2 + format)
  }

  /** Multiplication and division are the register operations with function field 1. */
  lemma MultipliesByEncoding(op: Op)
    ensures IsM(op) <==> CodeOf(op).opcode in {0x33, 0x3B} && CodeOf(op).funct7 == 1
  {}

  lemma SingleByEncoding(op: Op)
    ensures IsF(op) <==> HasFormat(CodeOf(op), 0) || Converts(CodeOf(op))
  {}

  /** Single and double precision are told by the format field, and the conversions between them need both
      extensions. */
  lemma ExtensionsByEncoding(op: Op, o: Options)
    ensures var c := CodeOf(op);
      Enabled(op, o) <==>
        && (c.opcode in {0x33, 0x3B} && c.funct7 == 1 ==> o.m)
        && (HasFormat(c, 0) || Converts(c) ==> o.f)
        && (HasFormat(c, 1) || Converts(c) ==> o.d)
  {
    MultipliesByEncoding(op);
    SingleByEncoding(op);
    DoubleByEncoding(op);
    hide CodeOf, IsM, IsF, IsD, HasFormat, Converts;
  }

  lemma DoubleByEncoding(op: Op)
    ensures IsD(op) <==> HasFormat(CodeOf(op), 1) || Converts(CodeOf(op))
  {}
}
