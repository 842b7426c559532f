/**
 * The combinational units of the assn2 single-cycle CPU and of its debug
 * copy.  They compute whole words through `to_ulong` arithmetic and bitset
 * operators instead of bit loops, and they differ from the assn3 family in
 * SLT, the zero flag, ShiftLeft2, Control and ALUControl.  AND and Add are
 * the bitset operators `Bitset.BitAnd` and `Bitset.AddBits` themselves, and
 * Mux is `CpuUnits.Mux`.
 */
module Assn2Units {
  import opened Bitset
  import opened Mips
  import CpuUnits

  /**
   * SignExtend: the input's value is narrowed to int16, widened to int32
   * and stored into a 32-bit bitset, which keeps it modulo 2^32.  Only the
   * low 16 input bits matter, whatever the input width.
   */
  function SignExtend(input: Bits): (output: Word)
    ensures Signed(output) == Signed(FromNat(16, Value(input)))
  {
    var narrowed := FromNat(16, Value(input));
    SignedRange(narrowed);
    SignedMod(Signed(narrowed));
    FromNat(32, Signed(narrowed) % Pow2(32))
  }

  lemma SignedMod(x: int)
    requires -(Pow2(15) as int) <= x < Pow2(15)
    ensures Signed(FromNat(32, x % Pow2(32))) == x
  {
    var p := Pow2(32);
    Pow2Values();
    var w := FromNat(32, x % p);
    ValueFromNat(32, x % p);
    DivModUnique(x % p, p, 0, x % p);
    ValueTopBit(w);
    if x >= 0 {
      DivModUnique(x, p, 0, x);
    } else {
      DivModUnique(x, p, -1, p + x);
    }
  }

  /** For a 16-bit immediate both families' SignExtend give the same word. */
  lemma SignExtendAgrees(imm: Half)
    ensures SignExtend(imm) == CpuUnits.SignExtendBits(imm, 32)
  {
    FromNatValue(imm);
    CpuUnits.SignExtendSigned(imm, 32);
    SignedInjective(SignExtend(imm), CpuUnits.SignExtendBits(imm, 32));
  }

  lemma SignedInjective(s: Bits, t: Bits)
    requires |s| == |t| > 0 && Signed(s) == Signed(t)
    ensures s == t
  {
    ValueTopBit(s);
    ValueTopBit(t);
    ValueBound(s);
    ValueBound(t);
    ValueInjective(s, t);
  }

  /** ShiftLeft2: the plain shift `input << 2`; the two top bits are dropped, so it multiplies by four modulo 2^32. */
  function ShiftLeft2(input: Word): (output: Word)
    ensures !output[0] && !output[1] && forall k :: 2 <= k < 32 ==> output[k] == input[k - 2]
    ensures Value(output) == (4 * Value(input)) % 0x1_0000_0000
  {
    Pow2Values();
    Shl(input, 2)
  }

  /** The two families' ShiftLeft2 agree exactly when bit 29 equals bit 31. */
  lemma ShiftLeft2Agrees(input: Word)
    ensures ShiftLeft2(input) == CpuUnits.ShiftLeft2Bits(input) <==> input[29] == input[31]
  {
    var s, t := ShiftLeft2(input), CpuUnits.ShiftLeft2Bits(input);
    if input[29] == input[31] {
      assert forall k :: 0 <= k < 32 ==> s[k] == t[k];
    } else {
      assert s[31] != t[31];
    }
  }

  /** The number of values of a 64-bit `unsigned long`. */
  const ULONG_RANGE: nat := 0x1_0000_0000_0000_0000

  /** The outputs of the ALU: the result word and the zero flag. */
  datatype AluOut = AluOut(output: Word, zero: bool)

  /**
   * ALU: the control code is compared as a string, so each case is one
   * exact code.  SUB subtracts unsigned longs (wrapping modulo 2^64) and is
   * the only case that writes the zero flag; SLT compares unsigned values;
   * any other code leaves both outputs as they were.
   */
  function Alu(a: Word, b: Word, control: Bits4, output: Word, zero: bool): AluOut
  {
    match Value(control)
    case 0 => AluOut(BitAnd(a, b), zero)
    case 1 => AluOut(BitOr(a, b), zero)
    case 2 => AluOut(AddBits(a, b), zero)
    case 6 => AluOut(SubWrap(a, b), NoneSet(SubWrap(a, b)))
    case 7 => AluOut(SltUnsigned(a, b), zero)
    case 12 => AluOut(BitNot(BitOr(a, b)), zero)
    case _ => AluOut(output, zero)
  }

  /**
   * The ALU's table: AND, OR, ADD, SUB (the only case that writes the zero
   * flag, set exactly when the operands are equal), the unsigned SLT and
   * NOR each for its one code, and both outputs kept for every other code.
   */
  lemma AluTable(a: Word, b: Word, control: Bits4, output: Word, zero: bool)
    ensures Value(control) == 0 ==> Alu(a, b, control, output, zero).output == BitAnd(a, b)
    ensures Value(control) == 1 ==> Alu(a, b, control, output, zero).output == BitOr(a, b)
    ensures Value(control) == 2 ==> Alu(a, b, control, output, zero).output == CpuUnits.AluResult(a, b, control, output)
    ensures Value(control) == 6 ==> Alu(a, b, control, output, zero).output == CpuUnits.SubBits(a, b)
    ensures Value(control) == 6 ==> (Alu(a, b, control, output, zero).zero <==> a == b)
    ensures Value(control) == 7 ==> Value(Alu(a, b, control, output, zero).output) == (if Value(a) < Value(b) then 1 else 0)
    ensures Value(control) == 12 ==> Alu(a, b, control, output, zero).output == BitNot(BitOr(a, b))
    ensures Value(control) !in {0, 1, 2, 6, 7, 12} ==> Alu(a, b, control, output, zero).output == output
    ensures Value(control) != 6 ==> Alu(a, b, control, output, zero).zero == zero
  {
  }

  /**
   * `a.to_ulong() - b.to_ulong()` on 64-bit unsigned longs, stored into 32
   * bits: a - b, wrapped by 2^32 when negative, which is zero exactly when
   * a == b.
   */
  function SubWrap(a: Word, b: Word): (r: Word)
    ensures r == CpuUnits.SubBits(a, b)
    ensures var d := Value(a) - Value(b); Value(r) == if d >= 0 then d else d + 0x1_0000_0000
    ensures NoneSet(r) <==> a == b
  {
    SubWrapAgrees(a, b);
    CpuUnits.SubZeroIffEqual(a, b);
    FromNat(32, (Value(a) - Value(b)) % ULONG_RANGE)
  }

  /** Unsigned set-on-less-than: one exactly when a < b as unsigned numbers. */
  function SltUnsigned(a: Word, b: Word): (r: Word)
    ensures Value(r) == (if Value(a) < Value(b) then 1 else 0)
  {
    CpuUnits.SltValue(Value(a) < Value(b));
    Zeros(32)[0 := Value(a) < Value(b)]
  }

  /** The wrapping subtraction is the assn3 ALU's SUB. */
  lemma SubWrapAgrees(a: Word, b: Word)
    ensures FromNat(32, (Value(a) - Value(b)) % ULONG_RANGE) == CpuUnits.SubBits(a, b)
  {
    var x: int := Value(a) - Value(b);
    WordBound(a);
    WordBound(b);
    WrapTwice(x);
    WordFromNat(x % ULONG_RANGE, CpuUnits.SubBits(a, b));
  }

  /** `std::bitset<32>(n)` is the word whose value is n modulo 2^32. */
  lemma WordFromNat(n: nat, r: Word)
    requires n % 0x1_0000_0000 == Value(r)
    ensures FromNat(32, n) == r
  {
    WordFromNatValue(n);
    ValueInjective(FromNat(32, n), r);
  }

  /** A difference of two 32-bit values, taken modulo 2^64 and then modulo 2^32. */
  lemma WrapTwice(x: int)
    requires -0x1_0000_0000 < x < 0x1_0000_0000
    ensures (x % ULONG_RANGE) % 0x1_0000_0000 == if x >= 0 then x else x + 0x1_0000_0000
  {
    if x >= 0 {
      DivModUnique(x, ULONG_RANGE, 0, x);
      DivModUnique(x, 0x1_0000_0000, 0, x);
    } else {
      DivModUnique(x, ULONG_RANGE, -1, x + ULONG_RANGE);
      DivModUnique(x + ULONG_RANGE, 0x1_0000_0000, 0xFFFF_FFFF, x + 0x1_0000_0000);
    }
  }

  /**
   * The two families' SLT agree exactly when both operands are
   * non-negative: on every other sign combination the unsigned comparison
   * and the assn3 bit give opposite answers.
   */
  lemma SltAgreesIff(a: Word, b: Word)
    ensures CpuUnits.SltBit(a, b) == (Value(a) < Value(b)) <==> !a[31] && !b[31]
  {
    ValueTopBit(a);
    ValueTopBit(b);
  }

  /**
   * Control: the assn3 table plus ori (0x0D) and lui (0x0F), which drive
   * the addi signals, and j (0x02), which clears every signal.  Any other
   * opcode also clears every signal (and prints an error message).
   */
  function Control(opcode: Bits6): (r: Signals)
    ensures Value(opcode) in {0x23, 0x2B, 0x04, 0x00, 0x08} ==> CpuUnits.Control(opcode) == Some(r)
    ensures Value(opcode) in {0x0D, 0x0F} ==> r == Signals(false, false, false, false, ALU_OP_ADD, false, true, true)
    ensures Value(opcode) !in {0x23, 0x2B, 0x04, 0x00, 0x08, 0x0D, 0x0F} ==> r == NoSignals()
    ensures !(r.memRead && r.memWrite)
  {
    var op := Value(opcode);
    if op == 0x00 then Signals(true, false, false, false, ALU_OP_FUNCT, false, false, true)
    else if op == 0x23 then Signals(false, false, true, true, ALU_OP_ADD, false, true, true)
    else if op == 0x2B then Signals(false, false, false, false, ALU_OP_ADD, true, true, false)
    else if op == 0x04 then Signals(false, true, false, false, ALU_OP_SUB, false, false, false)
    else if op == 0x08 then Signals(false, false, false, false, ALU_OP_ADD, false, true, true)
    else if op == 0x0D then Signals(false, false, false, false, ALU_OP_ADD, false, true, true)
    else if op == 0x0F then Signals(false, false, false, false, ALU_OP_ADD, false, true, true)
    else if op == 0x02 then Signals(false, false, false, false, ALU_OP_ADD, false, false, false)
    else NoSignals()
  }

  /**
   * ALUControl: the assn3 table, plus funct 0x27 (NOR, code 12) under
   * ALUOp 2 when `decodesNor` holds; the debug copy of the CPU has no NOR
   * case and leaves the ALU control unchanged for 0x27.
   */
  function ALUControl(aluOp: Bits2, funct: Bits6, prior: Bits4, decodesNor: bool): (r: Bits4)
    ensures !(Value(aluOp) == 2 && Value(funct) == 0x27) ==> r == CpuUnits.ALUControl(aluOp, funct, prior)
    ensures Value(aluOp) == 2 && Value(funct) == 0x27 && decodesNor ==> Value(r) == 12
    ensures Value(aluOp) == 2 && Value(funct) == 0x27 && !decodesNor ==> r == prior
  {
    ValueFromNat(4, 12);
    Pow2Values();
    if Value(aluOp) == 0 then FromNat(4, 2)
    else if Value(aluOp) == 1 then FromNat(4, 6)
    else if Value(aluOp) == 2 then
      (if Value(funct) == 0x20 then FromNat(4, 2)
       else if Value(funct) == 0x22 then FromNat(4, 6)
       else if Value(funct) == 0x24 then FromNat(4, 0)
       else if Value(funct) == 0x25 then FromNat(4, 1)
       else if Value(funct) == 0x2A then FromNat(4, 7)
       else if Value(funct) == 0x27 && decodesNor then FromNat(4, 12)
       else prior)
    else prior
  }
}
