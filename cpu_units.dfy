/**
 * The combinational units of the assn3 CPU base class (also used by the
 * assn4 pipeline).  AND, Add, SignExtend, ShiftLeft2 and most ALU
 * operations walk the bit positions and set output bits one at a time;
 * Control and ALUControl are switch tables.
 */
module CpuUnits {
  import opened Bitset
  import opened Mips

  // ---------------------------------------------------------------------
  // Bit-loop primitives

  /** AND: output bit i is set exactly when both input bits i are set. */
  method And(input0: Bits, input1: Bits) returns (output: Bits)
    requires |input0| == |input1|
    ensures output == BitAnd(input0, input1)
  {
    output := Zeros(|input0|);
    for i := 0 to |input0|
      invariant |output| == |input0|
      invariant forall k :: 0 <= k < i ==> output[k] == (input0[k] && input1[k])
    {
      output := output[i := input0[i] && input1[i]];
    }
  }

  /**
   * Add: a ripple-carry adder.  The carry counts the set bits at position
   * i plus the incoming carry; its parity is the output bit and its half
   * the next carry.  The carry out of the top bit is dropped.
   */
  method Add(input0: Bits, input1: Bits) returns (output: Bits)
    requires |input0| == |input1|
    ensures output == AddBits(input0, input1)
  {
    var w := |input0|;
    output := Zeros(w);
    var carry: nat := 0;
    for i := 0 to w
      invariant |output| == w && carry <= 1
      invariant Value(output[..i]) + (if carry == 1 then Pow2(i) else 0)
             == Value(input0[..i]) + Value(input1[..i])
    {
      ghost var before := output;
      if input0[i] { carry := carry + 1; }
      if input1[i] { carry := carry + 1; }
      output := output[i := carry % 2 == 1];
      carry := carry / 2;
      assert output[..i] == before[..i];
      ValuePrefix(output, i);
      ValuePrefix(input0, i);
      ValuePrefix(input1, i);
    }
    assert output[..w] == output && input0[..w] == input0 && input1[..w] == input1;
    SumTruncates(Value(input0) + Value(input1), output, carry);
    AddBitsFromNat(input0, input1, w);
  }

  /** A bitset whose value, plus 2^|s| when the carry is set, is n holds the low |s| bits of n. */
  lemma SumTruncates(n: nat, s: Bits, carry: nat)
    requires carry <= 1 && Value(s) + (if carry == 1 then Pow2(|s|) else 0) == n
    ensures FromNat(|s|, n) == s
  {
    ValueBound(s);
    DropCarry(n, Pow2(|s|), Value(s), carry);
    FromNatOfMod(|s|, n, s);
  }

  /** A sum below 2p, less p when the carry is set, is the sum modulo p. */
  lemma DropCarry(n: int, p: int, v: int, carry: nat)
    requires 0 <= v < p && carry <= 1 && v + (if carry == 1 then p else 0) == n
    ensures n % p == v
  {
    DivModUnique(n, p, carry, v);
  }

  lemma AddBitsFromNat(a: Bits, b: Bits, w: nat)
    requires |a| == |b| == w
    ensures AddBits(a, b) == FromNat(w, Value(a) + Value(b))
  {
  }

  /** The w-bit truncation of n is the bitset whose value is n modulo 2^w. */
  lemma FromNatOfMod(w: nat, n: nat, s: Bits)
    requires |s| == w && n % Pow2(w) == Value(s)
    ensures FromNat(w, n) == s
  {
    FromNatMod(w, n);
    FromNatValue(s);
  }

  /** Mux: input0 when no select bit is set, input1 otherwise. */
  function Mux<T>(input0: T, input1: T, select: bool): (output: T)
    ensures !select ==> output == input0
    ensures select ==> output == input1
  {
    if !select then input0 else input1
  }

  /**
   * The result of SignExtend: the input bits stay in place and every bit
   * from the input's top position upwards repeats the input's top bit.
   */
  function SignExtendBits(input: Bits, outWidth: nat): (r: Bits)
    requires 1 <= |input| <= outWidth
    ensures |r| == outWidth
    ensures forall k :: 0 <= k < |input| ==> r[k] == input[k]
    ensures forall k :: |input| <= k < outWidth ==> r[k] == input[|input| - 1]
  {
    input + seq(outWidth - |input|, _ => input[|input| - 1])
  }

  /** SignExtend: copy bits 0..In-2, then fill bits In-1..Out-1 with bit In-1. */
  method SignExtend(input: Bits, outWidth: nat) returns (output: Bits)
    requires 1 <= |input| <= outWidth
    ensures output == SignExtendBits(input, outWidth)
  {
    var n := |input|;
    output := Zeros(outWidth);
    for i := 0 to n - 1
      invariant |output| == outWidth
      invariant forall k :: 0 <= k < i ==> output[k] == input[k]
    {
      output := output[i := input[i]];
    }
    for i := n - 1 to outWidth
      invariant |output| == outWidth
      invariant forall k :: 0 <= k < n - 1 ==> output[k] == input[k]
      invariant forall k :: n - 1 <= k < i ==> output[k] == input[n - 1]
    {
      output := output[i := input[n - 1]];
    }
  }

  /**
   * The result of ShiftLeft2: bits 0 and 1 clear, bit k the input's bit
   * k-2 up to the second-highest position, and the top bit kept from the
   * input rather than shifted in from below.
   */
  function ShiftLeft2Bits(input: Bits): (r: Bits)
    requires |input| >= 1
    ensures |r| == |input| && r[|input| - 1] == input[|input| - 1]
    ensures forall k :: 0 <= k < |input| - 1 ==> r[k] == (2 <= k && input[k - 2])
  {
    seq(|input|, k requires 0 <= k < |input| =>
      if k == |input| - 1 then input[k] else 2 <= k && input[k - 2])
  }

  /** ShiftLeft2: bit i of the output is bit i-2 of the input for 2 <= i < W-1; bit W-1 is kept. */
  method ShiftLeft2(input: Bits) returns (output: Bits)
    requires |input| >= 1
    ensures output == ShiftLeft2Bits(input)
  {
    var w := |input|;
    output := Zeros(w);
    var i := 2;
    while i < w - 1
      invariant 2 <= i && |output| == w
      invariant forall k :: 0 <= k < w ==> output[k] == (2 <= k < i && input[k - 2])
    {
      output := output[i := input[i - 2]];
      i := i + 1;
    }
    output := output[w - 1 := input[w - 1]];
  }

  // ---------------------------------------------------------------------
  // ALU

  /**
   * The set-on-less-than bit.  With equal sign bits it compares the
   * unsigned values, but for two negative operands it answers a >= b;
   * a negative a against a non-negative b gives true, the reverse false.
   */
  function SltBit(a: Word, b: Word): bool
  {
    if !a[31] && !b[31] then Value(a) < Value(b)
    else if a[31] && b[31] then Value(a) >= Value(b)
    else a[31] && !b[31]
  }

  /** SUB: input0 plus the inverted input1 plus one: a - b, wrapped by 2^32 when negative. */
  function SubBits(a: Word, b: Word): (r: Word)
    ensures var d := Value(a) - Value(b); Value(r) == if d >= 0 then d else d + 0x1_0000_0000
  {
    SubValue(a, b);
    AddBits(a, AddBits(BitNot(b), ONE_WORD))
  }

  /** SLT: a cleared word whose bit 0 is the set-on-less-than bit. */
  function SltWord(a: Word, b: Word): (r: Word)
    ensures Value(r) == (if SltBit(a, b) then 1 else 0)
  {
    SltValue(SltBit(a, b));
    Zeros(32)[0 := SltBit(a, b)]
  }

  /** The 32-bit ALU output for each control code; an unsupported code keeps the prior output. */
  function AluResult(a: Word, b: Word, control: Bits4, prior: Word): (r: Word)
    ensures Value(control) == 0 ==> r == BitAnd(a, b)
    ensures Value(control) == 1 ==> r == BitOr(a, b)
    ensures Value(control) == 2 ==> var s := Value(a) + Value(b);
      Value(r) == if s < 0x1_0000_0000 then s else s - 0x1_0000_0000
    ensures Value(control) == 6 ==> r == SubBits(a, b)
    ensures Value(control) == 7 ==> Value(r) == (if SltBit(a, b) then 1 else 0)
    ensures Value(control) == 12 ==> r == BitNot(BitOr(a, b))
    ensures Value(control) !in {0, 1, 2, 6, 7, 12} ==> r == prior
  {
    match Value(control)
    case 0 => BitAnd(a, b)
    case 1 => BitOr(a, b)
    case 2 => AddWordValue(a, b); AddBits(a, b)
    case 6 => SubBits(a, b)
    case 7 => SltWord(a, b)
    case 12 => BitNot(BitOr(a, b))
    case _ => prior
  }

  /** Adding two words wraps at most once: 2^32 is subtracted exactly when the sum overflows. */
  lemma AddWordValue(a: Word, b: Word)
    ensures var s := Value(a) + Value(b);
      Value(AddBits(a, b)) == if s < 0x1_0000_0000 then s else s - 0x1_0000_0000
  {
    var s := Value(a) + Value(b);
    Pow2Values();
    WordBound(a);
    WordBound(b);
    if s < 0x1_0000_0000 {
      DivModUnique(s, 0x1_0000_0000, 0, s);
    } else {
      DivModUnique(s, 0x1_0000_0000, 1, s - 0x1_0000_0000);
    }
  }

  /** The inverted word plus one is the two's-complement negation: 2^32 - b, or 0 for b = 0. */
  lemma NegateValue(b: Word)
    ensures Value(AddBits(BitNot(b), ONE_WORD)) == if Value(b) == 0 then 0 else 0x1_0000_0000 - Value(b)
  {
    WordConstValues();
    ValueNot(b);
    Pow2Values();
    AddWordValue(BitNot(b), ONE_WORD);
  }

  /** Inverting the subtrahend, adding one, then adding subtracts: 2^32 is added when b exceeds a. */
  lemma SubValue(a: Word, b: Word)
    ensures var d := Value(a) - Value(b);
      Value(AddBits(a, AddBits(BitNot(b), ONE_WORD))) == if d >= 0 then d else d + 0x1_0000_0000
  {
    NegateValue(b);
    AddWordValue(a, AddBits(BitNot(b), ONE_WORD));
    WordBound(a);
    WordBound(b);
  }

  lemma SltValue(bit: bool)
    ensures Value(Zeros(32)[0 := bit]) == (if bit then 1 else 0)
  {
    var s := Zeros(32)[0 := bit];
    assert s[1..] == Zeros(31);
    ValueZeros(31);
  }

  /**
   * ALU: AND, OR and NOR set each output bit in a loop; ADD uses Add; SUB
   * adds the inverted subtrahend plus one; SLT clears the output and sets
   * bit 0; any other code leaves the output as it was.  The zero flag is
   * then set exactly when no output bit is set, whatever the code.
   */
  method Alu(input0: Word, input1: Word, control: Bits4, prior: Word) returns (output: Word, zero: bool)
    ensures output == AluResult(input0, input1, control, prior)
    ensures zero <==> NoneSet(output)
  {
    output := prior;
    var code := Value(control);
    if code == 0 {
      for i := 0 to 32
        invariant |output| == 32
        invariant forall k :: 0 <= k < i ==> output[k] == (input0[k] && input1[k])
      {
        output := output[i := input0[i] && input1[i]];
      }
    } else if code == 1 {
      for i := 0 to 32
        invariant |output| == 32
        invariant forall k :: 0 <= k < i ==> output[k] == (input0[k] || input1[k])
      {
        output := output[i := input0[i] || input1[i]];
      }
    } else if code == 2 {
      output := Add(input0, input1);
    } else if code == 6 {
      var tmp0: Bits := Zeros(32);
      var tmp1: Bits := One(32);
      for i := 0 to 32
        invariant |tmp0| == 32
        invariant forall k :: 0 <= k < i ==> tmp0[k] == !input1[k]
      {
        if input1[i] { tmp0 := tmp0[i := false]; } else { tmp0 := tmp0[i := true]; }
      }
      assert tmp0 == BitNot(input1);
      var tmp2 := Add(tmp0, tmp1);
      output := Add(input0, tmp2);
    } else if code == 7 {
      output := Zeros(32);
      if !input0[31] && !input1[31] {
        output := output[0 := Value(input0) < Value(input1)];
      } else if input0[31] && input1[31] {
        output := output[0 := Value(input0) >= Value(input1)];
      } else if input0[31] && !input1[31] {
        output := output[0 := true];
      } else {
        output := output[0 := false];
      }
    } else if code == 12 {
      for i := 0 to 32
        invariant |output| == 32
        invariant forall k :: 0 <= k < i ==> output[k] == !(input0[k] || input1[k])
      {
        output := output[i := !(input0[i] || input1[i])];
      }
    }
    zero := NoneSet(output);
  }

  // ---------------------------------------------------------------------
  // Control and ALUControl

  /**
   * Control: the signal bundle for lw (0x23), sw (0x2B), beq (0x04),
   * R-type (0x00) and addi (0x08).  Any other opcode fails an assertion,
   * which aborts the simulator: None.
   */
  function Control(opcode: Bits6): (r: Option<Signals>)
    ensures r.Some? <==> Value(opcode) in {0x23, 0x2B, 0x04, 0x00, 0x08}
    ensures r.Some? ==> !(r.value.memRead && r.value.memWrite)
    ensures r.Some? ==> (r.value.memRead <==> Value(opcode) == 0x23) && (r.value.memToReg <==> Value(opcode) == 0x23)
    ensures r.Some? ==> (r.value.memWrite <==> Value(opcode) == 0x2B) && (r.value.branch <==> Value(opcode) == 0x04)
    ensures r.Some? ==> (r.value.regDst <==> Value(opcode) == 0x00)
    ensures r.Some? ==> (r.value.regWrite <==> Value(opcode) in {0x23, 0x00, 0x08})
    ensures r.Some? ==> (r.value.aluSrc <==> Value(opcode) in {0x23, 0x2B, 0x08})
    ensures r.Some? ==> Value(r.value.aluOp) == (if Value(opcode) == 0x00 then 2 else if Value(opcode) == 0x04 then 1 else 0)
  {
    var op := Value(opcode);
    AluOpValues();
    if op == 0x23 then Some(Signals(false, false, true, true, ALU_OP_ADD, false, true, true))
    else if op == 0x2B then Some(Signals(false, false, false, false, ALU_OP_ADD, true, true, false))
    else if op == 0x04 then Some(Signals(false, true, false, false, ALU_OP_SUB, false, false, false))
    else if op == 0x00 then Some(Signals(true, false, false, false, ALU_OP_FUNCT, false, false, true))
    else if op == 0x08 then Some(Signals(false, false, false, false, ALU_OP_ADD, false, true, true))
    else None
  }

  /**
   * ALUControl: ALUOp 0 gives add (2), ALUOp 1 gives sub (6), ALUOp 2
   * decodes funct 0x20/0x22/0x24/0x25/0x2A as 2/6/0/1/7; any other funct,
   * and ALUOp 3, leave the prior ALU control unchanged.
   */
  function ALUControl(aluOp: Bits2, funct: Bits6, prior: Bits4): (r: Bits4)
    ensures Value(aluOp) == 0 ==> Value(r) == 2
    ensures Value(aluOp) == 1 ==> Value(r) == 6
    ensures Value(aluOp) == 2 && Value(funct) == 0x20 ==> Value(r) == 2
    ensures Value(aluOp) == 2 && Value(funct) == 0x22 ==> Value(r) == 6
    ensures Value(aluOp) == 2 && Value(funct) == 0x24 ==> Value(r) == 0
    ensures Value(aluOp) == 2 && Value(funct) == 0x25 ==> Value(r) == 1
    ensures Value(aluOp) == 2 && Value(funct) == 0x2A ==> Value(r) == 7
    ensures Value(aluOp) == 2 && Value(funct) !in {0x20, 0x22, 0x24, 0x25, 0x2A} ==> r == prior
    ensures Value(aluOp) == 3 ==> r == prior
  {
    Pow2Values();
    ValueBound(aluOp);
    ValueFromNat(4, 0);
    ValueFromNat(4, 1);
    ValueFromNat(4, 2);
    ValueFromNat(4, 6);
    ValueFromNat(4, 7);
    match Value(aluOp)
    case 0 => FromNat(4, 2)
    case 1 => FromNat(4, 6)
    case 2 =>
      (match Value(funct)
       case 0x20 => FromNat(4, 2)
       case 0x22 => FromNat(4, 6)
       case 0x24 => FromNat(4, 0)
       case 0x25 => FromNat(4, 1)
       case 0x2A => FromNat(4, 7)
       case _ => prior)
    case _ => prior
  }

  // ---------------------------------------------------------------------
  // What the units compute, as numbers

  /** The two's-complement value of `lo` followed by a sign bit t. */
  lemma SignedAppendTop(lo: Bits, t: bool)
    ensures Signed(lo + [t]) == Value(lo) - (if t then Pow2(|lo|) else 0)
  {
    var s := lo + [t];
    ValueAppendBit(lo, t);
    assert s[|s| - 1] == t;
    assert Pow2(|s|) == 2 * Pow2(|lo|);
  }

  /** A top bit t appended to lo adds 2^|lo| when set. */
  lemma ValueAppendBit(lo: Bits, t: bool)
    ensures Value(lo + [t]) == Value(lo) + (if t then Pow2(|lo|) else 0)
  {
    var p := Pow2(|lo|);
    assert Value([t]) == (if t then 1 else 0) by {
      assert Value([t]) == (if t then 1 else 0) + 2 * Value([]);
    }
    ValueAppend(lo, [t]);
    if t {
      assert p * Value([t]) == p;
    } else {
      assert p * Value([t]) == 0;
    }
  }

  /** Sign extension keeps the two's-complement value. */
  lemma SignExtendSigned(input: Bits, outWidth: nat)
    requires 1 <= |input| <= outWidth
    ensures Signed(SignExtendBits(input, outWidth)) == Signed(input)
  {
    var n, m, t := |input|, outWidth - |input|, input[|input| - 1];
    var ext := seq(m, _ => t);
    var r := SignExtendBits(input, outWidth);
    assert r == input + ext;
    ValueAppend(input, ext);
    Pow2Add(n, m);
    if t {
      assert ext == BitNot(Zeros(m));
      ValueNot(Zeros(m));
      ValueZeros(m);
      assert Value(r) == Value(input) + Pow2(n) * (Pow2(m) - 1);
      assert Pow2(n) * (Pow2(m) - 1) == Pow2(n) * Pow2(m) - Pow2(n);
    } else {
      assert ext == Zeros(m);
      ValueZeros(m);
    }
  }

  /**
   * When the three top bits of x agree (no signed overflow), ShiftLeft2
   * multiplies the two's-complement value by four.
   */
  lemma ShiftLeft2Signed(x: Bits)
    requires |x| >= 3 && x[|x| - 1] == x[|x| - 2] == x[|x| - 3]
    ensures Signed(ShiftLeft2Bits(x)) == 4 * Signed(x)
  {
    var w, t := |x|, x[|x| - 1];
    var low := x[..w - 3];
    var tv := if t then 1 else 0;
    // x is its low bits followed by three copies of the sign
    assert x == (low + [t, t]) + [t];
    SignedAppendTop(low + [t, t], t);
    ValueAppend(low, [t, t]);
    assert Value([t, t]) == 3 * tv by {
      assert [t, t][1..] == [t];
      assert Value([t]) == tv + 2 * Value([]);
    }
    assert Pow2(w - 1) == 4 * Pow2(w - 3);
    assert Signed(x) == Value(low) - tv * Pow2(w - 3);
    // the shifted word is two clear bits, the low bits, then the sign
    var s := ShiftLeft2Bits(x);
    assert s == ([false, false] + low) + [t];
    SignedAppendTop([false, false] + low, t);
    ValueAppend([false, false], low);
    assert Value([false, false]) == 0 by {
      assert [false, false] == Zeros(2);
      ValueZeros(2);
    }
    assert Pow2(2) == 4;
  }

  /** ShiftLeft2 of 0x00101010 is 0x00404040. */
  lemma ShiftLeft2Example(x: Word)
    requires Value(x) == 0x0010_1010
    ensures Value(ShiftLeft2Bits(x)) == 0x0040_4040
  {
    var s := ShiftLeft2Bits(x);
    Pow2Values();
    ValueSlice(x, 29, 3);
    NoneIffZero(x[29..32]);
    assert !x[29] && !x[30] && !x[31] by {
      assert x[29..32][0] == x[29] && x[29..32][1] == x[30] && x[29..32][2] == x[31];
    }
    ShiftLeft2Signed(x);
    assert !s[31];
  }

  /** The branch offset: a sign-extended 16-bit immediate shifted left by two is four times the immediate. */
  lemma BranchOffset(imm: Half)
    ensures Signed(ShiftLeft2Bits(SignExtendBits(imm, 32))) == 4 * Signed(imm)
  {
    SignExtendSigned(imm, 32);
    ShiftLeft2Signed(SignExtendBits(imm, 32));
  }

  /** Adding a word is adding its two's-complement value, modulo 2^32. */
  lemma AddSignedValue(a: Word, b: Word)
    ensures Value(AddBits(a, b)) == (Value(a) + Signed(b)) % 0x1_0000_0000
  {
    Pow2Values();
    var s := Value(a) + Value(b);
    if b[31] {
      DivModUnique(s, 0x1_0000_0000, s / 0x1_0000_0000, s % 0x1_0000_0000);
      DivModUnique(Value(a) + Signed(b), 0x1_0000_0000, s / 0x1_0000_0000 - 1, s % 0x1_0000_0000);
    }
  }

  /** The branch target PC + 4 + (SignExtend(imm) << 2) is PC + 4 plus four times the signed immediate, modulo 2^32. */
  lemma BranchTarget(pc4: Word, imm: Half)
    ensures Value(AddBits(pc4, ShiftLeft2Bits(SignExtendBits(imm, 32)))) == (Value(pc4) + 4 * Signed(imm)) % 0x1_0000_0000
  {
    BranchOffset(imm);
    AddSignedValue(pc4, ShiftLeft2Bits(SignExtendBits(imm, 32)));
  }

  /** Subtraction gives a zero output (the zero flag beq tests) exactly when the operands are equal. */
  lemma SubZeroIffEqual(a: Word, b: Word)
    ensures NoneSet(SubBits(a, b)) <==> a == b
  {
    var r := SubBits(a, b);
    assert Value(r) == 0 <==> Value(a) == Value(b) by {
      WordBound(a);
      WordBound(b);
    }
    NoneIffZero(r);
    ValueEq(a, b);
  }

  /** Outside the case of two negative operands, SLT is signed less-than. */
  lemma SltSignedUnlessBothNegative(a: Word, b: Word)
    requires !(a[31] && b[31])
    ensures SltBit(a, b) <==> Signed(a) < Signed(b)
  {
    ValueBound(a);
    ValueBound(b);
  }

  /** For two negative operands, SLT answers the opposite of signed less-than. */
  lemma SltInvertedWhenBothNegative(a: Word, b: Word)
    requires a[31] && b[31]
    ensures SltBit(a, b) <==> !(Signed(a) < Signed(b))
  {
  }

  /** -2^31 < -2^31 + 1, yet SLT of the pair is clear. */
  lemma SltCounterexample()
    ensures var a := Zeros(32)[31 := true];
      var b := a[0 := true];
      Signed(a) < Signed(b) && !SltBit(a, b)
  {
    var a := Zeros(32)[31 := true];
    var b := a[0 := true];
    assert a[1..] == b[1..];
    assert Value(b) == Value(a) + 1;
  }

  /** Given an ALU control code the ALU implements, ALUControl always produces one. */
  lemma ALUControlSupported(aluOp: Bits2, funct: Bits6, prior: Bits4)
    requires Value(prior) in {0, 1, 2, 6, 7}
    ensures Value(ALUControl(aluOp, funct, prior)) in {0, 1, 2, 6, 7}
  {
    ValueBound(aluOp);
    Pow2Values();
  }
}
