/**
 * Vocabulary shared by every datapath of the simulator: the optional value
 * (a nullable pointer argument, or an aborted run), the eight control
 * signals produced by a Control unit, and the instruction fields that every
 * decode stage extracts with shifts and masks.
 */
module Mips {
  import opened Bitset
  import opened ByteMemory

  datatype Option<T> = None | Some(value: T)

  /** The outputs of a Control unit, one per control wire. */
  datatype Signals = Signals(
    regDst: bool, branch: bool, memRead: bool, memToReg: bool,
    aluOp: Bits2, memWrite: bool, aluSrc: bool, regWrite: bool)

  /** The three ALUOp encodings a Control unit produces: 0b00, 0b01 and 0b10 (bit 0 first). */
  const ALU_OP_ADD: Bits2 := [false, false]
  const ALU_OP_SUB: Bits2 := [true, false]
  const ALU_OP_FUNCT: Bits2 := [false, true]

  lemma AluOpValues()
    ensures Value(ALU_OP_ADD) == 0 && Value(ALU_OP_SUB) == 1 && Value(ALU_OP_FUNCT) == 2
  {
    assert ALU_OP_ADD[1..] == [false] && ALU_OP_SUB[1..] == [false] && ALU_OP_FUNCT[1..] == [true];
    assert Value([false]) == 0 + 2 * Value([]);
    assert Value([true]) == 1 + 2 * Value([]);
  }

  /** The number of values of the 64-bit `unsigned long long` cycle counter. */
  const COUNTER_RANGE: nat := 0x1_0000_0000_0000_0000

  /** `m_currCycle++` on the 64-bit counter: one more, or 0 after the largest value. */
  function NextCycle(c: nat): (r: nat)
    ensures r < COUNTER_RANGE
    ensures c + 1 < COUNTER_RANGE ==> r == c + 1
  {
    if c + 1 < COUNTER_RANGE then c + 1 else 0
  }

  /** On a counter value the increment is the sum modulo 2^64. */
  lemma NextCycleWraps(c: nat)
    requires c < COUNTER_RANGE
    ensures NextCycle(c) == (c + 1) % COUNTER_RANGE
  {
    if c + 1 < COUNTER_RANGE {
      DivModUnique(c + 1, COUNTER_RANGE, 0, c + 1);
    } else {
      DivModUnique(c + 1, COUNTER_RANGE, 1, 0);
    }
  }

  /** Every control wire cleared: a no-op. */
  function NoSignals(): (r: Signals)
    ensures !r.regDst && !r.branch && !r.memRead && !r.memToReg && !r.memWrite && !r.aluSrc && !r.regWrite
    ensures Value(r.aluOp) == 0
  {
    AluOpValues();
    Signals(false, false, false, false, ALU_OP_ADD, false, false, false)
  }

  /** A register number as an index into the 32 registers (`to_ulong()` of a 5-bit field). */
  function Index(r: Bits5): (i: nat)
    ensures i < 32 && i == Value(r)
  {
    ValueBound(r);
    Pow2Values();
    Value(r)
  }

  /** The constant 4 as a 32-bit word, `std::bitset<32> four(4)`. */
  function Four(): (r: Word)
    ensures Value(r) == 4
  {
    var low: Bits := [false, false, true];
    assert Value(low) == 4 by {
      assert low[1..] == [false, true] && low[1..][1..] == [true] && [true][1..] == [];
    }
    ValueAppend(low, Zeros(29));
    ValueZeros(29);
    low + Zeros(29)
  }

  /** The architectural state of a single-cycle CPU: PC, the 32 registers, both memories and the cycle counter. */
  datatype Machine = Machine(pc: Word, regs: seq<Word>, imem: seq<Byte>, dmem: seq<Byte>, cycle: nat)

  ghost predicate WellFormed(m: Machine)
  {
    |m.regs| == 32
  }

  /** The fields of an instruction: opcode, rs, rt, rd, funct and the 16-bit immediate. */
  datatype Fields = Fields(opcode: Bits6, rs: Bits5, rt: Bits5, rd: Bits5, funct: Bits6, immediate: Half)

  /**
   * Decoding as the datapaths write it: `instr >> 26` for the opcode,
   * `(instr >> k) & 0b11111` for the register numbers, `instr & 0b111111`
   * for funct and `instr & 0xFFFF` for the immediate, each narrowed to its
   * bitset width.  The result is exactly the MIPS bit fields.
   */
  function Decode(instr: Word): (f: Fields)
    ensures f.opcode == instr[26..32] && f.rs == instr[21..26] && f.rt == instr[16..21]
    ensures f.rd == instr[11..16] && f.funct == instr[0..6] && f.immediate == instr[0..16]
  {
    var v := Value(instr);
    Pow2Values();
    DecodeSlices(instr);
    Fields(
      FromNat(6, v / Pow2(26)),
      FromNat(5, (v / Pow2(21)) % 32),
      FromNat(5, (v / Pow2(16)) % 32),
      FromNat(5, (v / Pow2(11)) % 32),
      FromNat(6, v % 64),
      FromNat(16, v % 0x1_0000))
  }

  lemma DecodeSlices(instr: Word)
    ensures var v := Value(instr);
      && FromNat(6, v / Pow2(26)) == instr[26..32]
      && FromNat(5, (v / Pow2(21)) % 32) == instr[21..26]
      && FromNat(5, (v / Pow2(16)) % 32) == instr[16..21]
      && FromNat(5, (v / Pow2(11)) % 32) == instr[11..16]
      && FromNat(6, v % 64) == instr[0..6]
      && FromNat(16, v % 0x1_0000) == instr[0..16]
  {
    var v := Value(instr);
    Pow2Values();
    FieldIsSlice(instr, 26, 6);
    ValueBound(instr);
    FromNatMod(6, v / Pow2(26));
    FieldIsSlice(instr, 21, 5);
    FieldIsSlice(instr, 16, 5);
    FieldIsSlice(instr, 11, 5);
    FieldIsSlice(instr, 0, 6);
    FieldIsSlice(instr, 0, 16);
  }

  /** The fields of the instruction at PC, when it lies inside the instruction memory (fetched little-endian). */
  function Fetched(m: Machine): Fields
    requires Value(m.pc) + 3 < |m.imem|
  {
    Decode(WordAt(m.imem, Value(m.pc), LittleEndian))
  }
}
