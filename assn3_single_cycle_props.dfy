/**
 * What one cycle of the assn3 single-cycle CPU does to the architectural
 * state, instruction class by instruction class, stated in MIPS terms: the
 * register and memory updates, the next PC, and the effect of the operand
 * read clearing the destination register first.
 */
module Assn3SingleCycleProps {
  import opened Bitset
  import opened Mips
  import opened ByteMemory
  import CpuUnits
  import opened Assn3SingleCycle

  /** A source register as the ALU sees it: zero when it is the (non-zero) destination, which the operand read cleared. */
  function Operand(m: Machine, r: Bits5, dest: Bits5): Word
    requires WellFormed(m)
  {
    if Index(r) == Index(dest) && Index(dest) != 0 then ZERO_WORD else m.regs[Index(r)]
  }

  /**
   * An R-type instruction (opcode 0) writes the ALU result to rd, unless rd
   * is $0, and moves on to PC + 4; memory is untouched.  A source equal to
   * rd reads as zero, and a funct ALUControl does not know leaves the
   * cleared control wire, code 0, so the ALU computes AND.
   */
  lemma RTypeStep(m: Machine)
    requires WellFormed(m) && Value(m.pc) + 3 < |m.imem| && Value(Fetched(m).opcode) == 0x00
    ensures var f := Fetched(m);
      var result := CpuUnits.AluResult(Operand(m, f.rs, f.rd), Operand(m, f.rt, f.rd),
                                       CpuUnits.ALUControl(ALU_OP_FUNCT, f.funct, Zeros(4)), ZERO_WORD);
      Cycle(m) == Some(Machine(AddBits(m.pc, Four()),
                               if Index(f.rd) == 0 then m.regs else m.regs[Index(f.rd) := result],
                               m.imem, m.dmem, NextCycle(m.cycle)))
  {
    var f := Fetched(m);
    var s := RTypeSignals(f.opcode);
    var pc4 := AddBits(m.pc, Four());
    var result := CpuUnits.AluResult(Operand(m, f.rs, f.rd), Operand(m, f.rt, f.rd),
                                     CpuUnits.ALUControl(ALU_OP_FUNCT, f.funct, Zeros(4)), ZERO_WORD);
    var e := Executed(f.rd, OperandRegisters(m.regs, f.rd, true), Operand(m, f.rt, f.rd), result, pc4);
    RTypeExecute(m, pc4, f, s);
    ResultWriteBack(m, e, s);
    assert Cycle(m) == Retire(m, s, e);
  }

  lemma RTypeExecute(m: Machine, pc4: Word, f: Fields, s: Signals)
    requires WellFormed(m) && s == Signals(true, false, false, false, ALU_OP_FUNCT, false, false, true)
    ensures Execute(m.regs, pc4, f, s)
         == Executed(f.rd, OperandRegisters(m.regs, f.rd, true), Operand(m, f.rt, f.rd),
                     CpuUnits.AluResult(Operand(m, f.rs, f.rd), Operand(m, f.rt, f.rd),
                                        CpuUnits.ALUControl(ALU_OP_FUNCT, f.funct, Zeros(4)), ZERO_WORD),
                     pc4)
  {
  }

  /** The write-back of an instruction that writes its ALU result and does not touch memory. */
  lemma ResultWriteBack(m: Machine, e: Executed, s: Signals)
    requires WellFormed(m) && !s.memRead && !s.memWrite && !s.memToReg && s.regWrite
    requires e.regs == OperandRegisters(m.regs, e.wr, true)
    ensures MemoryWriteBack(m.dmem, s, e)
         == Some((m.dmem, if Index(e.wr) == 0 then m.regs else m.regs[Index(e.wr) := e.result]))
  {
    if Index(e.wr) != 0 {
      assert e.regs[Index(e.wr) := e.result] == m.regs[Index(e.wr) := e.result];
    }
  }

  /** Control's signals for opcode 0: RegDst, RegWrite and ALUOp 2, nothing else. */
  function RTypeSignals(opcode: Bits6): (s: Signals)
    requires Value(opcode) == 0x00
    ensures CpuUnits.Control(opcode) == Some(s)
    ensures s == Signals(true, false, false, false, ALU_OP_FUNCT, false, false, true)
  {
    CpuUnits.Control(opcode).value
  }

  /** The signals of the I-type opcodes: lw, sw and addi add with the immediate, beq subtracts. */
  lemma ControlTable(opcode: Bits6)
    ensures Value(opcode) == 0x23 ==> CpuUnits.Control(opcode) == Some(Signals(false, false, true, true, ALU_OP_ADD, false, true, true))
    ensures Value(opcode) == 0x2B ==> CpuUnits.Control(opcode) == Some(Signals(false, false, false, false, ALU_OP_ADD, true, true, false))
    ensures Value(opcode) == 0x04 ==> CpuUnits.Control(opcode) == Some(Signals(false, true, false, false, ALU_OP_SUB, false, false, false))
    ensures Value(opcode) == 0x08 ==> CpuUnits.Control(opcode) == Some(Signals(false, false, false, false, ALU_OP_ADD, false, true, true))
  {
  }

  /** ALU control code 2 is the adder. */
  lemma AluAdds(a: Word, b: Word, control: Bits4, prior: Word)
    requires Value(control) == 2
    ensures CpuUnits.AluResult(a, b, control, prior) == AddBits(a, b)
  {
  }

  /** The execute step of lw, sw and addi: rt is the destination and the ALU adds the sign-extended immediate to the base. */
  lemma AddImmediateExecute(m: Machine, pc4: Word, f: Fields, s: Signals)
    requires WellFormed(m) && !s.regDst && !s.branch && s.aluSrc && s.aluOp == ALU_OP_ADD
    ensures var regs1 := OperandRegisters(m.regs, f.rt, s.regWrite);
      Execute(m.regs, pc4, f, s)
        == Executed(f.rt, regs1, regs1[Index(f.rt)],
                    AddBits(regs1[Index(f.rs)], CpuUnits.SignExtendBits(f.immediate, 32)), pc4)
  {
    AluOpValues();
    var regs1 := OperandRegisters(m.regs, f.rt, s.regWrite);
    AluAdds(regs1[Index(f.rs)], CpuUnits.SignExtendBits(f.immediate, 32),
            CpuUnits.ALUControl(s.aluOp, f.funct, Zeros(4)), ZERO_WORD);
  }

  /**
   * lw rt, imm(rs) loads the word at rs + SignExtend(imm) into rt (unless rt
   * is $0) and moves on to PC + 4.  When rs is rt the base reads as zero,
   * so the address is the immediate alone.  An address past the memory
   * array is None.
   */
  lemma LoadStep(m: Machine)
    requires WellFormed(m) && Value(m.pc) + 3 < |m.imem| && Value(Fetched(m).opcode) == 0x23
    ensures var f := Fetched(m);
      var address := Value(AddBits(Operand(m, f.rs, f.rt), CpuUnits.SignExtendBits(f.immediate, 32)));
      Cycle(m) == if address + 3 >= |m.dmem| then None
                  else Some(Machine(AddBits(m.pc, Four()),
                                    if Index(f.rt) == 0 then m.regs else m.regs[Index(f.rt) := WordAt(m.dmem, address, LittleEndian)],
                                    m.imem, m.dmem, NextCycle(m.cycle)))
  {
    var f := Fetched(m);
    ControlTable(f.opcode);
    var s := Signals(false, false, true, true, ALU_OP_ADD, false, true, true);
    var pc4 := AddBits(m.pc, Four());
    var regs1 := OperandRegisters(m.regs, f.rt, true);
    var e := Executed(f.rt, regs1, regs1[Index(f.rt)],
                      AddBits(regs1[Index(f.rs)], CpuUnits.SignExtendBits(f.immediate, 32)), pc4);
    AddImmediateExecute(m, pc4, f, s);
    assert regs1[Index(f.rs)] == Operand(m, f.rs, f.rt);
    LoadWriteBack(m, e, s);
    assert Cycle(m) == Retire(m, s, e);
  }

  /** The memory and write-back stages of a load: the word at the ALU result goes to the destination. */
  lemma LoadWriteBack(m: Machine, e: Executed, s: Signals)
    requires WellFormed(m) && s.memRead && !s.memWrite && s.memToReg && s.regWrite
    requires e.regs == OperandRegisters(m.regs, e.wr, true)
    ensures var address := Value(e.result);
      MemoryWriteBack(m.dmem, s, e)
        == if address + 3 >= |m.dmem| then None
           else var w := WordAt(m.dmem, address, LittleEndian);
             Some((m.dmem, if Index(e.wr) == 0 then m.regs else m.regs[Index(e.wr) := w]))
  {
    var address := Value(e.result);
    if address + 3 < |m.dmem| && Index(e.wr) != 0 {
      var w := WordAt(m.dmem, address, LittleEndian);
      assert e.regs[Index(e.wr) := w] == m.regs[Index(e.wr) := w];
    }
  }

  /**
   * sw rt, imm(rs) stores rt at rs + SignExtend(imm), leaves every register
   * alone and moves on to PC + 4.  An address past the memory array is None.
   */
  lemma StoreStep(m: Machine)
    requires WellFormed(m) && Value(m.pc) + 3 < |m.imem| && Value(Fetched(m).opcode) == 0x2B
    ensures var f := Fetched(m);
      var address := Value(AddBits(m.regs[Index(f.rs)], CpuUnits.SignExtendBits(f.immediate, 32)));
      Cycle(m) == if address + 3 >= |m.dmem| then None
                  else Some(Machine(AddBits(m.pc, Four()), m.regs, m.imem,
                                    StoreWord(m.dmem, address, m.regs[Index(f.rt)], LittleEndian), NextCycle(m.cycle)))
  {
    var f := Fetched(m);
    ControlTable(f.opcode);
    var s := Signals(false, false, false, false, ALU_OP_ADD, true, true, false);
    var pc4 := AddBits(m.pc, Four());
    AddImmediateExecute(m, pc4, f, s);
    var e := Execute(m.regs, pc4, f, s);
    assert e.regs == m.regs;
    assert Cycle(m) == Retire(m, s, e);
  }

  /**
   * addi rt, rs, imm writes rs + SignExtend(imm) to rt (unless rt is $0)
   * and moves on to PC + 4; when rs is rt the source reads as zero.
   */
  lemma AddImmediateStep(m: Machine)
    requires WellFormed(m) && Value(m.pc) + 3 < |m.imem| && Value(Fetched(m).opcode) == 0x08
    ensures var f := Fetched(m);
      var sum := AddBits(Operand(m, f.rs, f.rt), CpuUnits.SignExtendBits(f.immediate, 32));
      Cycle(m) == Some(Machine(AddBits(m.pc, Four()), if Index(f.rt) == 0 then m.regs else m.regs[Index(f.rt) := sum],
                               m.imem, m.dmem, NextCycle(m.cycle)))
  {
    var f := Fetched(m);
    ControlTable(f.opcode);
    var s := Signals(false, false, false, false, ALU_OP_ADD, false, true, true);
    var pc4 := AddBits(m.pc, Four());
    var regs1 := OperandRegisters(m.regs, f.rt, true);
    AddImmediateExecute(m, pc4, f, s);
    var e := Execute(m.regs, pc4, f, s);
    assert regs1[Index(f.rs)] == Operand(m, f.rs, f.rt);
    ResultWriteBack(m, e, s);
    assert Cycle(m) == Retire(m, s, e);
  }

  /**
   * beq rs, rt, imm changes no register and no memory; the next PC is
   * PC + 4 + (SignExtend(imm) << 2) when the two registers are equal and
   * PC + 4 otherwise.
   */
  lemma BranchStep(m: Machine)
    requires WellFormed(m) && Value(m.pc) + 3 < |m.imem| && Value(Fetched(m).opcode) == 0x04
    ensures var f := Fetched(m);
      var pc4 := AddBits(m.pc, Four());
      var target := AddBits(pc4, CpuUnits.ShiftLeft2Bits(CpuUnits.SignExtendBits(f.immediate, 32)));
      Cycle(m) == Some(Machine(if m.regs[Index(f.rs)] == m.regs[Index(f.rt)] then target else pc4,
                               m.regs, m.imem, m.dmem, NextCycle(m.cycle)))
  {
    var f := Fetched(m);
    ControlTable(f.opcode);
    var s := Signals(false, true, false, false, ALU_OP_SUB, false, false, false);
    var pc4 := AddBits(m.pc, Four());
    BranchExecute(m, pc4, f, s);
    var e := Execute(m.regs, pc4, f, s);
    assert Cycle(m) == Retire(m, s, e);
  }

  lemma BranchExecute(m: Machine, pc4: Word, f: Fields, s: Signals)
    requires WellFormed(m) && s == Signals(false, true, false, false, ALU_OP_SUB, false, false, false)
    ensures var e := Execute(m.regs, pc4, f, s);
      var target := AddBits(pc4, CpuUnits.ShiftLeft2Bits(CpuUnits.SignExtendBits(f.immediate, 32)));
      e.regs == m.regs && e.pc == if m.regs[Index(f.rs)] == m.regs[Index(f.rt)] then target else pc4
  {
    AluOpValues();
    var a, b := m.regs[Index(f.rs)], m.regs[Index(f.rt)];
    CpuUnits.SubZeroIffEqual(a, b);
    assert CpuUnits.AluResult(a, b, CpuUnits.ALUControl(s.aluOp, f.funct, Zeros(4)), ZERO_WORD) == CpuUnits.SubBits(a, b);
  }

  /**
   * An opcode Control does not know aborts the simulator, and so does a PC
   * whose instruction lies past the instruction memory.
   */
  lemma UnknownOpcodeAborts(m: Machine)
    requires WellFormed(m)
    requires Value(m.pc) + 3 < |m.imem| ==> Value(Fetched(m).opcode) !in {0x23, 0x2B, 0x04, 0x00, 0x08}
    ensures Cycle(m).None?
  {
  }

  /** Adding zero gives the other operand. */
  lemma AddZero(y: Word)
    ensures AddBits(ZERO_WORD, y) == y
  {
    var r := AddBits(ZERO_WORD, y);
    assert Value(r) == Value(y) by {
      WordConstValues();
      WordBound(y);
      CpuUnits.AddWordValue(ZERO_WORD, y);
    }
    ValueInjective(r, y);
  }

  /** Adding a non-zero word changes the other operand. */
  lemma AddNonZero(x: Word, y: Word)
    requires x != ZERO_WORD
    ensures AddBits(x, y) != y
  {
    var r := AddBits(x, y);
    assert Value(x) != 0 by {
      WordConstValues();
      if Value(x) == 0 {
        ValueInjective(x, ZERO_WORD);
      }
    }
    assert Value(r) != Value(y) by {
      WordBound(x);
      WordBound(y);
      CpuUnits.AddWordValue(x, y);
    }
  }

  /**
   * `add rd, rd, rt` with rd not $0 leaves rt's value in rd, not rd + rt:
   * the operand read clears rd before reading it.  The result differs from
   * the MIPS sum whenever rd held a non-zero value.
   */
  lemma AddIntoSource(m: Machine)
    requires WellFormed(m) && Value(m.pc) + 3 < |m.imem|
    requires var f := Fetched(m);
      Value(f.opcode) == 0x00 && Value(f.funct) == 0x20 && Index(f.rs) == Index(f.rd) != 0 && Index(f.rt) != Index(f.rd)
    ensures var f := Fetched(m);
      && Cycle(m).Some?
      && Cycle(m).value.regs[Index(f.rd)] == m.regs[Index(f.rt)]
      && (m.regs[Index(f.rd)] != ZERO_WORD ==> Cycle(m).value.regs[Index(f.rd)] != AddBits(m.regs[Index(f.rs)], m.regs[Index(f.rt)]))
  {
    var f := Fetched(m);
    RTypeStep(m);
    AluOpValues();
    AluAdds(ZERO_WORD, m.regs[Index(f.rt)], CpuUnits.ALUControl(ALU_OP_FUNCT, f.funct, Zeros(4)), ZERO_WORD);
    AddZero(m.regs[Index(f.rt)]);
    if m.regs[Index(f.rd)] != ZERO_WORD {
      AddNonZero(m.regs[Index(f.rs)], m.regs[Index(f.rt)]);
    }
  }
}
