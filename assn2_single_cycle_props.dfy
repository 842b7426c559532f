/**
 * What one cycle of the assn2 single-cycle CPU (and of its debug copy)
 * does to the architectural state, instruction class by instruction class:
 * the register and memory updates and the next PC.  Operands are read
 * before anything is written, register 0 is an ordinary register, ori and
 * lui behave as addi, and j and unknown opcodes only advance the PC.
 */
module Assn2SingleCycleProps {
  import opened Bitset
  import opened Mips
  import opened ByteMemory
  import CpuUnits
  import Assn2Units
  import opened Assn2SingleCycle

  /** The signals Control drives for each opcode: the five MIPS instructions, addi's signals for ori and lui, none otherwise. */
  lemma ControlTable(opcode: Bits6)
    ensures Value(opcode) == 0x00 ==> Assn2Units.Control(opcode) == Signals(true, false, false, false, ALU_OP_FUNCT, false, false, true)
    ensures Value(opcode) == 0x23 ==> Assn2Units.Control(opcode) == Signals(false, false, true, true, ALU_OP_ADD, false, true, true)
    ensures Value(opcode) == 0x2B ==> Assn2Units.Control(opcode) == Signals(false, false, false, false, ALU_OP_ADD, true, true, false)
    ensures Value(opcode) == 0x04 ==> Assn2Units.Control(opcode) == Signals(false, true, false, false, ALU_OP_SUB, false, false, false)
    ensures Value(opcode) in {0x08, 0x0D, 0x0F}
            ==> Assn2Units.Control(opcode) == Signals(false, false, false, false, ALU_OP_ADD, false, true, true)
    ensures Value(opcode) !in {0x00, 0x23, 0x2B, 0x04, 0x08, 0x0D, 0x0F} ==> Assn2Units.Control(opcode) == NoSignals()
  {
  }

  /** ALU control code 2 is the adder, and the zero flag keeps its cleared value. */
  lemma AluAdds(a: Word, b: Word, control: Bits4)
    requires Value(control) == 2
    ensures Assn2Units.Alu(a, b, control, ZERO_WORD, false) == Assn2Units.AluOut(AddBits(a, b), false)
  {
  }

  /** The registers after the second access: the destination holds the write-back value when RegWrite is set, register 0 included. */
  function WrittenBack(regs: seq<Word>, wr: Bits5, wb: Word, regWrite: bool): (r: seq<Word>)
    requires |regs| == 32
    ensures |r| == 32 && (regWrite ==> r[Index(wr)] == wb)
    ensures forall i :: 0 <= i < 32 && !(regWrite && i == Index(wr)) ==> r[i] == regs[i]
  {
    if regWrite then regs[Index(wr) := wb] else regs
  }

  /** The execute step of an instruction that adds the sign-extended immediate to rs (lw, sw, addi, ori, lui). */
  lemma AddImmediateExecute(m: Machine, pc4: Word, f: Fields, s: Signals, decodesNor: bool)
    requires WellFormed(m) && !s.regDst && !s.branch && s.aluSrc && s.aluOp == ALU_OP_ADD
    ensures Execute(m.regs, pc4, f, s, decodesNor)
         == Executed(f.rt, WrittenBack(m.regs, f.rt, ZERO_WORD, s.regWrite), m.regs[Index(f.rt)],
                     AddBits(m.regs[Index(f.rs)], Assn2Units.SignExtend(f.immediate)), pc4)
  {
    AluOpValues();
    var control := Assn2Units.ALUControl(s.aluOp, f.funct, Zeros(4), decodesNor);
    AluAdds(m.regs[Index(f.rs)], Assn2Units.SignExtend(f.immediate), control);
  }

  /** The write-back of an instruction that writes its ALU result and does not touch memory. */
  lemma ResultWriteBack(m: Machine, e: Executed, s: Signals)
    requires WellFormed(m) && !s.memRead && !s.memWrite && !s.memToReg && s.regWrite
    requires e.regs == m.regs[Index(e.wr) := ZERO_WORD]
    ensures MemoryWriteBack(m.dmem, s, e) == Some((m.dmem, m.regs[Index(e.wr) := e.result]))
  {
    assert e.regs[Index(e.wr) := e.result] == m.regs[Index(e.wr) := e.result];
  }

  /**
   * An R-type instruction (opcode 0) writes the ALU result of rs and rt
   * to rd, register 0 included, and moves on to PC + 4; memory is
   * untouched.  Both operands are the registers' values before the cycle.
   */
  lemma RTypeStep(m: Machine, decodesNor: bool)
    requires WellFormed(m) && Value(m.pc) + 3 < |m.imem| && Value(Fetched(m).opcode) == 0x00
    ensures var f := Fetched(m);
      var out := Assn2Units.Alu(m.regs[Index(f.rs)], m.regs[Index(f.rt)],
                                Assn2Units.ALUControl(ALU_OP_FUNCT, f.funct, Zeros(4), decodesNor), ZERO_WORD, false);
      Cycle(m, decodesNor) == Some(Machine(AddBits(m.pc, Four()), m.regs[Index(f.rd) := out.output],
                                           m.imem, m.dmem, NextCycle(m.cycle)))
  {
    var f := Fetched(m);
    ControlTable(f.opcode);
    var s := Signals(true, false, false, false, ALU_OP_FUNCT, false, false, true);
    var pc4 := AddBits(m.pc, Four());
    var e := Execute(m.regs, pc4, f, s, decodesNor);
    assert e.regs == m.regs[Index(f.rd) := ZERO_WORD];
    ResultWriteBack(m, e, s);
    assert Cycle(m, decodesNor) == Retire(m, s, e);
  }

  /**
   * funct 0x27 under R-type is NOR in the assn2 copy; the debug copy has
   * no NOR case, so the cleared ALU control selects AND instead.
   */
  lemma NorDecoding(m: Machine, decodesNor: bool)
    requires WellFormed(m) && Value(m.pc) + 3 < |m.imem|
    requires Value(Fetched(m).opcode) == 0x00 && Value(Fetched(m).funct) == 0x27
    ensures var f := Fetched(m);
      var a, b := m.regs[Index(f.rs)], m.regs[Index(f.rt)];
      && Cycle(m, decodesNor).Some?
      && Cycle(m, decodesNor).value.regs[Index(f.rd)] == if decodesNor then BitNot(BitOr(a, b)) else BitAnd(a, b)
  {
    var f := Fetched(m);
    RTypeStep(m, decodesNor);
    NorControl(f.funct, decodesNor);
    var a, b := m.regs[Index(f.rs)], m.regs[Index(f.rt)];
    Assn2Units.AluTable(a, b, Assn2Units.ALUControl(ALU_OP_FUNCT, f.funct, Zeros(4), decodesNor), ZERO_WORD, false);
  }

  /** The ALU control for funct 0x27 under ALUOp 2: code 12 (NOR) when decoded, else the cleared wire, code 0 (AND). */
  lemma NorControl(funct: Bits6, decodesNor: bool)
    requires Value(funct) == 0x27
    ensures Value(Assn2Units.ALUControl(ALU_OP_FUNCT, funct, Zeros(4), decodesNor)) == if decodesNor then 12 else 0
  {
    AluOpValues();
    ValueZeros(4);
  }

  /**
   * addi, ori and lui all write rs + SignExtend(imm) to rt, register 0
   * included, and move on to PC + 4: Control gives ori and lui the addi
   * signals.
   */
  lemma AddImmediateStep(m: Machine, decodesNor: bool)
    requires WellFormed(m) && Value(m.pc) + 3 < |m.imem| && Value(Fetched(m).opcode) in {0x08, 0x0D, 0x0F}
    ensures var f := Fetched(m);
      var sum := AddBits(m.regs[Index(f.rs)], Assn2Units.SignExtend(f.immediate));
      Cycle(m, decodesNor) == Some(Machine(AddBits(m.pc, Four()), m.regs[Index(f.rt) := sum],
                                           m.imem, m.dmem, NextCycle(m.cycle)))
  {
    var f := Fetched(m);
    ControlTable(f.opcode);
    var s := Signals(false, false, false, false, ALU_OP_ADD, false, true, true);
    var pc4 := AddBits(m.pc, Four());
    AddImmediateExecute(m, pc4, f, s, decodesNor);
    var e := Execute(m.regs, pc4, f, s, decodesNor);
    ResultWriteBack(m, e, s);
    assert Cycle(m, decodesNor) == Retire(m, s, e);
  }

  /** The memory and write-back stages of a load: the word at the ALU result goes to the destination. */
  lemma LoadWriteBack(m: Machine, e: Executed, s: Signals)
    requires WellFormed(m) && s.memRead && !s.memWrite && s.memToReg && s.regWrite
    requires e.regs == m.regs[Index(e.wr) := ZERO_WORD]
    ensures var address := Value(e.result);
      MemoryWriteBack(m.dmem, s, e)
        == if address + 3 >= |m.dmem| then None
           else Some((m.dmem, m.regs[Index(e.wr) := WordAt(m.dmem, address, LittleEndian)]))
  {
    var address := Value(e.result);
    if address + 3 < |m.dmem| {
      var w := WordAt(m.dmem, address, LittleEndian);
      assert e.regs[Index(e.wr) := w] == m.regs[Index(e.wr) := w];
    }
  }

  /**
   * lw rt, imm(rs) loads the word at rs + SignExtend(imm) into rt,
   * register 0 included, and moves on to PC + 4.  An address past the
   * memory array is None.
   */
  lemma LoadStep(m: Machine, decodesNor: bool)
    requires WellFormed(m) && Value(m.pc) + 3 < |m.imem| && Value(Fetched(m).opcode) == 0x23
    ensures var f := Fetched(m);
      var address := Value(AddBits(m.regs[Index(f.rs)], Assn2Units.SignExtend(f.immediate)));
      Cycle(m, decodesNor) == if address + 3 >= |m.dmem| then None
                              else Some(Machine(AddBits(m.pc, Four()),
                                                m.regs[Index(f.rt) := WordAt(m.dmem, address, LittleEndian)],
                                                m.imem, m.dmem, NextCycle(m.cycle)))
  {
    var f := Fetched(m);
    ControlTable(f.opcode);
    var s := Signals(false, false, true, true, ALU_OP_ADD, false, true, true);
    var pc4 := AddBits(m.pc, Four());
    AddImmediateExecute(m, pc4, f, s, decodesNor);
    var e := Execute(m.regs, pc4, f, s, decodesNor);
    LoadWriteBack(m, e, s);
    assert Cycle(m, decodesNor) == Retire(m, s, e);
  }

  /**
   * sw rt, imm(rs) stores rt at rs + SignExtend(imm), leaves every register
   * alone and moves on to PC + 4.  An address past the memory array is None.
   */
  lemma StoreStep(m: Machine, decodesNor: bool)
    requires WellFormed(m) && Value(m.pc) + 3 < |m.imem| && Value(Fetched(m).opcode) == 0x2B
    ensures var f := Fetched(m);
      var address := Value(AddBits(m.regs[Index(f.rs)], Assn2Units.SignExtend(f.immediate)));
      Cycle(m, decodesNor) == if address + 3 >= |m.dmem| then None
                              else Some(Machine(AddBits(m.pc, Four()), m.regs, m.imem,
                                                StoreWord(m.dmem, address, m.regs[Index(f.rt)], LittleEndian),
                                                NextCycle(m.cycle)))
  {
    var f := Fetched(m);
    ControlTable(f.opcode);
    var s := Signals(false, false, false, false, ALU_OP_ADD, true, true, false);
    var pc4 := AddBits(m.pc, Four());
    AddImmediateExecute(m, pc4, f, s, decodesNor);
    var e := Execute(m.regs, pc4, f, s, decodesNor);
    assert e.regs == m.regs;
    assert Cycle(m, decodesNor) == Retire(m, s, e);
  }

  /** The execute step of beq: no register changes, and the branch is taken exactly when rs and rt are equal. */
  lemma BranchExecute(m: Machine, pc4: Word, f: Fields, s: Signals, decodesNor: bool)
    requires WellFormed(m) && s == Signals(false, true, false, false, ALU_OP_SUB, false, false, false)
    ensures var e := Execute(m.regs, pc4, f, s, decodesNor);
      var target := AddBits(pc4, Assn2Units.ShiftLeft2(Assn2Units.SignExtend(f.immediate)));
      e.regs == m.regs && e.pc == if m.regs[Index(f.rs)] == m.regs[Index(f.rt)] then target else pc4
  {
    AluOpValues();
    var control := Assn2Units.ALUControl(s.aluOp, f.funct, Zeros(4), decodesNor);
    assert Value(control) == 6;
  }

  /**
   * beq rs, rt, imm changes no register and no memory; the next PC is
   * PC + 4 + (SignExtend(imm) << 2) when the two registers are equal and
   * PC + 4 otherwise.
   */
  lemma BranchStep(m: Machine, decodesNor: bool)
    requires WellFormed(m) && Value(m.pc) + 3 < |m.imem| && Value(Fetched(m).opcode) == 0x04
    ensures var f := Fetched(m);
      var pc4 := AddBits(m.pc, Four());
      var target := AddBits(pc4, Assn2Units.ShiftLeft2(Assn2Units.SignExtend(f.immediate)));
      Cycle(m, decodesNor) == Some(Machine(if m.regs[Index(f.rs)] == m.regs[Index(f.rt)] then target else pc4,
                                           m.regs, m.imem, m.dmem, NextCycle(m.cycle)))
  {
    var f := Fetched(m);
    ControlTable(f.opcode);
    var s := Signals(false, true, false, false, ALU_OP_SUB, false, false, false);
    var pc4 := AddBits(m.pc, Four());
    BranchExecute(m, pc4, f, s, decodesNor);
    var e := Execute(m.regs, pc4, f, s, decodesNor);
    assert Cycle(m, decodesNor) == Retire(m, s, e);
  }

  /** j (0x02) and every opcode Control does not know change nothing but the PC, which moves on to PC + 4. */
  lemma NoOpStep(m: Machine, decodesNor: bool)
    requires WellFormed(m) && Value(m.pc) + 3 < |m.imem|
    requires Value(Fetched(m).opcode) !in {0x00, 0x23, 0x2B, 0x04, 0x08, 0x0D, 0x0F}
    ensures Cycle(m, decodesNor) == Some(Machine(AddBits(m.pc, Four()), m.regs, m.imem, m.dmem, NextCycle(m.cycle)))
  {
    var f := Fetched(m);
    ControlTable(f.opcode);
    var s := NoSignals();
    var e := Execute(m.regs, AddBits(m.pc, Four()), f, s, decodesNor);
    assert e.regs == m.regs && e.pc == AddBits(m.pc, Four());
    assert Cycle(m, decodesNor) == Retire(m, s, e);
  }

  /** The cycle fails only when the PC or a load or store address lies past its memory array: no opcode aborts. */
  lemma OnlyAddressesFail(m: Machine, decodesNor: bool)
    requires WellFormed(m) && Value(m.pc) + 3 < |m.imem|
    requires Value(Fetched(m).opcode) !in {0x23, 0x2B}
    ensures Cycle(m, decodesNor).Some?
  {
    var f := Fetched(m);
    ControlTable(f.opcode);
    AluOpValues();
  }

  /**
   * Register 0 is not protected: `addi $0, rs, imm` whose sum is not zero
   * leaves a non-zero value in register 0.
   */
  lemma ZeroRegisterWritten(m: Machine, decodesNor: bool)
    requires WellFormed(m) && Value(m.pc) + 3 < |m.imem|
    requires var f := Fetched(m);
      Value(f.opcode) == 0x08 && Index(f.rt) == 0
      && AddBits(m.regs[Index(f.rs)], Assn2Units.SignExtend(f.immediate)) != ZERO_WORD
    ensures Cycle(m, decodesNor).Some? && Cycle(m, decodesNor).value.regs[0] != ZERO_WORD
  {
    AddImmediateStep(m, decodesNor);
  }
}
