/**
 * What one clock cycle of the assn3 pipeline does, as properties of
 * `Assn3Pipeline.Cycle`: where the PC goes, what IF fetches, how each latch
 * takes over the content of the one upstream (taken branch or not), and
 * that a register WB writes is what the same cycle's ID reads.
 */
module Assn3PipelineProps {
  import opened Bitset
  import opened Mips
  import opened ByteMemory
  import CpuUnits
  import opened PipelineLatches
  import opened Assn3Pipeline

  /** The states between the stages of one successful cycle. */
  lemma Stages(p: Pipe) returns (p1: Pipe, p2: Pipe, p4: Pipe)
    requires PipeShape(p) && Cycle(p).Some?
    ensures p1 == WriteBackStage(p.(cycle := NextCycle(p.cycle))) && PipeShape(p1)
    ensures MemoryStage(p1) == Some(p2) && PipeShape(p2)
    ensures DecodeStage(ExecuteStage(p2)) == Some(p4) && FetchStage(p4) == Cycle(p)
  {
    p1 := WriteBackStage(p.(cycle := NextCycle(p.cycle)));
    p2 := MemoryStage(p1).value;
    p4 := DecodeStage(ExecuteStage(p2)).value;
  }

  /** A cycle whose MEM and ID stages succeed ends with the IF stage. */
  lemma CycleThrough(p: Pipe, p2: Pipe)
    requires PipeShape(p) && MemoryStage(WriteBackStage(p.(cycle := NextCycle(p.cycle)))) == Some(p2)
    requires PipeShape(p2) && DecodeStage(ExecuteStage(p2)).Some?
    ensures Cycle(p) == FetchStage(DecodeStage(ExecuteStage(p2)).value)
  {
  }

  /**
   * The PC after a cycle: the branch target when the EX/MEM latch holds a
   * taken branch (MEM's target minus 4, plus IF's 4), PC + 4 otherwise;
   * IF/ID then holds the instruction at the new PC and the new PC + 4.
   */
  lemma {:induction false} NextPc(p: Pipe)
    requires PipeShape(p) && Cycle(p).Some?
    ensures var q := Cycle(p).value;
      q.pc == (if p.exMem.branch && p.exMem.aluZero then p.exMem.branchTarget else AddBits(p.pc, Four()))
    ensures var q := Cycle(p).value;
      q.ifId.instr == WordAt(p.imem, Value(q.pc), LittleEndian) && q.ifId.pcPlus4 == AddBits(q.pc, Four())
  {
    var p1, p2, p4 := Stages(p);
    assert p1.exMem == p.exMem && p1.pc == p.pc;
    assert p4.pc == p2.pc;
  }

  /**
   * No flush: whatever MEM does to the PC, EX/MEM receives the controls
   * and data ID/EX held, MEM/WB those EX/MEM held, and ID/EX the decode of
   * the instruction IF/ID held, as they were before the cycle.
   */
  lemma {:induction false} LatchesAdvance(p: Pipe)
    requires PipeShape(p) && Cycle(p).Some?
    ensures var q := Cycle(p).value;
      && q.memWb.aluResult == p.exMem.aluResult && q.memWb.rd == p.exMem.rd
      && q.memWb.regWrite == p.exMem.regWrite && q.memWb.memToReg == p.exMem.memToReg
    ensures var q, c := Cycle(p).value, p.idEx.ctrl;
      && q.exMem.branch == c.branch && q.exMem.memRead == c.memRead && q.exMem.memWrite == c.memWrite
      && q.exMem.regWrite == c.regWrite && q.exMem.memToReg == c.memToReg
      && q.exMem.readData2 == p.idEx.readData2 && q.exMem.rd == (if c.regDst then p.idEx.rd else p.idEx.rt)
    ensures var q, f := Cycle(p).value, Decode(p.ifId.instr);
      && CpuUnits.Control(f.opcode) == Some(q.idEx.ctrl)
      && q.idEx.pcPlus4 == p.ifId.pcPlus4 && q.idEx.rt == f.rt && q.idEx.rd == f.rd
  {
    var p1, p2, p4 := Stages(p);
    assert p1.exMem == p.exMem && p1.idEx == p.idEx && p1.ifId == p.ifId;
    assert p2.idEx == p.idEx && p2.ifId == p.ifId;
    assert p4.memWb == p2.memWb && p4.exMem == ExecuteStage(p2).exMem;
  }

  /**
   * MEM reads the word at the ALU result into MEM/WB for a load (readData
   * keeps its value otherwise) and stores readData2 there for a store.
   */
  lemma {:induction false} MemoryAccessEffect(p: Pipe)
    requires PipeShape(p) && Cycle(p).Some?
    ensures var q, l := Cycle(p).value, p.exMem;
      q.memWb.readData == if l.memRead then WordAt(p.dmem, Value(l.aluResult), LittleEndian) else p.memWb.readData
    ensures var q, l := Cycle(p).value, p.exMem;
      q.dmem == if l.memWrite then StoreWord(p.dmem, Value(l.aluResult), l.readData2, LittleEndian) else p.dmem
  {
    var p1, p2, p4 := Stages(p);
    assert p1.exMem == p.exMem && p1.dmem == p.dmem && p1.memWb == p.memWb;
    assert p4.memWb == p2.memWb && p4.dmem == p2.dmem;
  }

  /**
   * WB runs before ID: ID/EX's register values are the registers after
   * this cycle's write-back, so a value written back to the register ID
   * reads arrives at once, and otherwise ID reads the register as it was.
   */
  lemma {:induction false} WriteBackBeforeDecode(p: Pipe)
    requires PipeShape(p) && Cycle(p).Some?
    ensures var q, f, w := Cycle(p).value, Decode(p.ifId.instr), p.memWb;
      w.regWrite && Index(w.rd) != 0 && Index(f.rs) == Index(w.rd) ==> q.idEx.readData1 == WriteBackData(w)
    ensures var q, f, w := Cycle(p).value, Decode(p.ifId.instr), p.memWb;
      w.regWrite && Index(w.rd) != 0 && Index(f.rt) == Index(w.rd) ==> q.idEx.readData2 == WriteBackData(w)
    ensures var q, f, w := Cycle(p).value, Decode(p.ifId.instr), p.memWb;
      !(w.regWrite && Index(f.rs) == Index(w.rd)) ==> q.idEx.readData1 == p.regs[Index(f.rs)]
    ensures var q, f, w := Cycle(p).value, Decode(p.ifId.instr), p.memWb;
      !(w.regWrite && Index(f.rt) == Index(w.rd)) ==> q.idEx.readData2 == p.regs[Index(f.rt)]
  {
    var p1, p2, p4 := Stages(p);
    var f := Decode(p.ifId.instr);
    assert p2.regs == p1.regs && p2.ifId == p.ifId;
    assert p4.idEx.readData1 == p1.regs[Index(f.rs)] && p4.idEx.readData2 == p1.regs[Index(f.rt)];
  }

  /** ID/EX receives the sign-extended immediate, with the 16-bit field's two's-complement value. */
  lemma {:induction false} DecodeImmediate(p: Pipe)
    requires PipeShape(p) && Cycle(p).Some?
    ensures var q, f := Cycle(p).value, Decode(p.ifId.instr);
      q.idEx.immediate == CpuUnits.SignExtendBits(f.immediate, 32) && Signed(q.idEx.immediate) == Signed(f.immediate)
  {
    var p1, p2, p4 := Stages(p);
    var f := Decode(p.ifId.instr);
    assert ExecuteStage(p2).ifId == p.ifId;
    CpuUnits.SignExtendSigned(f.immediate, 32);
  }

  /**
   * EX under ALUOp 0 (lw, sw, addi): the ALU output is the sum of
   * readData1 and the second operand (the immediate for ALUSrc), modulo
   * 2^32.
   */
  lemma ExecuteAdds(p: Pipe)
    requires Value(p.idEx.ctrl.aluOp) == 0
    ensures var l, q := p.idEx, ExecuteStage(p);
      var sum := Value(l.readData1) + Value(if l.ctrl.aluSrc then l.immediate else l.readData2);
      Value(q.exMem.aluResult) == if sum < 0x1_0000_0000 then sum else sum - 0x1_0000_0000
  {
    var l := p.idEx;
    var control := CpuUnits.ALUControl(l.ctrl.aluOp, l.immediate[0..6], Zeros(4));
    assert Value(control) == 2;
  }

  /**
   * EX under ALUOp 1 (beq): the ALU subtracts, so the zero flag MEM tests
   * is set exactly when the two register values are equal.
   */
  lemma ExecuteCompares(p: Pipe)
    requires Value(p.idEx.ctrl.aluOp) == 1 && !p.idEx.ctrl.aluSrc
    ensures ExecuteStage(p).exMem.aluZero <==> p.idEx.readData1 == p.idEx.readData2
  {
    var l := p.idEx;
    var control := CpuUnits.ALUControl(l.ctrl.aluOp, l.immediate[0..6], Zeros(4));
    assert ExecuteStage(p).exMem.aluResult == CpuUnits.SubBits(l.readData1, l.readData2);
    CpuUnits.SubZeroIffEqual(l.readData1, l.readData2);
  }

  /**
   * EX under ALUOp 2 (R-type): ALUControl decodes the low six bits of the
   * extended immediate, which for an immediate ID sign-extended are the
   * instruction's funct field.
   */
  lemma ExecuteFunct(p: Pipe, instr: Word)
    requires p.idEx.immediate == CpuUnits.SignExtendBits(Decode(instr).immediate, 32)
    ensures var l := p.idEx;
      ExecuteStage(p).exMem.aluResult
        == CpuUnits.AluResult(l.readData1, if l.ctrl.aluSrc then l.immediate else l.readData2,
                              CpuUnits.ALUControl(l.ctrl.aluOp, Decode(instr).funct, Zeros(4)), p.exMem.aluResult)
  {
    var f := Decode(instr);
    assert p.idEx.immediate[0..6] == f.funct;
  }

  /** The branch target EX computes is PC + 4 plus four times the signed 16-bit immediate, modulo 2^32. */
  lemma ExecuteBranchTarget(p: Pipe, imm: Half)
    requires p.idEx.immediate == CpuUnits.SignExtendBits(imm, 32)
    ensures Value(ExecuteStage(p).exMem.branchTarget) == (Value(p.idEx.pcPlus4) + 4 * Signed(imm)) % 0x1_0000_0000
  {
    CpuUnits.BranchTarget(p.idEx.pcPlus4, imm);
  }

  /**
   * The first cycle after the constructor changes no register and no
   * memory byte and leaves EX/MEM and MEM/WB without controls: the
   * cleared latches are no-ops.  It fails only when the fetch leaves the
   * instruction memory.
   */
  lemma FirstCycleQuiet(pc: Word, regs: seq<Word>, imem: seq<Byte>, dmem: seq<Byte>)
    requires |regs| == 32
    ensures Cycle(Initial(pc, regs, imem, dmem)).Some? <==> Value(AddBits(pc, Four())) + 3 < |imem|
    ensures Cycle(Initial(pc, regs, imem, dmem)).Some? ==>
      var q := Cycle(Initial(pc, regs, imem, dmem)).value;
      && q.regs == regs && q.dmem == dmem && q.pc == AddBits(pc, Four())
      && !q.memWb.regWrite && !q.exMem.regWrite && !q.exMem.memRead && !q.exMem.memWrite && !q.exMem.branch
  {
    var p := Initial(pc, regs, imem, dmem);
    var p2 := InitialMemoryStage(pc, regs, imem, dmem);
    var e := ExecuteStage(p2);
    assert e.ifId.instr == ZERO_WORD;
    ZeroInstructionDecodes();
    var p4 := DecodeStage(e).value;
    assert p4 == e.(idEx := p4.idEx);
    CycleThrough(p, p2);
  }

  /** WB and MEM of the first cycle change nothing but the counter. */
  lemma InitialMemoryStage(pc: Word, regs: seq<Word>, imem: seq<Byte>, dmem: seq<Byte>) returns (p2: Pipe)
    requires |regs| == 32
    ensures var p := Initial(pc, regs, imem, dmem);
      MemoryStage(WriteBackStage(p.(cycle := NextCycle(p.cycle)))) == Some(p2) && p2 == p.(cycle := 1)
  {
    var p := Initial(pc, regs, imem, dmem);
    var p1 := WriteBackStage(p.(cycle := NextCycle(p.cycle)));
    assert p1 == p.(cycle := 1);
    p2 := MemoryStage(p1).value;
  }
}
