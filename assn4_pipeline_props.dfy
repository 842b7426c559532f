/**
 * What one clock cycle of the assn4 pipeline does, as properties of
 * `Assn4Pipeline.Cycle`: a load-use hazard stalls the pipeline for exactly
 * one cycle and turns the stalled instruction's first pass through ID
 * into a bubble; otherwise the PC follows the branch decision MEM
 * published; EX computes on the most recent value of each source
 * register; and the mailboxes only carry values within a cycle.
 */
module Assn4PipelineProps {
  import opened Bitset
  import opened Mips
  import opened ByteMemory
  import CpuUnits
  import opened PipelineLatches
  import opened Assn4Units
  import opened Assn4Pipeline

  /** The states between the stages of one successful cycle. */
  lemma Stages(p: Pipe) returns (p1: Pipe, p2: Pipe, p4: Pipe)
    requires PipeShape(p) && Cycle(p).Some?
    ensures p1 == WriteBackStage(p.(cycle := NextCycle(p.cycle))) && PipeShape(p1)
    ensures MemoryStage(p1) == Some(p2) && PipeShape(p2)
    ensures DecodeStage(ExecuteStage(p2)) == Some(p4) && FetchStage(p4) == Cycle(p)
  {
    p1 := WriteBackStage(p.(cycle := NextCycle(p.cycle)));
    p2 := MemoryStage(p1).value;
    p4 := DecodeStage(ExecuteStage(p2)).value;
  }

  /** The instruction in EX loads into a register the instruction in ID names as rs or rt. */
  predicate LoadUse(p: Pipe)
  {
    var f := Decode(p.ifId.instr);
    p.idEx.ctrl.memRead && (p.idEx.rt == f.rs || p.idEx.rt == f.rt)
  }

  /** The hazard unit's decision in a cycle, from what EX publishes about the latch before the cycle. */
  lemma {:induction false} HazardDecision(p: Pipe) returns (p4: Pipe)
    requires PipeShape(p) && Cycle(p).Some?
    ensures FetchStage(p4) == Cycle(p) && p4.pc == p.pc && p4.ifId == p.ifId && p4.imem == p.imem
    ensures p4.mail.pcWrite == p4.mail.ifIdWrite == !LoadUse(p)
    ensures p4.mail.pcSrc == PCSrc(p.exMem) && p4.mail.branchTarget == p.exMem.branchTarget
    ensures var f := Decode(p.ifId.instr);
      && p4.idEx.ctrl == (if LoadUse(p) then NoSignals() else CpuUnits.Control(f.opcode).value)
      && p4.idEx.rs == f.rs && p4.idEx.rt == f.rt && p4.idEx.rd == f.rd && p4.idEx.pcPlus4 == p.ifId.pcPlus4
      && p4.idEx.immediate == CpuUnits.SignExtendBits(f.immediate, 32)
  {
    var p1, p2, p4' := Stages(p);
    p4 := p4';
    var e := ExecuteStage(p2);
    assert p1.idEx == p.idEx && p1.ifId == p.ifId && p1.exMem == p.exMem && p1.pc == p.pc;
    assert p2.idEx == p.idEx && p2.ifId == p.ifId && p2.pc == p.pc;
    assert e.mail.exMemRead == p.idEx.ctrl.memRead && e.mail.exRt == p.idEx.rt;
    assert e.mail.pcSrc == PCSrc(p.exMem) && e.mail.branchTarget == p.exMem.branchTarget;
  }

  /**
   * A load-use hazard stalls: the PC and IF/ID keep their values, and the
   * instruction in ID enters ID/EX as a bubble, every control cleared,
   * while its register numbers, PC + 4 and immediate are written as usual.
   */
  lemma {:induction false} StallHolds(p: Pipe)
    requires PipeShape(p) && Cycle(p).Some? && LoadUse(p)
    ensures var q, f := Cycle(p).value, Decode(p.ifId.instr);
      && q.pc == p.pc && q.ifId == p.ifId && q.idEx.ctrl == NoSignals()
      && q.idEx.rs == f.rs && q.idEx.rt == f.rt && q.idEx.rd == f.rd && q.idEx.pcPlus4 == p.ifId.pcPlus4
      && q.idEx.immediate == CpuUnits.SignExtendBits(f.immediate, 32)
  {
    var p4 := HazardDecision(p);
  }

  /**
   * Exactly one bubble per load-use: the bubble carries MemRead clear into
   * ID/EX, so in the next cycle the instruction held in IF/ID is decoded
   * again without a second stall.
   */
  lemma {:induction false} OneBubble(p: Pipe)
    requires PipeShape(p) && Cycle(p).Some? && LoadUse(p)
    ensures !LoadUse(Cycle(p).value) && Cycle(p).value.ifId == p.ifId
  {
    StallHolds(p);
  }

  /**
   * The PC rule: held on a load-use stall, even over a taken branch; the
   * branch target when MEM found Branch AND zero; PC + 4 otherwise.
   * Without a stall IF/ID holds the instruction at the new PC and the new
   * PC + 4, and ID/EX the controls of the instruction decoded.
   */
  lemma {:induction false} NextPcRule(p: Pipe)
    requires PipeShape(p) && Cycle(p).Some?
    ensures var q := Cycle(p).value;
      q.pc == (if LoadUse(p) then p.pc else if p.exMem.branch && p.exMem.aluZero then p.exMem.branchTarget else AddBits(p.pc, Four()))
    ensures var q := Cycle(p).value;
      !LoadUse(p) ==> q.ifId == IfId(AddBits(q.pc, Four()), WordAt(p.imem, Value(q.pc), LittleEndian))
    ensures var q := Cycle(p).value;
      !LoadUse(p) ==> Some(q.idEx.ctrl) == CpuUnits.Control(Decode(p.ifId.instr).opcode)
  {
    var p4 := HazardDecision(p);
  }

  /**
   * The latches move one stage on: MEM/WB takes EX/MEM's ALU result, rd
   * and write-back controls; EX/MEM takes ID/EX's memory and write-back
   * controls, the destination RegDst chooses and the branch target PC + 4
   * plus the immediate shifted left by two.
   */
  lemma {:induction false} LatchesAdvance(p: Pipe)
    requires PipeShape(p) && Cycle(p).Some?
    ensures var q := Cycle(p).value;
      && q.memWb.aluResult == p.exMem.aluResult && q.memWb.rd == p.exMem.rd
      && q.memWb.regWrite == p.exMem.regWrite && q.memWb.memToReg == p.exMem.memToReg
    ensures var q, l := Cycle(p).value, p.idEx;
      && q.exMem.branch == l.ctrl.branch && q.exMem.memRead == l.ctrl.memRead && q.exMem.memWrite == l.ctrl.memWrite
      && q.exMem.regWrite == l.ctrl.regWrite && q.exMem.memToReg == l.ctrl.memToReg
      && q.exMem.rd == (if l.ctrl.regDst then l.rd else l.rt)
      && q.exMem.branchTarget == AddBits(l.pcPlus4, CpuUnits.ShiftLeft2Bits(l.immediate))
  {
    var p1, p2, p4 := Stages(p);
    assert p1.exMem == p.exMem && p1.idEx == p.idEx;
    assert p2.idEx == p.idEx;
    assert p4.memWb == p2.memWb && p4.exMem == ExecuteStage(p2).exMem;
  }

  /**
   * MEM reads the word at the ALU result into MEM/WB for a load (readData
   * keeps its value otherwise) and stores readData2 there for a store.
   */
  lemma {:induction false} MemoryAccessEffect(p: Pipe)
    requires PipeShape(p) && Cycle(p).Some?
    ensures var q, l := Cycle(p).value, p.exMem;
      q.memWb.readData == if l.memRead then WordAt(p.dmem, Value(l.aluResult), LittleEndian) else p.memWb.readData
    ensures var q, l := Cycle(p).value, p.exMem;
      q.dmem == if l.memWrite then StoreWord(p.dmem, Value(l.aluResult), l.readData2, LittleEndian) else p.dmem
  {
    var p1, p2, p4 := Stages(p);
    assert p1.exMem == p.exMem && p1.dmem == p.dmem && p1.memWb == p.memWb;
    assert p4.memWb == p2.memWb && p4.dmem == p2.dmem;
  }

  /**
   * WB runs before ID: ID/EX's register values are the registers after
   * this cycle's write-back, so a value written back to the register ID
   * reads arrives at once, and otherwise ID reads the register as it was.
   */
  lemma {:induction false} WriteBackBeforeDecode(p: Pipe)
    requires PipeShape(p) && Cycle(p).Some?
    ensures var q, f, w := Cycle(p).value, Decode(p.ifId.instr), p.memWb;
      w.regWrite && Index(w.rd) != 0 && Index(f.rs) == Index(w.rd) ==> q.idEx.readData1 == WriteBackData(w)
    ensures var q, f, w := Cycle(p).value, Decode(p.ifId.instr), p.memWb;
      w.regWrite && Index(w.rd) != 0 && Index(f.rt) == Index(w.rd) ==> q.idEx.readData2 == WriteBackData(w)
    ensures var q, f, w := Cycle(p).value, Decode(p.ifId.instr), p.memWb;
      !(w.regWrite && Index(f.rs) == Index(w.rd)) ==> q.idEx.readData1 == p.regs[Index(f.rs)]
    ensures var q, f, w := Cycle(p).value, Decode(p.ifId.instr), p.memWb;
      !(w.regWrite && Index(f.rt) == Index(w.rd)) ==> q.idEx.readData2 == p.regs[Index(f.rt)]
  {
    var p1, p2, p4 := Stages(p);
    var f := Decode(p.ifId.instr);
    var e := ExecuteStage(p2);
    assert p2.regs == p1.regs && p2.ifId == p.ifId && e.regs == p1.regs && e.ifId == p.ifId;
    assert p4.idEx.readData1 == p1.regs[Index(f.rs)] && p4.idEx.readData2 == p1.regs[Index(f.rt)];
  }

  /**
   * The most recent value of register r for the instruction in EX: the ALU
   * result of the instruction one ahead (in MEM) when it writes r, else
   * the write-back value of the one two ahead (in WB) when it writes r,
   * else v, the value ID read.  Writes to $0 are never forwarded.
   */
  function Latest(p: Pipe, r: Bits5, v: Word): Word
  {
    if p.exMem.regWrite && Index(p.exMem.rd) != 0 && p.exMem.rd == r then p.exMem.aluResult
    else if p.memWb.regWrite && Index(p.memWb.rd) != 0 && p.memWb.rd == r then WriteBackData(p.memWb)
    else v
  }

  /**
   * The ALU output of the instruction in ID/EX on the latest values: rs
   * with the immediate (ALUSrc) or rt, under ALUControl of ALUOp and the
   * immediate's low six bits, the old result for a code the ALU does not know.
   */
  function LatestAluResult(p: Pipe): Word
  {
    var l := p.idEx;
    CpuUnits.AluResult(Latest(p, l.rs, l.readData1), if l.ctrl.aluSrc then l.immediate else Latest(p, l.rt, l.readData2),
                       CpuUnits.ALUControl(l.ctrl.aluOp, l.immediate[0..6], Zeros(4)), p.exMem.aluResult)
  }

  /** The forwarded operands of the cycle's EX, from the forwarding unit and the 3-to-1 multiplexers. */
  lemma {:induction false} ForwardedOperands(p: Pipe, p2: Pipe)
    requires PipeShape(p) && MemoryStage(WriteBackStage(p.(cycle := NextCycle(p.cycle)))) == Some(p2)
    ensures var l, e := p.idEx, ExecuteStage(p2);
      e.exMem.readData2 == Latest(p, l.rt, l.readData2) && e.exMem.aluResult == LatestAluResult(p)
  {
    var l := p.idEx;
    var p1 := WriteBackStage(p.(cycle := NextCycle(p.cycle)));
    assert p2.idEx == l && p2.exMem == p.exMem;
    var mem, wb := p2.mail.mem, p2.mail.wb;
    assert mem == MemPort(p.exMem) && wb == WbPort(p.memWb);
    ForwardedOperand(l.rs, l.readData1, mem, wb);
    ForwardedOperand(l.rt, l.readData2, mem, wb);
  }

  /**
   * EX works on the most recent register values: EX/MEM's readData2 is the
   * latest rt, and the ALU combines the latest rs with the immediate or the
   * latest rt, keeping the old result for a code it does not know.
   */
  lemma {:induction false} ExecuteForwards(p: Pipe)
    requires PipeShape(p) && Cycle(p).Some?
    ensures var l, q := p.idEx, Cycle(p).value;
      q.exMem.readData2 == Latest(p, l.rt, l.readData2) && q.exMem.aluResult == LatestAluResult(p)
  {
    var p1, p2, p4 := Stages(p);
    ForwardedOperands(p, p2);
    assert p4.exMem == ExecuteStage(p2).exMem;
  }

  /**
   * A beq in EX (ALUOp 1, no ALUSrc) compares the latest values of its two
   * registers: the zero flag MEM tests next cycle is set exactly when they
   * are equal.
   */
  lemma {:induction false} BranchComparesLatest(p: Pipe)
    requires PipeShape(p) && Cycle(p).Some? && Value(p.idEx.ctrl.aluOp) == 1 && !p.idEx.ctrl.aluSrc
    ensures var l := p.idEx;
      Cycle(p).value.exMem.aluZero <==> Latest(p, l.rs, l.readData1) == Latest(p, l.rt, l.readData2)
  {
    var l := p.idEx;
    var a, b := Latest(p, l.rs, l.readData1), Latest(p, l.rt, l.readData2);
    ExecuteForwards(p);
    assert Cycle(p).value.exMem.aluResult == CpuUnits.SubBits(a, b);
    CpuUnits.SubZeroIffEqual(a, b);
  }

  /**
   * The mailboxes carry values only within a cycle: every one is written
   * before it is read, so the cycle does not depend on the values they
   * held before it.
   */
  lemma {:induction false} MailboxesTransient(p: Pipe, m: Mailboxes)
    requires PipeShape(p)
    ensures Cycle(p.(mail := m)) == Cycle(p)
  {
    var c := NextCycle(p.cycle);
    var p1 := WriteBackStage(p.(cycle := c));
    WriteBackMail(p.(cycle := c), m);
    var m1 := m.(wb := p1.mail.wb);
    assert WriteBackStage(p.(mail := m).(cycle := c)) == p1.(mail := m1);
    CycleAfterWriteBack(p);
    CycleAfterWriteBack(p.(mail := m));
    AfterWriteBackMail(p1, m1);
  }

  /** The stages after WB, from the state WB leaves. */
  function AfterWriteBack(p1: Pipe): Option<Pipe>
    requires PipeShape(p1)
  {
    match MemoryStage(p1)
    case None => None
    case Some(p2) => AfterDecode(DecodeStage(ExecuteStage(p2)))
  }

  /** IF after a successful ID. */
  function AfterDecode(d: Option<Pipe>): Option<Pipe>
    requires d.Some? ==> PipeShape(d.value)
  {
    match d
    case None => None
    case Some(p4) => FetchStage(p4)
  }

  /** A cycle is WB followed by the stages after it. */
  lemma CycleAfterWriteBack(p: Pipe)
    requires PipeShape(p)
    ensures Cycle(p) == AfterWriteBack(WriteBackStage(p.(cycle := NextCycle(p.cycle))))
  {
  }

  /** After WB, MEM overwrites what EX reads and EX what ID reads, so the rest of the cycle is the same. */
  lemma AfterWriteBackMail(p1: Pipe, m1: Mailboxes)
    requires PipeShape(p1) && m1.wb == p1.mail.wb
    ensures AfterWriteBack(p1.(mail := m1)) == AfterWriteBack(p1)
  {
    var access := DataAccess(p1.dmem, p1.exMem, p1.memWb.readData);
    var mail := p1.mail.(mem := MemPort(p1.exMem), pcSrc := PCSrc(p1.exMem), branchTarget := p1.exMem.branchTarget);
    var m2 := m1.(mem := MemPort(p1.exMem), pcSrc := PCSrc(p1.exMem), branchTarget := p1.exMem.branchTarget);
    MemoryStageAccess(p1, mail, access);
    MemoryStageAccess(p1.(mail := m1), m2, access);
    if access.Some? {
      var p2 := MemoryStage(p1).value;
      assert MemoryStage(p1.(mail := m1)) == Some(p2.(mail := m2));
      AfterMemoryMail(p2, m2);
    }
  }

  /** With the forwarding ports MEM and WB filled, EX and ID do not depend on the other mailboxes. */
  lemma AfterMemoryMail(p2: Pipe, m2: Mailboxes)
    requires PipeShape(p2) && m2.mem == p2.mail.mem && m2.wb == p2.mail.wb
    requires m2.pcSrc == p2.mail.pcSrc && m2.branchTarget == p2.mail.branchTarget
    ensures DecodeStage(ExecuteStage(p2.(mail := m2))) == DecodeStage(ExecuteStage(p2))
  {
    var e := ExecuteStage(p2);
    ExecuteMail(p2, m2);
    var m := m2.(exMemRead := e.mail.exMemRead, exRt := e.mail.exRt);
    assert m == e.mail.(pcWrite := m.pcWrite, ifIdWrite := m.ifIdWrite);
    DecodeMail(e, m);
  }

  /** WB overwrites the WB forwarding port and reads no mailbox. */
  lemma WriteBackMail(a: Pipe, m: Mailboxes)
    requires PipeShape(a)
    ensures WriteBackStage(a.(mail := m)) == WriteBackStage(a).(mail := m.(wb := WbPort(a.memWb)))
  {
  }

  /** MEM overwrites the MEM forwarding port, PCSrc and the branch target, and reads no mailbox. */
  lemma MemoryMail(a: Pipe, m: Mailboxes)
    requires PipeShape(a) && MemoryStage(a).Some?
    ensures MemoryStage(a.(mail := m))
      == Some(MemoryStage(a).value.(mail := m.(mem := MemPort(a.exMem), pcSrc := PCSrc(a.exMem), branchTarget := a.exMem.branchTarget)))
  {
  }

  /** EX reads only the two forwarding ports, and overwrites MemRead and rt for the hazard unit. */
  lemma ExecuteMail(a: Pipe, m: Mailboxes)
    requires m.mem == a.mail.mem && m.wb == a.mail.wb
    ensures ExecuteStage(a.(mail := m)) == ExecuteStage(a).(mail := m.(exMemRead := a.idEx.ctrl.memRead, exRt := a.idEx.rt))
  {
  }

  /** ID reads only MemRead and rt from EX, and overwrites PCWrite and IFIDWrite. */
  lemma DecodeMail(a: Pipe, m: Mailboxes)
    requires PipeShape(a) && m == a.mail.(pcWrite := m.pcWrite, ifIdWrite := m.ifIdWrite)
    ensures DecodeStage(a.(mail := m)) == DecodeStage(a)
  {
  }

  /**
   * The first cycle after the constructor neither stalls, branches nor
   * forwards: the PC advances by 4 to the first instruction, no register
   * or memory byte changes, nothing is published for forwarding, and
   * EX/MEM and MEM/WB leave without controls.  It fails only when the
   * fetch leaves the instruction memory.
   */
  lemma FirstCycle(pc: Word, regs: seq<Word>, imem: seq<Byte>, dmem: seq<Byte>)
    requires |regs| == 32
    ensures Cycle(Initial(pc, regs, imem, dmem)).Some? <==> Value(AddBits(pc, Four())) + 3 < |imem|
    ensures Cycle(Initial(pc, regs, imem, dmem)).Some? ==>
      var q := Cycle(Initial(pc, regs, imem, dmem)).value;
      && q.pc == AddBits(pc, Four()) && q.ifId.instr == WordAt(imem, Value(q.pc), LittleEndian)
      && q.regs == regs && q.dmem == dmem && !q.mail.mem.regWrite && !q.mail.wb.regWrite
      && !q.memWb.regWrite && !q.exMem.regWrite && !q.exMem.memRead && !q.exMem.memWrite && !q.exMem.branch
  {
    var p := Initial(pc, regs, imem, dmem);
    var p2 := InitialMemoryStage(pc, regs, imem, dmem);
    var e := ExecuteStage(p2);
    assert e.ifId.instr == ZERO_WORD && !e.mail.exMemRead;
    ZeroInstructionDecodes();
    var p4 := DecodeStage(e).value;
    assert p4 == e.(idEx := p4.idEx, mail := p4.mail) && p4.mail.pcWrite && p4.mail.ifIdWrite;
    CycleThrough(p, p2);
  }

  /** WB and MEM of the first cycle change only the counter and the mailboxes, which publish no write and no branch. */
  lemma InitialMemoryStage(pc: Word, regs: seq<Word>, imem: seq<Byte>, dmem: seq<Byte>) returns (p2: Pipe)
    requires |regs| == 32
    ensures var p := Initial(pc, regs, imem, dmem);
      && MemoryStage(WriteBackStage(p.(cycle := NextCycle(p.cycle)))) == Some(p2)
      && p2 == p.(cycle := 1, mail := p2.mail)
      && !p2.mail.mem.regWrite && !p2.mail.wb.regWrite && !p2.mail.pcSrc
  {
    var p := Initial(pc, regs, imem, dmem);
    var p1 := WriteBackStage(p.(cycle := NextCycle(p.cycle)));
    assert p1 == p.(cycle := 1, mail := p1.mail);
    p2 := MemoryStage(p1).value;
  }
}
