/**
 * The assn4 five-stage pipelined CPU: the assn3 pipeline with a forwarding
 * unit in EX, load-use hazard detection in ID and the branch multiplexer
 * moved into IF.  The stages still run WB, MEM, EX, ID, IF within a cycle,
 * so a downstream stage hands values upstream through mailbox fields it
 * fills before the upstream stage reads them: MEM and WB publish what
 * they write for the forwarding unit, EX publishes MemRead and rt for the
 * hazard detection unit, which publishes PCWrite and IFIDWrite for IF, and
 * MEM publishes PCSrc and the branch target for IF.
 *
 * The two feature flags are stored but never read: forwarding and hazard
 * detection are always on.  The register file and memories are the assn3
 * ones, so WB writes to $0 are dropped by the register file.
 */
module Assn4Pipeline {
  import opened Bitset
  import opened Mips
  import opened ByteMemory
  import CpuUnits
  import Assn3Storage
  import opened PipelineLatches
  import opened Assn4Units

  /** The ID/EX latch: the eight controls, PC + 4, both register values, the extended immediate, rs, rt and rd. */
  datatype IdEx = IdEx(pcPlus4: Word, readData1: Word, readData2: Word, immediate: Word,
                       rs: Bits5, rt: Bits5, rd: Bits5, ctrl: Signals)

  /** The ID/EX latch after the constructor: every field cleared. */
  function InitialIdEx(): (l: IdEx)
    ensures l.ctrl == NoSignals() && NoneSet(l.readData1) && NoneSet(l.readData2) && NoneSet(l.immediate)
  {
    IdEx(ZERO_WORD, ZERO_WORD, ZERO_WORD, ZERO_WORD, ZERO_REG, ZERO_REG, ZERO_REG, NoSignals())
  }

  /** The mailbox fields, as one value: the forwarding ports of MEM and WB, EX's MemRead and rt, the hazard unit's outputs and MEM's branch decision. */
  datatype Mailboxes = Mailboxes(mem: FwdPort, wb: FwdPort, exMemRead: bool, exRt: Bits5,
                                 pcWrite: bool, ifIdWrite: bool, pcSrc: bool, branchTarget: Word)

  /** The mailboxes' initializers: RegWrite, MemRead and PCSrc clear, PCWrite and IFIDWrite set, the rest default-cleared. */
  function InitialMailboxes(): (m: Mailboxes)
    ensures !m.mem.regWrite && !m.wb.regWrite && !m.exMemRead && !m.pcSrc && m.pcWrite && m.ifIdWrite
  {
    Mailboxes(FwdPort(false, ZERO_REG, ZERO_WORD), FwdPort(false, ZERO_REG, ZERO_WORD), false, ZERO_REG,
              true, true, false, ZERO_WORD)
  }

  /** The state of the pipelined CPU: PC, latches, mailboxes, registers, both memories and the cycle counter. */
  datatype Pipe = Pipe(pc: Word, ifId: IfId, idEx: IdEx, exMem: ExMem, memWb: MemWb, mail: Mailboxes,
                       regs: seq<Word>, imem: seq<Byte>, dmem: seq<Byte>, cycle: nat)

  ghost predicate PipeShape(p: Pipe)
  {
    |p.regs| == 32
  }

  /** The state the constructor builds: every latch cleared and the mailboxes at their initializers. */
  function Initial(pc: Word, regs: seq<Word>, imem: seq<Byte>, dmem: seq<Byte>): (p: Pipe)
    requires |regs| == 32
    ensures PipeShape(p) && p.pc == pc && p.cycle == 0 && p.regs == regs && p.imem == imem && p.dmem == dmem
    ensures p.idEx.ctrl == NoSignals() && !p.exMem.regWrite && !p.exMem.memRead && !p.exMem.memWrite && !p.exMem.branch
    ensures !p.memWb.regWrite && NoneSet(p.ifId.instr) && p.mail == InitialMailboxes()
  {
    Pipe(pc, InitialIfId(), InitialIdEx(), InitialExMem(), InitialMemWb(), InitialMailboxes(), regs, imem, dmem, 0)
  }

  /** What MEM publishes from the EX/MEM latch: RegWrite, rd and the ALU result. */
  function MemPort(l: ExMem): FwdPort
  {
    FwdPort(l.regWrite, l.rd, l.aluResult)
  }

  /** What WB publishes from the MEM/WB latch: RegWrite, rd and the write-back value. */
  function WbPort(l: MemWb): FwdPort
  {
    FwdPort(l.regWrite, l.rd, WriteBackData(l))
  }

  /**
   * WB: publishes RegWrite, rd and the write-back value, then writes the
   * value to rd when RegWrite is set; the register file drops a write to
   * $0.
   */
  function WriteBackStage(p: Pipe): (q: Pipe)
    requires PipeShape(p)
    ensures PipeShape(q) && q == p.(regs := q.regs, mail := q.mail) && q.regs[0] == p.regs[0]
    ensures q.mail == p.mail.(wb := WbPort(p.memWb))
    ensures p.memWb.regWrite && Index(p.memWb.rd) != 0 ==> q.regs[Index(p.memWb.rd)] == WriteBackData(p.memWb)
    ensures forall i :: 0 <= i < 32 && !(p.memWb.regWrite && i == Index(p.memWb.rd)) ==> q.regs[i] == p.regs[i]
  {
    var p1 := p.(mail := p.mail.(wb := WbPort(p.memWb)));
    if p.memWb.regWrite && Index(p.memWb.rd) != 0 then p1.(regs := p.regs[Index(p.memWb.rd) := WriteBackData(p.memWb)])
    else p1
  }

  /**
   * MEM: publishes RegWrite, rd and the ALU result for forwarding and
   * Branch AND zero with the branch target for IF, then accesses the data
   * memory and fills MEM/WB as in assn3.  The PC is left to IF.  None when
   * both MemRead and MemWrite are set or the access leaves the memory.
   */
  function MemoryStage(p: Pipe): (r: Option<Pipe>)
    requires PipeShape(p)
    ensures r.Some? <==> !(p.exMem.memRead && p.exMem.memWrite)
                         && ((p.exMem.memRead || p.exMem.memWrite) ==> Value(p.exMem.aluResult) + 3 < |p.dmem|)
    ensures r.Some? ==> PipeShape(r.value) && |r.value.dmem| == |p.dmem|
    ensures r.Some? ==> r.value == p.(mail := r.value.mail, dmem := r.value.dmem, memWb := r.value.memWb)
    ensures r.Some? ==> r.value.mail == p.mail.(mem := MemPort(p.exMem), pcSrc := PCSrc(p.exMem), branchTarget := p.exMem.branchTarget)
    ensures r.Some? ==> r.value.memWb.rd == p.exMem.rd && r.value.memWb.aluResult == p.exMem.aluResult
    ensures r.Some? ==> r.value.memWb.regWrite == p.exMem.regWrite && r.value.memWb.memToReg == p.exMem.memToReg
    ensures r.Some? ==> r.value.memWb.readData
                        == if p.exMem.memRead then WordAt(p.dmem, Value(p.exMem.aluResult), LittleEndian) else p.memWb.readData
    ensures r.Some? ==> r.value.dmem
                        == if p.exMem.memWrite then StoreWord(p.dmem, Value(p.exMem.aluResult), p.exMem.readData2, LittleEndian) else p.dmem
  {
    var l := p.exMem;
    var mail := p.mail.(mem := MemPort(l), pcSrc := PCSrc(l), branchTarget := l.branchTarget);
    match DataAccess(p.dmem, l, p.memWb.readData)
    case None => None
    case Some(access) =>
      Some(p.(mail := mail, dmem := access.dmem, memWb := MemWb(access.readData, l.aluResult, l.rd, l.regWrite, l.memToReg)))
  }

  /**
   * EX: publishes MemRead and rt for the hazard unit; the forwarding unit
   * picks each operand from ID/EX, the published WB value or the published
   * MEM ALU result; then the assn3 datapath runs on the forwarded operands,
   * and EX/MEM's readData2 is the forwarded rt value.
   */
  function ExecuteStage(p: Pipe): (q: Pipe)
    ensures q == p.(exMem := q.exMem, mail := q.mail)
    ensures q.mail == p.mail.(exMemRead := p.idEx.ctrl.memRead, exRt := p.idEx.rt)
    ensures var c := p.idEx.ctrl;
      && q.exMem.branch == c.branch && q.exMem.memRead == c.memRead && q.exMem.memWrite == c.memWrite
      && q.exMem.regWrite == c.regWrite && q.exMem.memToReg == c.memToReg
    ensures q.exMem.rd == (if p.idEx.ctrl.regDst then p.idEx.rd else p.idEx.rt)
    ensures q.exMem.branchTarget == AddBits(p.idEx.pcPlus4, CpuUnits.ShiftLeft2Bits(p.idEx.immediate))
    ensures q.exMem.aluZero <==> NoneSet(q.exMem.aluResult)
  {
    var l := p.idEx;
    var mail := p.mail.(exMemRead := l.ctrl.memRead, exRt := l.rt);
    var fw := ForwardingUnit(l.rs, l.rt, p.exMem.regWrite, p.exMem.rd, p.memWb.regWrite, p.memWb.rd, mail.mem, mail.wb);
    var rsValue := Mux3(l.readData1, mail.wb.rdValue, mail.mem.rdValue, fw.forwardA).value;
    var rtValue := Mux3(l.readData2, mail.wb.rdValue, mail.mem.rdValue, fw.forwardB).value;
    var rd := CpuUnits.Mux(l.rt, l.rd, l.ctrl.regDst);
    var aluInput2 := CpuUnits.Mux(rtValue, l.immediate, l.ctrl.aluSrc);
    var control := CpuUnits.ALUControl(l.ctrl.aluOp, l.immediate[0..6], Zeros(4));
    var result := CpuUnits.AluResult(rsValue, aluInput2, control, p.exMem.aluResult);
    var target := AddBits(l.pcPlus4, CpuUnits.ShiftLeft2Bits(l.immediate));
    p.(mail := mail, exMem := ExecutedLatch(l.ctrl, target, result, rtValue, rd))
  }

  /**
   * ID: decodes the IF/ID instruction; the hazard unit compares its rs and
   * rt with what EX published and publishes PCWrite and IFIDWrite; on a
   * stall every control written to ID/EX is cleared (a bubble), while the
   * data fields are written as usual.  None for an opcode Control rejects.
   */
  function DecodeStage(p: Pipe): (r: Option<Pipe>)
    requires PipeShape(p)
    ensures r.Some? <==> CpuUnits.Control(Decode(p.ifId.instr).opcode).Some?
    ensures r.Some? ==> r.value == p.(idEx := r.value.idEx, mail := r.value.mail)
    ensures r.Some? ==> var h := HazardDetectionUnit(Decode(p.ifId.instr).rs, Decode(p.ifId.instr).rt, p.mail.exMemRead, p.mail.exRt);
      r.value.mail == p.mail.(pcWrite := h.pcWrite, ifIdWrite := h.ifIdWrite)
    ensures r.Some? ==> var f, l := Decode(p.ifId.instr), r.value.idEx;
      var h := HazardDetectionUnit(f.rs, f.rt, p.mail.exMemRead, p.mail.exRt);
      && l.ctrl == (if h.ctrlSelect then NoSignals() else CpuUnits.Control(f.opcode).value)
      && l.readData1 == p.regs[Index(f.rs)] && l.readData2 == p.regs[Index(f.rt)] && l.pcPlus4 == p.ifId.pcPlus4
      && l.immediate == CpuUnits.SignExtendBits(f.immediate, 32) && l.rs == f.rs && l.rt == f.rt && l.rd == f.rd
  {
    var f := Decode(p.ifId.instr);
    var h := HazardDetectionUnit(f.rs, f.rt, p.mail.exMemRead, p.mail.exRt);
    match CpuUnits.Control(f.opcode)
    case None => None
    case Some(s) =>
      Some(p.(mail := p.mail.(pcWrite := h.pcWrite, ifIdWrite := h.ifIdWrite),
              idEx := IdEx(p.ifId.pcPlus4, p.regs[Index(f.rs)], p.regs[Index(f.rt)], CpuUnits.SignExtendBits(f.immediate, 32),
                           f.rs, f.rt, f.rd, if h.ctrlSelect then NoSignals() else s)))
  }

  /** IF's new PC: PC + 4 or the published branch target (PCSrc), and the old PC when PCWrite is clear. */
  function NextPc(pc: Word, mail: Mailboxes): (next: Word)
    ensures !mail.pcWrite ==> next == pc
    ensures mail.pcWrite && mail.pcSrc ==> next == mail.branchTarget
    ensures mail.pcWrite && !mail.pcSrc ==> next == AddBits(pc, Four())
  {
    CpuUnits.Mux(pc, CpuUnits.Mux(AddBits(pc, Four()), mail.branchTarget, mail.pcSrc), mail.pcWrite)
  }

  /**
   * IF: the PC moves to NextPc; when IFIDWrite is set the instruction at
   * the new PC and the new PC + 4 go to IF/ID, otherwise IF/ID keeps its
   * instruction.  None when a fetch lies past the instruction memory.
   */
  function FetchStage(p: Pipe): (r: Option<Pipe>)
    ensures r.Some? <==> (p.mail.ifIdWrite ==> Value(NextPc(p.pc, p.mail)) + 3 < |p.imem|)
    ensures r.Some? ==> r.value == p.(pc := r.value.pc, ifId := r.value.ifId) && r.value.pc == NextPc(p.pc, p.mail)
    ensures r.Some? && !p.mail.ifIdWrite ==> r.value.ifId == p.ifId
    ensures r.Some? && p.mail.ifIdWrite ==>
      r.value.ifId == IfId(AddBits(r.value.pc, Four()), WordAt(p.imem, Value(r.value.pc), LittleEndian))
  {
    var pc := NextPc(p.pc, p.mail);
    if !p.mail.ifIdWrite then Some(p.(pc := pc))
    else if Value(pc) + 3 >= |p.imem| then None
    else Some(p.(pc := pc, ifId := IfId(AddBits(pc, Four()), WordAt(p.imem, Value(pc), LittleEndian))))
  }

  /**
   * One clock cycle: the counter advances, then WB, MEM, EX, ID and IF run
   * in that order; None when a stage aborts or leaves a memory.  The stage
   * order is the assn3 pipeline's (`Assn3Pipeline.Cycle`), here over the
   * assn4 state with its mailboxes.
   */
  function Cycle(p: Pipe): (r: Option<Pipe>)
    requires PipeShape(p)
    ensures r.Some? ==> PipeShape(r.value) && r.value.imem == p.imem && |r.value.dmem| == |p.dmem|
    ensures r.Some? ==> r.value.cycle == NextCycle(p.cycle) && r.value.regs[0] == p.regs[0]
  {
    var p1 := WriteBackStage(p.(cycle := NextCycle(p.cycle)));
    match MemoryStage(p1)
    case None => None
    case Some(p2) =>
      match DecodeStage(ExecuteStage(p2))
      case None => None
      case Some(p4) => FetchStage(p4)
  }

  /** MEM in terms of the data access it makes and the mailboxes it fills. */
  lemma MemoryStageAccess(p: Pipe, mail: Mailboxes, access: Option<Accessed>)
    requires PipeShape(p) && access == DataAccess(p.dmem, p.exMem, p.memWb.readData)
    requires mail == p.mail.(mem := MemPort(p.exMem), pcSrc := PCSrc(p.exMem), branchTarget := p.exMem.branchTarget)
    ensures MemoryStage(p).Some? <==> access.Some?
    ensures access.Some? ==>
      MemoryStage(p).value == p.(mail := mail, dmem := access.value.dmem,
                                 memWb := MemWb(access.value.readData, p.exMem.aluResult, p.exMem.rd, p.exMem.regWrite, p.exMem.memToReg))
  {
  }

  /** A cycle whose MEM and ID stages succeed ends with the IF stage. */
  lemma CycleThrough(p: Pipe, p2: Pipe)
    requires PipeShape(p) && MemoryStage(WriteBackStage(p.(cycle := NextCycle(p.cycle)))) == Some(p2)
    requires PipeShape(p2) && DecodeStage(ExecuteStage(p2)).Some?
    ensures Cycle(p) == FetchStage(DecodeStage(ExecuteStage(p2)).value)
  {
  }

  class PipelinedCPU {
    var pc: Word
    var cycle: nat
    var ifId: IfId
    var idEx: IdEx
    var exMem: ExMem
    var memWb: MemWb
    /** The mailbox fields the stages fill for one another. */
    var mail: Mailboxes
    /** Stored by the constructor; no stage reads them. */
    const enableDataForwarding: bool
    const enableHazardDetection: bool
    const regFile: Assn3Storage.RegisterFile
    const instMemory: Assn3Storage.Memory
    const dataMemory: Assn3Storage.Memory

    ghost predicate Valid()
      reads this, regFile, instMemory, dataMemory
    {
      && regFile.Valid()
      && instMemory.endianness == LittleEndian && dataMemory.endianness == LittleEndian
      && instMemory.bytes != dataMemory.bytes
    }

    /** The state this CPU holds. */
    ghost function State(): (p: Pipe)
      requires Valid()
      reads this, regFile, regFile.regs, instMemory, instMemory.bytes, dataMemory, dataMemory.bytes
      ensures PipeShape(p)
    {
      Pipe(pc, ifId, idEx, exMem, memWb, mail, regFile.regs[..], instMemory.bytes[..], dataMemory.bytes[..], cycle)
    }

    /** The CPU base state (PC, register file, memories, counter at zero), the two flags, cleared latches and the mailbox initializers. */
    constructor (initialPC: Word, regs: seq<Word>, imem: seq<Byte>, dmem: seq<Byte>,
                 enableDataForwarding: bool, enableHazardDetection: bool)
      requires |regs| == 32 && |imem| == MEMORY_SIZE && |dmem| == MEMORY_SIZE
      ensures Valid() && fresh(regFile) && fresh(regFile.regs) && fresh(instMemory) && fresh(instMemory.bytes)
      ensures fresh(dataMemory) && fresh(dataMemory.bytes)
      ensures this.enableDataForwarding == enableDataForwarding && this.enableHazardDetection == enableHazardDetection
      ensures State() == Initial(initialPC, regs[0 := Zeros(32)], imem, dmem)
    {
      pc := initialPC;
      cycle := 0;
      regFile := new Assn3Storage.RegisterFile(regs);
      instMemory := new Assn3Storage.Memory(LittleEndian, imem);
      dataMemory := new Assn3Storage.Memory(LittleEndian, dmem);
      this.enableDataForwarding := enableDataForwarding;
      this.enableHazardDetection := enableHazardDetection;
      ifId := InitialIfId();
      idEx := InitialIdEx();
      exMem := InitialExMem();
      memWb := InitialMemWb();
      mail := InitialMailboxes();
    }

    /**
     * One clock cycle.  When no stage aborts or leaves a memory array, ok
     * is set and the new state is `Cycle` of the old one; after a failure
     * the state is not specified.
     */
    method AdvanceCycle() returns (ok: bool)
      requires Valid()
      modifies this, regFile.regs, instMemory.bytes, dataMemory.bytes
      ensures Valid()
      ensures ok <==> Cycle(old(State())).Some?
      ensures ok ==> State() == Cycle(old(State())).value
    {
      ghost var p := State();
      cycle := NextCycle(cycle);
      assert State() == p.(cycle := NextCycle(p.cycle));
      WriteBack();
      ghost var p1 := State();
      ok := MemoryAccess();
      if !ok {
        assert Cycle(p).None?;
        return;
      }
      ghost var p2 := State();
      assert MemoryStage(p1) == Some(p2);
      Execute();
      assert State() == ExecuteStage(p2);
      ok := InstructionDecode();
      if !ok {
        assert Cycle(p).None?;
        return;
      }
      ghost var p4 := State();
      assert DecodeStage(ExecuteStage(p2)) == Some(p4);
      CycleThrough(p, p2);
      ok := InstructionFetch();
    }

    /** WB: publishes RegWrite, rd and the write-back value, then a register-file write with the latch's RegWrite. */
    method WriteBack()
      requires Valid()
      modifies this, regFile.regs
      ensures Valid() && State() == WriteBackStage(old(State()))
    {
      var writeBackData := CpuUnits.Mux(memWb.aluResult, memWb.readData, memWb.memToReg);
      mail := mail.(wb := FwdPort(memWb.regWrite, memWb.rd, writeBackData));
      var _, _ := regFile.Access(None, None, Some(memWb.rd), Some(writeBackData), Some(memWb.regWrite), ZERO_WORD, ZERO_WORD);
    }

    /** MEM: publishes for the forwarding unit and for IF, then the data memory access and the MEM/WB latch. */
    method MemoryAccess() returns (ok: bool)
      requires Valid()
      modifies this, dataMemory.bytes
      ensures Valid()
      ensures ok <==> MemoryStage(old(State())).Some?
      ensures ok ==> State() == MemoryStage(old(State())).value
    {
      ghost var p := State();
      mail := mail.(mem := FwdPort(exMem.regWrite, exMem.rd, exMem.aluResult));
      mail := mail.(pcSrc := exMem.branch && exMem.aluZero, branchTarget := exMem.branchTarget);
      ghost var access := DataAccess(p.dmem, p.exMem, p.memWb.readData);
      var readData;
      ok, readData := AccessDataMemory();
      MemoryStageAccess(p, mail, access);
      if ok {
        memWb := MemWb(readData, exMem.aluResult, exMem.rd, exMem.regWrite, exMem.memToReg);
      }
    }

    /** The data memory access of MEM, with the EX/MEM latch's address, write data and flags. */
    method AccessDataMemory() returns (ok: bool, readData: Word)
      requires Valid()
      modifies dataMemory.bytes
      ensures Valid()
      ensures ok <==> DataAccess(old(dataMemory.bytes[..]), exMem, memWb.readData).Some?
      ensures ok ==> Accessed(readData, dataMemory.bytes[..]) == DataAccess(old(dataMemory.bytes[..]), exMem, memWb.readData).value
    {
      if (exMem.memRead || exMem.memWrite) && Value(exMem.aluResult) + 3 >= dataMemory.bytes.Length {
        return false, memWb.readData;
      }
      ok, readData := dataMemory.Access(exMem.aluResult, Some(exMem.readData2), exMem.memRead, Some(exMem.memWrite), memWb.readData);
    }

    /** EX: publishes for the hazard unit, forwards both operands, then the assn3 EX datapath on the forwarded values. */
    method Execute()
      requires Valid()
      modifies this
      ensures Valid() && State() == ExecuteStage(old(State()))
    {
      mail := mail.(exMemRead := idEx.ctrl.memRead, exRt := idEx.rt);
      var fw := ForwardingUnit(idEx.rs, idEx.rt, exMem.regWrite, exMem.rd, memWb.regWrite, memWb.rd, mail.mem, mail.wb);
      var rsValue := Mux3(idEx.readData1, mail.wb.rdValue, mail.mem.rdValue, fw.forwardA).value;
      var rtValue := Mux3(idEx.readData2, mail.wb.rdValue, mail.mem.rdValue, fw.forwardB).value;
      var rd := CpuUnits.Mux(idEx.rt, idEx.rd, idEx.ctrl.regDst);
      var aluInput2 := CpuUnits.Mux(rtValue, idEx.immediate, idEx.ctrl.aluSrc);
      var shifted := CpuUnits.ShiftLeft2(idEx.immediate);
      var funct := idEx.immediate[0..6];
      var aluControl := CpuUnits.ALUControl(idEx.ctrl.aluOp, funct, Zeros(4));
      var result, zero := CpuUnits.Alu(rsValue, aluInput2, aluControl, exMem.aluResult);
      var target := CpuUnits.Add(idEx.pcPlus4, shifted);
      exMem := ExMem(target, result, zero, rtValue, rd, idEx.ctrl.branch, idEx.ctrl.memRead,
                     idEx.ctrl.memWrite, idEx.ctrl.regWrite, idEx.ctrl.memToReg);
    }

    /** ID: decode, hazard detection, Control with the bubble multiplexers, the register read and sign extension. */
    method InstructionDecode() returns (ok: bool)
      requires Valid()
      modifies this, regFile.regs
      ensures Valid()
      ensures ok <==> DecodeStage(old(State())).Some?
      ensures ok ==> State() == DecodeStage(old(State())).value
    {
      var f := Decode(ifId.instr);
      var h := HazardDetectionUnit(f.rs, f.rt, mail.exMemRead, mail.exRt);
      mail := mail.(pcWrite := h.pcWrite, ifIdWrite := h.ifIdWrite);
      var signals := CpuUnits.Control(f.opcode);
      if signals.None? {
        return false;
      }
      var ctrl := CpuUnits.Mux(signals.value, NoSignals(), h.ctrlSelect);
      var readData1, readData2 := regFile.Access(Some(f.rs), Some(f.rt), None, None, None, idEx.readData1, idEx.readData2);
      var immediate := CpuUnits.SignExtend(f.immediate, 32);
      idEx := IdEx(ifId.pcPlus4, readData1, readData2, immediate, f.rs, f.rt, f.rd, ctrl);
      ok := true;
    }

    /** IF: PC + 4, the branch multiplexer, the PCWrite hold, then the fetch when IFIDWrite is set. */
    method InstructionFetch() returns (ok: bool)
      requires Valid()
      modifies this, instMemory.bytes
      ensures Valid()
      ensures ok <==> FetchStage(old(State())).Some?
      ensures ok ==> State() == FetchStage(old(State())).value
    {
      ghost var p := State();
      var nopPC := pc;
      pc := CpuUnits.Add(pc, Four());
      pc := CpuUnits.Mux(pc, mail.branchTarget, mail.pcSrc);
      pc := CpuUnits.Mux(nopPC, pc, mail.pcWrite);
      assert State() == p.(pc := NextPc(p.pc, p.mail));
      if mail.ifIdWrite {
        ok := FetchIntoLatch();
      } else {
        ok := true;
      }
    }

    /** The fetch at PC and PC + 4 into IF/ID, when IFIDWrite lets it happen. */
    method FetchIntoLatch() returns (ok: bool)
      requires Valid()
      modifies this, instMemory.bytes
      ensures Valid() && pc == old(pc)
      ensures ok <==> Value(pc) + 3 < |old(instMemory.bytes[..])|
      ensures ok ==> State() == old(State()).(ifId := IfId(AddBits(pc, Four()), WordAt(old(instMemory.bytes[..]), Value(pc), LittleEndian)))
    {
      if Value(pc) + 3 >= instMemory.bytes.Length {
        return false;
      }
      var _, instr := instMemory.Access(pc, None, true, Some(false), ifId.instr);
      var pcPlus4 := CpuUnits.Add(pc, Four());
      ifId := IfId(pcPlus4, instr);
      ok := true;
    }
  }
}
