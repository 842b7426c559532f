/**
 * The assn3 five-stage pipelined CPU: a PC, four latches, the assn3
 * register file and two little-endian memories.  One clock cycle advances
 * the counter and then runs the stages in reverse order, WB, MEM, EX, ID
 * and IF, so each stage reads its input latch before the stage upstream
 * overwrites it, and a register written by WB is seen by the same cycle's
 * ID.  There is no forwarding, no hazard detection and no flush: programs
 * must separate dependent instructions with no-ops themselves.
 *
 * The PC holds the address of the instruction fetched last: IF adds 4 to
 * it before fetching, and a taken branch, resolved in MEM, sets it to the
 * branch target minus 4 so that the same cycle's IF fetches the target.
 */
module Assn3Pipeline {
  import opened Bitset
  import opened Mips
  import opened ByteMemory
  import CpuUnits
  import Assn3Storage
  import opened PipelineLatches

  /** The ID/EX latch: the eight control signals, PC + 4, both register values, the extended immediate, rt and rd (no rs). */
  datatype IdEx = IdEx(pcPlus4: Word, readData1: Word, readData2: Word, immediate: Word, rt: Bits5, rd: Bits5, ctrl: Signals)

  /** The ID/EX latch after the constructor: every control and data field cleared. */
  function InitialIdEx(): (l: IdEx)
    ensures l.ctrl == NoSignals() && NoneSet(l.readData1) && NoneSet(l.readData2) && NoneSet(l.immediate)
  {
    IdEx(ZERO_WORD, ZERO_WORD, ZERO_WORD, ZERO_WORD, ZERO_REG, ZERO_REG, NoSignals())
  }

  /** The state of the pipelined CPU: PC, latches, registers, both memories and the cycle counter. */
  datatype Pipe = Pipe(pc: Word, ifId: IfId, idEx: IdEx, exMem: ExMem, memWb: MemWb,
                       regs: seq<Word>, imem: seq<Byte>, dmem: seq<Byte>, cycle: nat)

  ghost predicate PipeShape(p: Pipe)
  {
    |p.regs| == 32
  }

  /** The state the constructor builds: every latch cleared, so the first instructions through the pipeline do nothing. */
  function Initial(pc: Word, regs: seq<Word>, imem: seq<Byte>, dmem: seq<Byte>): (p: Pipe)
    requires |regs| == 32
    ensures PipeShape(p) && p.pc == pc && p.cycle == 0 && p.regs == regs && p.imem == imem && p.dmem == dmem
    ensures p.idEx.ctrl == NoSignals() && !p.exMem.regWrite && !p.exMem.memRead && !p.exMem.memWrite && !p.exMem.branch
    ensures !p.memWb.regWrite && NoneSet(p.ifId.instr)
  {
    Pipe(pc, InitialIfId(), InitialIdEx(), InitialExMem(), InitialMemWb(), regs, imem, dmem, 0)
  }

  /**
   * `realbranchtarget = branchTarget.to_ulong() - 4` stored in a 32-bit
   * bitset: the difference modulo 2^32.  Adding 4 to it gives the target
   * back.
   */
  function TargetMinusFour(t: Word): (r: Word)
    ensures AddBits(r, Four()) == t
  {
    var r := FromNat(32, (Value(t) - 4) % 0x1_0000_0000);
    MinusFourPlusFour(t, r);
    r
  }

  lemma {:induction false} MinusFourPlusFour(t: Word, r: Bits)
    requires r == FromNat(32, (Value(t) - 4) % 0x1_0000_0000)
    ensures |r| == 32 && AddBits(r, Four()) == t
  {
    var v: int := Value(t);
    var x: nat := (v - 4) % 0x1_0000_0000;
    assert x < 0x1_0000_0000;
    WordFromNatValue(x);
    ModSmall(x, 0x1_0000_0000);
    assert Value(r) == x;
    var sum := AddBits(r, Four());
    assert Value(sum) == (x + 4) % 0x1_0000_0000 by {
      WordAddValue(r, Four());
    }
    assert (x + 4) % 0x1_0000_0000 == v by {
      WordBound(t);
      MinusFourMod(v);
    }
    ValueInjective(sum, t);
  }

  /** A number below the modulus is its own remainder. */
  lemma ModSmall(x: nat, d: nat)
    requires x < d
    ensures x % d == x
  {
    DivModUnique(x, d, 0, x);
  }

  /** Subtracting 4 modulo 2^32 and adding 4 back modulo 2^32 is the identity on 32-bit values. */
  lemma MinusFourMod(v: int)
    requires 0 <= v < 0x1_0000_0000
    ensures ((v - 4) % 0x1_0000_0000 + 4) % 0x1_0000_0000 == v
  {
    var d := 0x1_0000_0000;
    if v >= 4 {
      DivModUnique(v - 4, d, 0, v - 4);
    } else {
      DivModUnique(v - 4, d, -1, v - 4 + d);
      DivModUnique(v + d, d, 1, v);
    }
    DivModUnique(v, d, 0, v);
  }

  /** WB: the write-back value goes to the MEM/WB rd when RegWrite is set, except to $0; nothing else changes. */
  function WriteBackStage(p: Pipe): (q: Pipe)
    requires PipeShape(p)
    ensures PipeShape(q) && q == p.(regs := q.regs) && q.regs[0] == p.regs[0]
    ensures p.memWb.regWrite && Index(p.memWb.rd) != 0 ==> q.regs[Index(p.memWb.rd)] == WriteBackData(p.memWb)
    ensures forall i :: 0 <= i < 32 && !(p.memWb.regWrite && i == Index(p.memWb.rd)) ==> q.regs[i] == p.regs[i]
  {
    if p.memWb.regWrite && Index(p.memWb.rd) != 0 then p.(regs := p.regs[Index(p.memWb.rd) := WriteBackData(p.memWb)])
    else p
  }

  /**
   * MEM: PCSrc (Branch AND zero) moves the PC to the branch target minus 4;
   * the data memory is read or written at the ALU result, with readData2
   * as the write data, and MEM/WB receives the memory word (kept from
   * before when nothing is read), the ALU result, rd and the WB controls.
   * None when both MemRead and MemWrite are set (an assertion fails) or the
   * access leaves the memory array.
   */
  function MemoryStage(p: Pipe): (r: Option<Pipe>)
    requires PipeShape(p)
    ensures r.Some? <==> !(p.exMem.memRead && p.exMem.memWrite)
                         && ((p.exMem.memRead || p.exMem.memWrite) ==> Value(p.exMem.aluResult) + 3 < |p.dmem|)
    ensures r.Some? ==> PipeShape(r.value) && |r.value.dmem| == |p.dmem|
    ensures r.Some? ==> r.value == p.(pc := r.value.pc, dmem := r.value.dmem, memWb := r.value.memWb)
    ensures r.Some? ==> r.value.pc == if PCSrc(p.exMem) then TargetMinusFour(p.exMem.branchTarget) else p.pc
    ensures r.Some? ==> r.value.memWb.rd == p.exMem.rd && r.value.memWb.aluResult == p.exMem.aluResult
    ensures r.Some? ==> r.value.memWb.regWrite == p.exMem.regWrite && r.value.memWb.memToReg == p.exMem.memToReg
    ensures r.Some? ==> r.value.memWb.readData
                        == if p.exMem.memRead then WordAt(p.dmem, Value(p.exMem.aluResult), LittleEndian) else p.memWb.readData
    ensures r.Some? ==> r.value.dmem
                        == if p.exMem.memWrite then StoreWord(p.dmem, Value(p.exMem.aluResult), p.exMem.readData2, LittleEndian) else p.dmem
  {
    var l := p.exMem;
    match DataAccess(p.dmem, l, p.memWb.readData)
    case None => None
    case Some(access) =>
      var pc := CpuUnits.Mux(p.pc, TargetMinusFour(l.branchTarget), PCSrc(l));
      Some(p.(pc := pc, dmem := access.dmem, memWb := MemWb(access.readData, l.aluResult, l.rd, l.regWrite, l.memToReg)))
  }

  /**
   * EX: the destination is rd for RegDst and rt otherwise; the ALU combines
   * readData1 with the immediate (ALUSrc) or readData2 under ALUControl of
   * ALUOp and the immediate's low six bits, keeping the old EX/MEM result
   * for a code it does not know; the branch target is PC + 4 plus the
   * shifted immediate.  readData2 and the MEM and WB controls move on.
   */
  function ExecuteStage(p: Pipe): (q: Pipe)
    ensures q == p.(exMem := q.exMem)
    ensures var c := p.idEx.ctrl;
      && q.exMem.branch == c.branch && q.exMem.memRead == c.memRead && q.exMem.memWrite == c.memWrite
      && q.exMem.regWrite == c.regWrite && q.exMem.memToReg == c.memToReg
    ensures q.exMem.rd == (if p.idEx.ctrl.regDst then p.idEx.rd else p.idEx.rt) && q.exMem.readData2 == p.idEx.readData2
    ensures q.exMem.branchTarget == AddBits(p.idEx.pcPlus4, CpuUnits.ShiftLeft2Bits(p.idEx.immediate))
    ensures q.exMem.aluZero <==> NoneSet(q.exMem.aluResult)
  {
    var l := p.idEx;
    var rd := CpuUnits.Mux(l.rt, l.rd, l.ctrl.regDst);
    var aluInput2 := CpuUnits.Mux(l.readData2, l.immediate, l.ctrl.aluSrc);
    var control := CpuUnits.ALUControl(l.ctrl.aluOp, l.immediate[0..6], Zeros(4));
    var result := CpuUnits.AluResult(l.readData1, aluInput2, control, p.exMem.aluResult);
    var target := AddBits(l.pcPlus4, CpuUnits.ShiftLeft2Bits(l.immediate));
    p.(exMem := ExecutedLatch(l.ctrl, target, result, l.readData2, rd))
  }

  /**
   * ID: the IF/ID instruction is decoded; ID/EX receives Control's signals,
   * PC + 4, the registers rs and rt as they are now, the sign-extended
   * immediate, rt and rd.  None for an opcode Control rejects.
   */
  function DecodeStage(p: Pipe): (r: Option<Pipe>)
    requires PipeShape(p)
    ensures r.Some? <==> CpuUnits.Control(Decode(p.ifId.instr).opcode).Some?
    ensures r.Some? ==> r.value == p.(idEx := r.value.idEx)
    ensures r.Some? ==> var f, l := Decode(p.ifId.instr), r.value.idEx;
      && CpuUnits.Control(f.opcode) == Some(l.ctrl) && l.pcPlus4 == p.ifId.pcPlus4
      && l.readData1 == p.regs[Index(f.rs)] && l.readData2 == p.regs[Index(f.rt)]
      && l.immediate == CpuUnits.SignExtendBits(f.immediate, 32) && l.rt == f.rt && l.rd == f.rd
  {
    var f := Decode(p.ifId.instr);
    match CpuUnits.Control(f.opcode)
    case None => None
    case Some(s) =>
      Some(p.(idEx := IdEx(p.ifId.pcPlus4, p.regs[Index(f.rs)], p.regs[Index(f.rt)],
                           CpuUnits.SignExtendBits(f.immediate, 32), f.rt, f.rd, s)))
  }

  /**
   * IF: the PC advances by 4 and the instruction at the new PC is fetched
   * into IF/ID with the new PC + 4, so the PC holds the address just
   * fetched.  None when the instruction lies past the instruction memory.
   */
  function FetchStage(p: Pipe): (r: Option<Pipe>)
    ensures r.Some? <==> Value(AddBits(p.pc, Four())) + 3 < |p.imem|
    ensures r.Some? ==> r.value == p.(pc := r.value.pc, ifId := r.value.ifId)
    ensures r.Some? ==> r.value.pc == AddBits(p.pc, Four()) && r.value.ifId.pcPlus4 == AddBits(r.value.pc, Four())
    ensures r.Some? ==> r.value.ifId.instr == WordAt(p.imem, Value(r.value.pc), LittleEndian)
  {
    var pc := AddBits(p.pc, Four());
    if Value(pc) + 3 >= |p.imem| then None
    else Some(p.(pc := pc, ifId := IfId(AddBits(pc, Four()), WordAt(p.imem, Value(pc), LittleEndian))))
  }

  /** One clock cycle: the counter advances, then WB, MEM, EX, ID and IF run in that order; None when a stage aborts or leaves a memory. */
  function Cycle(p: Pipe): (r: Option<Pipe>)
    requires PipeShape(p)
    ensures r.Some? ==> PipeShape(r.value) && r.value.imem == p.imem && |r.value.dmem| == |p.dmem|
    ensures r.Some? ==> r.value.cycle == NextCycle(p.cycle) && r.value.regs[0] == p.regs[0]
  {
    var p1 := WriteBackStage(p.(cycle := NextCycle(p.cycle)));
    match MemoryStage(p1)
    case None => None
    case Some(p2) =>
      match DecodeStage(ExecuteStage(p2))
      case None => None
      case Some(p4) => FetchStage(p4)
  }

  class PipelinedCPU {
    var pc: Word
    var cycle: nat
    var ifId: IfId
    var idEx: IdEx
    var exMem: ExMem
    var memWb: MemWb
    /** Stored by the constructor; no stage reads them. */
    const enableDataForwarding: bool
    const enableHazardDetection: bool
    const enableIDBranch: bool
    const regFile: Assn3Storage.RegisterFile
    const instMemory: Assn3Storage.Memory
    const dataMemory: Assn3Storage.Memory

    ghost predicate Valid()
      reads this, regFile, instMemory, dataMemory
    {
      && regFile.Valid()
      && instMemory.endianness == LittleEndian && dataMemory.endianness == LittleEndian
      && instMemory.bytes != dataMemory.bytes
    }

    /** The state this CPU holds. */
    ghost function State(): (p: Pipe)
      requires Valid()
      reads this, regFile, regFile.regs, instMemory, instMemory.bytes, dataMemory, dataMemory.bytes
      ensures PipeShape(p)
    {
      Pipe(pc, ifId, idEx, exMem, memWb, regFile.regs[..], instMemory.bytes[..], dataMemory.bytes[..], cycle)
    }

    /** The CPU base state (PC, register file, memories, counter at zero), the three flags, and every latch cleared. */
    constructor (initialPC: Word, regs: seq<Word>, imem: seq<Byte>, dmem: seq<Byte>,
                 enableDataForwarding: bool, enableHazardDetection: bool, enableIDBranch: bool)
      requires |regs| == 32 && |imem| == MEMORY_SIZE && |dmem| == MEMORY_SIZE
      ensures Valid() && fresh(regFile) && fresh(regFile.regs) && fresh(instMemory) && fresh(instMemory.bytes)
      ensures fresh(dataMemory) && fresh(dataMemory.bytes)
      ensures this.enableDataForwarding == enableDataForwarding && this.enableHazardDetection == enableHazardDetection
      ensures this.enableIDBranch == enableIDBranch
      ensures State() == Initial(initialPC, regs[0 := Zeros(32)], imem, dmem)
    {
      pc := initialPC;
      cycle := 0;
      regFile := new Assn3Storage.RegisterFile(regs);
      instMemory := new Assn3Storage.Memory(LittleEndian, imem);
      dataMemory := new Assn3Storage.Memory(LittleEndian, dmem);
      this.enableDataForwarding := enableDataForwarding;
      this.enableHazardDetection := enableHazardDetection;
      this.enableIDBranch := enableIDBranch;
      ifId := InitialIfId();
      idEx := InitialIdEx();
      exMem := InitialExMem();
      memWb := InitialMemWb();
    }

    /**
     * One clock cycle.  When no stage aborts or leaves a memory array, ok
     * is set and the new state is `Cycle` of the old one; after a failure
     * the state is not specified.
     */
    method AdvanceCycle() returns (ok: bool)
      requires Valid()
      modifies this, regFile.regs, instMemory.bytes, dataMemory.bytes
      ensures Valid()
      ensures ok <==> Cycle(old(State())).Some?
      ensures ok ==> State() == Cycle(old(State())).value
    {
      ghost var p := State();
      cycle := NextCycle(cycle);
      assert State() == p.(cycle := NextCycle(p.cycle));
      WriteBack();
      ghost var p1 := State();
      ok := MemoryAccess();
      if !ok {
        return;
      }
      ghost var p2 := State();
      assert MemoryStage(p1) == Some(p2);
      Execute();
      assert State() == ExecuteStage(p2);
      ok := InstructionDecode();
      if !ok {
        return;
      }
      ghost var p4 := State();
      assert DecodeStage(ExecuteStage(p2)) == Some(p4);
      ok := InstructionFetch();
    }

    /** WB: the write-back multiplexer, then a register-file write unless rd is $0. */
    method WriteBack()
      requires Valid()
      modifies regFile.regs
      ensures Valid() && State() == WriteBackStage(old(State()))
    {
      var writeBackData := CpuUnits.Mux(memWb.aluResult, memWb.readData, memWb.memToReg);
      if Index(memWb.rd) != 0 {
        var _, _ := regFile.Access(None, None, Some(memWb.rd), Some(writeBackData), Some(memWb.regWrite), ZERO_WORD, ZERO_WORD);
      }
    }

    /** MEM: the PC multiplexer for a taken branch, then the data memory access and the MEM/WB latch. */
    method MemoryAccess() returns (ok: bool)
      requires Valid()
      modifies this, dataMemory.bytes
      ensures Valid()
      ensures ok <==> MemoryStage(old(State())).Some?
      ensures ok ==> State() == MemoryStage(old(State())).value
    {
      var pcSrc := exMem.branch && exMem.aluZero;
      var realBranchTarget := TargetMinusFour(exMem.branchTarget);
      pc := CpuUnits.Mux(pc, realBranchTarget, pcSrc);
      var readData;
      ok, readData := AccessDataMemory();
      if ok {
        memWb := MemWb(readData, exMem.aluResult, exMem.rd, exMem.regWrite, exMem.memToReg);
      }
    }

    /** The data memory access of MEM, with the EX/MEM latch's address, write data and flags. */
    method AccessDataMemory() returns (ok: bool, readData: Word)
      requires Valid()
      modifies dataMemory.bytes
      ensures Valid()
      ensures ok <==> DataAccess(old(dataMemory.bytes[..]), exMem, memWb.readData).Some?
      ensures ok ==> Accessed(readData, dataMemory.bytes[..]) == DataAccess(old(dataMemory.bytes[..]), exMem, memWb.readData).value
    {
      if (exMem.memRead || exMem.memWrite) && Value(exMem.aluResult) + 3 >= dataMemory.bytes.Length {
        return false, memWb.readData;
      }
      ok, readData := dataMemory.Access(exMem.aluResult, Some(exMem.readData2), exMem.memRead, Some(exMem.memWrite), memWb.readData);
    }

    /** EX: the destination multiplexer, the ALU-source multiplexer, ALUControl, the ALU and the branch adder. */
    method Execute()
      requires Valid()
      modifies this
      ensures Valid() && State() == ExecuteStage(old(State()))
    {
      var rd := CpuUnits.Mux(idEx.rt, idEx.rd, idEx.ctrl.regDst);
      var aluInput2 := CpuUnits.Mux(idEx.readData2, idEx.immediate, idEx.ctrl.aluSrc);
      var shifted := CpuUnits.ShiftLeft2(idEx.immediate);
      var funct := idEx.immediate[0..6];
      var aluControl := CpuUnits.ALUControl(idEx.ctrl.aluOp, funct, Zeros(4));
      var result, zero := CpuUnits.Alu(idEx.readData1, aluInput2, aluControl, exMem.aluResult);
      var target := CpuUnits.Add(idEx.pcPlus4, shifted);
      exMem := ExMem(target, result, zero, idEx.readData2, rd, idEx.ctrl.branch, idEx.ctrl.memRead,
                     idEx.ctrl.memWrite, idEx.ctrl.regWrite, idEx.ctrl.memToReg);
    }

    /** ID: decode, Control, the register read (no write), and sign extension into the ID/EX latch. */
    method InstructionDecode() returns (ok: bool)
      requires Valid()
      modifies this, regFile.regs
      ensures Valid()
      ensures ok <==> DecodeStage(old(State())).Some?
      ensures ok ==> State() == DecodeStage(old(State())).value
    {
      var f := Decode(ifId.instr);
      var signals := CpuUnits.Control(f.opcode);
      if signals.None? {
        return false;
      }
      var readData1, readData2 := regFile.Access(Some(f.rs), Some(f.rt), None, None, None, idEx.readData1, idEx.readData2);
      var immediate := CpuUnits.SignExtend(f.immediate, 32);
      idEx := IdEx(ifId.pcPlus4, readData1, readData2, immediate, f.rt, f.rd, signals.value);
      ok := true;
    }

    /** IF: PC + 4, the fetch at the new PC, and IF/ID's PC + 4 from a second adder. */
    method InstructionFetch() returns (ok: bool)
      requires Valid()
      modifies this, instMemory.bytes
      ensures Valid()
      ensures ok <==> FetchStage(old(State())).Some?
      ensures ok ==> State() == FetchStage(old(State())).value
    {
      var temp := CpuUnits.Add(pc, Four());
      pc := temp;
      if Value(pc) + 3 >= instMemory.bytes.Length {
        return false;
      }
      var _, instr := instMemory.Access(pc, None, true, Some(false), ifId.instr);
      var pcPlus4 := CpuUnits.Add(pc, Four());
      ifId := IfId(pcPlus4, instr);
      ok := true;
    }
  }
}
