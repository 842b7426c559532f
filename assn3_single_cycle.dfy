/**
 * The assn3 single-cycle CPU: one call of `advanceCycle` fetches, decodes
 * and executes one instruction with the bit-loop units of the CPU base
 * class, the write-then-read register file and two little-endian memories.
 *
 * The datapath calls the register file twice.  The first call, made to read
 * the operands, already has RegWrite set and the write-back wire still at
 * its initial zero, so it clears the destination register before reading;
 * an instruction whose source register is its destination therefore reads
 * zero.  The second call writes the real result and is skipped when the
 * destination is $0.
 */
module Assn3SingleCycle {
  import opened Bitset
  import opened Mips
  import opened ByteMemory
  import CpuUnits
  import Assn3Storage

  /** The register file after the first access: the destination cleared when RegWrite is set and it is not $0. */
  function OperandRegisters(regs: seq<Word>, wr: Bits5, regWrite: bool): (r: seq<Word>)
    requires |regs| == 32
    ensures |r| == 32 && r[0] == regs[0]
    ensures forall i :: 0 <= i < 32 && i != Index(wr) ==> r[i] == regs[i]
    ensures regWrite && Index(wr) != 0 ==> r[Index(wr)] == ZERO_WORD
    ensures !(regWrite && Index(wr) != 0) ==> r == regs
  {
    if regWrite && Index(wr) != 0 then regs[Index(wr) := ZERO_WORD] else regs
  }

  /** The destination register: rd for R-type (RegDst), rt otherwise. */
  function WriteRegister(f: Fields, s: Signals): (wr: Bits5)
    ensures wr == if s.regDst then f.rd else f.rt
  {
    CpuUnits.Mux(f.rt, f.rd, s.regDst)
  }

  /** The wires the execute step produces: the destination, the registers after the operand read, the ALU result and the next PC. */
  datatype Executed = Executed(wr: Bits5, regs: seq<Word>, readData2: Word, result: Word, pc: Word)

  /**
   * Register read, sign extension, ALU and next PC, given PC + 4: the ALU
   * control starts from a cleared wire and the ALU output from a cleared
   * word; the branch is taken when Branch is set and the ALU output is zero.
   */
  function Execute(regs: seq<Word>, pc4: Word, f: Fields, s: Signals): (e: Executed)
    requires |regs| == 32
    ensures e.wr == WriteRegister(f, s) && e.regs == OperandRegisters(regs, e.wr, s.regWrite)
    ensures |e.regs| == 32 && e.regs[0] == regs[0] && e.readData2 == e.regs[Index(f.rt)]
  {
    var wr := WriteRegister(f, s);
    var regs1 := OperandRegisters(regs, wr, s.regWrite);
    var rd1, rd2 := regs1[Index(f.rs)], regs1[Index(f.rt)];
    var sext := CpuUnits.SignExtendBits(f.immediate, 32);
    var control := CpuUnits.ALUControl(s.aluOp, f.funct, Zeros(4));
    var result := CpuUnits.AluResult(rd1, CpuUnits.Mux(rd2, sext, s.aluSrc), control, ZERO_WORD);
    var target := AddBits(pc4, CpuUnits.ShiftLeft2Bits(sext));
    Executed(wr, regs1, rd2, result, CpuUnits.Mux(pc4, target, s.branch && NoneSet(result)))
  }

  /** Execute from its wires: the register file after the first access, the operands read from it, the ALU output and the chosen PC. */
  lemma ExecuteWires(regs: seq<Word>, pc4: Word, f: Fields, s: Signals, regs1: seq<Word>, rd2: Word, result: Word, pc: Word)
    requires |regs| == 32 && regs1 == OperandRegisters(regs, WriteRegister(f, s), s.regWrite)
    requires var sext := CpuUnits.SignExtendBits(f.immediate, 32);
      && rd2 == regs1[Index(f.rt)]
      && result == CpuUnits.AluResult(regs1[Index(f.rs)], CpuUnits.Mux(rd2, sext, s.aluSrc),
                                      CpuUnits.ALUControl(s.aluOp, f.funct, Zeros(4)), ZERO_WORD)
      && pc == CpuUnits.Mux(pc4, AddBits(pc4, CpuUnits.ShiftLeft2Bits(sext)), s.branch && NoneSet(result))
    ensures Execute(regs, pc4, f, s) == Executed(WriteRegister(f, s), regs1, rd2, result, pc)
  {
  }

  /**
   * Data memory and write-back: the memory is accessed at the ALU result
   * with readData2 as the write data; the write-back value is the memory
   * word for loads and the ALU result otherwise, and is written unless the
   * destination is $0.  None when the access leaves the memory array.
   */
  function MemoryWriteBack(dmem: seq<Byte>, s: Signals, e: Executed): (r: Option<(seq<Byte>, seq<Word>)>)
    requires |e.regs| == 32
    ensures r.Some? ==> |r.value.0| == |dmem| && |r.value.1| == 32 && r.value.1[0] == e.regs[0]
  {
    if (s.memRead || s.memWrite) && Value(e.result) + 3 >= |dmem| then None
    else
      var memData := if s.memRead then WordAt(dmem, Value(e.result), LittleEndian) else ZERO_WORD;
      var dmem' := if s.memWrite then StoreWord(dmem, Value(e.result), e.readData2, LittleEndian) else dmem;
      var wb := CpuUnits.Mux(e.result, memData, s.memToReg);
      Some((dmem', if s.regWrite && Index(e.wr) != 0 then e.regs[Index(e.wr) := wb] else e.regs))
  }

  /**
   * One cycle as a function of the state: None when the simulator aborts
   * (an opcode Control rejects) or touches memory outside the array
   * (undefined behaviour in the simulator, which does not check).
   */
  function Cycle(m: Machine): (r: Option<Machine>)
    requires WellFormed(m)
    ensures r.Some? ==> WellFormed(r.value) && r.value.imem == m.imem && |r.value.dmem| == |m.dmem|
    ensures r.Some? ==> r.value.regs[0] == m.regs[0]
    ensures r.Some? ==> r.value.cycle == NextCycle(m.cycle)
  {
    if Value(m.pc) + 3 >= |m.imem| then None
    else
      var f := Decode(WordAt(m.imem, Value(m.pc), LittleEndian));
      match CpuUnits.Control(f.opcode)
      case None => None
      case Some(s) =>
        Retire(m, s, Execute(m.regs, AddBits(m.pc, Four()), f, s))
  }

  /** The state after the memory access and write-back, with the PC the execute step chose and the counter advanced. */
  function Retire(m: Machine, s: Signals, e: Executed): (r: Option<Machine>)
    requires WellFormed(m) && |e.regs| == 32 && e.regs[0] == m.regs[0]
    ensures r.Some? ==> WellFormed(r.value) && r.value.imem == m.imem && |r.value.dmem| == |m.dmem|
    ensures r.Some? ==> r.value.regs[0] == m.regs[0] && r.value.pc == e.pc
    ensures r.Some? ==> r.value.cycle == NextCycle(m.cycle)
  {
    match MemoryWriteBack(m.dmem, s, e)
    case None => None
    case Some(stored) => Some(Machine(e.pc, stored.1, m.imem, stored.0, NextCycle(m.cycle)))
  }

  /** Cycle unfolded once the fetch is in range and Control accepts the opcode. */
  lemma CycleSteps(m: Machine, f: Fields, s: Signals)
    requires WellFormed(m) && Value(m.pc) + 3 < |m.imem|
    requires f == Decode(WordAt(m.imem, Value(m.pc), LittleEndian)) && CpuUnits.Control(f.opcode) == Some(s)
    ensures Cycle(m) == Retire(m, s, Execute(m.regs, AddBits(m.pc, Four()), f, s))
  {
  }

  class SingleCycleCPU {
    var pc: Word
    var cycle: nat
    const regFile: Assn3Storage.RegisterFile
    const instMemory: Assn3Storage.Memory
    const dataMemory: Assn3Storage.Memory

    ghost predicate Valid()
      reads this, regFile, instMemory, dataMemory
    {
      && regFile.Valid()
      && instMemory.endianness == LittleEndian && dataMemory.endianness == LittleEndian
      && instMemory.bytes != dataMemory.bytes
    }

    /** The state this CPU holds. */
    ghost function State(): (m: Machine)
      requires Valid()
      reads this, regFile, regFile.regs, instMemory, instMemory.bytes, dataMemory, dataMemory.bytes
      ensures WellFormed(m)
    {
      Machine(pc, regFile.regs[..], instMemory.bytes[..], dataMemory.bytes[..], cycle)
    }

    /** PC at initialPC, the cycle counter at zero, the register file and both memories built from their contents. */
    constructor (initialPC: Word, regs: seq<Word>, imem: seq<Byte>, dmem: seq<Byte>)
      requires |regs| == 32 && |imem| == MEMORY_SIZE && |dmem| == MEMORY_SIZE
      ensures Valid() && fresh(regFile) && fresh(regFile.regs) && fresh(instMemory) && fresh(instMemory.bytes)
      ensures fresh(dataMemory) && fresh(dataMemory.bytes)
      ensures State() == Machine(initialPC, regs[0 := Zeros(32)], imem, dmem, 0)
    {
      pc := initialPC;
      cycle := 0;
      regFile := new Assn3Storage.RegisterFile(regs);
      instMemory := new Assn3Storage.Memory(LittleEndian, imem);
      dataMemory := new Assn3Storage.Memory(LittleEndian, dmem);
    }

    /**
     * One clock cycle.  When the simulator would not abort or leave the
     * memory array, ok is set and the new state is `Cycle` of the old one;
     * after an abort the state is not specified.
     */
    method AdvanceCycle() returns (ok: bool)
      requires Valid()
      modifies this, regFile.regs, instMemory.bytes, dataMemory.bytes
      ensures Valid()
      ensures ok <==> Cycle(old(State())).Some?
      ensures ok ==> State() == Cycle(old(State())).value
    {
      ghost var m := State();
      cycle := NextCycle(cycle);
      // 1. fetch at PC, then PC + 4
      if Value(pc) + 3 >= instMemory.bytes.Length {
        return false;
      }
      var _, instr := instMemory.Access(pc, None, true, Some(false), ZERO_WORD);
      assert instr == WordAt(m.imem, Value(m.pc), LittleEndian);
      var pc4 := CpuUnits.Add(pc, Four());
      pc := pc4;
      // 2. decode and control
      var f := Decode(instr);
      var signals := CpuUnits.Control(f.opcode);
      if signals.None? {
        return false;
      }
      var s := signals.value;
      assert State() == m.(pc := AddBits(m.pc, Four()), cycle := NextCycle(m.cycle));
      ok := ExecuteRetire(m, f, s);
    }

    /** Steps 3 to 5 of the cycle from m, once its fetch and decode left PC + 4 and the counter advanced. */
    method ExecuteRetire(ghost m: Machine, f: Fields, s: Signals) returns (ok: bool)
      requires Valid() && WellFormed(m) && Value(m.pc) + 3 < |m.imem|
      requires f == Decode(WordAt(m.imem, Value(m.pc), LittleEndian)) && CpuUnits.Control(f.opcode) == Some(s)
      requires State() == m.(pc := AddBits(m.pc, Four()), cycle := NextCycle(m.cycle))
      modifies this, regFile.regs, dataMemory.bytes
      ensures Valid()
      ensures ok <==> Cycle(m).Some?
      ensures ok ==> State() == Cycle(m).value
    {
      CycleSteps(m, f, s);
      var e := ExecuteStep(f, s);
      ok := MemoryWriteBackStep(f, s, e);
    }

    /** Registers (the write-back wire still zero), sign extension, ALU and the PC multiplexer. */
    method ExecuteStep(f: Fields, s: Signals) returns (e: Executed)
      requires Valid()
      modifies this, regFile.regs
      ensures Valid() && cycle == old(cycle)
      ensures e == Execute(old(regFile.regs[..]), old(pc), f, s)
      ensures State() == old(State()).(regs := e.regs, pc := e.pc)
    {
      ghost var regs := regFile.regs[..];
      var pc4 := pc;
      var wr := WriteRegister(f, s);
      var readData1, readData2 := regFile.Access(Some(f.rs), Some(f.rt), Some(wr), Some(ZERO_WORD), Some(s.regWrite),
                                                 ZERO_WORD, ZERO_WORD);
      var sext := CpuUnits.SignExtend(f.immediate, 32);
      var control := CpuUnits.ALUControl(s.aluOp, f.funct, Zeros(4));
      var result, zero := CpuUnits.Alu(readData1, CpuUnits.Mux(readData2, sext, s.aluSrc), control, ZERO_WORD);
      var offset := CpuUnits.ShiftLeft2(sext);
      var target := CpuUnits.Add(pc4, offset);
      pc := CpuUnits.Mux(pc4, target, s.branch && zero);
      e := Executed(wr, regFile.regs[..], readData2, result, pc);
      ExecuteWires(regs, pc4, f, s, e.regs, readData2, result, pc);
    }

    /** Data memory access at the ALU result, then the write-back, skipped for $0; the register file re-reads rs and rt, and those outputs are discarded. */
    method MemoryWriteBackStep(f: Fields, s: Signals, e: Executed) returns (ok: bool)
      requires Valid() && |e.regs| == 32 && regFile.regs[..] == e.regs
      requires !(s.memRead && s.memWrite)
      modifies regFile.regs, dataMemory.bytes
      ensures Valid()
      ensures ok <==> MemoryWriteBack(old(dataMemory.bytes[..]), s, e).Some?
      ensures ok ==> State() == old(State()).(dmem := MemoryWriteBack(old(dataMemory.bytes[..]), s, e).value.0,
                                              regs := MemoryWriteBack(old(dataMemory.bytes[..]), s, e).value.1)
    {
      if (s.memRead || s.memWrite) && Value(e.result) + 3 >= dataMemory.bytes.Length {
        return false;
      }
      var _, memData := dataMemory.Access(e.result, Some(e.readData2), s.memRead, Some(s.memWrite), ZERO_WORD);
      var wb := CpuUnits.Mux(e.result, memData, s.memToReg);
      if Index(e.wr) != 0 {
        var _, _ := regFile.Access(Some(f.rs), Some(f.rt), Some(e.wr), Some(wb), Some(s.regWrite), ZERO_WORD, ZERO_WORD);
      }
      ok := true;
    }
  }
}
