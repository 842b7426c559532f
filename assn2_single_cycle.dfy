/**
 * The assn2 single-cycle CPU and its debug copy: one call of `advanceCycle`
 * fetches, decodes and executes one instruction with the `to_ulong` units,
 * the read-then-write register file and two little-endian memories.  The
 * two copies differ only in whether ALUControl decodes NOR, which the class
 * holds as `decodesNor`.
 *
 * The register file is called twice.  The first call reads both operands
 * before it writes, so the cleared write-back wire it stores into the
 * destination (when RegWrite is set) is never read; the second call stores
 * the real result.  Neither call protects register 0, and Control turns an
 * unknown opcode (and j) into a no-op instead of aborting.
 */
module Assn2SingleCycle {
  import opened Bitset
  import opened Mips
  import opened ByteMemory
  import CpuUnits
  import Assn2Units
  import Assn2Storage

  /** The wires the execute step produces: the destination, the registers after the operand read, the ALU result and the next PC. */
  datatype Executed = Executed(wr: Bits5, regs: seq<Word>, readData2: Word, result: Word, pc: Word)

  /**
   * Register read, sign extension, ALU and next PC, given PC + 4.  The
   * operands are read before the destination receives the cleared
   * write-back wire; the ALU control starts cleared, the ALU output and
   * zero flag too, and the branch offset is the sign-extended immediate
   * shifted in place.
   */
  function Execute(regs: seq<Word>, pc4: Word, f: Fields, s: Signals, decodesNor: bool): (e: Executed)
    requires |regs| == 32
    ensures |e.regs| == 32
  {
    var wr := CpuUnits.Mux(f.rt, f.rd, s.regDst);
    var rd1, rd2 := regs[Index(f.rs)], regs[Index(f.rt)];
    var regs1 := if s.regWrite then regs[Index(wr) := ZERO_WORD] else regs;
    var sext := Assn2Units.SignExtend(f.immediate);
    var control := Assn2Units.ALUControl(s.aluOp, f.funct, Zeros(4), decodesNor);
    var out := Assn2Units.Alu(rd1, CpuUnits.Mux(rd2, sext, s.aluSrc), control, ZERO_WORD, false);
    var target := AddBits(pc4, Assn2Units.ShiftLeft2(sext));
    Executed(wr, regs1, rd2, out.output, CpuUnits.Mux(pc4, target, s.branch && out.zero))
  }

  /**
   * Data memory and write-back: the memory is accessed at the ALU result
   * with readData2 as the write data; the write-back value is the memory
   * word for loads and the ALU result otherwise, and is written whenever
   * RegWrite is set, register 0 included.  None when the access leaves the
   * memory array.
   */
  function MemoryWriteBack(dmem: seq<Byte>, s: Signals, e: Executed): (r: Option<(seq<Byte>, seq<Word>)>)
    requires |e.regs| == 32
    ensures r.Some? ==> |r.value.0| == |dmem| && |r.value.1| == 32
  {
    if (s.memRead || s.memWrite) && Value(e.result) + 3 >= |dmem| then None
    else
      var memData := if s.memRead then WordAt(dmem, Value(e.result), LittleEndian) else ZERO_WORD;
      var dmem' := if s.memWrite then StoreWord(dmem, Value(e.result), e.readData2, LittleEndian) else dmem;
      var wb := CpuUnits.Mux(e.result, memData, s.memToReg);
      Some((dmem', if s.regWrite then e.regs[Index(e.wr) := wb] else e.regs))
  }

  /**
   * One cycle as a function of the state: None only when the simulator
   * touches memory outside the array (undefined behaviour in the
   * simulator, which does not check).  Every opcode runs.
   */
  function Cycle(m: Machine, decodesNor: bool): (r: Option<Machine>)
    requires WellFormed(m)
    ensures r.Some? ==> WellFormed(r.value) && r.value.imem == m.imem && |r.value.dmem| == |m.dmem|
    ensures r.Some? ==> r.value.cycle == NextCycle(m.cycle)
  {
    if Value(m.pc) + 3 >= |m.imem| then None
    else
      var f := Decode(WordAt(m.imem, Value(m.pc), LittleEndian));
      var s := Assn2Units.Control(f.opcode);
      Retire(m, s, Execute(m.regs, AddBits(m.pc, Four()), f, s, decodesNor))
  }

  /** The state after the memory access and write-back, with the PC the execute step chose and the counter advanced. */
  function Retire(m: Machine, s: Signals, e: Executed): (r: Option<Machine>)
    requires WellFormed(m) && |e.regs| == 32
    ensures r.Some? ==> WellFormed(r.value) && r.value.imem == m.imem && |r.value.dmem| == |m.dmem|
    ensures r.Some? ==> r.value.pc == e.pc && r.value.cycle == NextCycle(m.cycle)
  {
    match MemoryWriteBack(m.dmem, s, e)
    case None => None
    case Some(stored) => Some(Machine(e.pc, stored.1, m.imem, stored.0, NextCycle(m.cycle)))
  }

  /** Cycle unfolded once the fetch is in range. */
  lemma CycleSteps(m: Machine, decodesNor: bool, f: Fields)
    requires WellFormed(m) && Value(m.pc) + 3 < |m.imem| && f == Decode(WordAt(m.imem, Value(m.pc), LittleEndian))
    ensures Cycle(m, decodesNor)
         == Retire(m, Assn2Units.Control(f.opcode), Execute(m.regs, AddBits(m.pc, Four()), f, Assn2Units.Control(f.opcode), decodesNor))
  {
  }

  /** Cycle once the execute step has produced e: the memory access and write-back decide it. */
  lemma CycleRetires(m: Machine, decodesNor: bool, f: Fields, s: Signals, e: Executed)
    requires WellFormed(m) && Value(m.pc) + 3 < |m.imem| && f == Decode(WordAt(m.imem, Value(m.pc), LittleEndian))
    requires s == Assn2Units.Control(f.opcode) && e == Execute(m.regs, AddBits(m.pc, Four()), f, s, decodesNor)
    ensures Cycle(m, decodesNor).Some? <==> MemoryWriteBack(m.dmem, s, e).Some?
    ensures Cycle(m, decodesNor).Some? ==>
      var stored := MemoryWriteBack(m.dmem, s, e).value;
      Cycle(m, decodesNor).value == Machine(e.pc, stored.1, m.imem, stored.0, NextCycle(m.cycle))
  {
    CycleSteps(m, decodesNor, f);
  }

  class SingleCycleCPU {
    var pc: Word
    var cycle: nat
    var instruction: Word
    const decodesNor: bool
    const regFile: Assn2Storage.RegisterFile
    const instMemory: Assn2Storage.Memory
    const dataMemory: Assn2Storage.Memory

    ghost predicate Valid()
      reads this, regFile, instMemory, dataMemory
    {
      && regFile.Valid()
      && instMemory.endianness == LittleEndian && dataMemory.endianness == LittleEndian
      && instMemory.bytes != dataMemory.bytes
    }

    /** The state this CPU holds. */
    ghost function State(): (m: Machine)
      requires Valid()
      reads this, regFile, regFile.regs, instMemory, instMemory.bytes, dataMemory, dataMemory.bytes
      ensures WellFormed(m)
    {
      Machine(pc, regFile.regs[..], instMemory.bytes[..], dataMemory.bytes[..], cycle)
    }

    /**
     * PC at initialPC, the cycle counter at zero, the register file and both
     * memories built from their contents; decodesNor selects the assn2 copy
     * (true) or the debug copy (false).
     */
    constructor (initialPC: Word, regs: seq<Word>, imem: seq<Byte>, dmem: seq<Byte>, decodesNor: bool)
      requires |regs| == 32 && |imem| == MEMORY_SIZE && |dmem| == MEMORY_SIZE
      ensures Valid() && fresh(regFile) && fresh(regFile.regs) && fresh(instMemory) && fresh(instMemory.bytes)
      ensures fresh(dataMemory) && fresh(dataMemory.bytes) && this.decodesNor == decodesNor
      ensures State() == Machine(initialPC, regs[0 := Zeros(32)], imem, dmem, 0)
    {
      pc := initialPC;
      cycle := 0;
      instruction := ZERO_WORD;
      this.decodesNor := decodesNor;
      regFile := new Assn2Storage.RegisterFile(regs);
      instMemory := new Assn2Storage.Memory(LittleEndian, imem);
      dataMemory := new Assn2Storage.Memory(LittleEndian, dmem);
    }

    /**
     * One clock cycle.  When the simulator stays inside both memory arrays,
     * ok is set and the new state is `Cycle` of the old one; otherwise the
     * state is not specified.
     */
    method AdvanceCycle() returns (ok: bool)
      requires Valid()
      modifies this, regFile.regs, instMemory.bytes, dataMemory.bytes
      ensures Valid()
      ensures ok <==> Cycle(old(State()), decodesNor).Some?
      ensures ok ==> State() == Cycle(old(State()), decodesNor).value
      ensures ok ==> instruction == WordAt(old(State()).imem, Value(old(pc)), LittleEndian)
    {
      ghost var m := State();
      cycle := NextCycle(cycle);
      var instr;
      ok, instr := FetchStep();
      if !ok {
        return;
      }
      instruction := instr;
      // decode and control
      var f := Decode(instr);
      var s := Assn2Units.Control(f.opcode);
      // register file, ALU, next PC; memory and write-back
      var e := ExecuteStep(f, s);
      CycleRetires(m, decodesNor, f, s, e);
      ok := MemoryWriteBackStep(f, s, e);
    }

    /** The fetch: a read of the instruction memory at PC (the write data pointer is null and unused), then PC + 4. */
    method FetchStep() returns (ok: bool, instr: Word)
      requires Valid()
      modifies this, instMemory.bytes
      ensures Valid() && instruction == old(instruction)
      ensures ok <==> Value(old(pc)) + 3 < |old(instMemory.bytes[..])|
      ensures !ok ==> State() == old(State())
      ensures ok ==> instr == WordAt(old(instMemory.bytes[..]), Value(old(pc)), LittleEndian)
      ensures ok ==> State() == old(State()).(pc := AddBits(old(pc), Four()))
    {
      if Value(pc) + 3 >= instMemory.bytes.Length {
        return false, ZERO_WORD;
      }
      ok := true;
      var _, readOut := instMemory.Access(pc, ZERO_WORD, true, false, ZERO_WORD);
      instr := readOut;
      pc := AddBits(pc, Four());
    }

    /** Registers (the write-back wire still zero), sign extension, ALU, the in-place shift and the PC multiplexer. */
    method ExecuteStep(f: Fields, s: Signals) returns (e: Executed)
      requires Valid()
      modifies this, regFile.regs
      ensures Valid() && instruction == old(instruction)
      ensures e == Execute(old(regFile.regs[..]), old(pc), f, s, decodesNor)
      ensures State() == old(State()).(regs := e.regs, pc := e.pc)
    {
      var pc4 := pc;
      var wr, readData1, readData2 := ReadRegisters(f, s);
      var sext := Assn2Units.SignExtend(f.immediate);
      var control := Assn2Units.ALUControl(s.aluOp, f.funct, Zeros(4), decodesNor);
      var out := Assn2Units.Alu(readData1, CpuUnits.Mux(readData2, sext, s.aluSrc), control, ZERO_WORD, false);
      sext := Assn2Units.ShiftLeft2(sext);
      var target := AddBits(pc4, sext);
      pc := CpuUnits.Mux(pc4, target, s.branch && out.zero);
      e := Executed(wr, regFile.regs[..], readData2, out.output, pc);
    }

    /** The register file's first call: both operands, then the cleared write-back wire into the destination when RegWrite is set. */
    method ReadRegisters(f: Fields, s: Signals) returns (wr: Bits5, readData1: Word, readData2: Word)
      requires Valid()
      modifies regFile.regs
      ensures Valid()
      ensures instMemory.bytes[..] == old(instMemory.bytes[..]) && dataMemory.bytes[..] == old(dataMemory.bytes[..])
      ensures wr == CpuUnits.Mux(f.rt, f.rd, s.regDst)
      ensures readData1 == old(regFile.regs[Index(f.rs)]) && readData2 == old(regFile.regs[Index(f.rt)])
      ensures regFile.regs[..] == if s.regWrite then old(regFile.regs[..])[Index(wr) := ZERO_WORD] else old(regFile.regs[..])
    {
      wr := CpuUnits.Mux(f.rt, f.rd, s.regDst);
      readData1, readData2 := regFile.Access(f.rs, f.rt, wr, ZERO_WORD, s.regWrite);
    }

    /** Data memory access at the ALU result, then the write-back through the register file's second call. */
    method MemoryWriteBackStep(f: Fields, s: Signals, e: Executed) returns (ok: bool)
      requires Valid() && |e.regs| == 32 && regFile.regs[..] == e.regs
      requires !(s.memRead && s.memWrite)
      modifies regFile.regs, dataMemory.bytes
      ensures Valid()
      ensures ok <==> MemoryWriteBack(old(dataMemory.bytes[..]), s, e).Some?
      ensures ok ==> State() == old(State()).(dmem := MemoryWriteBack(old(dataMemory.bytes[..]), s, e).value.0,
                                              regs := MemoryWriteBack(old(dataMemory.bytes[..]), s, e).value.1)
    {
      if (s.memRead || s.memWrite) && Value(e.result) + 3 >= dataMemory.bytes.Length {
        return false;
      }
      var _, readData := dataMemory.Access(e.result, e.readData2, s.memRead, s.memWrite, ZERO_WORD);
      var wb := CpuUnits.Mux(e.result, readData, s.memToReg);
      var _, _ := regFile.Access(f.rs, f.rt, e.wr, wb, s.regWrite);
      ok := true;
    }
  }
}
