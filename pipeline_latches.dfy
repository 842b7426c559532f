/**
 * The pipeline latches both five-stage CPUs share: IF/ID, EX/MEM and
 * MEM/WB.  Every field is a bitset member of a latch struct, so a latch
 * the constructor does not touch starts cleared, like every default-built
 * bitset.  EX/MEM carries only the MEM and WB controls and MEM/WB only the
 * WB controls; the ID/EX latch differs between the two CPUs and lives in
 * each CPU's module.
 */
module PipelineLatches {
  import opened Bitset
  import opened Mips
  import opened ByteMemory
  import CpuUnits

  datatype IfId = IfId(pcPlus4: Word, instr: Word)

  datatype ExMem = ExMem(
    branchTarget: Word, aluResult: Word, aluZero: bool, readData2: Word, rd: Bits5,
    branch: bool, memRead: bool, memWrite: bool, regWrite: bool, memToReg: bool)

  datatype MemWb = MemWb(readData: Word, aluResult: Word, rd: Bits5, regWrite: bool, memToReg: bool)

  /** A cleared 5-bit register number. */
  const ZERO_REG: Bits5 := Zeros(5)

  /** The IF/ID latch after the constructor: both fields reset. */
  function InitialIfId(): (l: IfId)
    ensures NoneSet(l.pcPlus4) && NoneSet(l.instr)
  {
    IfId(ZERO_WORD, ZERO_WORD)
  }

  /** The EX/MEM latch after the constructor: every field, control or data, cleared. */
  function InitialExMem(): (l: ExMem)
    ensures !l.branch && !l.memRead && !l.memWrite && !l.regWrite && !l.memToReg
    ensures NoneSet(l.aluResult) && NoneSet(l.branchTarget) && NoneSet(l.readData2) && !l.aluZero
  {
    ExMem(ZERO_WORD, ZERO_WORD, false, ZERO_WORD, ZERO_REG, false, false, false, false, false)
  }

  /** The MEM/WB latch after the constructor: every field cleared. */
  function InitialMemWb(): (l: MemWb)
    ensures !l.regWrite && !l.memToReg && NoneSet(l.readData) && NoneSet(l.aluResult)
  {
    MemWb(ZERO_WORD, ZERO_WORD, ZERO_REG, false, false)
  }

  /** The write-back multiplexer: the memory word when MemToReg is set, the ALU result otherwise. */
  function WriteBackData(l: MemWb): (wb: Word)
    ensures l.memToReg ==> wb == l.readData
    ensures !l.memToReg ==> wb == l.aluResult
  {
    CpuUnits.Mux(l.aluResult, l.readData, l.memToReg)
  }

  /** Branch AND zero: the PCSrc signal the MEM stage computes. */
  function PCSrc(l: ExMem): bool
  {
    l.branch && l.aluZero
  }

  /** The EX/MEM latch as EX leaves it, from the control signals the instruction carries and the values EX computed. */
  function ExecutedLatch(s: Signals, branchTarget: Word, aluResult: Word, readData2: Word, rd: Bits5): ExMem
  {
    ExMem(branchTarget, aluResult, NoneSet(aluResult), readData2, rd, s.branch, s.memRead, s.memWrite, s.regWrite, s.memToReg)
  }

  /** What the MEM stage's data-memory access yields: the word for MEM/WB and the memory after it. */
  datatype Accessed = Accessed(readData: Word, dmem: seq<Byte>)

  /**
   * The MEM stage's data-memory access at the EX/MEM ALU result, as the
   * memory word handed to MEM/WB and the new memory: a read replaces the
   * latch's readData, a write stores readData2, neither leaves both alone.
   * None when both flags are set (an assertion fails) or the access leaves
   * the memory array.
   */
  function DataAccess(dmem: seq<Byte>, l: ExMem, readData: Word): (r: Option<Accessed>)
    ensures r.Some? <==> !(l.memRead && l.memWrite) && ((l.memRead || l.memWrite) ==> Value(l.aluResult) + 3 < |dmem|)
    ensures r.Some? ==> |r.value.dmem| == |dmem|
    ensures r.Some? && !l.memRead ==> r.value.readData == readData
    ensures r.Some? && !l.memWrite ==> r.value.dmem == dmem
    ensures r.Some? && l.memRead ==> r.value.readData == WordAt(dmem, Value(l.aluResult), LittleEndian)
    ensures r.Some? && l.memWrite ==> r.value.dmem == StoreWord(dmem, Value(l.aluResult), l.readData2, LittleEndian)
  {
    if l.memRead && l.memWrite then None
    else if (l.memRead || l.memWrite) && Value(l.aluResult) + 3 >= |dmem| then None
    else
      var a := Value(l.aluResult);
      Some(Accessed(if l.memRead then WordAt(dmem, a, LittleEndian) else readData,
                    if l.memWrite then StoreWord(dmem, a, l.readData2, LittleEndian) else dmem))
  }

  /** The cleared instruction word is an R-type instruction, which Control accepts. */
  lemma ZeroInstructionDecodes()
    ensures CpuUnits.Control(Decode(ZERO_WORD).opcode).Some?
  {
    var opcode := Decode(ZERO_WORD).opcode;
    assert opcode == Zeros(6) by {
      assert opcode == ZERO_WORD[26..32];
    }
    ValueZeros(6);
  }
}
