/**
 * The combinational units the assn4 pipeline adds to the assn3 ones: the
 * 3-to-1 multiplexer in front of each ALU operand, the forwarding unit
 * that drives it and the load-use hazard detection unit in ID.  Both units
 * are pure decisions written to their out-parameters.
 */
module Assn4Units {
  import opened Bitset
  import opened Mips

  /** The three forwarding selects: the ID/EX register value, the WB value, the MEM ALU result. */
  const FORWARD_NONE: Bits2 := [false, false]
  const FORWARD_WB: Bits2 := [true, false]
  const FORWARD_MEM: Bits2 := [false, true]

  lemma ForwardValues()
    ensures Value(FORWARD_NONE) == 0 && Value(FORWARD_WB) == 1 && Value(FORWARD_MEM) == 2
  {
    AluOpValues();
    assert FORWARD_NONE == ALU_OP_ADD && FORWARD_WB == ALU_OP_SUB && FORWARD_MEM == ALU_OP_FUNCT;
  }

  /**
   * The 3-to-1 multiplexer: input0, input1 or input2 for a select of 0, 1
   * or 2.  A select of 3 fails an assertion, which aborts the simulator:
   * None.
   */
  function Mux3<T>(input0: T, input1: T, input2: T, select: Bits2): (r: Option<T>)
    ensures Value(select) == 0 ==> r == Some(input0)
    ensures Value(select) == 1 ==> r == Some(input1)
    ensures Value(select) == 2 ==> r == Some(input2)
    ensures r.None? <==> Value(select) !in {0, 1, 2}
  {
    match Value(select)
    case 0 => Some(input0)
    case 1 => Some(input1)
    case 2 => Some(input2)
    case _ => None
  }

  /**
   * What a later stage publishes for the forwarding unit before it
   * overwrites its latch: RegWrite, the destination register and the value
   * that will be written there.
   */
  datatype FwdPort = FwdPort(regWrite: bool, rd: Bits5, rdValue: Word)

  /** The port's instruction writes register r, and r is not $0. */
  predicate Supplies(port: FwdPort, r: Bits5)
  {
    port.regWrite && Index(port.rd) != 0 && port.rd == r
  }

  /** The two selects the forwarding unit drives. */
  datatype Forwarding = Forwarding(forwardA: Bits2, forwardB: Bits2)

  /**
   * The select for one operand: the WB value when WB writes the register
   * and MEM does not, the MEM ALU result when MEM writes it, the ID/EX
   * value otherwise.  The more recent MEM result wins over WB.
   */
  function ForwardSelect(r: Bits5, mem: FwdPort, wb: FwdPort): (select: Bits2)
    ensures Value(select) == 2 <==> Supplies(mem, r)
    ensures Value(select) == 1 <==> !Supplies(mem, r) && Supplies(wb, r)
    ensures Value(select) == 0 <==> !Supplies(mem, r) && !Supplies(wb, r)
  {
    ForwardValues();
    if Supplies(wb, r) && !Supplies(mem, r) then FORWARD_WB
    else if Supplies(mem, r) then FORWARD_MEM
    else FORWARD_NONE
  }

  /**
   * The forwarding unit for the ID/EX rs and rt.  It takes the EX/MEM and
   * MEM/WB RegWrite and rd as parameters but decides from the values MEM
   * and WB published, which the same cycle's MEM and WB stages have
   * already overwritten in the latches; it never selects 3.
   */
  function ForwardingUnit(idExRs: Bits5, idExRt: Bits5, exMemRegWrite: bool, exMemRd: Bits5,
                          memWbRegWrite: bool, memWbRd: Bits5, mem: FwdPort, wb: FwdPort): (r: Forwarding)
    ensures Value(r.forwardA) == 2 <==> Supplies(mem, idExRs)
    ensures Value(r.forwardA) == 1 <==> !Supplies(mem, idExRs) && Supplies(wb, idExRs)
    ensures Value(r.forwardA) == 0 <==> !Supplies(mem, idExRs) && !Supplies(wb, idExRs)
    ensures Value(r.forwardB) == 2 <==> Supplies(mem, idExRt)
    ensures Value(r.forwardB) == 1 <==> !Supplies(mem, idExRt) && Supplies(wb, idExRt)
    ensures Value(r.forwardB) == 0 <==> !Supplies(mem, idExRt) && !Supplies(wb, idExRt)
  {
    Forwarding(ForwardSelect(idExRs, mem, wb), ForwardSelect(idExRt, mem, wb))
  }

  /** The operand the 3-to-1 multiplexer passes on, never an abort, in the priority order of the forwarding unit. */
  lemma ForwardedOperand(r: Bits5, v: Word, mem: FwdPort, wb: FwdPort)
    ensures var operand: Word := if Supplies(mem, r) then mem.rdValue else if Supplies(wb, r) then wb.rdValue else v;
      Mux3(v, wb.rdValue, mem.rdValue, ForwardSelect(r, mem, wb)) == Some(operand)
  {
  }

  /** The three outputs of the hazard detection unit. */
  datatype Hazard = Hazard(pcWrite: bool, ifIdWrite: bool, ctrlSelect: bool)

  /** Hold the PC and IF/ID and turn the instruction in ID into a bubble. */
  const STALL: Hazard := Hazard(false, false, true)
  /** Let the pipeline advance. */
  const ADVANCE: Hazard := Hazard(true, true, false)

  /**
   * The hazard detection unit: a stall exactly when the instruction in EX
   * reads memory and its rt is the rs or rt of the instruction in ID, with
   * no exception for $0; advance otherwise.
   */
  function HazardDetectionUnit(ifIdRs: Bits5, ifIdRt: Bits5, idExMemRead: bool, idExRt: Bits5): (h: Hazard)
    ensures h == STALL <==> idExMemRead && (idExRt == ifIdRs || idExRt == ifIdRt)
    ensures h == ADVANCE <==> !(idExMemRead && (idExRt == ifIdRs || idExRt == ifIdRt))
  {
    if idExMemRead && (idExRt == ifIdRs || idExRt == ifIdRt) then STALL else ADVANCE
  }
}
