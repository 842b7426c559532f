# MIPS32 simulators: single-cycle and pipelined datapaths

The repository is a set of course simulators for a subset of MIPS32:
`add`, `sub`, `and`, `or`, `slt` (and, in one copy, `nor`), `lw`, `sw`, `beq` and `addi`.
Every wire and register of the simulated datapath is a `std::bitset`, and every
combinational unit is a small function over bitsets:

- AND gate, adder, multiplexers, sign extension, shift-left-2;
- the ALU, the main Control unit and ALU Control.

There are four CPUs.

- **The assn2 single-cycle CPU** (`assn2/SingleCycleCPU.cpp`) and its debug copy
  (`assn2debugtest.cpp`), over the assn2 register file and memories.
  - The copies are the same code, except that the debug copy's ALU Control has
    no NOR case.
  - Control also gives `ori` and `lui` the signals of `addi`.
- **The assn3 single-cycle CPU** (`assn3/SingleCycleCPU.cpp`), built on the shared
  units of `assn3/CPU.hpp` and the assn3 register file and memory.
  - Its first register-file access passes the write-register with RegWrite set.
    The register file writes before it reads, so the destination is cleared
    before the operands are read.
- **The assn3 five-stage pipeline** (`assn3/PipelinedCPU.cpp`).
  - One cycle runs WB, MEM, EX, ID, IF in that order, over IF/ID, ID/EX, EX/MEM
    and MEM/WB latches.
  - There is no forwarding and no hazard detection.
  - MEM resolves a taken branch by setting the PC to the target minus 4, which
    the same cycle's IF then advances.
- **The assn4 five-stage pipeline** (`assn4/PipelinedCPU.cpp`). It adds:
  - a forwarding unit driving 3-to-1 multiplexers in EX;
  - a load-use hazard detection unit in ID, which holds the PC and IF/ID and
    turns the instruction into a bubble;
  - the branch multiplexer, moved into IF.

  Because the stages run in reverse order, a downstream stage hands values
  upstream through "mailbox" fields that it fills before the upstream stage
  reads them.

## How it is modelled

**Bitsets.** A `std::bitset<W>` is a `seq<bool>` of length W, bit 0 first (module `Bitset`).

- `Value` is `to_ulong`.
- `FromNat(w, n)` is `bitset<w>(n)`, which keeps `n mod 2^w`.
- `Signed` is the two's-complement value.
- A 1-bit signal is a `bool`.
- A `bitset<32>` subtraction done through `to_ulong` is written out as the
  64-bit `unsigned long` difference, truncated to 32 bits.

**Arguments.**

- Pointer arguments that the source tests against `nullptr` become `Option` values.
- The other pointer arguments are plain values.

**State.**

- Register files and memories are classes, with a `seq<Word>` or an `array<Byte>` updated in place.
- Each CPU is a class with the source's fields and one method per stage.
  Its `State()` is a value (`Machine` or `Pipe`).
- Every method is proved against a pure function of the old state:
  - single-cycle CPUs: `Cycle` and its steps `Execute`, `MemoryWriteBack` and `Retire`;
  - pipelines: `Cycle` and its stages `WriteBackStage`, `MemoryStage`,
    `ExecuteStage`, `DecodeStage` and `FetchStage`.
- The instruction-level and pipeline-level properties are lemmas about these functions.

**Failures.** A failed `assert` aborts the simulator. So does an access past the
32 MB memory array, which the source never checks. In the model either one is a
`None` result, and the method returns `ok == false`.

## Model

| member | source | states |
|---|---|---|
| Mips.Decode | assn3/SingleCycleCPU.cpp:42-47 | opcode, rs, rt, rd, funct and immediate are the exact bit slices 26-31, 21-25, 16-20, 11-15, 0-5 and 0-15 of the instruction |
| Mips.DecodeSlices | assn2/SingleCycleCPU.cpp:336-341 | the shift-and-mask decoding over `to_ulong` (`>> 26`, `>> 21 & 0x1F`, ...) yields those same bit slices |
| Mips.NextCycle | assn3/CPU.hpp:29-32 | the cycle counter is incremented and stays below 2^64 |
| Mips.NextCycleWraps | assn3/CPU.hpp:41 | the `unsigned long long` counter increments modulo 2^64 |
| Mips.Index | assn3/RegisterFile.cpp:9-22 | a 5-bit register number indexes one of the 32 registers by its value |
| Mips.Four | assn3/PipelinedCPU.cpp:11-13 | the adder's constant input has value 4 |
| Mips.NoSignals | assn3/PipelinedCPU.hpp:21-28 | the cleared control wires: every 1-bit signal clear and ALUOp 0 |
| Mips.AluOpValues | assn3/CPU.hpp:286-293 | the ALUOp encodings 00, 01 and 10 used by Control have values 0, 1 and 2 |
| ByteMemory.ByteOf | assn2/Memory.cpp:47-53 | byte k of a word is `(value >> 8k) % 0x100` |
| ByteMemory.StoreWord | assn3/Memory.cpp:30-45 | a write puts the word's four bytes at the address in endian order and changes no other byte |
| ByteMemory.WordAtBytes | assn3/Memory.cpp:14-29 | the word a read assembles has, as byte k, the byte at the address plus the endian offset k |
| ByteMemory.LoadAfterStore | assn3/Memory.cpp:14-45 | reading back a word just written at the same address gives that word (round trip) |
| ByteMemory.LoadDisjoint | assn3/Memory.cpp:14-45 | a write does not change the word read at a non-overlapping address |
| ByteMemory.StoreLoaded | assn3/Memory.cpp:14-45 | writing back the word just read leaves the memory unchanged |
| ByteMemory.WordAtValue | assn3/Memory.cpp:17-29 | the value read is b0 + 0x100 b1 + 0x10000 b2 + 0x1000000 b3 of the bytes in endian order |
| ByteMemory.ByteFields | assn2/Memory.cpp:47-53 | the bytes `value % 0x100`, `(value >> 8) % 0x100`, `(value >> 16) % 0x100` and `(value >> 24) % 0x100` that a write stores are the word's bytes 0 to 3 |
| ByteMemory.WordFromBytes | assn3/Memory.cpp:14-45 | two words with the same four bytes are equal |
| Assn2Storage.AddByte | assn2/Memory.cpp:21-30 | adding a byte to a 32-bit accumulator wraps mod 2^32 and does not wrap below 0xFFFFFF00 |
| Assn2Storage.ShlByte | assn2/Memory.cpp:21-30 | shifting an accumulator below 2^24 left by 8 multiplies it by 0x100 |
| Assn2Storage.AssembleWord | assn2/Memory.cpp:15-41 | the bitset add-and-shift assembly of four bytes has value b0 + 0x100 b1 + 0x10000 b2 + 0x1000000 b3 |
| Assn2Storage.Assembled | assn2/Memory.cpp:15-41 | that assembled value is the word at the address in the memory's endianness |
| Assn2Storage.Memory.constructor | assn2/Memory.hpp:13-43 | the memory holds the given endianness and initial contents |
| Assn2Storage.Memory.Access | assn2/Memory.cpp:3-62 | with both MemRead and MemWrite set it fails; otherwise a read returns the word at the address, a write stores writeData there, and readData is unchanged unless read |
| Assn2Storage.Memory.Read | assn2/Memory.cpp:15-41 | returns the word at the address |
| Assn2Storage.Memory.Write | assn2/Memory.cpp:42-61 | the memory becomes StoreWord of the old memory |
| Assn2Storage.RegisterFile.constructor | assn4/RegisterFile.hpp:10-29 | the registers hold the initial values, with $0 cleared (the loader skips register 0) |
| Assn2Storage.RegisterFile.Access | assn2/RegisterFile.cpp:3-39 | both reads return the values before the call; with RegWrite the write register, $0 included, gets writeData; nothing else changes |
| Assn3Storage.ShiftUint32 | assn3/Memory.cpp:17-29 | a `uint32_t` shift left by 8 stays below 2^32 and multiplies values below 2^24 by 0x100 |
| Assn3Storage.AssembledValue | assn3/Memory.cpp:14-29 | the `uint32_t` assembly of the four bytes, stored into a bitset, is the word at the address |
| Assn3Storage.SplitValue | assn3/Memory.cpp:33-38 | the repeated `% 0x100`, `>>= 8` split of the value gives the word's bytes 0 to 3 |
| Assn3Storage.Memory.constructor | assn2/Memory.hpp:13-43 | the memory holds the given endianness and initial contents |
| Assn3Storage.Memory.Access | assn3/Memory.cpp:3-46 | fails iff MemRead and MemWrite are both set; a read returns the word at the address; a write stores writeData; a missing MemWrite pointer is no write |
| Assn3Storage.Memory.Read | assn3/Memory.cpp:14-29 | returns the word at the address |
| Assn3Storage.Memory.Write | assn3/Memory.cpp:30-45 | the memory becomes StoreWord of the old memory |
| Assn3Storage.RegisterFile.constructor | assn4/RegisterFile.hpp:10-29 | the registers hold the initial values, with $0 cleared |
| Assn3Storage.RegisterFile.Access | assn3/RegisterFile.cpp:3-23 | the write happens first and never to $0; then, when both read numbers are given, the reads see the written file; otherwise the read outputs are unchanged; $0 always keeps its value |
| CpuUnits.And | assn3/CPU.hpp:48-57 | the output is the bitwise AND of the inputs |
| CpuUnits.Add | assn3/CPU.hpp:63-76 | the output has value (a + b) mod 2^W |
| CpuUnits.AddBitsFromNat | assn3/CPU.hpp:63-76 | the sum equals `bitset<W>(a.to_ulong() + b.to_ulong())` |
| CpuUnits.Mux | assn3/CPU.hpp:82-89 | input0 when the select is clear, input1 when it is set |
| CpuUnits.SignExtendBits | assn3/CPU.hpp:96-108 | the low bits are the input, every higher bit is the input's top bit |
| CpuUnits.SignExtend | assn3/CPU.hpp:96-108 | the loop computes SignExtendBits |
| CpuUnits.SignExtendSigned | assn3/CPU.hpp:96-108 | sign extension keeps the two's-complement value |
| CpuUnits.ShiftLeft2Bits | assn3/CPU.hpp:114-124 | bits 2..W-2 are the input's bits 0..W-4, bits 0 and 1 are clear, and the top bit is kept |
| CpuUnits.ShiftLeft2 | assn3/CPU.hpp:114-124 | the loop computes ShiftLeft2Bits |
| CpuUnits.ShiftLeft2Signed | assn3/CPU.hpp:114-124 | when the three top bits agree, the shift multiplies the signed value by 4 |
| CpuUnits.ShiftLeft2Example | assn3/testSingleCycleCPU.cpp:21-23 | 0x00101010 shifts to 0x00404040 |
| CpuUnits.BranchOffset | assn3/CPU.hpp:96-124 | shifting a sign-extended 16-bit immediate gives 4 times its signed value |
| CpuUnits.BranchTarget | assn3/SingleCycleCPU.cpp:82-95 | PC + 4 plus the shifted offset is PC + 4 + 4 imm, modulo 2^32 |
| CpuUnits.AddSignedValue | assn3/CPU.hpp:63-76 | adding b is adding its signed value, modulo 2^32 |
| CpuUnits.SubBits | assn3/CPU.hpp:152-165 | the difference is a - b, plus 2^32 when negative |
| CpuUnits.SubValue | assn3/CPU.hpp:152-165 | a + (NOT b) + 1 is that difference |
| CpuUnits.NegateValue | assn3/CPU.hpp:152-165 | NOT b + 1 is 2^32 - b, or 0 for b = 0 |
| CpuUnits.SubZeroIffEqual | assn3/CPU.hpp:197-198 | the subtraction's zero flag is set iff the operands are equal |
| CpuUnits.SltWord | assn3/CPU.hpp:166-183 | the result is 1 when the slt bit is set, 0 otherwise |
| CpuUnits.SltSignedUnlessBothNegative | assn3/CPU.hpp:166-183 | unless both operands are negative, slt is signed less-than |
| CpuUnits.SltInvertedWhenBothNegative | assn3/CPU.hpp:166-183 | when both are negative, slt gives the opposite of signed less-than |
| CpuUnits.SltCounterexample | assn3/CPU.hpp:166-183 | slt(-2^31, -2^31 + 1) is 0 although -2^31 < -2^31 + 1 |
| CpuUnits.AluResult | assn3/CPU.hpp:130-199 | AND, OR, add (mod 2^32), subtract, slt and NOR for codes 0, 1, 2, 6, 7 and 12; any other code leaves the output as it was |
| CpuUnits.Alu | assn3/CPU.hpp:130-199 | the output is AluResult, and zero is set iff every output bit is clear |
| CpuUnits.Control | assn3/CPU.hpp:204-277 | the full signal table for lw, sw, beq, R-type and addi, with MemRead and MemWrite never both set; any other opcode fails the assertion |
| CpuUnits.ALUControl | assn3/CPU.hpp:282-324 | ALUOp 0 gives add, 1 gives subtract, 2 decodes funct add/sub/and/or/slt; an unknown funct or ALUOp 3 leaves the output as it was |
| CpuUnits.ALUControlSupported | assn3/CPU.hpp:282-324 | from a supported code, ALU Control always yields a code the ALU implements |
| Assn2Units.SignExtend | assn2/SingleCycleCPU.cpp:58-66 | the 32-bit result has the signed value of the 16-bit input (the `int16_t` cast) |
| Assn2Units.SignExtendAgrees | assn2/SingleCycleCPU.cpp:58-66 | the cast-based extension equals the bit-loop extension of the other CPUs |
| Assn2Units.ShiftLeft2 | assn2/SingleCycleCPU.cpp:73-79 | a plain `<< 2`: value 4v mod 2^32, with bits 0 and 1 clear |
| Assn2Units.ShiftLeft2Agrees | assn2/SingleCycleCPU.cpp:73-79 | it equals the top-bit-keeping shift of the other CPUs iff bits 29 and 31 agree |
| Assn2Units.AluTable | assn2/SingleCycleCPU.cpp:86-131 | the assn2 ALU by control code: AND, OR, add, sub (zero iff the operands are equal), slt comparing unsigned values, NOR; an unknown code keeps the output, and only subtraction writes the zero flag |
| Assn2Units.SubWrap | assn2/SingleCycleCPU.cpp:103-115 | the `unsigned long` difference truncated to 32 bits is the 32-bit subtraction, and is zero iff a = b |
| Assn2Units.SubWrapAgrees | assn2/SingleCycleCPU.cpp:103-115 | `bitset<32>((a - b) mod 2^64)` equals SubBits(a, b) |
| Assn2Units.SltUnsigned | assn2/SingleCycleCPU.cpp:116-126 | 1 iff a < b as unsigned values |
| Assn2Units.SltAgreesIff | assn2/SingleCycleCPU.cpp:116-126 | the assn2 and assn3 slt agree iff neither operand is negative |
| Assn2Units.Control | assn2/SingleCycleCPU.cpp:137-243 | the assn3 signals for lw, sw, beq, R-type and addi; the addi signals for ori and lui; all signals clear for j and unknown opcodes |
| Assn2Units.ALUControl | assn2/SingleCycleCPU.cpp:249-296 | as the assn3 table, plus funct 0x27 gives NOR (12) in the assn2 copy and leaves the output as it was in the debug copy |
| Assn2SingleCycle.Execute | assn2/SingleCycleCPU.cpp:343-388 | the registers after the first access (destination cleared when RegWrite) keep 32 entries |
| Assn2SingleCycle.MemoryWriteBack | assn2/SingleCycleCPU.cpp:390-404 | memory keeps its size and the register file its 32 registers |
| Assn2SingleCycle.Cycle | assn2/SingleCycleCPU.cpp:302-428 | a successful cycle keeps the instruction memory, the memory size and the 32 registers, and advances the counter |
| Assn2SingleCycle.Retire | assn2/SingleCycleCPU.cpp:387-404 | the PC is the one the execute step chose, and the counter advances |
| Assn2SingleCycle.CycleSteps | assn2/SingleCycleCPU.cpp:302-428 | a fetch in range: the cycle is decode, Control, execute, then memory and write-back |
| Assn2SingleCycle.SingleCycleCPU.constructor | assn2/SingleCycleCPU.hpp:10-16 | PC at initialPC, counter 0, registers with $0 cleared, both memories initialised |
| Assn2SingleCycle.SingleCycleCPU.AdvanceCycle | assn2/SingleCycleCPU.cpp:302-428 | ok iff Cycle succeeds, and then the new state is Cycle of the old one and the instruction register holds the fetched word |
| Assn2SingleCycle.SingleCycleCPU.FetchStep | assn2/SingleCycleCPU.cpp:327-333 | reads the word at the PC and sets the PC to PC + 4 |
| Assn2SingleCycle.SingleCycleCPU.ExecuteStep | assn2/SingleCycleCPU.cpp:346-388 | the registers and PC become those of Execute |
| Assn2SingleCycle.SingleCycleCPU.ReadRegisters | assn2/SingleCycleCPU.cpp:346-354 | returns rs and rt as they were and the write register; with RegWrite, that register is cleared |
| Assn2SingleCycle.SingleCycleCPU.MemoryWriteBackStep | assn2/SingleCycleCPU.cpp:390-404 | the memory and registers become those of MemoryWriteBack |
| Assn2SingleCycle.CycleRetires | assn2/SingleCycleCPU.cpp:343-404 | once the execute step has produced its wires, the cycle succeeds iff the memory access and write-back do, and ends with their memory and registers, the chosen PC and the advanced counter |
| Assn2SingleCycleProps.ControlTable | assn2/SingleCycleCPU.cpp:137-243 | the whole Control table, opcode by opcode, unknown opcodes included |
| Assn2SingleCycleProps.AluAdds | assn2/SingleCycleCPU.cpp:99-102 | control code 2 adds and leaves zero clear |
| Assn2SingleCycleProps.WrittenBack | assn2/RegisterFile.cpp:9-29 | with RegWrite the write register holds the value; every other register is unchanged |
| Assn2SingleCycleProps.AddImmediateExecute | assn2/SingleCycleCPU.cpp:346-388 | for lw, sw and addi the ALU adds rs and the sign-extended immediate; rt is the destination |
| Assn2SingleCycleProps.ResultWriteBack | assn2/SingleCycleCPU.cpp:397-404 | without memory access, the ALU result is written to the destination |
| Assn2SingleCycleProps.LoadWriteBack | assn2/SingleCycleCPU.cpp:397-404 | a load writes the word at the ALU result to the destination, or fails out of range |
| Assn2SingleCycleProps.RTypeStep | assn2/SingleCycleCPU.cpp:302-428 | R-type: rd, $0 included, gets the ALU result of rs and rt; PC + 4; memory unchanged |
| Assn2SingleCycleProps.NorControl | assn2/SingleCycleCPU.cpp:283-286 | funct 0x27 gives code 12 in the assn2 copy and 0 in the debug copy |
| Assn2SingleCycleProps.NorDecoding | assn2debugtest.cpp:574-617 | `nor` writes NOR in the assn2 copy and AND in the debug copy |
| Assn2SingleCycleProps.AddImmediateStep | assn2/SingleCycleCPU.cpp:302-428 | addi, ori and lui write rs + SignExtend(imm) to rt and move to PC + 4 |
| Assn2SingleCycleProps.LoadStep | assn2/SingleCycleCPU.cpp:302-428 | lw loads the word at rs + imm into rt, PC + 4, or fails out of range |
| Assn2SingleCycleProps.StoreStep | assn2/SingleCycleCPU.cpp:302-428 | sw stores rt at rs + imm, no register changes, PC + 4, or fails out of range |
| Assn2SingleCycleProps.BranchExecute | assn2/SingleCycleCPU.cpp:381-388 | beq: no register changes; the target is taken iff rs equals rt |
| Assn2SingleCycleProps.BranchStep | assn2/SingleCycleCPU.cpp:302-428 | beq: next PC is PC + 4 + (imm << 2) iff rs = rt, else PC + 4; nothing else changes |
| Assn2SingleCycleProps.NoOpStep | assn2/SingleCycleCPU.cpp:137-243 | j and unknown opcodes only advance the PC by 4 |
| Assn2SingleCycleProps.OnlyAddressesFail | assn2/SingleCycleCPU.cpp:302-428 | apart from lw and sw, a fetched instruction never fails |
| Assn2SingleCycleProps.ZeroRegisterWritten | assn2/RegisterFile.cpp:9-29 | `addi $0, rs, imm` with a non-zero sum leaves register 0 non-zero |
| Assn3SingleCycle.OperandRegisters | assn3/SingleCycleCPU.cpp:58-60 | the first access clears the destination when RegWrite is set and it is not $0, and changes nothing else |
| Assn3SingleCycle.WriteRegister | assn3/SingleCycleCPU.cpp:58 | rd for RegDst, rt otherwise |
| Assn3SingleCycle.Execute | assn3/SingleCycleCPU.cpp:52-95 | the destination, the registers after the operand read, with $0 kept, and the second operand read from them |
| Assn3SingleCycle.MemoryWriteBack | assn3/SingleCycleCPU.cpp:97-116 | memory size and 32 registers kept, $0 unchanged |
| Assn3SingleCycle.Cycle | assn3/SingleCycleCPU.cpp:7-141 | a successful cycle keeps the instruction memory and $0, and advances the counter |
| Assn3SingleCycle.Retire | assn3/SingleCycleCPU.cpp:94-116 | PC from the execute step, $0 kept, counter advanced |
| Assn3SingleCycle.CycleSteps | assn3/SingleCycleCPU.cpp:7-141 | a known opcode in range: the cycle is execute then memory and write-back |
| Assn3SingleCycle.SingleCycleCPU.constructor | assn3/CPU.hpp:11-18 | PC at initialPC, counter 0, registers with $0 cleared, both memories initialised |
| Assn3SingleCycle.SingleCycleCPU.AdvanceCycle | assn3/SingleCycleCPU.cpp:7-141 | ok iff Cycle succeeds, and then the new state is Cycle of the old one |
| Assn3SingleCycle.SingleCycleCPU.ExecuteStep | assn3/SingleCycleCPU.cpp:52-95 | registers and PC become those of Execute |
| Assn3SingleCycle.SingleCycleCPU.MemoryWriteBackStep | assn3/SingleCycleCPU.cpp:97-116 | memory and registers become those of MemoryWriteBack |
| Assn3SingleCycle.SingleCycleCPU.ExecuteRetire | assn3/SingleCycleCPU.cpp:52-116 | from the fetched state, the rest of the cycle reaches Cycle's result |
| Assn3SingleCycleProps.RTypeSignals | assn3/CPU.hpp:204-277 | opcode 0 gives RegDst, RegWrite and ALUOp 2 only |
| Assn3SingleCycleProps.ControlTable | assn3/CPU.hpp:204-277 | the signals of lw, sw, beq and addi |
| Assn3SingleCycleProps.AluAdds | assn3/CPU.hpp:130-151 | control code 2 adds |
| Assn3SingleCycleProps.RTypeExecute | assn3/SingleCycleCPU.cpp:52-95 | R-type: rd is the destination, operands read after rd was cleared |
| Assn3SingleCycleProps.ResultWriteBack | assn3/SingleCycleCPU.cpp:106-116 | the ALU result goes to the destination unless it is $0 |
| Assn3SingleCycleProps.RTypeStep | assn3/SingleCycleCPU.cpp:7-141 | R-type writes the ALU result of the operands (rd read as zero) to rd unless $0; PC + 4 |
| Assn3SingleCycleProps.AddImmediateExecute | assn3/SingleCycleCPU.cpp:52-95 | lw, sw and addi: rt is the destination and the ALU adds base and immediate |
| Assn3SingleCycleProps.LoadWriteBack | assn3/SingleCycleCPU.cpp:97-116 | a load writes the word at the ALU result to the destination, or fails out of range |
| Assn3SingleCycleProps.LoadStep | assn3/SingleCycleCPU.cpp:7-141 | lw rt, imm(rs) loads into rt unless $0; when rs is rt the base reads as zero |
| Assn3SingleCycleProps.StoreStep | assn3/SingleCycleCPU.cpp:7-141 | sw stores rt at rs + imm, registers unchanged, PC + 4, or fails out of range |
| Assn3SingleCycleProps.AddImmediateStep | assn3/SingleCycleCPU.cpp:7-141 | addi writes rs + imm to rt unless $0; rs = rt reads as zero |
| Assn3SingleCycleProps.BranchExecute | assn3/SingleCycleCPU.cpp:82-95 | beq: no register changes and the target is taken iff rs = rt |
| Assn3SingleCycleProps.BranchStep | assn3/SingleCycleCPU.cpp:7-141 | beq: next PC is the target iff rs = rt, else PC + 4 |
| Assn3SingleCycleProps.UnknownOpcodeAborts | assn3/CPU.hpp:271-275 | an opcode Control does not know, or a fetch out of range, fails the cycle |
| Assn3SingleCycleProps.AddZero | assn3/CPU.hpp:63-76 | adding zero gives the other operand |
| Assn3SingleCycleProps.AddNonZero | assn3/CPU.hpp:63-76 | adding a non-zero word changes the other operand |
| Assn3SingleCycleProps.AddIntoSource | assn3/SingleCycleCPU.cpp:58-60 | `add rd, rd, rt` leaves rt's value in rd, which differs from rd + rt whenever rd was non-zero |
| PipelineLatches.InitialIfId | assn3/PipelinedCPU.hpp:19-20 | IF/ID starts cleared |
| PipelineLatches.InitialExMem | assn3/PipelinedCPU.hpp:29-33 | EX/MEM starts with every control and data field cleared |
| PipelineLatches.InitialMemWb | assn3/PipelinedCPU.hpp:34-35 | MEM/WB starts cleared |
| PipelineLatches.WriteBackData | assn3/PipelinedCPU.cpp:104-118 | the memory word for MemToReg, the ALU result otherwise |
| PipelineLatches.DataAccess | assn3/PipelinedCPU.cpp:79-102 | fails iff both flags are set or the address is out of range; a read yields the little-endian word at the ALU result, otherwise readData is kept; a write stores readData2 there, otherwise the memory is unchanged |
| Assn3Pipeline.InitialIdEx | assn3/PipelinedCPU.hpp:21-28 | ID/EX starts with no control set and cleared data |
| Assn3Pipeline.Initial | assn3/PipelinedCPU.hpp:8-36 | the constructor's state: PC, registers and memories as given, counter 0, every latch cleared |
| Assn3Pipeline.TargetMinusFour | assn3/PipelinedCPU.cpp:90-91 | target minus 4, wrapped to 32 bits, plus 4 gives the target back |
| Assn3Pipeline.MinusFourPlusFour | assn3/PipelinedCPU.cpp:90-91 | `bitset<32>(to_ulong() - 4)` plus 4 is the identity |
| Assn3Pipeline.WriteBackStage | assn3/PipelinedCPU.cpp:104-118 | with RegWrite and rd not $0, rd gets the write-back value; every other register, and every latch, unchanged |
| Assn3Pipeline.MemoryStage | assn3/PipelinedCPU.cpp:79-102 | fails iff both flags or out of range; a taken branch sets the PC to target - 4; MEM/WB gets the ALU result, rd and WB controls, and the loaded word for a load (readData kept otherwise); a store writes readData2 at the ALU result |
| Assn3Pipeline.ExecuteStage | assn3/PipelinedCPU.cpp:51-77 | only EX/MEM changes: it gets the MEM and WB controls, rd chosen by RegDst, readData2, the target PC + 4 + immediate * 4, and a zero flag set iff the ALU result is zero |
| Assn3Pipeline.DecodeStage | assn3/PipelinedCPU.cpp:30-49 | fails iff Control rejects the opcode; only ID/EX changes, receiving Control's signals, PC + 4, the rs and rt registers, the sign-extended immediate, rt and rd |
| Assn3Pipeline.FetchStage | assn3/PipelinedCPU.cpp:3-28 | the PC advances by 4 and IF/ID gets the word at the new PC and the new PC + 4; fails out of range |
| Assn3Pipeline.Cycle | assn3/PipelinedCPU.hpp:42-49 | a successful cycle keeps the instruction memory, memory size and $0, and advances the counter |
| Assn3Pipeline.PipelinedCPU.constructor | assn3/PipelinedCPU.hpp:8-36 | stores the three flags and builds Initial |
| Assn3Pipeline.PipelinedCPU.AdvanceCycle | assn3/PipelinedCPU.hpp:42-49 | ok iff Cycle succeeds, and then the new state is Cycle of the old one |
| Assn3Pipeline.PipelinedCPU.WriteBack | assn3/PipelinedCPU.cpp:104-118 | the new state is WriteBackStage of the old one |
| Assn3Pipeline.PipelinedCPU.MemoryAccess | assn3/PipelinedCPU.cpp:79-102 | ok iff MemoryStage succeeds, and the new state is its result |
| Assn3Pipeline.PipelinedCPU.AccessDataMemory | assn3/PipelinedCPU.cpp:95-96 | ok iff DataAccess succeeds; the word read and the memory are its result |
| Assn3Pipeline.PipelinedCPU.Execute | assn3/PipelinedCPU.cpp:51-77 | the new state is ExecuteStage of the old one |
| Assn3Pipeline.PipelinedCPU.InstructionDecode | assn3/PipelinedCPU.cpp:30-49 | ok iff DecodeStage succeeds, and the new state is its result |
| Assn3Pipeline.PipelinedCPU.InstructionFetch | assn3/PipelinedCPU.cpp:3-28 | ok iff FetchStage succeeds, and the new state is its result |
| Assn3PipelineProps.Stages | assn3/PipelinedCPU.hpp:42-49 | a successful cycle passes through each stage in order |
| Assn3PipelineProps.CycleThrough | assn3/PipelinedCPU.hpp:42-49 | when MEM and ID succeed, the cycle ends with IF |
| Assn3PipelineProps.NextPc | assn3/PipelinedCPU.cpp:3-28 | the new PC is the branch target for a taken branch in EX/MEM, else PC + 4; IF/ID holds the word there |
| Assn3PipelineProps.LatchesAdvance | assn3/PipelinedCPU.cpp:30-102 | no flush: MEM/WB gets EX/MEM's content, EX/MEM gets ID/EX's, ID/EX gets the decode of IF/ID |
| Assn3PipelineProps.MemoryAccessEffect | assn3/PipelinedCPU.cpp:79-102 | over a whole cycle: MEM/WB's readData is the word at the ALU result for a load and unchanged otherwise; the data memory receives readData2 there for a store and is unchanged otherwise |
| Assn3PipelineProps.WriteBackBeforeDecode | assn3/PipelinedCPU.hpp:42-49 | ID reads a register after this cycle's write-back: the written value if WB wrote it, else the old value |
| Assn3PipelineProps.DecodeImmediate | assn3/PipelinedCPU.cpp:30-49 | ID/EX's immediate is the sign-extended field with the same signed value |
| Assn3PipelineProps.ExecuteAdds | assn3/PipelinedCPU.cpp:51-77 | ALUOp 0: the ALU output is readData1 plus the second operand mod 2^32 |
| Assn3PipelineProps.ExecuteCompares | assn3/PipelinedCPU.cpp:51-77 | ALUOp 1: zero is set iff the two register values are equal |
| Assn3PipelineProps.ExecuteFunct | assn3/PipelinedCPU.cpp:62-67 | ALUOp 2: ALU Control decodes the instruction's funct from the immediate's low six bits |
| Assn3PipelineProps.ExecuteBranchTarget | assn3/PipelinedCPU.cpp:60-69 | the branch target is PC + 4 + 4 imm mod 2^32 |
| Assn3PipelineProps.FirstCycleQuiet | assn3/PipelinedCPU.hpp:8-36 | the first cycle changes no register or memory and leaves EX/MEM and MEM/WB without controls |
| Assn3PipelineProps.InitialMemoryStage | assn3/PipelinedCPU.hpp:8-36 | WB and MEM of the first cycle change only the counter |
| PipelineLatches.ZeroInstructionDecodes | assn3/PipelinedCPU.cpp:30-49 | the cleared instruction, which both pipelines' IF/ID latch starts with, decodes as R-type and Control accepts it |
| Assn4Units.ForwardValues | assn4/PipelinedCPU.cpp:177-212 | the selects 00, 01, 10 have values 0, 1, 2 |
| Assn4Units.Mux3 | assn4/PipelinedCPU.hpp:155-179 | input 0, 1 or 2 for selects 0, 1, 2; select 3 fails the assertion |
| Assn4Units.ForwardSelect | assn4/PipelinedCPU.cpp:177-212 | 2 iff MEM writes the register (not $0), 1 iff only WB does, 0 otherwise |
| Assn4Units.ForwardingUnit | assn4/PipelinedCPU.cpp:177-212 | both selects follow ForwardSelect for rs and rt, from the published MEM and WB values |
| Assn4Units.ForwardedOperand | assn4/PipelinedCPU.cpp:91-96 | the 3-to-1 multiplexer passes MEM's value, else WB's, else the ID/EX value, and never fails |
| Assn4Units.HazardDetectionUnit | assn4/PipelinedCPU.cpp:214-231 | stall iff EX reads memory and its rt is ID's rs or rt; advance otherwise |
| Assn4Pipeline.InitialIdEx | assn4/PipelinedCPU.hpp:19-26 | ID/EX starts with no control set and cleared data |
| Assn4Pipeline.InitialMailboxes | assn4/PipelinedCPU.hpp:194-224 | the mailboxes start with RegWrite, MemRead and PCSrc clear, PCWrite and IFIDWrite set |
| Assn4Pipeline.Initial | assn4/PipelinedCPU.hpp:8-34 | the constructor's state, latches cleared and mailboxes at their initializers |
| Assn4Pipeline.WriteBackStage | assn4/PipelinedCPU.cpp:154-175 | WB publishes its port, then writes rd unless $0; nothing else changes |
| Assn4Pipeline.MemoryStage | assn4/PipelinedCPU.cpp:122-152 | MEM publishes its port (RegWrite, rd, ALU result), PCSrc and the target, then accesses memory; fails iff both flags or out of range; MEM/WB gets the ALU result, rd, WB controls and the loaded word for a load; a store writes readData2 at the ALU result |
| Assn4Pipeline.ExecuteStage | assn4/PipelinedCPU.cpp:79-120 | EX publishes MemRead and rt; only EX/MEM and those mailboxes change; EX/MEM gets the MEM and WB controls, rd chosen by RegDst, the target PC + 4 + immediate * 4, and a zero flag set iff the ALU result is zero |
| Assn4Pipeline.DecodeStage | assn4/PipelinedCPU.cpp:39-77 | fails iff Control rejects the opcode; publishes the hazard unit's PCWrite and IFIDWrite; ID/EX gets cleared controls on a stall and Control's otherwise, the rs and rt registers, PC + 4, the sign-extended immediate, rs, rt and rd |
| Assn4Pipeline.NextPc | assn4/PipelinedCPU.cpp:10-21 | held without PCWrite; the target when PCSrc; else PC + 4 |
| Assn4Pipeline.FetchStage | assn4/PipelinedCPU.cpp:3-37 | the PC becomes NextPc; IF/ID refilled only when IFIDWrite; fails out of range |
| Assn4Pipeline.Cycle | assn4/PipelinedCPU.hpp:40-47 | a successful cycle keeps the instruction memory, memory size and $0, and advances the counter |
| Assn4Pipeline.CycleThrough | assn4/PipelinedCPU.hpp:40-47 | when MEM and ID succeed, the cycle ends with IF |
| Assn4Pipeline.PipelinedCPU.constructor | assn4/PipelinedCPU.hpp:8-34 | stores both flags and builds Initial |
| Assn4Pipeline.PipelinedCPU.AdvanceCycle | assn4/PipelinedCPU.hpp:40-47 | ok iff Cycle succeeds, and then the new state is Cycle of the old one |
| Assn4Pipeline.PipelinedCPU.WriteBack | assn4/PipelinedCPU.cpp:154-175 | the new state is WriteBackStage of the old one |
| Assn4Pipeline.PipelinedCPU.MemoryAccess | assn4/PipelinedCPU.cpp:122-152 | ok iff MemoryStage succeeds, and the new state is its result |
| Assn4Pipeline.PipelinedCPU.AccessDataMemory | assn4/PipelinedCPU.cpp:145-146 | ok iff DataAccess succeeds; the word read and the memory are its result |
| Assn4Pipeline.PipelinedCPU.Execute | assn4/PipelinedCPU.cpp:79-120 | the new state is ExecuteStage of the old one |
| Assn4Pipeline.PipelinedCPU.InstructionDecode | assn4/PipelinedCPU.cpp:39-77 | ok iff DecodeStage succeeds, and the new state is its result |
| Assn4Pipeline.PipelinedCPU.InstructionFetch | assn4/PipelinedCPU.cpp:3-37 | ok iff FetchStage succeeds, and the new state is its result |
| Assn4Pipeline.PipelinedCPU.FetchIntoLatch | assn4/PipelinedCPU.cpp:30-36 | IF/ID gets the word at the PC and PC + 4, or the fetch fails out of range |
| Assn4PipelineProps.Stages | assn4/PipelinedCPU.hpp:40-47 | a successful cycle passes through each stage in order |
| Assn4PipelineProps.HazardDecision | assn4/PipelinedCPU.cpp:39-77 | PCWrite = IFIDWrite = no load-use; ID/EX controls are a bubble exactly on load-use |
| Assn4PipelineProps.StallHolds | assn4/PipelinedCPU.cpp:3-77 | on load-use, PC and IF/ID keep their values and ID/EX gets a bubble with the decoded fields |
| Assn4PipelineProps.OneBubble | assn4/PipelinedCPU.cpp:214-231 | after a stall the next cycle does not stall again, and IF/ID still holds the stalled instruction |
| Assn4PipelineProps.NextPcRule | assn4/PipelinedCPU.cpp:3-37 | PC held on a stall even over a taken branch; the target when taken; else PC + 4 |
| Assn4PipelineProps.ForwardedOperands | assn4/PipelinedCPU.cpp:79-120 | EX's operands are the latest values of rs and rt |
| Assn4PipelineProps.ExecuteForwards | assn4/PipelinedCPU.cpp:79-120 | EX/MEM's readData2 is the latest rt, and the ALU result is computed on the latest values |
| Assn4PipelineProps.BranchComparesLatest | assn4/PipelinedCPU.cpp:79-120 | beq's zero flag is set iff the latest values of rs and rt are equal |
| Assn4PipelineProps.LatchesAdvance | assn4/PipelinedCPU.cpp:79-152 | over a whole cycle: MEM/WB gets EX/MEM's ALU result, rd and WB controls; EX/MEM gets ID/EX's MEM and WB controls, rd chosen by RegDst and the target PC + 4 + immediate * 4 |
| Assn4PipelineProps.MemoryAccessEffect | assn4/PipelinedCPU.cpp:122-152 | over a whole cycle: MEM/WB's readData is the word at the ALU result for a load and unchanged otherwise; the data memory receives readData2 there for a store and is unchanged otherwise |
| Assn4PipelineProps.WriteBackBeforeDecode | assn4/PipelinedCPU.hpp:40-47 | ID reads a register after this cycle's write-back: the written value if WB wrote it, else the old value |
| Assn4PipelineProps.MailboxesTransient | assn4/PipelinedCPU.hpp:195-224 | the cycle does not depend on the mailboxes' values before it |
| Assn4PipelineProps.WriteBackMail | assn4/PipelinedCPU.cpp:154-175 | WB reads no mailbox and overwrites its port |
| Assn4PipelineProps.MemoryMail | assn4/PipelinedCPU.cpp:122-152 | MEM reads no mailbox and overwrites its port, PCSrc and the target |
| Assn4PipelineProps.ExecuteMail | assn4/PipelinedCPU.cpp:79-120 | EX reads only the two ports and overwrites MemRead and rt |
| Assn4PipelineProps.DecodeMail | assn4/PipelinedCPU.cpp:39-77 | ID reads only MemRead and rt and overwrites PCWrite and IFIDWrite |
| Assn4PipelineProps.AfterWriteBackMail | assn4/PipelinedCPU.hpp:195-224 | after WB, MEM, EX and ID give the same result whatever the other mailboxes held |
| Assn4PipelineProps.AfterMemoryMail | assn4/PipelinedCPU.cpp:39-120 | once MEM has filled the two forwarding ports, PCSrc and the target, EX and ID give the same result whatever the other mailboxes held |
| Assn4PipelineProps.FirstCycle | assn4/PipelinedCPU.hpp:8-34 | the first cycle neither stalls, branches nor forwards; PC + 4, registers and memory unchanged |
| Assn4PipelineProps.InitialMemoryStage | assn4/PipelinedCPU.hpp:8-34 | WB and MEM of the first cycle publish no write and no branch |

## Left out

- File I/O is not modelled:
  - The register file and memory constructors read their initial contents from files.
    Here the contents are constructor parameters.
  - For the same reason, `fopen`/`fscanf` failures are not modelled.
- Output is not modelled: `printPVS`, `printRegisters`, `printMemory` and every `printf`.
- The test mains (`testSingleCycleCPU.cpp`, `testPipelinedCPU.cpp`) and the multi-cycle loop they run are not modelled.
  The model proves properties of one cycle only.
- `new`/`delete` and the destructors are not modelled.
- Pointer arguments are taken to be non-null wherever the source assumes so without checking.
- State after a failure is left unspecified.
  - Failures are a failed `assert`, an unknown opcode in the assn3 Control, select 3 in `Mux3`, and MemRead with MemWrite.
  - The source aborts the process in these cases.
- An address past the 32 MB memory array is a failure in the model.
  - The source indexes the array out of bounds, which is undefined behaviour.
  - Memory methods require an address in range.
- `assn4/CPU.hpp`, `assn4/RegisterFile.cpp` and `assn4/Memory.cpp` are not part of this model.
  - The assn4 pipeline is modelled over the assn3 units, register file and memory.
  - Only `assn4/RegisterFile.hpp` is cited, for the register file constructor.
- The assn2 register file header is not part of this model; its constructor is taken to match `assn4/RegisterFile.hpp`.
- The enable flags of both pipelines are stored but never read, as in the source:
  - `enableDataForwarding` and `enableHazardDetection` in both;
  - `enableIDBranch` in assn3.

  Forwarding and hazard detection are always on in assn4 and absent in assn3.
- Assn4Units.ForwardingUnit: takes the EX/MEM and MEM/WB RegWrite and rd like the source, but the source decides from the mailboxes, so those parameters do not affect the result.
- Big-endian memories are modelled in `ByteMemory` and the memory classes, but no CPU builds one.
- Bitsets are `seq<bool>`, not machine bit-vectors. Width and wrap-around are stated through `Value` and explicit moduli.
- Assn2SingleCycle.Execute: its contract states only the register count. Its content is stated, instruction by instruction, by the Assn2SingleCycleProps step lemmas.
- Assn2SingleCycle.MemoryWriteBack: its contract states sizes only. Its content is stated by LoadWriteBack, ResultWriteBack, StoreStep and ZeroRegisterWritten in Assn2SingleCycleProps.
- Assn2SingleCycle.Retire: its contract states the invariants, the PC and the counter only. The memory and registers it leaves are stated by RTypeStep, AddImmediateStep, LoadStep, StoreStep, BranchStep and NoOpStep in Assn2SingleCycleProps.
- Assn2SingleCycle.Cycle: its contract states the invariants and the counter only. Its behaviour per opcode is stated by RTypeStep, NorDecoding, AddImmediateStep, LoadStep, StoreStep, BranchStep and NoOpStep, and its failures by OnlyAddressesFail, in Assn2SingleCycleProps.
- Assn3SingleCycle.Execute: its contract states the destination, the operand read and readData2, not the ALU result or the next PC. These are stated by RTypeExecute, AddImmediateExecute and BranchExecute in Assn3SingleCycleProps.
- Assn3SingleCycle.Retire: its contract states the invariants, $0, the PC and the counter only. The memory and registers it leaves are stated by the step lemmas in Assn3SingleCycleProps.
- Assn3SingleCycle.Cycle: its contract states the invariants, $0 and the counter only. Its behaviour per opcode is stated by RTypeStep, AddImmediateStep, LoadStep, StoreStep and BranchStep, and its abort by UnknownOpcodeAborts, in Assn3SingleCycleProps.
- Assn3SingleCycle.MemoryWriteBack: its contract states sizes and $0 only. Its content is stated by the load, store and write-back lemmas in Assn3SingleCycleProps.
- Assn3Pipeline.ExecuteStage: its contract does not state the ALU result. The result is stated by ExecuteAdds, ExecuteCompares and ExecuteFunct in Assn3PipelineProps.
- Assn3Pipeline.DecodeStage, Assn4Pipeline.DecodeStage: their contracts do not tie ID/EX to the previous cycle; WriteBackBeforeDecode and LatchesAdvance in the `*PipelineProps` modules do.
- Assn4Pipeline.ExecuteStage: its contract does not state the ALU result or readData2 with forwarding. ExecuteForwards, ForwardedOperands and BranchComparesLatest in Assn4PipelineProps do.
- Assn3Pipeline.Cycle, Assn4Pipeline.Cycle: their contracts state only the invariants. Their behaviour is stated by the lemmas in the two `*PipelineProps` modules.
- A concrete NOR example (a fixed pair of 32-bit operands) is not modelled. NOR is stated for all operands by CpuUnits.AluResult.
