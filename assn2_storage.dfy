/**
 * The storage units of the assn2 single-cycle CPU (the debug copy has the
 * same code): a byte-addressed memory whose word accesses are assembled
 * with bitset arithmetic, and a register file that reads both ports before
 * writing and does not protect register 0.
 */
module Assn2Storage {
  import opened Bitset
  import opened Mips
  import opened ByteMemory

  /** `*readData = readData->to_ulong() + byte.to_ulong()`: the sum, kept modulo 2^32. */
  function AddByte(acc: Word, b: Byte): (r: Word)
    ensures Value(r) == (Value(acc) + Value(b)) % 0x1_0000_0000
    ensures Value(acc) <= 0xFFFF_FF00 ==> Value(r) == Value(acc) + Value(b) < Value(acc) + 0x100
  {
    WordFromNatValue(Value(acc) + Value(b));
    if Value(acc) <= 0xFFFF_FF00 then AddByteBelow(acc, b); FromNat(32, Value(acc) + Value(b))
    else FromNat(32, Value(acc) + Value(b))
  }

  /** Adding a byte to a word with room for it does not wrap. */
  lemma AddByteBelow(acc: Word, b: Byte)
    requires Value(acc) <= 0xFFFF_FF00
    ensures (Value(acc) + Value(b)) % 0x1_0000_0000 == Value(acc) + Value(b) < Value(acc) + 0x100
  {
    ValueBound(b);
    Pow2Values();
    DivModUnique(Value(acc) + Value(b), 0x1_0000_0000, 0, Value(acc) + Value(b));
  }

  /** `<<= 8` on a word below 2^24 multiplies it by 256 exactly. */
  lemma ShlByte(acc: Word)
    requires Value(acc) < 0x100_0000
    ensures Value(Shl(acc, 8)) == 0x100 * Value(acc)
  {
    Pow2Values();
    DivModUnique(0x100 * Value(acc), 0x1_0000_0000, 0, 0x100 * Value(acc));
  }

  /** A word whose value is the four bytes weighted most significant first (byte 3 of the word first) is the word at a. */
  lemma Assembled(m: seq<Byte>, a: nat, e: Endianness, r: Word)
    requires a + 3 < |m|
    requires Value(r) == Value(m[a + Offset(e, 0)]) + 0x100 * Value(m[a + Offset(e, 1)])
                         + 0x1_0000 * Value(m[a + Offset(e, 2)]) + 0x100_0000 * Value(m[a + Offset(e, 3)])
    ensures r == WordAt(m, a, e)
  {
    WordAtValue(m, a, e);
    assert Value(r) == Value(WordAt(m, a, e));
    ValueInjective(r, WordAt(m, a, e));
  }

  /**
   * The read's arithmetic: readData is reset, the most significant byte
   * added, and for each lower byte the word is shifted left by 8 and the
   * byte added.
   */
  method AssembleWord(readData: Word, b3: Byte, b2: Byte, b1: Byte, b0: Byte) returns (readOut: Word)
    ensures Value(readOut) == Value(b0) + 0x100 * Value(b1) + 0x1_0000 * Value(b2) + 0x100_0000 * Value(b3)
  {
    readOut := Reset(readData);
    readOut := AddByte(readOut, b3);
    ShlByte(readOut);
    readOut := Shl(readOut, 8);
    readOut := AddByte(readOut, b2);
    ShlByte(readOut);
    readOut := Shl(readOut, 8);
    readOut := AddByte(readOut, b1);
    ShlByte(readOut);
    readOut := Shl(readOut, 8);
    readOut := AddByte(readOut, b0);
  }

  class Memory {
    const endianness: Endianness
    const bytes: array<Byte>

    /** A 32 MB memory of the given contents; loading them from a file is not modelled. */
    constructor (endianness: Endianness, init: seq<Byte>)
      requires |init| == MEMORY_SIZE
      ensures this.endianness == endianness && fresh(bytes) && bytes[..] == init
    {
      this.endianness := endianness;
      bytes := new Byte[|init|](i requires 0 <= i < |init| => init[i]);
    }

    /**
     * A word access.  Both flags set aborts the simulator (ok is false and
     * nothing changes); a read clears readData and builds the word from the
     * four bytes, most significant first; a write stores the four bytes of
     * writeData; with neither flag nothing happens.  The address is not
     * checked against the memory's size.
     */
    method Access(address: Word, writeData: Word, memRead: bool, memWrite: bool, readData: Word)
      returns (ok: bool, readOut: Word)
      requires memRead != memWrite ==> Value(address) + 3 < bytes.Length
      modifies bytes
      ensures ok <==> !(memRead && memWrite)
      ensures readOut == if ok && memRead then WordAt(old(bytes[..]), Value(address), endianness) else readData
      ensures bytes[..] == if ok && memWrite then StoreWord(old(bytes[..]), Value(address), writeData, endianness)
                           else old(bytes[..])
    {
      readOut := readData;
      if memRead && memWrite {
        ok := false;
        return;
      }
      ok := true;
      if memRead {
        readOut := Read(Value(address), readData);
      } else if memWrite {
        Write(Value(address), writeData);
      }
    }

    /** The read branch: readData is reset, then built from the bytes, most significant first. */
    method Read(a: nat, readData: Word) returns (readOut: Word)
      requires a + 3 < bytes.Length
      ensures readOut == WordAt(bytes[..], a, endianness)
    {
      var b0, b1, b2, b3 := bytes[a + Offset(endianness, 0)], bytes[a + Offset(endianness, 1)],
                            bytes[a + Offset(endianness, 2)], bytes[a + Offset(endianness, 3)];
      readOut := AssembleWord(readData, b3, b2, b1, b0);
      Assembled(bytes[..], a, endianness, readOut);
    }

    /** The write branch: byte k of the word is `(writeData >> 8k) % 0x100`. */
    method Write(a: nat, writeData: Word)
      requires a + 3 < bytes.Length
      modifies bytes
      ensures bytes[..] == StoreWord(old(bytes[..]), a, writeData, endianness)
    {
      ghost var m: seq<Byte> := bytes[..];
      var v := Value(writeData);
      var x0: Byte, x1: Byte := FromNat(8, v % 0x100), FromNat(8, (v / 0x100) % 0x100);
      var x2: Byte, x3: Byte := FromNat(8, (v / 0x1_0000) % 0x100), FromNat(8, (v / 0x100_0000) % 0x100);
      bytes[a + Offset(endianness, 0)] := x0;
      bytes[a + Offset(endianness, 1)] := x1;
      bytes[a + Offset(endianness, 2)] := x2;
      bytes[a + Offset(endianness, 3)] := x3;
      assert bytes[..] == m[a + Offset(endianness, 0) := x0][a + Offset(endianness, 1) := x1]
                           [a + Offset(endianness, 2) := x2][a + Offset(endianness, 3) := x3];
      ByteFields(writeData);
    }
  }

  class RegisterFile {
    const regs: array<Word>

    ghost predicate Valid()
    {
      regs.Length == 32
    }

    /** Every register cleared, then the given values loaded into every register but $0. */
    constructor (init: seq<Word>)
      requires |init| == 32
      ensures Valid() && fresh(regs) && regs[..] == init[0 := Zeros(32)]
    {
      regs := new Word[32](i requires 0 <= i < 32 => if i == 0 then Zeros(32) else init[i]);
    }

    /**
     * Both read ports are read first; then, when regWrite is set, the
     * write register receives writeData, register 0 included.
     */
    method Access(readRegister1: Bits5, readRegister2: Bits5, writeRegister: Bits5, writeData: Word, regWrite: bool)
      returns (readData1: Word, readData2: Word)
      requires Valid()
      modifies regs
      ensures Valid()
      ensures readData1 == old(regs[Index(readRegister1)]) && readData2 == old(regs[Index(readRegister2)])
      ensures regs[..] == if regWrite then old(regs[..])[Index(writeRegister) := writeData] else old(regs[..])
      ensures forall i :: 0 <= i < 32 && i != Index(writeRegister) ==> regs[i] == old(regs[i])
    {
      readData1 := regs[Index(readRegister1)];
      readData2 := regs[Index(readRegister2)];
      if regWrite {
        regs[Index(writeRegister)] := writeData;
      }
    }
  }
}
