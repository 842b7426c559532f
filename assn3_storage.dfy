/**
 * The storage units shared by the assn3 single-cycle CPU and both pipelines:
 * a byte-addressed memory that assembles words in a 32-bit unsigned integer,
 * and a register file that writes before it reads and never writes
 * register 0.  A pointer argument the code tests against null is an Option.
 */
module Assn3Storage {
  import opened Bitset
  import opened Mips
  import opened ByteMemory

  /** The number of values of a 32-bit unsigned integer. */
  const UINT32_RANGE: nat := 0x1_0000_0000

  /** `value <<= 8` on a `std::uint32_t`: the bits shifted past bit 31 are lost. */
  function ShiftUint32(value: nat): (r: nat)
    ensures r < UINT32_RANGE
    ensures value < 0x100_0000 ==> r == 0x100 * value
  {
    (0x100 * value) % UINT32_RANGE
  }

  /** A byte's value is below 0x100. */
  lemma ByteBound(b: Byte)
    ensures Value(b) < 0x100
  {
    ValueBound(b);
    Pow2Values();
  }

  /** The word `std::bitset<32>(value)` read back by the memory is the word at a. */
  lemma AssembledValue(m: seq<Byte>, a: nat, e: Endianness, value: nat)
    requires a + 3 < |m|
    requires value == Value(m[a + Offset(e, 0)]) + 0x100 * Value(m[a + Offset(e, 1)])
                      + 0x1_0000 * Value(m[a + Offset(e, 2)]) + 0x100_0000 * Value(m[a + Offset(e, 3)])
    ensures FromNat(32, value) == WordAt(m, a, e)
  {
    WordAtValue(m, a, e);
    assert value == Value(WordAt(m, a, e));
    FromNatValue(WordAt(m, a, e));
  }

  /** The successive `value % 0x100; value >>= 8` steps of a write give the bytes of the word. */
  lemma SplitValue(w: Word)
    ensures var v := Value(w);
      && FromNat(8, v % 0x100) == ByteOf(w, 0) && FromNat(8, (v / 0x100) % 0x100) == ByteOf(w, 1)
      && FromNat(8, ((v / 0x100) / 0x100) % 0x100) == ByteOf(w, 2)
      && FromNat(8, (((v / 0x100) / 0x100) / 0x100) % 0x100) == ByteOf(w, 3)
  {
    var v := Value(w);
    ByteFields(w);
    DivDiv(v, 0x100, 0x100);
    assert (v / 0x100) / 0x100 == v / 0x1_0000;
    DivDiv(v, 0x1_0000, 0x100);
    assert ((v / 0x100) / 0x100) / 0x100 == v / 0x100_0000;
  }

  lemma DivDiv(n: nat, c: nat, d: nat)
    requires c > 0 && d > 0
    ensures (n / c) / d == n / (c * d)
  {
    var q, r, s := (n / c) / d, (n / c) % d, n % c;
    assert n / c == d * q + r;
    assert n == c * (n / c) + s;
    assert c * (d * q + r) == (c * d) * q + c * r;
    assert c * r + s < c * d by {
      assert c * r <= c * (d - 1);
    }
    DivModUnique(n, c * d, q, c * r + s);
  }

  class Memory {
    const endianness: Endianness
    const bytes: array<Byte>

    /** A 32 MB memory of the given contents; loading them from a file is not modelled. */
    constructor (endianness: Endianness, init: seq<Byte>)
      requires |init| == MEMORY_SIZE
      ensures this.endianness == endianness && fresh(bytes) && bytes[..] == init
    {
      this.endianness := endianness;
      bytes := new Byte[|init|](i requires 0 <= i < |init| => init[i]);
    }

    /**
     * A word access.  memWrite may be null, which counts as cleared.  Both
     * flags set aborts the simulator (ok is false and nothing changes); a
     * read assembles the word and stores it into readData; a write stores
     * the four bytes of writeData; with neither flag nothing happens.
     */
    method Access(address: Word, writeData: Option<Word>, memRead: bool, memWrite: Option<bool>, readData: Word)
      returns (ok: bool, readOut: Word)
      requires memRead || memWrite == Some(true) ==> Value(address) + 3 < bytes.Length
      requires !memRead && memWrite == Some(true) ==> writeData.Some?
      modifies bytes
      ensures ok <==> !(memRead && memWrite == Some(true))
      ensures readOut == if ok && memRead then WordAt(old(bytes[..]), Value(address), endianness) else readData
      ensures bytes[..] == if ok && memWrite == Some(true)
                           then StoreWord(old(bytes[..]), Value(address), writeData.value, endianness)
                           else old(bytes[..])
    {
      readOut := readData;
      if memRead && (memWrite.Some? && memWrite.value) {
        ok := false;
        return;
      }
      ok := true;
      if memRead {
        readOut := Read(Value(address));
      } else if memWrite.Some? && memWrite.value {
        Write(Value(address), writeData.value);
      }
    }

    /** The read branch: a 32-bit unsigned value gathers the bytes, most significant first. */
    method Read(a: nat) returns (readOut: Word)
      requires a + 3 < bytes.Length
      ensures readOut == WordAt(bytes[..], a, endianness)
    {
      var b0, b1, b2, b3 := bytes[a + Offset(endianness, 0)], bytes[a + Offset(endianness, 1)],
                            bytes[a + Offset(endianness, 2)], bytes[a + Offset(endianness, 3)];
      ByteBound(b0);
      ByteBound(b1);
      ByteBound(b2);
      ByteBound(b3);
      var value: nat := 0;
      value := value + Value(b3);
      value := ShiftUint32(value);
      value := value + Value(b2);
      value := ShiftUint32(value);
      value := value + Value(b1);
      value := ShiftUint32(value);
      value := value + Value(b0);
      assert value == Value(b0) + 0x100 * Value(b1) + 0x1_0000 * Value(b2) + 0x100_0000 * Value(b3);
      AssembledValue(bytes[..], a, endianness, value);
      readOut := FromNat(32, value);
    }

    /** The write branch: the low byte of a 32-bit unsigned value is stored, then the value shifted right by 8. */
    method Write(a: nat, writeData: Word)
      requires a + 3 < bytes.Length
      modifies bytes
      ensures bytes[..] == StoreWord(old(bytes[..]), a, writeData, endianness)
    {
      ghost var m: seq<Byte> := bytes[..];
      var value := Value(writeData);
      var x0: Byte := FromNat(8, value % 0x100);
      value := value / 0x100;
      var x1: Byte := FromNat(8, value % 0x100);
      value := value / 0x100;
      var x2: Byte := FromNat(8, value % 0x100);
      value := value / 0x100;
      var x3: Byte := FromNat(8, value % 0x100);
      bytes[a + Offset(endianness, 0)] := x0;
      bytes[a + Offset(endianness, 1)] := x1;
      bytes[a + Offset(endianness, 2)] := x2;
      bytes[a + Offset(endianness, 3)] := x3;
      assert bytes[..] == m[a + Offset(endianness, 0) := x0][a + Offset(endianness, 1) := x1]
                           [a + Offset(endianness, 2) := x2][a + Offset(endianness, 3) := x3];
      SplitValue(writeData);
    }
  }

  class RegisterFile {
    const regs: array<Word>

    ghost predicate Valid()
    {
      regs.Length == 32
    }

    /** Every register cleared, then the given values loaded into every register but $0. */
    constructor (init: seq<Word>)
      requires |init| == 32
      ensures Valid() && fresh(regs) && regs[..] == init[0 := Zeros(32)]
    {
      regs := new Word[32](i requires 0 <= i < 32 => if i == 0 then Zeros(32) else init[i]);
    }

    /**
     * A write happens first, when regWrite is present and set and the
     * write register is not $0; then, when both read indices are present,
     * the two read ports are read (seeing that write).  Otherwise the read
     * outputs keep the values they had.
     */
    method Access(readRegister1: Option<Bits5>, readRegister2: Option<Bits5>,
                  writeRegister: Option<Bits5>, writeData: Option<Word>, regWrite: Option<bool>,
                  readData1: Word, readData2: Word)
      returns (readOut1: Word, readOut2: Word)
      requires Valid()
      requires regWrite == Some(true) ==> writeRegister.Some? && writeData.Some?
      modifies regs
      ensures Valid()
      ensures regs[..] == if regWrite == Some(true) && Index(writeRegister.value) != 0
                          then old(regs[..])[Index(writeRegister.value) := writeData.value]
                          else old(regs[..])
      ensures regs[0] == old(regs[0])
      ensures readRegister1.Some? && readRegister2.Some? ==>
                readOut1 == regs[Index(readRegister1.value)] && readOut2 == regs[Index(readRegister2.value)]
      ensures !(readRegister1.Some? && readRegister2.Some?) ==> readOut1 == readData1 && readOut2 == readData2
    {
      readOut1, readOut2 := readData1, readData2;
      if regWrite.Some? && regWrite.value {
        if Index(writeRegister.value) != 0 {
          regs[Index(writeRegister.value)] := writeData.value;
        }
      }
      if readRegister1.Some? && readRegister2.Some? {
        readOut1 := regs[Index(readRegister1.value)];
        readOut2 := regs[Index(readRegister2.value)];
      }
    }
  }
}
