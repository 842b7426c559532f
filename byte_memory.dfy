/**
 * What a word access to a byte-addressed memory means, independent of how
 * either memory class computes it: the word at address a is the four bytes
 * a..a+3, least significant byte first for a little-endian memory and most
 * significant byte first for a big-endian one.
 */
module ByteMemory {
  import opened Bitset

  datatype Endianness = LittleEndian | BigEndian

  /** Every memory holds 32 MB. */
  const MEMORY_SIZE: nat := 32 * 1024 * 1024

  /** Byte k (0 = least significant) of a word: `(w >> 8k) % 0x100`. */
  function ByteOf(w: Word, k: nat): (r: Byte)
    requires k < 4
    ensures Value(r) == (Value(w) / Pow2(8 * k)) % 256
  {
    ValueSlice(w, 8 * k, 8);
    Pow2Values();
    w[8 * k..8 * k + 8]
  }

  /** The memory offset, relative to the word's address, that holds byte k of the word. */
  function Offset(e: Endianness, k: nat): (i: nat)
    requires k < 4
    ensures i < 4
  {
    if e == LittleEndian then k else 3 - k
  }

  /** The word stored at a..a+3: bits are least significant first, so byte 0 comes first. */
  function WordAt(m: seq<Byte>, a: nat, e: Endianness): (w: Word)
    requires a + 3 < |m|
  {
    var b0: Bits, b1: Bits, b2: Bits, b3: Bits := m[a + Offset(e, 0)], m[a + Offset(e, 1)], m[a + Offset(e, 2)], m[a + Offset(e, 3)];
    b0 + b1 + b2 + b3
  }

  /** Byte k of the word at a is the memory byte at a + Offset(e, k). */
  lemma WordAtBytes(m: seq<Byte>, a: nat, e: Endianness)
    requires a + 3 < |m|
    ensures forall k :: 0 <= k < 4 ==> ByteOf(WordAt(m, a, e), k) == m[a + Offset(e, k)]
  {
    var w := WordAt(m, a, e);
    assert w[0..8] == m[a + Offset(e, 0)];
    assert w[8..16] == m[a + Offset(e, 1)];
    assert w[16..24] == m[a + Offset(e, 2)];
    assert w[24..32] == m[a + Offset(e, 3)];
  }

  /** The memory after storing w at a: byte k of w goes to a + Offset(e, k); nothing else changes. */
  function StoreWord(m: seq<Byte>, a: nat, w: Word, e: Endianness): (m': seq<Byte>)
    requires a + 3 < |m|
    ensures |m'| == |m|
    ensures forall k :: 0 <= k < 4 ==> m'[a + Offset(e, k)] == ByteOf(w, k)
    ensures forall i :: 0 <= i < |m| && !(a <= i <= a + 3) ==> m'[i] == m[i]
  {
    m[a + Offset(e, 0) := ByteOf(w, 0)][a + Offset(e, 1) := ByteOf(w, 1)]
     [a + Offset(e, 2) := ByteOf(w, 2)][a + Offset(e, 3) := ByteOf(w, 3)]
  }

  /** A word is determined by its four bytes. */
  lemma WordFromBytes(w: Word, v: Word)
    requires forall k :: 0 <= k < 4 ==> ByteOf(w, k) == ByteOf(v, k)
    ensures w == v
  {
    assert ByteOf(w, 0) == ByteOf(v, 0) && ByteOf(w, 1) == ByteOf(v, 1);
    assert ByteOf(w, 2) == ByteOf(v, 2) && ByteOf(w, 3) == ByteOf(v, 3);
    assert w == w[0..8] + w[8..16] + w[16..24] + w[24..32];
    assert v == v[0..8] + v[8..16] + v[16..24] + v[24..32];
  }

  /** Reading back a word just stored at the same address, with the same endianness, returns it. */
  lemma LoadAfterStore(m: seq<Byte>, a: nat, w: Word, e: Endianness)
    requires a + 3 < |m|
    ensures WordAt(StoreWord(m, a, w, e), a, e) == w
  {
    var r := WordAt(StoreWord(m, a, w, e), a, e);
    WordAtBytes(StoreWord(m, a, w, e), a, e);
    WordFromBytes(r, w);
  }

  /** Storing a word leaves every word that does not overlap it unchanged. */
  lemma LoadDisjoint(m: seq<Byte>, a: nat, b: nat, w: Word, e: Endianness)
    requires a + 3 < |m| && b + 3 < |m| && (b + 3 < a || a + 3 < b)
    ensures WordAt(StoreWord(m, a, w, e), b, e) == WordAt(m, b, e)
  {
    var m' := StoreWord(m, a, w, e);
    WordAtBytes(m', b, e);
    WordAtBytes(m, b, e);
    WordFromBytes(WordAt(m', b, e), WordAt(m, b, e));
  }

  /** Storing the word already at an address changes nothing. */
  lemma StoreLoaded(m: seq<Byte>, a: nat, e: Endianness)
    requires a + 3 < |m|
    ensures StoreWord(m, a, WordAt(m, a, e), e) == m
  {
    var m' := StoreWord(m, a, WordAt(m, a, e), e);
    WordAtBytes(m, a, e);
    assert forall i :: 0 <= i < |m| ==> m'[i] == m[i] by {
      forall i | 0 <= i < |m| && a <= i <= a + 3
        ensures m'[i] == m[i]
      {
        var k := if e == LittleEndian then i - a else 3 - (i - a);
        assert i == a + Offset(e, k);
      }
    }
  }

  /** The little-endian word's value: m[a] + 2^8 m[a+1] + 2^16 m[a+2] + 2^24 m[a+3]; big-endian reverses the bytes. */
  lemma WordAtValue(m: seq<Byte>, a: nat, e: Endianness)
    requires a + 3 < |m|
    ensures var b0, b1, b2, b3 := Value(m[a + Offset(e, 0)]), Value(m[a + Offset(e, 1)]),
                                  Value(m[a + Offset(e, 2)]), Value(m[a + Offset(e, 3)]);
      Value(WordAt(m, a, e)) == b0 + 0x100 * b1 + 0x1_0000 * b2 + 0x100_0000 * b3
  {
    var x0: Bits, x1: Bits, x2: Bits, x3: Bits := m[a + Offset(e, 0)], m[a + Offset(e, 1)], m[a + Offset(e, 2)], m[a + Offset(e, 3)];
    Pow2Values();
    ValueAppend(x2, x3);
    ValueAppend(x1, x2 + x3);
    ValueAppend(x0, x1 + (x2 + x3));
    assert x0 + x1 + x2 + x3 == x0 + (x1 + (x2 + x3));
  }

  /** `(w.to_ulong() >> 8k) % 0x100` narrowed to a byte is byte k of w. */
  lemma ByteField(w: Word, k: nat, shifted: nat)
    requires k < 4 && shifted == Value(w) / Pow2(8 * k)
    ensures FromNat(8, shifted % 0x100) == ByteOf(w, k)
  {
    Pow2Values();
    FromNatValue(ByteOf(w, k));
  }

  /** The four stored bytes `(w.to_ulong() >> 8k) % 0x100` are the bytes of w. */
  lemma ByteFields(w: Word)
    ensures var v := Value(w);
      && FromNat(8, v % 0x100) == ByteOf(w, 0) && FromNat(8, (v / 0x100) % 0x100) == ByteOf(w, 1)
      && FromNat(8, (v / 0x1_0000) % 0x100) == ByteOf(w, 2) && FromNat(8, (v / 0x100_0000) % 0x100) == ByteOf(w, 3)
  {
    var v := Value(w);
    Pow2Values();
    ByteField(w, 0, v);
    ByteField(w, 1, v / 0x100);
    ByteField(w, 2, v / 0x1_0000);
    ByteField(w, 3, v / 0x100_0000);
  }
}
