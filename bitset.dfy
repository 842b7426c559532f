/**
 * A std::bitset<W> as a sequence of W booleans: element i is bit i, so the
 * least significant bit comes first.  `Value` is `to_ulong()`, `FromNat(w, n)`
 * is the constructor `std::bitset<w>(n)`, which keeps the low w bits of n.
 */
module Bitset {

  type Bits = seq<bool>

  type Word = s: Bits | |s| == 32 witness seq(32, _ => false)
  type Half = s: Bits | |s| == 16 witness seq(16, _ => false)
  type Byte = s: Bits | |s| == 8 witness seq(8, _ => false)
  type Bits6 = s: Bits | |s| == 6 witness seq(6, _ => false)
  type Bits5 = s: Bits | |s| == 5 witness seq(5, _ => false)
  type Bits4 = s: Bits | |s| == 4 witness seq(4, _ => false)
  type Bits2 = s: Bits | |s| == 2 witness seq(2, _ => false)

  function Pow2(n: nat): (r: nat)
    ensures r >= 1
  {
    if n == 0 then 1 else 2 * Pow2(n - 1)
  }

  /** The all-zero bitset of width w, as after `reset()`. */
  function Zeros(w: nat): (r: Bits)
    ensures |r| == w && forall i :: 0 <= i < w ==> !r[i]
  {
    seq(w, _ => false)
  }

  /** `reset()`: every bit cleared, the width kept. */
  function Reset(s: Bits): (r: Bits)
    ensures |r| == |s| && Value(r) == 0
  {
    ValueZeros(|s|);
    Zeros(|s|)
  }

  /** The bitset of width w holding the number one, as `std::bitset<w>(1)`. */
  function One(w: nat): (r: Bits)
    requires w >= 1
    ensures |r| == w && r[0] && forall i :: 1 <= i < w ==> !r[i]
  {
    [true] + Zeros(w - 1)
  }

  /** `std::bitset<32>(0)` and `std::bitset<32>(1)`. */
  const ZERO_WORD: Word := Zeros(32)
  const ONE_WORD: Word := One(32)

  lemma WordConstValues()
    ensures Value(ZERO_WORD) == 0 && Value(ONE_WORD) == 1
  {
    ValueZeros(32);
    ValueOne(32);
  }

  /** Unsigned value of a bitset (`to_ulong`). */
  function Value(s: Bits): nat
  {
    if |s| == 0 then 0 else (if s[0] then 1 else 0) + 2 * Value(s[1..])
  }

  /** `std::bitset<w>(n)`: the low w bits of n. */
  function FromNat(w: nat, n: nat): (r: Bits)
    ensures |r| == w
  {
    if w == 0 then [] else [n % 2 == 1] + FromNat(w - 1, n / 2)
  }

  /** Two's-complement value of a non-empty bitset; its top bit is the sign. */
  function Signed(s: Bits): int
    requires |s| > 0
  {
    Value(s) - (if s[|s| - 1] then Pow2(|s|) else 0)
  }

  /** `none()`: no bit is set. */
  predicate NoneSet(s: Bits)
  {
    forall i :: 0 <= i < |s| ==> !s[i]
  }

  function BitAnd(a: Bits, b: Bits): (r: Bits)
    requires |a| == |b|
    ensures |r| == |a| && forall i :: 0 <= i < |a| ==> r[i] == (a[i] && b[i])
  {
    seq(|a|, i requires 0 <= i < |a| => a[i] && b[i])
  }

  function BitOr(a: Bits, b: Bits): (r: Bits)
    requires |a| == |b|
    ensures |r| == |a| && forall i :: 0 <= i < |a| ==> r[i] == (a[i] || b[i])
  {
    seq(|a|, i requires 0 <= i < |a| => a[i] || b[i])
  }

  function BitNot(a: Bits): (r: Bits)
    ensures |r| == |a| && forall i :: 0 <= i < |a| ==> r[i] == !a[i]
  {
    seq(|a|, i requires 0 <= i < |a| => !a[i])
  }

  /** The sum of two bitsets of one width, truncated to that width. */
  function AddBits(a: Bits, b: Bits): (r: Bits)
    requires |a| == |b|
    ensures |r| == |a| && Value(r) == (Value(a) + Value(b)) % Pow2(|a|)
  {
    ValueFromNat(|a|, Value(a) + Value(b));
    FromNat(|a|, Value(a) + Value(b))
  }

  lemma Pow2Values()
    ensures Pow2(1) == 2 && Pow2(2) == 4 && Pow2(3) == 8 && Pow2(4) == 16 && Pow2(5) == 32
    ensures Pow2(6) == 64 && Pow2(8) == 256 && Pow2(11) == 0x800 && Pow2(15) == 0x8000
    ensures Pow2(16) == 0x1_0000 && Pow2(21) == 0x20_0000 && Pow2(24) == 0x100_0000
    ensures Pow2(26) == 0x400_0000 && Pow2(29) == 0x2000_0000 && Pow2(31) == 0x8000_0000 && Pow2(32) == 0x1_0000_0000
  {
  }

  // ---------------------------------------------------------------------
  // Value and FromNat

  lemma {:induction false} ValueBound(s: Bits)
    ensures Value(s) < Pow2(|s|)
  {
    if |s| > 0 {
      ValueBound(s[1..]);
    }
  }

  lemma ModHalf(n: nat, m: nat)
    requires m >= 1
    ensures n % (2 * m) == n % 2 + 2 * ((n / 2) % m)
  {
    var q := (n / 2) / m;
    var r := (n / 2) % m;
    assert n / 2 == q * m + r;
    assert n == 2 * (q * m) + 2 * r + n % 2;
    assert n == (2 * m) * q + (2 * r + n % 2);
    assert 0 <= 2 * r + n % 2 < 2 * m;
    DivModUnique(n, 2 * m, q, 2 * r + n % 2);
  }

  lemma DivModUnique(n: int, d: int, q: int, r: int)
    requires d > 0 && 0 <= r < d && n == d * q + r
    ensures n % d == r && n / d == q
  {
    var q', r' := n / d, n % d;
    assert d * q' + r' == d * q + r;
    if q > q' {
      MulAtLeast(d, q - q');
      assert false;
    } else if q < q' {
      MulAtLeast(d, q' - q);
      assert false;
    }
  }

  /** Reducing the left summand first does not change the residue. */
  lemma ModAdd(x: int, y: int, d: int)
    requires d > 0
    ensures ((x % d) + y) % d == (x + y) % d
  {
    var r := (x + y) % d;
    DivModUnique(x + y, d, (x + y) / d, r);
    DivModUnique((x % d) + y, d, (x + y) / d - x / d, r);
  }

  /** Word addition as a number: the sum modulo 2^32. */
  lemma WordAddValue(a: Word, b: Word)
    ensures Value(AddBits(a, b)) == (Value(a) + Value(b)) % 0x1_0000_0000
  {
    Pow2Values();
  }

  lemma {:induction false} MulAtLeast(d: int, k: int)
    requires d > 0 && k >= 1
    ensures d * k >= d
    decreases k
  {
    if k > 1 {
      MulAtLeast(d, k - 1);
      assert d * k == d * (k - 1) + d;
    }
  }

  lemma {:induction false} ValueFromNat(w: nat, n: nat)
    ensures Value(FromNat(w, n)) == n % Pow2(w)
  {
    if w > 0 {
      var r := FromNat(w, n);
      assert r[1..] == FromNat(w - 1, n / 2);
      ValueFromNat(w - 1, n / 2);
      ModHalf(n, Pow2(w - 1));
    }
  }

  lemma {:induction false} FromNatValue(s: Bits)
    ensures FromNat(|s|, Value(s)) == s
  {
    if |s| > 0 {
      var v := Value(s[1..]);
      var b := if s[0] then 1 else 0;
      assert Value(s) == b + 2 * v;
      assert Value(s) % 2 == b && Value(s) / 2 == v;
      FromNatValue(s[1..]);
      assert FromNat(|s|, Value(s)) == [s[0]] + s[1..];
    }
  }

  /** The value of a word is below 2^32. */
  lemma WordBound(a: Word)
    ensures Value(a) < 0x1_0000_0000
  {
    ValueBound(a);
    Pow2Values();
  }

  /** `std::bitset<32>(n)` keeps n modulo 2^32. */
  lemma WordFromNatValue(n: nat)
    ensures Value(FromNat(32, n)) == n % 0x1_0000_0000
  {
    ValueFromNat(32, n);
    Pow2Values();
  }

  /** Distinct bitsets of one width have distinct values. */
  lemma ValueInjective(s: Bits, t: Bits)
    requires |s| == |t| && Value(s) == Value(t)
    ensures s == t
  {
    FromNatValue(s);
    FromNatValue(t);
  }

  /** Two bitsets of one width are equal exactly when their values are. */
  lemma ValueEq(s: Bits, t: Bits)
    requires |s| == |t|
    ensures s == t <==> Value(s) == Value(t)
  {
    if Value(s) == Value(t) {
      ValueInjective(s, t);
    }
  }

  lemma FromNatMod(w: nat, n: nat)
    ensures FromNat(w, n) == FromNat(w, n % Pow2(w))
  {
    var p := Pow2(w);
    DivModUnique(n % p, p, 0, n % p);
    ValueFromNat(w, n);
    ValueFromNat(w, n % Pow2(w));
    ValueInjective(FromNat(w, n), FromNat(w, n % Pow2(w)));
  }

  lemma {:induction false} ValueAppend(s: Bits, t: Bits)
    ensures Value(s + t) == Value(s) + Pow2(|s|) * Value(t)
  {
    if |s| > 0 {
      assert (s + t)[1..] == s[1..] + t;
      ValueAppend(s[1..], t);
      var b, p, v, r := (if s[0] then 1 else 0), Pow2(|s| - 1), Value(t), Value(s[1..]);
      assert Value(s + t) == b + 2 * Value(s[1..] + t);
      assert Value(s[1..] + t) == r + p * v;
      assert Value(s) == b + 2 * r && Pow2(|s|) == 2 * p;
      DoubleProduct(p, v);
    } else {
      assert s + t == t;
    }
  }

  lemma DoubleProduct(p: int, v: int)
    ensures 2 * (p * v) == (2 * p) * v
  {
  }

  /** The value of a prefix grows by bit i's weight when bit i is included. */
  lemma ValuePrefix(s: Bits, i: nat)
    requires i < |s|
    ensures Value(s[..i + 1]) == Value(s[..i]) + (if s[i] then Pow2(i) else 0)
  {
    assert s[..i + 1] == s[..i] + [s[i]];
    ValueAppend(s[..i], [s[i]]);
    assert Value([s[i]]) == (if s[i] then 1 else 0) + 2 * Value([]);
  }

  lemma {:induction false} ValueZeros(w: nat)
    ensures Value(Zeros(w)) == 0
  {
    if w > 0 {
      assert Zeros(w)[1..] == Zeros(w - 1);
      ValueZeros(w - 1);
    }
  }

  lemma ValueOne(w: nat)
    requires w >= 1
    ensures Value(One(w)) == 1
  {
    assert One(w)[1..] == Zeros(w - 1);
    ValueZeros(w - 1);
  }

  /** `none()` holds exactly when the value is zero. */
  lemma NoneIffZero(s: Bits)
    ensures NoneSet(s) <==> Value(s) == 0
  {
    if NoneSet(s) {
      assert s == Zeros(|s|);
      ValueZeros(|s|);
    } else {
      var i :| 0 <= i < |s| && s[i];
      ValueAppend(s[..i], s[i..]);
      assert s == s[..i] + s[i..];
      assert Value(s[i..]) >= 1 by {
        assert s[i..][0];
      }
    }
  }

  lemma {:induction false} ValueNot(s: Bits)
    ensures Value(BitNot(s)) == Pow2(|s|) - 1 - Value(s)
  {
    if |s| > 0 {
      assert BitNot(s)[1..] == BitNot(s[1..]);
      ValueNot(s[1..]);
    }
  }

  /** The top bit carries the weight 2^(w-1). */
  lemma ValueTopBit(s: Bits)
    requires |s| > 0
    ensures s[|s| - 1] <==> Value(s) >= Pow2(|s| - 1)
  {
    var n := |s| - 1;
    assert s == s[..n] + [s[n]];
    ValueAppend(s[..n], [s[n]]);
    assert Value([s[n]]) == (if s[n] then 1 else 0) + 2 * Value([]);
    ValueBound(s[..n]);
  }

  /** The two's-complement value lies in [-2^(w-1), 2^(w-1)). */
  lemma SignedRange(s: Bits)
    requires |s| > 0
    ensures -(Pow2(|s| - 1) as int) <= Signed(s) < Pow2(|s| - 1)
  {
    ValueTopBit(s);
    ValueBound(s);
  }

  /** Bits [lo, lo + k) of s read as a number: the C++ `(x >> lo) & (2^k - 1)`. */
  lemma {:induction false} ValueSlice(s: Bits, lo: nat, k: nat)
    requires lo + k <= |s|
    ensures Value(s[lo..lo + k]) == (Value(s) / Pow2(lo)) % Pow2(k)
  {
    var low, mid, high := s[..lo], s[lo..lo + k], s[lo + k..];
    assert s == low + (mid + high);
    ValueAppend(low, mid + high);
    ValueAppend(mid, high);
    ValueBound(low);
    ValueBound(mid);
    var v := Value(mid) + Pow2(k) * Value(high);
    assert Value(s) == Value(low) + Pow2(lo) * v;
    DivModUnique(Value(s), Pow2(lo), v, Value(low));
    DivModUnique(v, Pow2(k), Value(high), Value(mid));
  }

  /** Extracting a field as the source does (shift, mask, narrow) yields the bit slice. */
  lemma FieldIsSlice(s: Bits, lo: nat, k: nat)
    requires lo + k <= |s|
    ensures FromNat(k, (Value(s) / Pow2(lo)) % Pow2(k)) == s[lo..lo + k]
  {
    ValueSlice(s, lo, k);
    FromNatValue(s[lo..lo + k]);
  }

  lemma {:induction false} Pow2Add(n: nat, m: nat)
    ensures Pow2(n + m) == Pow2(n) * Pow2(m)
    decreases n
  {
    if n > 0 {
      Pow2Add(n - 1, m);
      assert Pow2(n + m) == 2 * Pow2(n - 1 + m);
      assert 2 * (Pow2(n - 1) * Pow2(m)) == (2 * Pow2(n - 1)) * Pow2(m);
    }
  }

  lemma ScaleMod(v: nat, c: nat, m: nat)
    requires c > 0 && m > 0
    ensures c * (v % m) == (c * v) % (c * m)
  {
    var q, r := v / m, v % m;
    assert v == m * q + r;
    assert c * v == (c * m) * q + c * r;
    assert c * r < c * m;
    DivModUnique(c * v, c * m, q, c * r);
  }

  /** `s << n`: n zero bits shifted in at the bottom, the top n bits dropped. */
  function Shl(s: Bits, n: nat): (r: Bits)
    requires n <= |s|
    ensures |r| == |s| && forall k :: 0 <= k < |s| ==> r[k] == (n <= k && s[k - n])
    ensures Value(r) == (Pow2(n) * Value(s)) % Pow2(|s|)
  {
    ShlValue(s, n);
    Zeros(n) + s[..|s| - n]
  }

  lemma ShlValue(s: Bits, n: nat)
    requires n <= |s|
    ensures Value(Zeros(n) + s[..|s| - n]) == (Pow2(n) * Value(s)) % Pow2(|s|)
  {
    var k := |s| - n;
    var low := s[..k];
    assert Value(Zeros(n) + low) == Pow2(n) * Value(low) by {
      ValueAppend(Zeros(n), low);
      ValueZeros(n);
    }
    ValuePrefixMod(s, k);
    Pow2Add(n, k);
    ScaleModAt(Value(Zeros(n) + low), Value(low), Pow2(n), Pow2(k), Value(s), Pow2(|s|));
  }

  /** ScaleMod over named quantities: a value a times (v mod b) is a * v modulo a * b. */
  lemma ScaleModAt(shifted: int, low: int, a: nat, b: nat, v: nat, m: int)
    requires a > 0 && b > 0 && shifted == a * low && low == v % b && m == a * b
    ensures shifted == (a * v) % m
  {
    ScaleMod(v, a, b);
  }

  /** The low k bits of s read as a number: the value of s modulo 2^k. */
  lemma ValuePrefixMod(s: Bits, k: nat)
    requires k <= |s|
    ensures Value(s[..k]) == Value(s) % Pow2(k)
  {
    var low, high := s[..k], s[k..];
    assert s == low + high;
    ValueAppend(low, high);
    ValueBound(low);
    DivModUnique(Value(s), Pow2(k), Value(high), Value(low));
  }
}
