/** The CRC of src/crc32.c (Annex A of ISO/IEC 13818-1): the table-driven
    loop, the table, and the shift register both stand for. */
module Crc32 {

  /** x^32 + x^26 + ... + x + 1, without its leading term. */
  const POLY: bv32 := 0x04C11DB7

  // ----- the shift register -----

  predicate High(r: bv32) { r & 0x80000000 != 0 }

  /** One clock of the register with no input. */
  function Clock(r: bv32): bv32 {
    if High(r) then (r << 1) ^ POLY else r << 1
  }

  function ClockN(r: bv32, n: nat): bv32
    decreases n
  {
    if n == 0 then r else ClockN(Clock(r), n - 1)
  }

  /** One message bit enters at the top of the register. */
  function ShiftIn(r: bv32, bit: bool): bv32 {
    Clock(if bit then r ^ 0x80000000 else r)
  }

  function ShiftBits(r: bv32, bits: seq<bool>): bv32
    decreases |bits|
  {
    if bits == [] then r else ShiftBits(ShiftIn(r, bits[0]), bits[1..])
  }

  /** The bits of a byte, most significant first. */
  function Bits(b: bv8): (s: seq<bool>)
    ensures |s| == 8
  {
    [b & 0x80 != 0, b & 0x40 != 0, b & 0x20 != 0, b & 0x10 != 0,
     b & 0x08 != 0, b & 0x04 != 0, b & 0x02 != 0, b & 0x01 != 0]
  }

  function MessageBits(m: seq<bv8>): (s: seq<bool>)
    ensures |s| == 8 * |m|
  {
    if m == [] then [] else Bits(m[0]) + MessageBits(m[1..])
  }

  // ----- the table-driven form -----

  /** One table entry: the index in the top byte, clocked eight times. */
  function Entry(i: bv8): bv32 { ClockN((i as bv32) << 24, 8) }

  function Step(r: bv32, b: bv8): bv32 {
    (r << 8) ^ Entry(((r >> 24) as bv8) ^ b)
  }

  function Crc(r: bv32, m: seq<bv8>): bv32
    decreases |m|
  {
    if m == [] then r else Crc(Step(r, m[0]), m[1..])
  }

  // ----- the register is linear and can be run backwards -----

  /** `c` is the sum of `a` and `b` over the two-element field. */
  predicate IsXor(a: bv32, b: bv32, c: bv32) { c == a ^ b }

  lemma BothHigh(a: bv32, b: bv32, c: bv32, a1: bv32, b1: bv32, c1: bv32)
    requires c == a ^ b
    requires a1 == (a << 1) ^ 0x04C11DB7
    requires b1 == (b << 1) ^ 0x04C11DB7
    requires c1 == c << 1
    ensures c1 == a1 ^ b1
  {
  }

  lemma OneHigh(a: bv32, b: bv32, c: bv32, a1: bv32, b1: bv32, c1: bv32)
    requires c == a ^ b
    requires a1 == a << 1
    requires b1 == (b << 1) ^ 0x04C11DB7
    requires c1 == (c << 1) ^ 0x04C11DB7
    ensures c1 == a1 ^ b1
  {
  }

  lemma NoneHigh(a: bv32, b: bv32, c: bv32, a1: bv32, b1: bv32, c1: bv32)
    requires c == a ^ b
    requires a1 == a << 1
    requires b1 == b << 1
    requires c1 == c << 1
    ensures c1 == a1 ^ b1
  {
  }

  lemma HighXor(a: bv32, b: bv32, c: bv32)
    requires c == a ^ b
    ensures High(c) == (High(a) != High(b))
  {
  }

  lemma XorCommutes(a: bv32, b: bv32, c: bv32)
    requires IsXor(a, b, c)
    ensures IsXor(b, a, c)
  {
  }

  lemma ClockHigh(r: bv32)
    requires High(r)
    ensures Clock(r) == (r << 1) ^ 0x04C11DB7
  {
  }

  lemma ClockLow(r: bv32)
    requires !High(r)
    ensures Clock(r) == r << 1
  {
  }

  lemma ClockBoth(a: bv32, b: bv32, c: bv32)
    requires High(a) && High(b) && !High(c) && IsXor(a, b, c)
    ensures IsXor(Clock(a), Clock(b), Clock(c))
  {
    ClockHigh(a);
    ClockHigh(b);
    ClockLow(c);
    BothHigh(a, b, c, Clock(a), Clock(b), Clock(c));
  }

  lemma ClockOne(a: bv32, b: bv32, c: bv32)
    requires !High(a) && High(b) && High(c) && IsXor(a, b, c)
    ensures IsXor(Clock(a), Clock(b), Clock(c))
  {
    ClockLow(a);
    ClockHigh(b);
    ClockHigh(c);
    OneHigh(a, b, c, Clock(a), Clock(b), Clock(c));
  }

  lemma ClockNone(a: bv32, b: bv32, c: bv32)
    requires !High(a) && !High(b) && !High(c) && IsXor(a, b, c)
    ensures IsXor(Clock(a), Clock(b), Clock(c))
  {
    ClockLow(a);
    ClockLow(b);
    ClockLow(c);
    NoneHigh(a, b, c, Clock(a), Clock(b), Clock(c));
  }

  /** Clocking is linear. */
  lemma ClockXor(a: bv32, b: bv32, c: bv32)
    requires IsXor(a, b, c)
    ensures IsXor(Clock(a), Clock(b), Clock(c))
  {
    HighXor(a, b, c);
    if High(a) && High(b) {
      ClockBoth(a, b, c);
    } else if High(b) {
      ClockOne(a, b, c);
    } else if High(a) {
      XorCommutes(a, b, c);
      ClockOne(b, a, c);
      XorCommutes(Clock(b), Clock(a), Clock(c));
    } else {
      ClockNone(a, b, c);
    }
  }

  function Unclock(r: bv32): bv32 {
    if r & 1 != 0 then ((r ^ POLY) >> 1) | 0x80000000 else r >> 1
  }

  lemma FedBack(r: bv32)
    requires High(r)
    ensures ((r << 1) ^ 0x04C11DB7) & 1 != 0
    ensures ((((r << 1) ^ 0x04C11DB7) ^ 0x04C11DB7) >> 1) | 0x80000000 == r
  {
  }

  lemma NotFedBack(r: bv32)
    requires !High(r)
    ensures (r << 1) & 1 == 0 && (r << 1) >> 1 == r
  {
  }

  /** Bit 0 tells whether the register fed back. */
  lemma ClockBack(r: bv32)
    ensures Unclock(Clock(r)) == r
  {
    if High(r) {
      FedBack(r);
    } else {
      NotFedBack(r);
    }
  }

  lemma ClockInjective(a: bv32, b: bv32)
    requires Clock(a) == Clock(b)
    ensures a == b
  {
    ClockBack(a);
    ClockBack(b);
  }

  lemma {:induction false} ClockNInjective(a: bv32, b: bv32, n: nat)
    requires ClockN(a, n) == ClockN(b, n)
    ensures a == b
    decreases n
  {
    if n > 0 {
      ClockNInjective(Clock(a), Clock(b), n - 1);
      ClockInjective(a, b);
    }
  }

  lemma {:induction false} ClockNXor(a: bv32, b: bv32, c: bv32, n: nat)
    requires IsXor(a, b, c)
    ensures IsXor(ClockN(a, n), ClockN(b, n), ClockN(c, n))
    decreases n
  {
    if n > 0 {
      ClockXor(a, b, c);
      ClockNXor(Clock(a), Clock(b), Clock(c), n - 1);
    }
  }

  lemma {:induction false} ClockNAdd(r: bv32, m: nat, n: nat)
    ensures ClockN(ClockN(r, m), n) == ClockN(r, m + n)
    decreases m
  {
    if m > 0 {
      ClockNAdd(Clock(r), m - 1, n);
    }
  }

  // ----- a block of up to 32 bits -----

  /** One more bit on top of a word. */
  function Put(bit: bool, w: bv32): bv32 {
    if bit then 0x80000000 ^ (w >> 1) else w >> 1
  }

  /** The bits at the top of a word. */
  function Word(bits: seq<bool>): bv32 {
    if bits == [] then 0 else Put(bits[0], Word(bits[1..]))
  }

  /** The `k` lowest bits are zero. */
  predicate LowZero(w: bv32, k: nat)
    decreases k
  {
    k == 0 || (w & 1 == 0 && LowZero(w >> 1, k - 1))
  }

  lemma LowBits(a: bv32, b: bv32)
    ensures (a ^ b) & 1 == (a & 1) ^ (b & 1) && (a ^ b) >> 1 == (a >> 1) ^ (b >> 1)
  {
  }

  lemma {:induction false} LowZeroXor(a: bv32, b: bv32, k: nat)
    requires LowZero(a, k) && LowZero(b, k)
    ensures LowZero(a ^ b, k)
    decreases k
  {
    if k > 0 {
      LowBits(a, b);
      LowZeroXor(a >> 1, b >> 1, k - 1);
    }
  }

  lemma {:induction false} LowZeroLess(w: bv32, k: nat, j: nat)
    requires LowZero(w, k) && j <= k
    ensures LowZero(w, j)
    decreases j
  {
    if j > 0 {
      LowZeroLess(w >> 1, k - 1, j - 1);
    }
  }

  lemma {:induction false} LowZeroZero(k: nat)
    ensures LowZero(0, k)
  {
    if k > 0 {
      LowZeroZero(k - 1);
      assert 0 as bv32 >> 1 == 0;
    }
  }

  lemma TopBitLow()
    ensures LowZero(0x80000000, 31)
  {
    assert LowZero(0x00000010, 4);
    assert LowZero(0x00000100, 8);
    assert LowZero(0x00001000, 12);
    assert LowZero(0x00010000, 16);
    assert LowZero(0x00100000, 20);
    assert LowZero(0x01000000, 24);
    assert LowZero(0x10000000, 28);
  }

  lemma PutLow(bit: bool, w: bv32, k: nat)
    requires LowZero(w >> 1, k) && k <= 31
    ensures LowZero(Put(bit, w), k)
  {
    if bit {
      TopBitLow();
      LowZeroLess(0x80000000, 31, k);
      LowZeroXor(0x80000000, w >> 1, k);
    }
  }

  lemma LowZeroHalf(w: bv32, k: nat)
    requires LowZero(w, k + 1)
    ensures w & 1 == 0 && LowZero(w >> 1, k)
  {
  }

  lemma {:induction false} WordLow(bits: seq<bool>)
    requires |bits| <= 32
    ensures LowZero(Word(bits), 32 - |bits|)
    ensures |bits| < 32 ==> Word(bits) & 1 == 0
  {
    var k := 32 - |bits|;
    if bits == [] {
      LowZeroZero(32);
    } else {
      var w := Word(bits[1..]);
      WordLow(bits[1..]);
      LowZeroHalf(w, k);
      PutLow(bits[0], w, k);
    }
    if k > 0 {
      LowZeroHalf(Word(bits), k - 1);
    }
  }

  lemma EvenShift(w: bv32)
    requires w & 1 == 0
    ensures (w >> 1) & 0x80000000 == 0 && (w >> 1) << 1 == w
  {
  }

  lemma ClockHalf(w: bv32)
    requires w & 1 == 0
    ensures Clock(w >> 1) == w
  {
    EvenShift(w);
  }

  lemma MoveBit(r: bv32, w: bv32, p: bv32, x: bv32, y: bv32)
    requires x == r ^ p
    requires p == 0x80000000 ^ w
    requires y == r ^ 0x80000000
    ensures x == y ^ w
  {
  }

  lemma FeedPut(r: bv32, bit: bool, w: bv32, p: bv32, x: bv32)
    requires w & 1 == 0 && p == Put(bit, w) && IsXor(r, p, x)
    ensures IsXor(ShiftIn(r, bit), w, Clock(x))
  {
    ClockHalf(w);
    var h := w >> 1;
    var y := if bit then r ^ 0x80000000 else r;
    if bit {
      MoveBit(r, h, p, x, y);
    }
    ClockXor(y, h, x);
  }

  /** The first bit of a block joins the register, the rest is still to come. */
  lemma FeedOne(r: bv32, bits: seq<bool>, x: bv32)
    requires bits != [] && |bits| <= 32 && IsXor(r, Word(bits), x)
    ensures IsXor(ShiftIn(r, bits[0]), Word(bits[1..]), Clock(x))
  {
    WordLow(bits[1..]);
    FeedPut(r, bits[0], Word(bits[1..]), Word(bits), x);
  }

  /** Feeding up to 32 bits is adding them to the register and clocking. */
  lemma {:induction false} FeedBits(r: bv32, bits: seq<bool>, x: bv32)
    requires |bits| <= 32 && IsXor(r, Word(bits), x)
    ensures ShiftBits(r, bits) == ClockN(x, |bits|)
    decreases |bits|
  {
    if bits == [] {
      assert r ^ 0 == r;
    } else {
      FeedOne(r, bits, x);
      FeedBits(ShiftIn(r, bits[0]), bits[1..], Clock(x));
    }
  }

  lemma PutBack(bit: bool, w: bv32, p: bv32)
    requires w & 1 == 0 && p == Put(bit, w)
    ensures bit == (p & 0x80000000 != 0) && w == p << 1
  {
    if bit {
      assert p == 0x80000000 ^ (w >> 1);
    } else {
      assert p == w >> 1;
    }
  }

  lemma PutSame(a: bool, v: bv32, b: bool, w: bv32, p: bv32)
    requires v & 1 == 0 && w & 1 == 0 && p == Put(a, v) && p == Put(b, w)
    ensures a == b && v == w
  {
    PutBack(a, v, p);
    PutBack(b, w, p);
  }

  lemma {:induction false} WordInjective(a: seq<bool>, b: seq<bool>)
    requires |a| == |b| <= 32 && Word(a) == Word(b)
    ensures a == b
  {
    if a != [] {
      WordLow(a[1..]);
      WordLow(b[1..]);
      PutSame(a[0], Word(a[1..]), b[0], Word(b[1..]), Word(a));
      WordInjective(a[1..], b[1..]);
      assert a == [a[0]] + a[1..] && b == [b[0]] + b[1..];
    }
  }

  // ----- a byte at a time -----

  lemma SmallShifts(x: bv32, x1: bv32, x2: bv32, x3: bv32, x4: bv32, x5: bv32, x6: bv32, x7: bv32, x8: bv32)
    requires x & 0xFF000000 == 0
    requires x1 == x << 1
    requires x2 == x1 << 1
    requires x3 == x2 << 1
    requires x4 == x3 << 1
    requires x5 == x4 << 1
    requires x6 == x5 << 1
    requires x7 == x6 << 1
    requires x8 == x7 << 1
    ensures !High(x) && !High(x1) && !High(x2) && !High(x3) && !High(x4) && !High(x5) && !High(x6) && !High(x7)
    ensures x8 == x << 8
  {
  }

  lemma ClockShift(x: bv32, y: bv32, n: nat)
    requires !High(x) && y == x << 1
    ensures ClockN(x, n + 1) == ClockN(y, n)
  {
    ClockLow(x);
  }

  /** Nothing is fed back while the top byte is empty. */
  lemma ClockSmall(x: bv32)
    requires x & 0xFF000000 == 0
    ensures ClockN(x, 8) == x << 8
  {
    var x1 := x << 1;
    var x2 := x1 << 1;
    var x3 := x2 << 1;
    var x4 := x3 << 1;
    var x5 := x4 << 1;
    var x6 := x5 << 1;
    var x7 := x6 << 1;
    var x8 := x7 << 1;
    SmallShifts(x, x1, x2, x3, x4, x5, x6, x7, x8);
    ClockShift(x, x1, 7);
    ClockShift(x1, x2, 6);
    ClockShift(x2, x3, 5);
    ClockShift(x3, x4, 4);
    ClockShift(x4, x5, 3);
    ClockShift(x5, x6, 2);
    ClockShift(x6, x7, 1);
    ClockShift(x7, x8, 0);
  }

  lemma PutMasked(b: bv8)
    ensures Put(b & 0x01 != 0, 0) == ((b & 0x01) as bv32) << 31
    ensures Put(b & 0x02 != 0, ((b & 0x01) as bv32) << 31) == ((b & 0x03) as bv32) << 30
    ensures Put(b & 0x04 != 0, ((b & 0x03) as bv32) << 30) == ((b & 0x07) as bv32) << 29
    ensures Put(b & 0x08 != 0, ((b & 0x07) as bv32) << 29) == ((b & 0x0F) as bv32) << 28
    ensures Put(b & 0x10 != 0, ((b & 0x0F) as bv32) << 28) == ((b & 0x1F) as bv32) << 27
    ensures Put(b & 0x20 != 0, ((b & 0x1F) as bv32) << 27) == ((b & 0x3F) as bv32) << 26
    ensures Put(b & 0x40 != 0, ((b & 0x3F) as bv32) << 26) == ((b & 0x7F) as bv32) << 25
    ensures Put(b & 0x80 != 0, ((b & 0x7F) as bv32) << 25) == (b as bv32) << 24
  {
  }

  lemma WordStep(s: seq<bool>, i: nat, w: bv32)
    requires i < |s| && Word(s[i + 1..]) == w
    ensures Word(s[i..]) == Put(s[i], w)
  {
    assert s[i..][1..] == s[i + 1..];
  }

  lemma LowBitsWord(b: bv8, s: seq<bool>)
    requires |s| == 8 && s[4] == (b & 0x08 != 0) && s[5] == (b & 0x04 != 0)
    requires s[6] == (b & 0x02 != 0) && s[7] == (b & 0x01 != 0)
    ensures Word(s[4..]) == ((b & 0x0F) as bv32) << 28
  {
    PutMasked(b);
    assert Word(s[8..]) == 0;
    WordStep(s, 7, 0);
    WordStep(s, 6, ((b & 0x01) as bv32) << 31);
    WordStep(s, 5, ((b & 0x03) as bv32) << 30);
    WordStep(s, 4, ((b & 0x07) as bv32) << 29);
  }

  lemma HighBitsWord(b: bv8, s: seq<bool>)
    requires |s| == 8 && s[0] == (b & 0x80 != 0) && s[1] == (b & 0x40 != 0)
    requires s[2] == (b & 0x20 != 0) && s[3] == (b & 0x10 != 0)
    requires Word(s[4..]) == ((b & 0x0F) as bv32) << 28
    ensures Word(s[0..]) == (b as bv32) << 24
  {
    PutMasked(b);
    WordStep(s, 3, ((b & 0x0F) as bv32) << 28);
    WordStep(s, 2, ((b & 0x1F) as bv32) << 27);
    WordStep(s, 1, ((b & 0x3F) as bv32) << 26);
    WordStep(s, 0, ((b & 0x7F) as bv32) << 25);
  }

  lemma BitsWord(b: bv8)
    ensures Word(Bits(b)) == (b as bv32) << 24
  {
    LowBitsWord(b, Bits(b));
    HighBitsWord(b, Bits(b));
    assert Bits(b)[0..] == Bits(b);
  }

  lemma SplitTop(r: bv32, b: bv8, w: bv32, x: bv32, lo: bv32, hi: bv32)
    requires w == (b as bv32) << 24
    requires x == r ^ w
    requires lo == r & 0x00FFFFFF
    requires hi == ((((r >> 24) as bv8) ^ b) as bv32) << 24
    ensures x == lo ^ hi
    ensures lo & 0xFF000000 == 0 && lo << 8 == r << 8
  {
  }

  lemma StepParts(r: bv32, b: bv8, lo: bv32, hi: bv32)
    requires hi == ((((r >> 24) as bv8) ^ b) as bv32) << 24
    requires lo & 0xFF000000 == 0 && lo << 8 == r << 8
    ensures IsXor(ClockN(lo, 8), ClockN(hi, 8), Step(r, b))
  {
    ClockSmall(lo);
  }

  lemma StepJoin(lo: bv32, hi: bv32, x: bv32, step: bv32, n: nat)
    requires IsXor(lo, hi, x) && IsXor(ClockN(lo, n), ClockN(hi, n), step)
    ensures step == ClockN(x, n)
  {
    ClockNXor(lo, hi, x, n);
  }

  /** The table step is eight clocks of the register with the byte added. */
  lemma StepClocks(r: bv32, b: bv8, w: bv32, x: bv32)
    requires w == (b as bv32) << 24 && IsXor(r, w, x)
    ensures Step(r, b) == ClockN(x, 8)
  {
    var lo := r & 0x00FFFFFF;
    var hi := ((((r >> 24) as bv8) ^ b) as bv32) << 24;
    SplitTop(r, b, w, x, lo, hi);
    StepParts(r, b, lo, hi);
    StepJoin(lo, hi, x, Step(r, b), 8);
  }

  lemma StepIsSerial(r: bv32, b: bv8)
    ensures Step(r, b) == ShiftBits(r, Bits(b))
  {
    var w := (b as bv32) << 24;
    var x := r ^ w;
    BitsWord(b);
    FeedBits(r, Bits(b), x);
    StepClocks(r, b, w, x);
  }

  // ----- whole messages -----

  lemma {:induction false} ShiftConcat(r: bv32, a: seq<bool>, b: seq<bool>)
    ensures ShiftBits(r, a + b) == ShiftBits(ShiftBits(r, a), b)
    decreases |a|
  {
    if a == [] {
      assert a + b == b;
    } else {
      assert (a + b)[1..] == a[1..] + b;
      ShiftConcat(ShiftIn(r, a[0]), a[1..], b);
    }
  }

  lemma {:induction false} CrcConcat(r: bv32, m: seq<bv8>, n: seq<bv8>)
    ensures Crc(r, m + n) == Crc(Crc(r, m), n)
    decreases |m|
  {
    if m == [] {
      assert m + n == n;
    } else {
      assert (m + n)[1..] == m[1..] + n;
      CrcConcat(Step(r, m[0]), m[1..], n);
    }
  }

  /** The table-driven CRC is the bit-serial shift register. */
  lemma {:induction false} CrcIsSerial(r: bv32, m: seq<bv8>)
    ensures Crc(r, m) == ShiftBits(r, MessageBits(m))
    decreases |m|
  {
    if m != [] {
      StepIsSerial(r, m[0]);
      ShiftConcat(r, Bits(m[0]), MessageBits(m[1..]));
      CrcIsSerial(Step(r, m[0]), m[1..]);
    }
  }

  lemma ShiftInInjective(r: bv32, s: bv32, bit: bool)
    requires ShiftIn(r, bit) == ShiftIn(s, bit)
    ensures r == s
  {
    var (x, y) := (if bit then r ^ 0x80000000 else r, if bit then s ^ 0x80000000 else s);
    ClockInjective(x, y);
    if bit {
      FlipBack(r, x);
      FlipBack(s, y);
    }
  }

  lemma FlipBack(r: bv32, x: bv32)
    requires x == r ^ 0x80000000
    ensures r == x ^ 0x80000000
  {
  }

  lemma {:induction false} ShiftBitsInjective(r: bv32, s: bv32, bits: seq<bool>)
    requires ShiftBits(r, bits) == ShiftBits(s, bits)
    ensures r == s
    decreases |bits|
  {
    if bits != [] {
      ShiftBitsInjective(ShiftIn(r, bits[0]), ShiftIn(s, bits[0]), bits[1..]);
      ShiftInInjective(r, s, bits[0]);
    }
  }

  lemma Sum(a: bv32, b: bv32) returns (c: bv32)
    ensures IsXor(a, b, c)
  {
    c := a ^ b;
  }

  lemma CancelBits(r: bv32, a: bv32, b: bv32, x: bv32)
    requires x == r ^ a
    requires r ^ a == r ^ b
    ensures a == b
  {
    assert r ^ x == a;
    assert r ^ (r ^ b) == b;
  }

  lemma CancelXor(r: bv32, a: bv32, b: bv32, x: bv32)
    requires IsXor(r, a, x) && IsXor(r, b, x)
    ensures a == b
  {
    CancelBits(r, a, b, x);
  }

  lemma SumsAgree(r: bv32, a: seq<bool>, b: seq<bool>, x: bv32, y: bv32)
    requires |a| == |b| <= 32 && ShiftBits(r, a) == ShiftBits(r, b)
    requires IsXor(r, Word(a), x) && IsXor(r, Word(b), y)
    ensures x == y
  {
    FeedBits(r, a, x);
    FeedBits(r, b, y);
    ClockNInjective(x, y, |a|);
  }

  /** Up to 32 bits leave the register in different states when they differ. */
  lemma BlockInjective(r: bv32, a: seq<bool>, b: seq<bool>)
    requires |a| == |b| <= 32 && ShiftBits(r, a) == ShiftBits(r, b)
    ensures a == b
  {
    var x := Sum(r, Word(a));
    var y := Sum(r, Word(b));
    SumsAgree(r, a, b, x, y);
    CancelXor(r, Word(a), Word(b), x);
    WordInjective(a, b);
  }

  lemma BurstDetected(r: bv32, u: seq<bool>, a: seq<bool>, b: seq<bool>, v: seq<bool>)
    requires |a| == |b| <= 32 && ShiftBits(r, u + a + v) == ShiftBits(r, u + b + v)
    ensures a == b
  {
    var s := ShiftBits(r, u);
    ShiftConcat(r, u + a, v);
    ShiftConcat(r, u + b, v);
    ShiftConcat(r, u, a);
    ShiftConcat(r, u, b);
    ShiftBitsInjective(ShiftBits(s, a), ShiftBits(s, b), v);
    BlockInjective(s, a, b);
  }

  lemma BitsInjective(a: bv8, b: bv8)
    requires Bits(a) == Bits(b)
    ensures a == b
  {
    BitsWord(a);
    BitsWord(b);
    TopByte(a, (a as bv32) << 24);
    TopByte(b, (b as bv32) << 24);
  }

  lemma TopByte(b: bv8, w: bv32)
    requires w == (b as bv32) << 24
    ensures b == (w >> 24) as bv8
  {
  }

  lemma {:induction false} MessageBitsInjective(m: seq<bv8>, n: seq<bv8>)
    requires MessageBits(m) == MessageBits(n)
    ensures m == n
  {
    if m != [] {
      assert Bits(m[0]) == MessageBits(m)[..8] && MessageBits(m[1..]) == MessageBits(m)[8..];
      assert Bits(n[0]) == MessageBits(n)[..8] && MessageBits(n[1..]) == MessageBits(n)[8..];
      BitsInjective(m[0], n[0]);
      MessageBitsInjective(m[1..], n[1..]);
      assert m == [m[0]] + m[1..] && n == [n[0]] + n[1..];
    }
  }

  lemma SameWindow(r: bv32, x: seq<bool>, y: seq<bool>, first: nat)
    requires |x| == |y| && ShiftBits(r, x) == ShiftBits(r, y)
    requires forall i :: 0 <= i < |x| && x[i] != y[i] ==> first <= i < first + 32
    ensures x == y
  {
    var lo := if first < |x| then first else |x|;
    var hi := if first + 32 < |x| then first + 32 else |x|;
    assert x[..lo] == y[..lo] && x[hi..] == y[hi..];
    ThreeParts(x, lo, hi);
    ThreeParts(y, lo, hi);
    BurstDetected(r, x[..lo], x[lo..hi], y[lo..hi], x[hi..]);
  }

  lemma ThreeParts(x: seq<bool>, lo: nat, hi: nat)
    requires lo <= hi <= |x|
    ensures x == x[..lo] + x[lo..hi] + x[hi..]
  {
  }

  /** Two messages of equal length that differ only within 32 consecutive
      bits never share a CRC. */
  lemma BurstsAreDetected(r: bv32, m: seq<bv8>, n: seq<bv8>, first: nat)
    requires |m| == |n| && m != n
    requires forall i :: 0 <= i < |MessageBits(m)| && MessageBits(m)[i] != MessageBits(n)[i] ==> first <= i < first + 32
    ensures Crc(r, m) != Crc(r, n)
  {
    CrcIsSerial(r, m);
    CrcIsSerial(r, n);
    if Crc(r, m) == Crc(r, n) {
      SameWindow(r, MessageBits(m), MessageBits(n), first);
      MessageBitsInjective(m, n);
    }
  }

  lemma {:induction false} MessageBitsConcat(m: seq<bv8>, n: seq<bv8>)
    ensures MessageBits(m + n) == MessageBits(m) + MessageBits(n)
  {
    if m == [] {
      assert m + n == n;
    } else {
      assert (m + n)[1..] == m[1..] + n;
      MessageBitsConcat(m[1..], n);
    }
  }

  lemma SerialParts(r: bv32, u: seq<bv8>, a: seq<bv8>, v: seq<bv8>)
    ensures Crc(r, u + a + v) == ShiftBits(r, MessageBits(u) + MessageBits(a) + MessageBits(v))
  {
    CrcIsSerial(r, u + a + v);
    MessageBitsConcat(u + a, v);
    MessageBitsConcat(u, a);
  }

  lemma SamePart(r: bv32, u: seq<bv8>, a: seq<bv8>, b: seq<bv8>, v: seq<bv8>)
    requires |a| == |b| <= 4 && Crc(r, u + a + v) == Crc(r, u + b + v)
    ensures a == b
  {
    SerialParts(r, u, a, v);
    SerialParts(r, u, b, v);
    BurstDetected(r, MessageBits(u), MessageBits(a), MessageBits(b), MessageBits(v));
    MessageBitsInjective(a, b);
  }

  /** Two messages of equal length that differ only within four consecutive
      bytes never share a CRC. */
  lemma FourBytesAreDetected(r: bv32, m: seq<bv8>, n: seq<bv8>, first: nat)
    requires |m| == |n| && m != n
    requires forall i :: 0 <= i < |m| && m[i] != n[i] ==> first <= i < first + 4
    ensures Crc(r, m) != Crc(r, n)
  {
    var lo := if first < |m| then first else |m|;
    var hi := if first + 4 < |m| then first + 4 else |m|;
    assert m[..lo] == n[..lo] && m[hi..] == n[hi..];
    assert m == m[..lo] + m[lo..hi] + m[hi..];
    assert n == m[..lo] + n[lo..hi] + m[hi..];
    if Crc(r, m) == Crc(r, n) {
      SamePart(r, m[..lo], m[lo..hi], n[lo..hi], m[hi..]);
    }
  }

  // ----- the CRC at the end of a section -----

  /** The four bytes of a word, as src/crc32.c's callers append them. */
  function BigEndian(w: bv32): (s: seq<bv8>)
    ensures |s| == 4
  {
    [(w >> 24) as bv8, ((w >> 16) & 0xFF) as bv8, ((w >> 8) & 0xFF) as bv8, (w & 0xFF) as bv8]
  }

  lemma {:induction false} ClockZero(n: nat)
    ensures ClockN(0, n) == 0
  {
    if n > 0 {
      assert Clock(0) == 0;
      ClockZero(n - 1);
    }
  }

  lemma OwnByte(r: bv32, b: bv8)
    requires b == (r >> 24) as bv8
    ensures ((r >> 24) as bv8) ^ b == 0
    ensures (0 as bv8 as bv32) << 24 == 0
    ensures (r << 8) ^ 0 == r << 8
  {
  }

  /** A register fed with its own top byte shifts it out. */
  lemma StepOwn(r: bv32, b: bv8, s: bv32)
    requires b == (r >> 24) as bv8 && s == r << 8
    ensures Step(r, b) == s
  {
    OwnByte(r, b);
    ClockZero(8);
  }

  lemma OwnBytes(r: bv32, r1: bv32, r2: bv32, r3: bv32, r4: bv32)
    requires r1 == r << 8
    requires r2 == r1 << 8
    requires r3 == r2 << 8
    requires r4 == r3 << 8
    ensures ((r >> 16) & 0xFF) as bv8 == (r1 >> 24) as bv8
    ensures ((r >> 8) & 0xFF) as bv8 == (r2 >> 24) as bv8
    ensures (r & 0xFF) as bv8 == (r3 >> 24) as bv8
    ensures r4 == 0
  {
  }

  lemma CrcOwn(r: bv32)
    ensures Crc(r, BigEndian(r)) == 0
  {
    var (t, r1) := (BigEndian(r), r << 8);
    var r2 := r1 << 8;
    var r3 := r2 << 8;
    var r4 := r3 << 8;
    OwnBytes(r, r1, r2, r3, r4);
    StepOwn(r, t[0], r1);
    StepOwn(r1, t[1], r2);
    StepOwn(r2, t[2], r3);
    StepOwn(r3, t[3], r4);
    FourSteps(r, t, r1, r2, r3, r4);
  }

  lemma FourSteps(r: bv32, t: seq<bv8>, r1: bv32, r2: bv32, r3: bv32, r4: bv32)
    requires |t| == 4
    requires Step(r, t[0]) == r1 && Step(r1, t[1]) == r2 && Step(r2, t[2]) == r3 && Step(r3, t[3]) == r4
    ensures Crc(r, t) == r4
  {
    CrcStep(r, t, 0);
    CrcStep(r1, t, 1);
    CrcStep(r2, t, 2);
    CrcStep(r3, t, 3);
    assert t[0..] == t && t[4..] == [];
  }

  lemma CrcStep(r: bv32, t: seq<bv8>, i: nat)
    requires i < |t|
    ensures Crc(r, t[i..]) == Crc(Step(r, t[i]), t[i + 1..])
  {
    assert t[i..][1..] == t[i + 1..];
  }

  /** A message followed by four bytes leaves the register at zero exactly when
      the four bytes are the message's CRC, most significant byte first. */
  lemma ResidueIsZero(r: bv32, m: seq<bv8>, tail: seq<bv8>)
    requires |tail| == 4
    ensures Crc(r, m + tail) == 0 <==> tail == BigEndian(Crc(r, m))
  {
    var c := Crc(r, m);
    CrcConcat(r, m, tail);
    CrcOwn(c);
    if Crc(c, tail) == 0 {
      CrcIsSerial(c, tail);
      CrcIsSerial(c, BigEndian(c));
      BlockInjective(c, MessageBits(tail), MessageBits(BigEndian(c)));
      MessageBitsInjective(tail, BigEndian(c));
    }
  }
}
