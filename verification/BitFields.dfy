/** The bit-field reader behind the generated descriptor parsers
    (`__m` in include/descriptor.h, `TS_READ*_BITS` in include/ts.h). */
module BitFields {
  import opened Bytes
  import opened Sequences

  function Pow2(n: nat): (p: nat)
    ensures p > 0
  {
    if n == 0 then 1 else 2 * Pow2(n - 1)
  }

  // ----- the bit string of a buffer -----

  /** The bits of a byte, most significant first. */
  function ByteBits(b: nat, n: nat): (s: seq<bool>)
    ensures |s| == n
  {
    if n == 0 then [] else ByteBits(b / 2, n - 1) + [b % 2 == 1]
  }

  function BitString(buf: seq<byte>): (s: seq<bool>)
    ensures |s| == 8 * |buf|
  {
    if buf == [] then [] else BitString(buf[..|buf| - 1]) + ByteBits(buf[|buf| - 1], 8)
  }

  /** The number a bit string stands for. */
  function Value(s: seq<bool>): nat {
    if s == [] then 0 else 2 * Value(s[..|s| - 1]) + (if s[|s| - 1] then 1 else 0)
  }

  /** `TS_READ8` to `TS_READ64`: the big-endian value of some bytes. */
  function BigEndian(s: seq<byte>): nat {
    if s == [] then 0 else 256 * BigEndian(s[..|s| - 1]) + s[|s| - 1] as int
  }

  // ----- the reader -----

  /** A member of `bits` bits whose type is `bytes` bytes wide. */
  datatype Field = Field(bytes: nat, bits: nat)

  /** The shifts of the macros are defined: the mask is an `int` up to 32 bits
      and 64 bits wide beyond. */
  predicate GoodField(f: Field) {
    || (f.bytes in {1, 2} && f.bits <= 8 * f.bytes)
    || (f.bytes == 4 && f.bits <= 30)
    || (f.bytes == 8 && f.bits <= 63)
  }

  /** `TS_READ8_BITS` to `TS_READ64_BITS`: shift right, then mask. */
  function ReadBits(window: seq<byte>, f: Field, off: nat): nat
    requires GoodField(f) && |window| == f.bytes && off + f.bits <= 8 * f.bytes
  {
    BigEndian(window) / Pow2(8 * f.bytes - off - f.bits) % Pow2(f.bits)
  }

  /** How many bits the first `i` members take. */
  function Start(fields: seq<Field>, i: nat): nat
    requires i <= |fields|
  {
    if i == 0 then 0 else Start(fields, i - 1) + fields[i - 1].bits
  }

  /** Member `i`, counted from byte `start`, fits its type, and its window lies
      inside the buffer. */
  predicate Fits(buf: seq<byte>, fields: seq<Field>, start: nat, i: nat)
    requires i < |fields|
  {
    var (f, pos) := (fields[i], 8 * start + Start(fields, i));
    GoodField(f) && pos % 8 + f.bits <= 8 * f.bytes && pos / 8 + f.bytes <= |buf|
  }

  predicate Slice(bits: seq<bool>, from: nat, to: nat, value: nat) {
    from <= to <= |bits| && value == Value(bits[from..to])
  }

  /** `value` is the slice that member `i` takes, between its neighbours. */
  predicate MemberSlice(bits: seq<bool>, fields: seq<Field>, start: nat, i: nat, value: nat)
    requires i < |fields|
  {
    Slice(bits, 8 * start + Start(fields, i), 8 * start + Start(fields, i) + fields[i].bits, value)
  }

  // ----- shifting and masking is slicing -----

  lemma Doubled(a: nat, p: nat, v: nat)
    ensures 2 * (a * p + v) == a * (2 * p) + 2 * v
  {
  }

  lemma {:induction false} ValueConcat(a: seq<bool>, b: seq<bool>)
    ensures Value(a + b) == Value(a) * Pow2(|b|) + Value(b)
    decreases |b|
  {
    if b == [] {
      assert a + b == a;
    } else {
      var n := |b| - 1;
      assert (a + b)[..|a| + n] == a + b[..n];
      ValueConcat(a, b[..n]);
      Doubled(Value(a), Pow2(n), Value(b[..n]));
    }
  }

  lemma {:induction false} ValueBound(s: seq<bool>)
    ensures Value(s) < Pow2(|s|)
  {
    if s != [] {
      ValueBound(s[..|s| - 1]);
    }
  }

  lemma {:induction false} ByteValue(b: nat, n: nat)
    requires b < Pow2(n)
    ensures Value(ByteBits(b, n)) == b
  {
    if n > 0 {
      var s := ByteBits(b, n);
      assert s[..n - 1] == ByteBits(b / 2, n - 1);
      ByteValue(b / 2, n - 1);
    }
  }

  lemma OctetConcat(s: seq<bool>, b: byte)
    ensures Value(s + ByteBits(b, 8)) == 256 * Value(s) + b
  {
    assert Pow2(8) == 256;
    ByteValue(b, 8);
    ValueConcat(s, ByteBits(b, 8));
  }

  lemma {:induction false} BufferValue(buf: seq<byte>)
    ensures Value(BitString(buf)) == BigEndian(buf)
  {
    if buf != [] {
      var n := |buf| - 1;
      BufferValue(buf[..n]);
      OctetConcat(BitString(buf[..n]), buf[n]);
    }
  }

  lemma {:induction false} BitStringConcat(a: seq<byte>, b: seq<byte>)
    ensures BitString(a + b) == BitString(a) + BitString(b)
    decreases |b|
  {
    if b == [] {
      assert a + b == a;
      assert BitString(a) + [] == BitString(a);
    } else {
      var n := |b| - 1;
      assert (a + b)[..|a| + n] == a + b[..n];
      BitStringConcat(a, b[..n]);
      Assoc(BitString(a), BitString(b[..n]), ByteBits(b[n], 8));
    }
  }

  /** The window at byte `k` is a slice of the buffer's bit string. */
  lemma {:induction false} WindowBits(buf: seq<byte>, k: nat, n: nat)
    requires k + n <= |buf|
    ensures BitString(buf[k..k + n]) == BitString(buf)[8 * k..8 * (k + n)]
  {
    var (a, b, c) := (buf[..k], buf[k..k + n], buf[k + n..]);
    assert buf == a + b + c;
    BitStringConcat(a + b, c);
    BitStringConcat(a, b);
  }

  lemma {:induction false} MultiplesApart(k: int, d: int)
    requires d > 0
    ensures k >= 1 ==> k * d >= d
    ensures k <= -1 ==> k * d <= -d
  {
  }

  lemma {:induction false} DivideOut(x: nat, r: nat, d: nat)
    requires r < d
    ensures (x * d + r) / d == x && (x * d + r) % d == r
  {
    var v := x * d + r;
    var k := v / d - x;
    assert v == (v / d) * d + v % d;
    assert k * d == (v / d) * d - x * d;
    MultiplesApart(k, d);
  }

  lemma {:induction false} ShiftAndMask(s: seq<bool>, off: nat, n: nat)
    requires off + n <= |s|
    ensures Value(s) / Pow2(|s| - off - n) % Pow2(n) == Value(s[off..off + n])
  {
    var (a, b, c) := (s[..off], s[off..off + n], s[off + n..]);
    assert s == a + b + c;
    ValueConcat(a + b, c);
    ValueConcat(a, b);
    ValueBound(b);
    ValueBound(c);
    DivideOut(Value(a + b), Value(c), Pow2(|c|));
    DivideOut(Value(a), Value(b), Pow2(n));
  }

  lemma SliceOfSlice(s: seq<bool>, from: nat, to: nat, off: nat, n: nat)
    requires from <= to <= |s| && off + n <= to - from
    ensures s[from..to][off..off + n] == s[from + off..from + off + n]
  {
    var (a, b) := (s[from..to][off..off + n], s[from + off..from + off + n]);
    forall j: nat | j < n
      ensures a[j] == b[j]
    {
      assert a[j] == s[from..to][off + j] == s[from + off + j];
    }
  }

  /** Shifting and masking the `n`-byte window at byte `k` gives a slice of the
      buffer's bit string. */
  lemma {:induction false} WindowRead(buf: seq<byte>, k: nat, n: nat, off: nat, bits: nat)
    requires k + n <= |buf| && off + bits <= 8 * n
    ensures BigEndian(buf[k..k + n]) / Pow2(8 * n - off - bits) % Pow2(bits)
         == Value(BitString(buf)[8 * k + off..8 * k + off + bits])
  {
    var window := buf[k..k + n];
    WindowBits(buf, k, n);
    BufferValue(window);
    ShiftAndMask(BitString(window), off, bits);
    SliceOfSlice(BitString(buf), 8 * k, 8 * (k + n), off, bits);
  }

  lemma {:induction false} ReadIsSlice(buf: seq<byte>, f: Field, k: nat, off: nat)
    requires GoodField(f) && off + f.bits <= 8 * f.bytes && k + f.bytes <= |buf|
    ensures Slice(BitString(buf), 8 * k + off, 8 * k + off + f.bits, ReadBits(buf[k..k + f.bytes], f, off))
  {
    WindowRead(buf, k, f.bytes, off, f.bits);
  }

  lemma PositionSplit(pos: nat, bytesOff: nat, bitsOff: nat)
    requires pos == 8 * bytesOff + bitsOff && bitsOff < 8
    ensures pos / 8 == bytesOff && pos % 8 == bitsOff
  {
  }

  lemma FitsWhere(buf: seq<byte>, fields: seq<Field>, start: nat, i: nat, bytesOff: nat, bitsOff: nat)
    requires i < |fields| && Fits(buf, fields, start, i)
    requires 8 * start + Start(fields, i) == 8 * bytesOff + bitsOff && bitsOff < 8
    ensures GoodField(fields[i]) && bitsOff + fields[i].bits <= 8 * fields[i].bytes && bytesOff + fields[i].bytes <= |buf|
  {
    PositionSplit(8 * start + Start(fields, i), bytesOff, bitsOff);
  }

  lemma WholeBytes(start: nat, total: nat, bytesOff: nat, bitsOff: nat)
    requires 8 * bytesOff + bitsOff == 8 * start + total && bitsOff < 8
    ensures bitsOff == total % 8
  {
    PositionSplit(total, bytesOff - start, bitsOff);
  }

  // ----- the generated parser -----

  /** One member: read it, then carry whole bytes from the bit offset to the
      byte offset. */
  method ReadField(buf: seq<byte>, f: Field, bytesStart: nat, bitsStart: nat)
    returns (value: nat, bytesOff: nat, bitsOff: nat)
    requires GoodField(f) && bitsStart + f.bits <= 8 * f.bytes && bytesStart + f.bytes <= |buf|
    ensures bitsOff < 8
    ensures 8 * bytesOff + bitsOff == 8 * bytesStart + bitsStart + f.bits
    ensures Slice(BitString(buf), 8 * bytesStart + bitsStart, 8 * bytesOff + bitsOff, value)
  {
    value := ReadBits(buf[bytesStart..bytesStart + f.bytes], f, bitsStart);
    ReadIsSlice(buf, f, bytesStart, bitsStart);
    bytesOff, bitsOff := bytesStart, bitsStart + f.bits;
    while bitsOff >= 8
      invariant 8 * bytesOff + bitsOff == 8 * bytesStart + bitsStart + f.bits
      decreases bitsOff
    {
      bitsOff := bitsOff - 8;
      bytesOff := bytesOff + 1;
    }
  }

  /** All the members, one after the other, from byte `start` on: consecutive
      slices of the bit string, and a bit offset that ends at 0 exactly when the
      widths sum to whole bytes. */
  method ReadFields(buf: seq<byte>, fields: seq<Field>, start: nat)
    returns (values: seq<nat>, bytesOff: nat, bitsOff: nat)
    requires forall i :: 0 <= i < |fields| ==> Fits(buf, fields, start, i)
    ensures |values| == |fields|
    ensures forall i :: 0 <= i < |fields| ==> MemberSlice(BitString(buf), fields, start, i, values[i])
    ensures bitsOff < 8 && 8 * bytesOff + bitsOff == 8 * start + Start(fields, |fields|)
    ensures bitsOff == 0 <==> Start(fields, |fields|) % 8 == 0
  {
    ghost var bits := BitString(buf);
    values, bytesOff, bitsOff := [], start, 0;
    for i := 0 to |fields|
      invariant |values| == i && bitsOff < 8
      invariant 8 * bytesOff + bitsOff == 8 * start + Start(fields, i)
      invariant forall j :: 0 <= j < i ==> MemberSlice(bits, fields, start, j, values[j])
    {
      FitsWhere(buf, fields, start, i, bytesOff, bitsOff);
      var value;
      value, bytesOff, bitsOff := ReadField(buf, fields[i], bytesOff, bitsOff);
      assert MemberSlice(bits, fields, start, i, value);
      values := values + [value];
    }
    WholeBytes(start, Start(fields, |fields|), bytesOff, bitsOff);
  }
}
