/** Bytes and big-endian fields, as the `TS_READ*` macros of include/ts.h read
    them. */
module Bytes {

  type byte = x: int | 0 <= x < 256

  /** `TS_READ16` at offset `i`. */
  function Read16(s: seq<byte>, i: nat): (v: nat)
    requires i + 1 < |s|
    ensures v < 65536
  {
    (s[i] as int) * 256 + s[i + 1] as int
  }

  function Write16(v: nat): (s: seq<byte>)
    requires v < 65536
    ensures |s| == 2
  {
    [v / 256, v % 256]
  }

  lemma Read16Written(s: seq<byte>, i: nat, v: nat)
    requires v < 65536 && i + 2 <= |s| && s[i..i + 2] == Write16(v)
    ensures Read16(s, i) == v
  {
    assert s[i] == s[i..i + 2][0] && s[i + 1] == s[i..i + 2][1];
  }

  /** `n` stuffing bytes. */
  function Stuffing(n: nat): (s: seq<byte>)
    ensures |s| == n
  {
    seq(n, _ => 0xFF)
  }
}
