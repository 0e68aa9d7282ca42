/** Long-form sections: `sec_build` of tests/gen_full.c, and
    `check_section_header_version` and `parse_section_header` of src/table.c
    (section 2.4.4 of ISO/IEC 13818-1). */
module PsiSection {
  import opened Options
  import opened Bytes
  import opened Sections
  import Crc32

  const MAX_LONG := 0x3FD
  const MAX_SHORT := 0xFFD

  // ----- building -----

  function ToWords(s: seq<byte>): (r: seq<bv8>)
    ensures |r| == |s|
  {
    seq(|s|, i requires 0 <= i < |s| => s[i] as bv8)
  }

  function FromWords(s: seq<bv8>): (r: seq<byte>)
    ensures |r| == |s|
  {
    seq(|s|, i requires 0 <= i < |s| => s[i] as int)
  }

  /** Everything before the CRC. */
  function Content(tableId: byte, ext: nat, version: nat, current: bool, number: byte, last: byte, body: seq<byte>)
    : (r: seq<byte>)
    requires ext < 65536 && version < 32 && |body| + 9 < 4096
    ensures |r| == 8 + |body|
  {
    var len := |body| + 9;
    [tableId, 0xB0 + len / 256, len % 256, ext / 256, ext % 256,
     0xC0 + version * 2 + (if current then 1 else 0), number, last] + body
  }

  /** `sec_build`: the CRC starts from a zero register. */
  function Build(tableId: byte, ext: nat, version: nat, current: bool, number: byte, last: byte, body: seq<byte>)
    : (r: seq<byte>)
    requires ext < 65536 && version < 32 && |body| + 9 < 4096
    ensures |r| == 12 + |body|
  {
    var c := Content(tableId, ext, version, current, number, last, body);
    c + FromWords(Crc32.BigEndian(Crc32.Crc(0, ToWords(c))))
  }

  lemma {:induction false} BuildIsSection(tableId: byte, ext: nat, version: nat, current: bool, number: byte,
                                          last: byte, body: seq<byte>)
    requires ext < 65536 && version < 32 && |body| + 9 < 4096
    ensures IsSection(Build(tableId, ext, version, current, number, last, body))
  {
    var (s, len) := (Build(tableId, ext, version, current, number, last, body), |body| + 9);
    assert Read16(s, 1) == 0xB000 + len;
  }

  lemma {:induction false} WordsBack(w: bv8)
    ensures (w as int) as bv8 == w
  {
  }

  /** A built section passes the CRC check of its own convention. */
  lemma {:induction false} BuildChecks(tableId: byte, ext: nat, version: nat, current: bool, number: byte,
                                       last: byte, body: seq<byte>)
    requires ext < 65536 && version < 32 && |body| + 9 < 4096
    ensures Crc32.Crc(0, ToWords(Build(tableId, ext, version, current, number, last, body))) == 0
  {
    var c := Content(tableId, ext, version, current, number, last, body);
    var tail := Crc32.BigEndian(Crc32.Crc(0, ToWords(c)));
    forall i | 0 <= i < 4 ensures (tail[i] as int) as bv8 == tail[i] {
      WordsBack(tail[i]);
    }
    assert ToWords(c + FromWords(tail)) == ToWords(c) + tail;
    Crc32.ResidueIsZero(0, ToWords(c), tail);
  }

  // ----- reading -----

  /** The fields of `struct table_header`; `seen` is the section bitmap, `data`
      the private data, absent before the first section. */
  datatype Header = Header(tableId: byte, syntax: bool, privateBit: bool, sectionLength: nat, ext: nat,
                           version: nat, current: bool, last: byte, seen: set<nat>, data: Option<seq<byte>>)

  /** `NullPointer`: there is no header to fill. */
  datatype Code = Done | InvalidLength | Duplicate | NullPointer

  predicate IsLong(s: seq<byte>)
    requires |s| >= 3
  {
    s[1] as int / 128 == 1
  }

  /** `TS_READ8_BITS(p, 5, 1)`: five bits, but starting one bit too early, so
      that the value is the second reserved bit and the four upper bits of
      version_number. */
  function VersionField(b: byte): nat { b as int / 4 % 32 }

  datatype VersionCheck = Same | Newer | Older

  /** `check_section_header_version`. */
  function CheckVersion(s: seq<byte>, current: nat): VersionCheck
    requires |s| >= 3 && (IsLong(s) ==> |s| >= 8)
  {
    if !IsLong(s) then Same
    else
      var v := VersionField(s[5]);
      if current == v then Same
      else if v > current || (current == 31 && v != 31) then Newer
      else Older
  }

  /** Sections with section_number = last_section_number = 0. */
  predicate SingleSection(s: seq<byte>) {
    IsSection(s) && (IsLong(s) ==> |s| >= 8 && s[6] == 0 && s[7] == 0)
  }

  /** A section, and the bytes that happen to lie behind its copy. */
  datatype Input = Input(section: seq<byte>, junk: seq<byte>)

  /** `parse_section_header`. The five bytes in which the allocation exceeds
      the copy are not initialised: `junk`. */
  function ParseHeader(h: Header, s: seq<byte>, junk: seq<byte>): (r: (Header, Code))
    requires SingleSection(s) && |junk| == 5
  {
    var len := Read16(s, 1) % 4096;
    var privateBit := s[1] as int / 64 % 2 == 1;
    if len > (if IsLong(s) then MAX_LONG else MAX_SHORT) then (h, InvalidLength)
    else if !IsLong(s) then
      (h.(syntax := false, tableId := s[0], privateBit := privateBit, sectionLength := len, data := Some(s[3..])), Done)
    else
      var h1 := h.(version := VersionField(s[5]), last := s[7], tableId := s[0], privateBit := privateBit,
                   syntax := true, sectionLength := len, ext := Read16(s, 3), current := s[5] as int % 2 == 1);
      if 0 in h.seen then (h1, Duplicate)
      else (h1.(seen := h.seen + {0}, data := Some(s[8..] + junk)), Done)
  }

  lemma {:induction false} BuildIsLong(tableId: byte, ext: nat, version: nat, current: bool, number: byte,
                                       last: byte, body: seq<byte>)
    requires ext < 65536 && version < 32 && |body| + 9 < 4096
    ensures var s := Build(tableId, ext, version, current, number, last, body);
            IsLong(s) && s[0] == tableId
  {
    assert Build(tableId, ext, version, current, number, last, body)[1] as int / 128 == 1;
  }

  /** A built single section, and its body between header and CRC. */
  lemma {:induction false} BodyOfBuilt(tableId: byte, ext: nat, version: nat, current: bool, body: seq<byte>)
    requires ext < 65536 && version < 32 && |body| + 9 < 4096
    ensures var s := Build(tableId, ext, version, current, 0, 0, body);
            SingleSection(s) && Read16(s, 1) % 4096 == |body| + 9 && s[8..|s| - 4] == body
  {
    var s := Build(tableId, ext, version, current, 0, 0, body);
    BuildIsSection(tableId, ext, version, current, 0, 0, body);
    assert s[8..|s| - 4] == body;
  }

  /** The version that the reader sees in a built section: odd versions cannot
      be told from the even ones before them. */
  lemma {:induction false} VersionRead(tableId: byte, ext: nat, version: nat, current: bool, body: seq<byte>)
    requires ext < 65536 && version < 32 && |body| + 9 < 4096
    ensures var s := Build(tableId, ext, version, current, 0, 0, body);
            VersionField(s[5]) == 16 + version / 2
  {
    var v := 0xC0 + version * 2 + (if current then 1 else 0);
    assert v / 4 == 48 + version / 2;
  }

  /** A section of version `w` counts as newer than one of version `v`. */
  predicate Noticed(v: nat, w: nat) {
    w / 2 > v / 2 || (v / 2 == 15 && w / 2 != 15)
  }

  /** Exactly when a built section is taken as an update of version `v`. */
  lemma {:induction false} UpdateNoticed(tableId: byte, ext: nat, v: nat, w: nat, current: bool, body: seq<byte>)
    requires ext < 65536 && v < 32 && w < 32 && |body| + 9 < 4096
    ensures var check := CheckVersion(Build(tableId, ext, w, current, 0, 0, body), 16 + v / 2);
            && (check == Newer <==> Noticed(v, w))
            && (check == Same <==> v / 2 == w / 2)
  {
    VersionRead(tableId, ext, w, current, body);
  }

  /** In terms of version_number: of the higher versions, the odd one after an
      even one is missed; of the lower ones, only those after 30 or 31 are
      noticed. */
  lemma {:induction false} WhenNoticed(v: nat, w: nat)
    requires v < 32 && w < 32
    ensures w > v ==> (Noticed(v, w) <==> !(v % 2 == 0 && w == v + 1))
    ensures w < v ==> (Noticed(v, w) <==> v >= 30 && w < 30)
  {
  }

  /** What the reader makes of a built section. */
  lemma {:induction false} HeaderOfBuilt(h: Header, tableId: byte, ext: nat, version: nat, current: bool,
                                         body: seq<byte>, junk: seq<byte>)
    requires ext < 65536 && version < 32 && |body| + 9 <= MAX_LONG && |junk| == 5 && 0 !in h.seen
    ensures var s := Build(tableId, ext, version, current, 0, 0, body);
            && SingleSection(s)
            && var (h1, code) := ParseHeader(h, s, junk);
               && code == Done && h1.data.Some?
               && h1 == Header(tableId, true, false, |body| + 9, ext, 16 + version / 2, current, 0, h.seen + {0}, h1.data)
               && |h1.data.value| == |body| + 9 && h1.data.value[..|body|] == body
  {
    var s := Build(tableId, ext, version, current, 0, 0, body);
    BuildIsSection(tableId, ext, version, current, 0, 0, body);
    assert s[1] as int / 128 == 1;
    assert Read16(s, 3) == ext;
    VersionRead(tableId, ext, version, current, body);
    assert s[8..][..|body|] == body;
    assert (s[8..] + junk)[..|body|] == body;
  }

  /** A section in the short form: no extension, no version, no CRC. */
  function BuildShort(tableId: byte, privateBit: bool, body: seq<byte>): (r: seq<byte>)
    requires |body| < 4096
  {
    [tableId, (if privateBit then 0x70 else 0x30) + |body| / 256, |body| % 256] + body
  }

  /** The reader takes all of it, whatever the slot held. */
  lemma {:induction false} HeaderOfShort(h: Header, tableId: byte, privateBit: bool, body: seq<byte>, junk: seq<byte>)
    requires |body| <= MAX_SHORT && |junk| == 5
    ensures var s := BuildShort(tableId, privateBit, body);
            && SingleSection(s) && !IsLong(s)
            && ParseHeader(h, s, junk)
               == (h.(syntax := false, tableId := tableId, privateBit := privateBit, sectionLength := |body|,
                      data := Some(body)), Done)
  {
    var s := BuildShort(tableId, privateBit, body);
    var hi := s[1] as int;
    assert hi == (if privateBit then 0x70 else 0x30) + |body| / 256 && |body| / 256 < 16;
    assert hi / 128 == 0 && (hi / 64 % 2 == 1 <==> privateBit) && hi % 16 == |body| / 256;
    assert Read16(s, 1) == 4096 * (hi / 16) + |body|;
    assert s[3..] == body;
  }
}
