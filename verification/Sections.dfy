/** Section reassembly (`section_preproc` in src/ts.c, the PSI branch) and the
    fragmenter `emit_section` of tests/gen_full.c (section 2.4.4 of
    ISO/IEC 13818-1). */
module Sections {
  import opened Options
  import opened Bytes
  import opened Sequences

  const MAX_SECTION_BUF := 65535
  const PAYLOAD_MAX := 184

  /** The payload of one packet, its payload_unit_start_indicator, and the bytes
      that lie behind the packet in memory. */
  datatype Payload = Payload(start: bool, data: seq<byte>, after: seq<byte>)

  /** The reassembly record of one PID. */
  datatype Parser = Parser(total: nat, limit: nat, buffer: seq<byte>)

  /** The pointer_field points into the payload. The length field of the section
      is read where it points, even behind the end of the packet. */
  predicate InBounds(p: Payload) {
    |p.data| < 256 &&
    (p.start ==>
       |p.data| >= 1 && p.data[0] as int < |p.data| && |p.data| + |p.after| >= 4 + (p.data[0] as int))
  }

  /** The length field lies in the packet. */
  predicate Whole(p: Payload) {
    p.start ==> |p.data| >= 1 && |p.data| >= 4 + (p.data[0] as int)
  }

  /** The write offset never gets near the end of the buffer. */
  predicate Ready(s: Parser) {
    |s.buffer| == MAX_SECTION_BUF && s.total < 4098 && s.limit <= 4098
  }

  /** `memcpy` into the buffer. */
  function Splice(buf: seq<byte>, off: nat, data: seq<byte>): (r: seq<byte>)
    requires off + |data| <= |buf|
    ensures |r| == |buf|
  {
    buf[..off] + data + buf[off + |data|..]
  }

  /** `section_preproc`: the record afterwards, and the section if one is
      complete. A section that fits its packet leaves `total` as it is. */
  function Preproc(s: Parser, p: Payload): (r: (Parser, Option<seq<byte>>))
    requires Ready(s) && InBounds(p)
    ensures Ready(r.0)
  {
    if p.start then
      var ptr := p.data[0];
      var total := |p.data| - 1 - ptr;
      var limit := Read16(p.data + p.after, 2 + ptr) % 4096 + 3;
      if limit <= total then
        (Parser(total, limit, s.buffer), Some(p.data[1 + ptr..1 + ptr + limit]))
      else
        (Parser(total, limit, Splice(s.buffer, 0, p.data[1 + ptr..])), None)
    else if s.total == 0 then (s, None)
    else
      var buffer := Splice(s.buffer, s.total, p.data);
      var total := s.total + |p.data|;
      if total >= s.limit then (Parser(0, s.limit, buffer), Some(buffer[..s.limit]))
      else (Parser(total, s.limit, buffer), None)
  }

  /** A run of payloads on one PID: one entry per payload. */
  function Feed(s: Parser, ps: seq<Payload>): (r: (Parser, seq<Option<seq<byte>>>))
    requires Ready(s) && forall p :: p in ps ==> InBounds(p)
    ensures Ready(r.0) && |r.1| == |ps|
    decreases |ps|
  {
    if ps == [] then (s, [])
    else
      var (t, out) := Preproc(s, ps[0]);
      var (u, outs) := Feed(t, ps[1..]);
      (u, [out] + outs)
  }

  // ----- the fragmenter -----

  /** The length field of a section counts the bytes that follow it. */
  predicate IsSection(sec: seq<byte>) {
    |sec| >= 3 && Read16(sec, 1) % 4096 + 3 == |sec|
  }

  function Padded(data: seq<byte>): (r: seq<byte>)
    requires |data| <= PAYLOAD_MAX
    ensures |r| == PAYLOAD_MAX
  {
    data + Stuffing(PAYLOAD_MAX - |data|)
  }

  function Rest(sec: seq<byte>): (r: seq<Payload>)
    ensures forall p :: p in r ==> InBounds(p)
  {
    if sec == [] then []
    else if |sec| <= PAYLOAD_MAX then [Payload(false, Padded(sec), [])]
    else [Payload(false, Padded(sec[..PAYLOAD_MAX]), [])] + Rest(sec[PAYLOAD_MAX..])
  }

  /** The payloads that carry one section: a zero pointer_field first, stuffing
      last. */
  function Payloads(sec: seq<byte>): (r: seq<Payload>)
    ensures forall p :: p in r ==> InBounds(p)
  {
    if sec == [] then []
    else
      var n := if |sec| < PAYLOAD_MAX - 1 then |sec| else PAYLOAD_MAX - 1;
      [Payload(true, Padded([0] + sec[..n]), [])] + Rest(sec[n..])
  }

  /** Nothing until the last of `n` payloads, which completes the section. */
  function OnLast(n: nat, sec: seq<byte>): seq<Option<seq<byte>>> {
    if n == 0 then [] else if n == 1 then [Some(sec)] else [None] + OnLast(n - 1, sec)
  }

  // ----- carrying a section -----

  /** Payloads that go on with a section of which `rest` is left: all but the
      last lie within it, the last completes it. */
  predicate CarriesRest(ps: seq<Payload>, rest: seq<byte>)
    decreases |ps|
  {
    && ps != [] && !ps[0].start && |ps[0].data| < 256
    && if |ps| == 1 then rest <= ps[0].data
       else ps[0].data < rest && CarriesRest(ps[1..], rest[|ps[0].data|..])
  }

  /** Payloads of any sizes that carry a section: the first one has a
      pointer_field with that many bytes behind it, and then the section starts,
      with at least its length field. Anything may stand behind its end. */
  predicate Carries(ps: seq<Payload>, sec: seq<byte>) {
    && ps != [] && ps[0].start
    && 1 <= |ps[0].data| < 256 && ps[0].data[0] as int + 4 <= |ps[0].data|
    && var begin := ps[0].data[1 + ps[0].data[0]..];
       if |ps| == 1 then sec <= begin else begin < sec && CarriesRest(ps[1..], sec[|begin|..])
  }

  lemma {:induction false} CarriesInBounds(ps: seq<Payload>, sec: seq<byte>)
    requires Carries(ps, sec) || CarriesRest(ps, sec)
    ensures forall p :: p in ps ==> InBounds(p) && Whole(p)
    decreases |ps|
  {
    if |ps| > 1 {
      var n := |ps[0].data| - (if ps[0].start then 1 + ps[0].data[0] as int else 0);
      CarriesInBounds(ps[1..], sec[n..]);
    }
    forall p | p in ps ensures InBounds(p) && Whole(p) {
      if p != ps[0] {
        assert p in ps[1..];
      }
    }
  }

  // ----- reassembly delivers what is carried -----

  lemma {:induction false} RestCompletes(s: Parser, ps: seq<Payload>, sec: seq<byte>)
    requires Ready(s) && 0 < s.total < s.limit == |sec| && s.buffer[..s.total] == sec[..s.total]
    requires CarriesRest(ps, sec[s.total..])
    requires forall p :: p in ps ==> InBounds(p)
    ensures Feed(s, ps).1 == OnLast(|ps|, sec)
    ensures Feed(s, ps).0.total == 0 && Feed(s, ps).0.limit == |sec|
    decreases |ps|
  {
    var (rest, data) := (sec[s.total..], ps[0].data);
    var (t, out) := Preproc(s, ps[0]);
    if |ps| == 1 {
      assert Splice(s.buffer, s.total, data)[..|sec|] == sec[..s.total] + rest == sec;
      assert ps[1..] == [];
    } else {
      assert t.buffer[..t.total] == sec[..s.total] + data == sec[..t.total];
      assert rest[|data|..] == sec[t.total..];
      RestCompletes(t, ps[1..], sec);
    }
  }

  lemma {:induction false} FirstPayload(p: Payload, sec: seq<byte>, begin: seq<byte>)
    requires IsSection(sec) && p.start && 1 <= |p.data| < 256 && p.data[0] as int + 4 <= |p.data|
    requires begin == p.data[1 + p.data[0]..] && (begin <= sec || sec <= begin)
    ensures Read16(p.data + p.after, 2 + p.data[0]) == Read16(sec, 1)
    ensures sec <= begin ==> p.data[1 + p.data[0]..1 + p.data[0] + |sec|] == sec
  {
    var ptr := p.data[0] as int;
    assert (p.data + p.after)[2 + ptr] == p.data[2 + ptr] == begin[1];
    assert (p.data + p.after)[3 + ptr] == p.data[3 + ptr] == begin[2];
    if sec <= begin {
      assert p.data[1 + ptr..1 + ptr + |sec|] == begin[..|sec|];
    }
  }

  /** What the first payload of a section does to the record. */
  lemma {:induction false} FirstTaken(s: Parser, ps: seq<Payload>, sec: seq<byte>)
    requires Ready(s) && IsSection(sec) && Carries(ps, sec) && InBounds(ps[0])
    ensures var (t, out) := Preproc(s, ps[0]);
            && t.limit == |sec| && 0 < t.total
            && (|ps| == 1 ==> out == Some(sec) && t.limit <= t.total)
            && (|ps| > 1 ==>
                  && out.None? && t.total < t.limit && t.buffer[..t.total] == sec[..t.total]
                  && CarriesRest(ps[1..], sec[t.total..]))
  {
    var begin := ps[0].data[1 + ps[0].data[0]..];
    FirstPayload(ps[0], sec, begin);
    hide CarriesRest;
    if |ps| > 1 {
      var (t, out) := Preproc(s, ps[0]);
      assert t.buffer[..t.total] == begin == sec[..t.total];
    }
  }

  /** From any state of the record, payloads that carry a section deliver exactly
      that section, with the last of them. */
  lemma {:induction false} CarriedDelivered(s: Parser, ps: seq<Payload>, sec: seq<byte>)
    requires Ready(s) && IsSection(sec) && Carries(ps, sec)
    requires forall p :: p in ps ==> InBounds(p)
    ensures Feed(s, ps).1 == OnLast(|ps|, sec)
    ensures |ps| == 1 <==> Feed(s, ps).0.total > 0
    ensures Feed(s, ps).0.limit == |sec| && (|ps| == 1 ==> |sec| <= Feed(s, ps).0.total)
  {
    assert ps[0] in ps;
    FirstTaken(s, ps, sec);
    hide Preproc, Carries, CarriesRest, InBounds, IsSection;
    var (t, out) := Preproc(s, ps[0]);
    if |ps| == 1 {
      assert ps[1..] == [];
    } else {
      RestCompletes(t, ps[1..], sec);
    }
  }

  // ----- the fragmenter is one way to carry -----

  lemma {:induction false} RestCarries(sec: seq<byte>)
    requires sec != []
    ensures CarriesRest(Rest(sec), sec)
    decreases |sec|
  {
    if |sec| > PAYLOAD_MAX {
      var chunk := sec[..PAYLOAD_MAX];
      assert Padded(chunk) == chunk;
      RestCarries(sec[PAYLOAD_MAX..]);
      HeadTail(Payload(false, chunk, []), Rest(sec[PAYLOAD_MAX..]));
    }
  }

  lemma {:induction false} FirstChunk(sec: seq<byte>, n: nat)
    requires n <= |sec| && n < PAYLOAD_MAX
    ensures var data := Padded([0] + sec[..n]);
            && data[0] == 0 && |data| == PAYLOAD_MAX && data[1..] == sec[..n] + Stuffing(PAYLOAD_MAX - 1 - n)
            && (n == PAYLOAD_MAX - 1 ==> data[1..] == sec[..n])
            && (n == |sec| ==> sec <= data[1..])
  {
    var data := Padded([0] + sec[..n]);
    assert data[1..] == sec[..n] + Stuffing(PAYLOAD_MAX - 1 - n);
  }

  lemma {:induction false} PayloadsCarry(sec: seq<byte>)
    requires IsSection(sec)
    ensures Carries(Payloads(sec), sec)
  {
    var n := if |sec| < PAYLOAD_MAX - 1 then |sec| else PAYLOAD_MAX - 1;
    var (p, rest) := (Payload(true, Padded([0] + sec[..n]), []), Rest(sec[n..]));
    assert Payloads(sec) == [p] + rest;
    assert n == |sec| ==> sec[n..] == [] && rest == [];
    hide Payloads, Padded, Rest, CarriesRest, IsSection;
    HeadTail(p, rest);
    FirstChunk(sec, n);
    if n < |sec| {
      assert p.data[1..] < sec;
      RestCarries(sec[n..]);
    }
  }

  lemma {:induction false} SectionDelivered(s: Parser, sec: seq<byte>)
    requires Ready(s) && IsSection(sec)
    ensures Feed(s, Payloads(sec)).1 == OnLast(|Payloads(sec)|, sec)
  {
    PayloadsCarry(sec);
    CarriedDelivered(s, Payloads(sec), sec);
  }

  // ----- payloads that belong to no section -----

  function Nothing(n: nat): (r: seq<Option<seq<byte>>>)
    ensures |r| == n
  {
    seq(n, _ => None)
  }

  /** A record without an open section takes no notice of payloads that do not
      start one. */
  lemma {:induction false} StrayPayloads(s: Parser, ps: seq<Payload>)
    requires Ready(s) && s.total == 0 && forall p :: p in ps ==> InBounds(p) && !p.start
    ensures Feed(s, ps) == (s, Nothing(|ps|))
    decreases |ps|
  {
    if ps != [] {
      assert ps[0] in ps;
      StrayPayloads(s, ps[1..]);
      assert Nothing(|ps|) == [None] + Nothing(|ps| - 1);
    }
  }

  /** After a section, a payload that starts no other is ignored if and only if
      the section took several payloads. After one that took a single payload the
      record still counts as open, and bytes of the buffer are delivered as if
      they were a section. */
  lemma {:induction false} StrayAfterSection(s: Parser, ps: seq<Payload>, sec: seq<byte>, stray: Payload)
    requires Ready(s) && IsSection(sec) && Carries(ps, sec) && InBounds(stray) && !stray.start
    requires forall p :: p in ps ==> InBounds(p)
    ensures Feed(s, ps + [stray]).1 == OnLast(|ps|, sec) + [Preproc(Feed(s, ps).0, stray).1]
    ensures Preproc(Feed(s, ps).0, stray).1.None? <==> |ps| > 1
  {
    CarriedDelivered(s, ps, sec);
    FeedConcat(s, ps, [stray]);
    hide Carries, InBounds, IsSection;
    var end := Feed(s, ps).0;
    assert [stray][1..] == [] && Feed(end, [stray]).1 == [Preproc(end, stray).1] + [];
  }

  // ----- many sections on one PID -----

  /** A section and the payloads that carry it. */
  datatype Flight = Flight(section: seq<byte>, payloads: seq<Payload>)

  predicate Flies(f: Flight) {
    IsSection(f.section) && Carries(f.payloads, f.section)
  }

  predicate AllFly(fs: seq<Flight>) {
    forall i :: 0 <= i < |fs| ==> Flies(fs[i])
  }

  function AllPayloads(fs: seq<Flight>): seq<Payload> {
    if fs == [] then [] else fs[0].payloads + AllPayloads(fs[1..])
  }

  function AllOnLast(fs: seq<Flight>): seq<Option<seq<byte>>> {
    if fs == [] then [] else OnLast(|fs[0].payloads|, fs[0].section) + AllOnLast(fs[1..])
  }

  function SectionsOf(fs: seq<Flight>): (r: seq<seq<byte>>)
    ensures |r| == |fs|
    ensures forall i :: 0 <= i < |fs| ==> r[i] == fs[i].section
  {
    seq(|fs|, i requires 0 <= i < |fs| => fs[i].section)
  }

  /** Every section the way the fragmenter cuts it. */
  function Fragmented(secs: seq<seq<byte>>): (r: seq<Flight>)
    ensures |r| == |secs|
    ensures forall i :: 0 <= i < |secs| ==> r[i] == Flight(secs[i], Payloads(secs[i]))
  {
    seq(|secs|, i requires 0 <= i < |secs| => Flight(secs[i], Payloads(secs[i])))
  }

  lemma {:induction false} FragmentedFly(secs: seq<seq<byte>>)
    requires forall sec :: sec in secs ==> IsSection(sec)
    ensures AllFly(Fragmented(secs)) && SectionsOf(Fragmented(secs)) == secs
  {
    hide Carries, Payloads;
    forall i | 0 <= i < |secs| ensures Flies(Fragmented(secs)[i]) {
      assert secs[i] in secs;
      PayloadsCarry(secs[i]);
    }
  }

  lemma {:induction false} FlightsInBounds(fs: seq<Flight>)
    requires AllFly(fs)
    ensures forall p :: p in AllPayloads(fs) ==> InBounds(p) && Whole(p)
  {
    if fs != [] {
      assert Flies(fs[0]);
      CarriesInBounds(fs[0].payloads, fs[0].section);
      FlightsInBounds(fs[1..]);
    }
  }

  lemma {:induction false} FeedConcat(s: Parser, a: seq<Payload>, b: seq<Payload>)
    requires Ready(s) && (forall p :: p in a ==> InBounds(p)) && (forall p :: p in b ==> InBounds(p))
    ensures var (t, outs) := Feed(s, a);
            Feed(s, a + b) == (Feed(t, b).0, outs + Feed(t, b).1)
    decreases |a|
  {
    if a == [] {
      assert a + b == b;
      assert [] + Feed(s, b).1 == Feed(s, b).1;
    } else {
      var (t, out) := Preproc(s, a[0]);
      assert (a + b)[1..] == a[1..] + b;
      FeedConcat(t, a[1..], b);
      var (u, outs) := Feed(t, a[1..]);
      Assoc([out], outs, Feed(u, b).1);
    }
  }

  lemma {:induction false} SectionsDelivered(s: Parser, fs: seq<Flight>)
    requires Ready(s) && AllFly(fs)
    ensures forall p :: p in AllPayloads(fs) ==> InBounds(p)
    ensures Feed(s, AllPayloads(fs)).1 == AllOnLast(fs)
    decreases |fs|
  {
    hide Carries, InBounds, Preproc, OnLast;
    FlightsInBounds(fs);
    if fs != [] {
      assert Flies(fs[0]);
      FlightsInBounds(fs[1..]);
      var (ps, more) := (fs[0].payloads, AllPayloads(fs[1..]));
      CarriesInBounds(ps, fs[0].section);
      CarriedDelivered(s, ps, fs[0].section);
      FeedConcat(s, ps, more);
      SectionsDelivered(Feed(s, ps).0, fs[1..]);
    }
  }

  // ----- what lies behind whole packets plays no part -----

  function Bare(ps: seq<Payload>): (r: seq<Payload>)
    ensures |r| == |ps|
    ensures forall i :: 0 <= i < |ps| ==> r[i] == ps[i].(after := [])
  {
    seq(|ps|, i requires 0 <= i < |ps| => ps[i].(after := []))
  }

  predicate AllWhole(ps: seq<Payload>) {
    forall i :: 0 <= i < |ps| ==> InBounds(ps[i]) && Whole(ps[i])
  }

  lemma {:induction false} PreprocWhole(s: Parser, p: Payload)
    requires Ready(s) && InBounds(p) && Whole(p)
    ensures InBounds(p.(after := [])) && Preproc(s, p) == Preproc(s, p.(after := []))
  {
    assert p.data + [] == p.data;
    if p.start {
      var i := 2 + p.data[0];
      assert (p.data + p.after)[i] == p.data[i] && (p.data + p.after)[i + 1] == p.data[i + 1];
    }
  }

  lemma {:induction false} FeedWhole(s: Parser, ps: seq<Payload>)
    requires Ready(s) && AllWhole(ps)
    ensures (forall p :: p in Bare(ps) ==> InBounds(p)) && Feed(s, ps).1 == Feed(s, Bare(ps)).1
    decreases |ps|
  {
    if ps != [] {
      PreprocWhole(s, ps[0]);
      FeedWhole(Preproc(s, ps[0]).0, ps[1..]);
      assert Bare(ps)[1..] == Bare(ps[1..]) && Bare(ps) == [Bare(ps)[0]] + Bare(ps[1..]);
    }
  }

  /** The sections among the outcomes. */
  function Somes(outs: seq<Option<seq<byte>>>): seq<seq<byte>> {
    if outs == [] then [] else (if outs[0].Some? then [outs[0].value] else []) + Somes(outs[1..])
  }

  lemma {:induction false} SomesOnLast(n: nat, sec: seq<byte>, more: seq<Option<seq<byte>>>)
    requires n > 0
    ensures Somes(OnLast(n, sec) + more) == [sec] + Somes(more)
    decreases n
  {
    var outs := OnLast(n, sec) + more;
    if n == 1 {
      assert outs[1..] == more;
    } else {
      assert outs[1..] == OnLast(n - 1, sec) + more;
      SomesOnLast(n - 1, sec, more);
      assert [] + Somes(outs[1..]) == Somes(outs[1..]);
    }
  }

  lemma {:induction false} SomesAll(fs: seq<Flight>)
    requires AllFly(fs)
    ensures Somes(AllOnLast(fs)) == SectionsOf(fs)
    decreases |fs|
  {
    if fs != [] {
      assert Flies(fs[0]) && fs[0].payloads != [];
      hide Flies, OnLast;
      SomesOnLast(|fs[0].payloads|, fs[0].section, AllOnLast(fs[1..]));
      SomesAll(fs[1..]);
      assert SectionsOf(fs) == [fs[0].section] + SectionsOf(fs[1..]);
    }
  }

  // ----- the record as it is updated in place -----

  class SectionParser {
    var totalLen: nat
    var limitLen: nat
    const buffer: array<byte>

    ghost predicate Valid()
      reads this, buffer
    {
      buffer.Length == MAX_SECTION_BUF && Ready(View())
    }

    ghost function View(): Parser
      reads this, buffer
    {
      Parser(totalLen, limitLen, buffer[..])
    }

    constructor ()
      ensures Valid() && fresh(buffer) && totalLen == 0
    {
      buffer := new byte[MAX_SECTION_BUF];
      totalLen, limitLen := 0, 0;
    }

    method Copy(off: nat, data: seq<byte>)
      requires off + |data| <= buffer.Length
      modifies buffer
      ensures buffer[..] == Splice(old(buffer[..]), off, data)
    {
      ghost var before := buffer[..];
      forall i | 0 <= i < |data| {
        buffer[off + i] := data[i];
      }
      assert buffer[..] == Splice(before, off, data);
    }

    /** `section_preproc` for a PSI packet. */
    method Accept(start: bool, pkt: seq<byte>, after: seq<byte>) returns (section: Option<seq<byte>>)
      requires Valid() && InBounds(Payload(start, pkt, after))
      modifies this`totalLen, this`limitLen, buffer
      ensures Valid()
      ensures (View(), section) == Preproc(old(View()), Payload(start, pkt, after))
    {
      section := None;
      if start {
        var pointerField := pkt[0] as int;
        totalLen := |pkt| - 1 - pointerField;
        limitLen := Read16(pkt + after, 2 + pointerField) % 4096;
        limitLen := limitLen + 3;
        if limitLen <= totalLen {
          section := Some(pkt[1 + pointerField..1 + pointerField + limitLen]);
        } else {
          Copy(0, pkt[1 + pointerField..]);
        }
      } else if totalLen != 0 {
        Copy(totalLen, pkt);
        totalLen := totalLen + |pkt|;
        if totalLen >= limitLen {
          section := Some(buffer[..limitLen]);
          totalLen := 0;
        }
      }
    }
  }
}
