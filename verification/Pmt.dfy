/** The program map table: `parse_pmt` of src/table.c (section 2.4.4.8 of
    ISO/IEC 13818-1), from the built section through packets and reassembly
    back to the table. */
module Pmt {
  import opened Options
  import opened Bytes
  import opened Sequences
  import opened PsiSection
  import opened Sections
  import D = Descriptors
  import Demux

  datatype Stream = Stream(streamType: byte, pid: nat, info: seq<D.Descriptor>)

  /** The fields of `pmt_t`. */
  datatype Table = Table(header: Header, programNumber: nat, pcrPid: nat, programInfoLength: nat,
                         info: seq<D.Descriptor>, streams: seq<Stream>)

  // ----- reading -----

  /** The elementary streams in `n` bytes of `data`; `None` when the loop would
      run past the end of `data`. */
  function ParseStreams(data: seq<byte>, n: int): Option<seq<Stream>>
    decreases |data|
  {
    if n <= 0 then Some([])
    else if |data| < 5 then None
    else
      var len := Read16(data, 3) % 4096;
      var info := D.Parse(data[5..], len);
      if info.None? || |data| < 5 + len then None
      else Prepend([Stream(data[0], Read16(data, 1) % 8192, info.value)], ParseStreams(data[5 + len..], n - (5 + len)))
  }

  /** The body of a section of length `sectionLength`. */
  function ParseBody(t: Table, data: seq<byte>, sectionLength: int): Option<Table> {
    if |data| < 4 then None
    else
      var len := Read16(data, 2) % 4096;
      var info := D.Parse(data[4..], len);
      if info.None? || |data| < 4 + len then None
      else
        var streams := ParseStreams(data[4 + len..], sectionLength - 9 - 4 - len);
        if streams.None? then None
        else Some(t.(programNumber := t.header.ext, pcrPid := Read16(data, 0) % 8192, programInfoLength := len,
                     info := info.value, streams := streams.value))
  }

  /** `parse_pmt`; `None` when the code would read outside the section. */
  function Parse(t: Table, s: seq<byte>, junk: seq<byte>): Option<(Table, Code)>
    requires SingleSection(s) && |junk| == 5
  {
    var (h, code) := ParseHeader(t.header, s, junk);
    var t1 := t.(header := h);
    if code != Done then Some((t1, code))
    else
      var r := ParseBody(t1, h.data.value, h.sectionLength);
      if r.None? then None else Some((r.value, Done))
  }

  class Slot {
    var table: Table

    constructor (t: Table)
      ensures table == t
    {
      table := t;
    }

    method ParseStreamLoop(data: seq<byte>, n: int) returns (ok: bool)
      modifies this
      ensures ok == ParseStreams(data, n).Some?
      ensures ok ==> table == old(table).(streams := old(table).streams + ParseStreams(data, n).value)
    {
      ghost var start := table;
      var left: int, ptr: seq<byte> := n, data;
      assert start.streams == start.streams + [];
      ghost var list: seq<Stream> := [];
      PrependNothing(ParseStreams(data, n));
      while left > 0
        invariant table == start.(streams := start.streams + list)
        invariant ParseStreams(data, n) == Prepend(list, ParseStreams(ptr, left))
        decreases |ptr|
      {
        if |ptr| < 5 {
          return false;
        }
        var len := Read16(ptr, 3) % 4096;
        var info := D.ParseLoop(ptr[5..], len);
        if info.None? || |ptr| < 5 + len {
          return false;
        }
        var pn := Stream(ptr[0], Read16(ptr, 1) % 8192, info.value);
        PrependTwice(list, [pn], ParseStreams(ptr[5 + len..], left - (5 + len)));
        Assoc(start.streams, list, [pn]);
        table := table.(streams := table.streams + [pn]);
        list := list + [pn];
        left, ptr := left - (5 + len), ptr[5 + len..];
      }
      assert list + [] == list;
      return true;
    }

    /** The part of `parse_pmt` that reads the body. */
    method ParseTableBody(data: seq<byte>, sectionLength: int) returns (ok: bool)
      modifies this
      ensures ok == ParseBody(old(table), data, sectionLength).Some?
      ensures ok ==> table == ParseBody(old(table), data, sectionLength).value
    {
      table := table.(streams := [], info := [], programNumber := table.header.ext);
      if |data| < 4 {
        return false;
      }
      var len := Read16(data, 2) % 4096;
      table := table.(pcrPid := Read16(data, 0) % 8192, programInfoLength := len);
      var info := D.ParseLoop(data[4..], len);
      if info.None? || |data| < 4 + len {
        return false;
      }
      table := table.(info := info.value);
      ok := ParseStreamLoop(data[4 + len..], sectionLength - 9 - 4 - len);
      PrependNothing(ParseStreams(data[4 + len..], sectionLength - 9 - 4 - len));
    }

    /** `parse_pmt` on the slot of its PID. */
    method ParsePmt(s: seq<byte>, junk: seq<byte>) returns (code: Option<Code>)
      requires SingleSection(s) && |junk| == 5
      modifies this
      ensures code.Some? == Parse(old(table), s, junk).Some?
      ensures code.Some? ==> Parse(old(table), s, junk) == Some((table, code.value))
    {
      var (h, c) := ParseHeader(table.header, s, junk);
      table := table.(header := h);
      if c != Done {
        return Some(c);
      }
      var ok := ParseTableBody(h.data.value, h.sectionLength);
      return if ok then Some(Done) else None;
    }
  }

  // ----- writing -----

  predicate GoodStream(e: Stream) {
    e.pid < 8192 && D.Encodable(e.info) && |D.Encode(e.info)| < 4096
  }

  predicate GoodStreams(es: seq<Stream>) {
    es == [] || (GoodStream(es[0]) && GoodStreams(es[1..]))
  }

  /** Reserved bits are ones. */
  function EncodeStream(e: Stream): seq<byte>
    requires GoodStream(e)
  {
    var info := D.Encode(e.info);
    [e.streamType] + Write16(0xE000 + e.pid) + Write16(0xF000 + |info|) + info
  }

  function EncodeStreams(es: seq<Stream>): seq<byte>
    requires GoodStreams(es)
  {
    if es == [] then [] else EncodeStream(es[0]) + EncodeStreams(es[1..])
  }

  function EncodeBody(pcrPid: nat, info: seq<D.Descriptor>, es: seq<Stream>): seq<byte>
    requires pcrPid < 8192 && D.Encodable(info) && |D.Encode(info)| < 4096 && GoodStreams(es)
  {
    Write16(0xE000 + pcrPid) + Write16(0xF000 + |D.Encode(info)|) + D.Encode(info) + EncodeStreams(es)
  }

  // ----- the round trip -----

  lemma {:induction false} ReadStream(e: Stream, more: seq<byte>)
    requires GoodStream(e)
    ensures var data := EncodeStream(e) + more;
            var len := |D.Encode(e.info)|;
            && |data| >= 5 + len && |EncodeStream(e)| == 5 + len
            && data[0] == e.streamType && Read16(data, 1) % 8192 == e.pid && Read16(data, 3) % 4096 == len
            && data[5..] == D.Encode(e.info) + more && data[5 + len..] == more
  {
    var data := EncodeStream(e) + more;
    var len := |D.Encode(e.info)|;
    assert Read16(data, 1) == 0xE000 + e.pid;
    assert Read16(data, 3) == 0xF000 + len;
  }

  lemma {:induction false} StreamStep(data: seq<byte>, n: int, e: Stream, enc: seq<byte>, more: seq<byte>)
    requires n > 0 && |data| >= 5 + |enc| && Read16(data, 3) % 4096 == |enc|
    requires data[0] == e.streamType && Read16(data, 1) % 8192 == e.pid
    requires data[5..] == enc + more && D.Parse(enc + more, |enc|) == Some(e.info)
    requires data[5 + |enc|..] == more
    ensures ParseStreams(data, n) == Prepend([e], ParseStreams(more, n - (5 + |enc|)))
  {
  }

  lemma {:induction false} ParseOneStream(e: Stream, more: seq<byte>, n: int)
    requires GoodStream(e) && n > 0
    ensures ParseStreams(EncodeStream(e) + more, n) == Prepend([e], ParseStreams(more, n - |EncodeStream(e)|))
  {
    hide EncodeStream, ParseStreams, D.Encode, D.Parse;
    ReadStream(e, more);
    D.RoundTrip(e.info, more);
    StreamStep(EncodeStream(e) + more, n, e, D.Encode(e.info), more);
  }

  lemma {:induction false} StreamsRoundTrip(es: seq<Stream>, rest: seq<byte>)
    requires GoodStreams(es)
    ensures ParseStreams(EncodeStreams(es) + rest, |EncodeStreams(es)|) == Some(es)
    decreases |es|
  {
    if es != [] {
      Assoc(EncodeStream(es[0]), EncodeStreams(es[1..]), rest);
      ParseOneStream(es[0], EncodeStreams(es[1..]) + rest, |EncodeStreams(es)|);
      StreamsRoundTrip(es[1..], rest);
      assert [es[0]] + es[1..] == es;
    }
  }

  lemma {:induction false} ReadBody(pcrPid: nat, enc: seq<byte>, tail: seq<byte>)
    requires pcrPid < 8192 && |enc| < 4096
    ensures var data := Write16(0xE000 + pcrPid) + Write16(0xF000 + |enc|) + enc + tail;
            && |data| == 4 + |enc| + |tail|
            && Read16(data, 0) % 8192 == pcrPid && Read16(data, 2) % 4096 == |enc|
            && data[4..] == enc + tail && data[4 + |enc|..] == tail
  {
    var data := Write16(0xE000 + pcrPid) + Write16(0xF000 + |enc|) + enc + tail;
    assert Read16(data, 0) == 0xE000 + pcrPid;
    assert Read16(data, 2) == 0xF000 + |enc|;
  }

  lemma {:induction false} BodyStep(t: Table, data: seq<byte>, sectionLength: int, enc: seq<byte>, tail: seq<byte>,
                                    info: seq<D.Descriptor>, es: seq<Stream>)
    requires |data| >= 4 + |enc| && Read16(data, 2) % 4096 == |enc|
    requires data[4..] == enc + tail && D.Parse(enc + tail, |enc|) == Some(info)
    requires data[4 + |enc|..] == tail && ParseStreams(tail, sectionLength - 9 - 4 - |enc|) == Some(es)
    ensures ParseBody(t, data, sectionLength)
         == Some(t.(programNumber := t.header.ext, pcrPid := Read16(data, 0) % 8192, programInfoLength := |enc|,
                    info := info, streams := es))
  {
  }

  lemma {:induction false} BodyBytes(t: Table, pcrPid: nat, enc: seq<byte>, ses: seq<byte>, rest: seq<byte>,
                                     info: seq<D.Descriptor>, es: seq<Stream>)
    requires pcrPid < 8192 && |enc| < 4096
    requires D.Parse(enc + (ses + rest), |enc|) == Some(info) && ParseStreams(ses + rest, |ses|) == Some(es)
    ensures var body := Write16(0xE000 + pcrPid) + Write16(0xF000 + |enc|) + enc + ses;
            ParseBody(t, body + rest, |body| + 9)
            == Some(t.(programNumber := t.header.ext, pcrPid := pcrPid, programInfoLength := |enc|,
                       info := info, streams := es))
  {
    var head := Write16(0xE000 + pcrPid) + Write16(0xF000 + |enc|);
    ReadBody(pcrPid, enc, ses + rest);
    Assoc(head + enc, ses, rest);
    BodyStep(t, head + enc + (ses + rest), 4 + |enc| + |ses| + 9, enc, ses + rest, info, es);
  }

  lemma {:induction false} BodyRoundTrip(t: Table, pcrPid: nat, info: seq<D.Descriptor>, es: seq<Stream>, rest: seq<byte>)
    requires pcrPid < 8192 && D.Encodable(info) && |D.Encode(info)| < 4096 && GoodStreams(es)
    ensures ParseBody(t, EncodeBody(pcrPid, info, es) + rest, |EncodeBody(pcrPid, info, es)| + 9)
         == Some(t.(programNumber := t.header.ext, pcrPid := pcrPid, programInfoLength := |D.Encode(info)|,
                    info := info, streams := es))
  {
    hide D.Encode, D.Parse, EncodeStreams, ParseStreams, ParseBody, GoodStreams, D.Encodable;
    D.RoundTrip(info, EncodeStreams(es) + rest);
    StreamsRoundTrip(es, rest);
    BodyBytes(t, pcrPid, D.Encode(info), EncodeStreams(es), rest, info, es);
  }

  /** A slot that has not seen its section yet. */
  predicate Fresh(t: Table) { 0 !in t.header.seen }

  /** Parsing a built section gives the table back. */
  lemma {:induction false} SectionRoundTrip(t: Table, program: nat, version: nat, current: bool, pcrPid: nat,
                                            info: seq<D.Descriptor>, es: seq<Stream>, junk: seq<byte>)
    requires Fresh(t) && program < 65536 && version < 32 && |junk| == 5
    requires pcrPid < 8192 && D.Encodable(info) && |D.Encode(info)| < 4096 && GoodStreams(es)
    requires |EncodeBody(pcrPid, info, es)| + 9 <= MAX_LONG
    ensures var s := Build(0x02, program, version, current, 0, 0, EncodeBody(pcrPid, info, es));
            && SingleSection(s)
            && var r := Parse(t, s, junk);
               && r.Some? && r.value.1 == Done
               && r.value.0.programNumber == program && r.value.0.pcrPid == pcrPid
               && r.value.0.info == info && r.value.0.streams == es
  {
    hide Build, ParseHeader, ParseBody, SingleSection, D.Encode, D.Encodable, GoodStreams, EncodeStreams;
    var body := EncodeBody(pcrPid, info, es);
    var s := Build(0x02, program, version, current, 0, 0, body);
    HeaderOfBuilt(t.header, 0x02, program, version, current, body, junk);
    var h := ParseHeader(t.header, s, junk).0;
    var rest := h.data.value[|body|..];
    assert h.data.value == body + rest;
    BodyRoundTrip(t.(header := h), pcrPid, info, es, rest);
  }

  /** Exactly when a section reaches the table: its length is allowed, and it is
      in the short form or the first one of the slot. */
  lemma {:induction false} WhenTaken(t: Table, s: seq<byte>, junk: seq<byte>)
    requires SingleSection(s) && |junk| == 5
    ensures ParseHeader(t.header, s, junk).1 == Done
       <==> Read16(s, 1) % 4096 <= (if IsLong(s) then MAX_LONG else MAX_SHORT) && (IsLong(s) ==> Fresh(t))
  {
  }

  /** The section bitmap of a slot is never cleared: once a section has been
      taken, no later one in the long form changes the table, whatever its
      version. */
  lemma {:induction false} SlotIsFrozen(t: Table, s: seq<byte>, junk: seq<byte>)
    requires !Fresh(t) && SingleSection(s) && IsLong(s) && |junk| == 5
    ensures var r := Parse(t, s, junk);
            && r.Some? && r.value.1 != Done
            && r.value.0 == t.(header := r.value.0.header) && !Fresh(r.value.0)
  {
  }

  /** A PID that was registered twice gets every section twice; the second call
      finds nothing to change. */
  lemma {:induction false} SecondCall(t: Table, s: seq<byte>, junk: seq<byte>, junk': seq<byte>)
    requires SingleSection(s) && IsLong(s) && |junk| == |junk'| == 5 && Parse(t, s, junk).Some?
    ensures var u := Parse(t, s, junk).value.0;
            Parse(u, s, junk').Some? && Parse(u, s, junk').value.0 == u
  {
  }

  // ----- updates -----

  predicate GoodInputs(ins: seq<Input>) {
    forall i :: 0 <= i < |ins| ==> SingleSection(ins[i].section) && |ins[i].junk| == 5
  }

  predicate LongInputs(ins: seq<Input>) {
    GoodInputs(ins) && forall i :: 0 <= i < |ins| ==> IsLong(ins[i].section)
  }

  /** The slot after some sections; `None` when one of them cannot be read. */
  function ParseAll(t: Table, ins: seq<Input>): Option<Table>
    requires GoodInputs(ins)
    decreases |ins|
  {
    if ins == [] then Some(t)
    else
      var r := Parse(t, ins[0].section, ins[0].junk);
      if r.None? then None else ParseAll(r.value.0, ins[1..])
  }

  /** No number of sections updates a slot that has taken one. */
  lemma {:induction false} StaysFrozen(t: Table, ins: seq<Input>)
    requires !Fresh(t) && LongInputs(ins)
    ensures var r := ParseAll(t, ins);
            r.Some? && r.value == t.(header := r.value.header) && !Fresh(r.value)
    decreases |ins|
  {
    if ins != [] {
      SlotIsFrozen(t, ins[0].section, ins[0].junk);
      StaysFrozen(Parse(t, ins[0].section, ins[0].junk).value.0, ins[1..]);
    }
  }

  lemma {:induction false} TakenOnce(t: Table, s: seq<byte>, junk: seq<byte>)
    requires SingleSection(s) && IsLong(s) && |junk| == 5
    requires Parse(t, s, junk).Some? && Parse(t, s, junk).value.1 == Done
    ensures !Fresh(Parse(t, s, junk).value.0)
  {
  }

  /** The first PMT stays: whatever long sections follow, PMTs of other versions
      included, the slot keeps the program, PCR PID, descriptors and streams of
      the first one. */
  lemma {:induction false} FirstPmtStays(t: Table, program: nat, version: nat, current: bool, pcrPid: nat,
                                         info: seq<D.Descriptor>, es: seq<Stream>, junk: seq<byte>,
                                         later: seq<Input>)
    requires Fresh(t) && program < 65536 && version < 32 && |junk| == 5
    requires pcrPid < 8192 && D.Encodable(info) && |D.Encode(info)| < 4096 && GoodStreams(es)
    requires |EncodeBody(pcrPid, info, es)| + 9 <= MAX_LONG
    requires LongInputs(later)
    ensures var s := Build(0x02, program, version, current, 0, 0, EncodeBody(pcrPid, info, es));
            && SingleSection(s) && IsLong(s)
            && var r := ParseAll(t, [Input(s, junk)] + later);
               && r.Some? && r.value.programNumber == program && r.value.pcrPid == pcrPid
               && r.value.info == info && r.value.streams == es
  {
    hide Build, Parse, EncodeBody, SingleSection, D.Encode, D.Encodable, GoodStreams, Fresh;
    var s := Build(0x02, program, version, current, 0, 0, EncodeBody(pcrPid, info, es));
    SectionRoundTrip(t, program, version, current, pcrPid, info, es, junk);
    BuildIsLong(0x02, program, version, current, 0, 0, EncodeBody(pcrPid, info, es));
    TakenOnce(t, s, junk);
    HeadTail(Input(s, junk), later);
    StaysFrozen(Parse(t, s, junk).value.0, later);
  }

  /** End to end: a PMT built into a section, cut into packets, mixed with any
      other packets, reassembled from any earlier state and parsed into a fresh
      slot is the PMT it was built from. */
  lemma {:induction false} EndToEnd(t: Table, program: nat, version: nat, current: bool, pcrPid: nat,
                                    info: seq<D.Descriptor>, es: seq<Stream>, junk: seq<byte>,
                                    sec: seq<Parser>, arrivals: seq<Demux.Arrival>, streams: set<nat>,
                                    pid: nat)
    requires Fresh(t) && program < 65536 && version < 32 && |junk| == 5
    requires pcrPid < 8192 && D.Encodable(info) && |D.Encode(info)| < 4096 && GoodStreams(es)
    requires |EncodeBody(pcrPid, info, es)| + 9 <= MAX_LONG
    requires Demux.AllReady(sec, streams) && Demux.Apart(arrivals, streams) && Demux.Readable(arrivals)
    requires pid < Demux.NUM_PIDS && pid != Demux.NULL_PID && pid !in streams
    requires var s := Build(0x02, program, version, current, 0, 0, EncodeBody(pcrPid, info, es));
             Demux.Sends(Demux.OnPid(arrivals, pid), pid, [s])
    ensures var delivered := Demux.DeliveredOn(Demux.Deliveries(Demux.Run(sec, arrivals, streams).1), pid);
            && |delivered| == 1 && SingleSection(delivered[0])
            && var r := Parse(t, delivered[0], junk);
               && r.Some? && r.value.1 == Done
               && r.value.0.programNumber == program && r.value.0.pcrPid == pcrPid
               && r.value.0.info == info && r.value.0.streams == es
  {
    var s := Build(0x02, program, version, current, 0, 0, EncodeBody(pcrPid, info, es));
    SectionRoundTrip(t, program, version, current, pcrPid, info, es, junk);
    Demux.Reassembly(sec, arrivals, streams, pid, [s]);
  }
}
