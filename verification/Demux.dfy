/** Packets: what `emit_section` of tests/gen_full.c writes, how `ts_proc` of
    src/ts.c classifies a packet, and reassembly over a whole stream in which
    the packets of many PIDs are mixed. */
module Demux {
  import opened Options
  import opened Bytes
  import opened Sections
  import opened Sequences

  const SYNC_BYTE: byte := 0x47
  const NULL_PID := 0x1FFF
  const NUM_PIDS := 8192

  // ----- writing packets -----

  /** What a packet has besides its PID and payload: error and priority bit,
      scrambling control, counter, and the bytes of an adaptation field. */
  datatype Carrier = Carrier(error: bool, priority: bool, scrambling: nat, cc: nat, field: Option<seq<byte>>)

  predicate GoodCarrier(k: Carrier) {
    k.scrambling < 4 && (k.field.Some? ==> |k.field.value| < 256)
  }

  /** Sync byte, PID with the flags, and the byte with the adaptation_field_control. */
  function Header(pid: nat, start: bool, k: Carrier, control: nat): (h: seq<byte>)
    requires pid < NUM_PIDS && GoodCarrier(k) && control < 4
    ensures |h| == 4
  {
    [SYNC_BYTE,
     pid / 256 + (if k.error then 0x80 else 0) + (if start then 0x40 else 0) + (if k.priority then 0x20 else 0),
     pid % 256,
     0x40 * k.scrambling + 0x10 * control + k.cc % 16]
  }

  /** An adaptation field starts with its length. */
  function FieldBytes(field: Option<seq<byte>>): seq<byte>
    requires field.Some? ==> |field.value| < 256
  {
    if field.None? then [] else [|field.value|] + field.value
  }

  function Packet(pid: nat, k: Carrier, p: Payload): seq<byte>
    requires pid < NUM_PIDS && GoodCarrier(k)
  {
    Header(pid, p.start, k, if k.field.Some? then 3 else 1) + FieldBytes(k.field) + p.data
  }

  /** Payloads one after the other on a PID, each with its carrier. */
  function PacketsOf(pid: nat, ks: seq<Carrier>, ps: seq<Payload>): (r: seq<seq<byte>>)
    requires pid < NUM_PIDS && |ks| == |ps| && forall i :: 0 <= i < |ks| ==> GoodCarrier(ks[i])
    ensures |r| == |ps|
    decreases |ps|
  {
    if ps == [] then [] else [Packet(pid, ks[0], ps[0])] + PacketsOf(pid, ks[1..], ps[1..])
  }

  /** Nothing but a counter. */
  function Plain(cc: nat): (k: Carrier)
    ensures GoodCarrier(k)
  {
    Carrier(false, false, 0, cc, None)
  }

  function Counting(cc: nat, n: nat): (ks: seq<Carrier>)
    ensures |ks| == n && forall i :: 0 <= i < n ==> ks[i] == Plain(cc + i)
  {
    seq(n, i requires 0 <= i < n => Plain(cc + i))
  }

  /** The packets that `emit_section` makes of some payloads. */
  function PlainPackets(pid: nat, cc: nat, ps: seq<Payload>): seq<seq<byte>>
    requires pid < NUM_PIDS
    decreases |ps|
  {
    if ps == [] then [] else [Packet(pid, Plain(cc), ps[0])] + PlainPackets(pid, cc + 1, ps[1..])
  }

  lemma {:induction false} PlainAreCounting(pid: nat, cc: nat, ps: seq<Payload>)
    requires pid < NUM_PIDS
    ensures PlainPackets(pid, cc, ps) == PacketsOf(pid, Counting(cc, |ps|), ps)
    decreases |ps|
  {
    if ps != [] {
      PlainAreCounting(pid, cc + 1, ps[1..]);
      assert Counting(cc, |ps|)[1..] == Counting(cc + 1, |ps| - 1);
    }
  }

  /** `emit_section`: the packets of one section, and the counter after them. */
  method EmitSection(pid: nat, cc: nat, sec: seq<byte>) returns (packets: seq<seq<byte>>, cc': nat)
    requires pid < NUM_PIDS
    ensures packets == PlainPackets(pid, cc, Payloads(sec)) && cc' == cc + |Payloads(sec)|
  {
    hide Payloads, Rest, Padded, Header, PlainPackets;
    packets, cc' := [], cc;
    assert [] + PlainPackets(pid, cc, Payloads(sec)) == PlainPackets(pid, cc, Payloads(sec));
    var rest := sec;
    var first := true;
    while |rest| > 0
      invariant var left := if first then Payloads(rest) else Rest(rest);
                && packets + PlainPackets(pid, cc', left) == PlainPackets(pid, cc, Payloads(sec))
                && cc' + |left| == cc + |Payloads(sec)|
      decreases |rest|
    {
      ghost var left := if first then Payloads(rest) else Rest(rest);
      var pkt := Header(pid, first, Plain(cc'), 1);
      var n;
      if first {
        n := if PAYLOAD_MAX - 1 > |rest| then |rest| else PAYLOAD_MAX - 1;
        pkt := pkt + Padded([0] + rest[..n]);
      } else {
        n := if PAYLOAD_MAX > |rest| then |rest| else PAYLOAD_MAX;
        pkt := pkt + Padded(rest[..n]);
      }
      NextFragment(rest, n, first);
      PlainNext(pid, cc', left);
      assert [] + rest[..n] == rest[..n];
      Assoc(packets, [pkt], PlainPackets(pid, cc' + 1, left[1..]));
      cc' := cc' + 1;
      rest := rest[n..];
      packets := packets + [pkt];
      first := false;
    }
    NoFragments(pid, cc');
    assert packets + [] == packets;
  }

  lemma {:induction false} PlainNext(pid: nat, cc: nat, ps: seq<Payload>)
    requires pid < NUM_PIDS && ps != []
    ensures PlainPackets(pid, cc, ps)
         == [Header(pid, ps[0].start, Plain(cc), 1) + ps[0].data] + PlainPackets(pid, cc + 1, ps[1..])
  {
    var h := Header(pid, ps[0].start, Plain(cc), 1);
    assert h + [] + ps[0].data == h + ps[0].data;
  }

  lemma {:induction false} NoFragments(pid: nat, cc: nat)
    requires pid < NUM_PIDS
    ensures Payloads([]) == Rest([]) == [] && PlainPackets(pid, cc, []) == []
  {
  }

  lemma {:induction false} NextFragment(sec: seq<byte>, n: nat, first: bool)
    requires sec != []
    requires n == if first then (if PAYLOAD_MAX - 1 > |sec| then |sec| else PAYLOAD_MAX - 1)
                  else (if PAYLOAD_MAX > |sec| then |sec| else PAYLOAD_MAX)
    ensures var left := if first then Payloads(sec) else Rest(sec);
            && left != []
            && left[0] == Payload(first, Padded((if first then [0] else []) + sec[..n]), [])
            && left[1..] == Rest(sec[n..])
  {
    assert [] + sec[..n] == sec[..n];
    if n == |sec| {
      assert sec[..n] == sec && sec[n..] == [];
    }
  }

  // ----- classifying packets -----

  /** `Malformed`: the adaptation field or the pointer_field points outside the
      packet, and the code would copy from there. */
  datatype Class = Ignored | NotPsi(pid: nat) | Malformed | Psi(pid: nat, payload: Payload)

  /** `ts_proc` up to `section_preproc`; `after` are the bytes behind the packet,
      `psi` holds the PIDs taken as PSI. */
  function Classify(pkt: seq<byte>, after: seq<byte>, psi: set<nat>): (c: Class)
    ensures c.Psi? ==> c.pid in psi && c.pid < NUM_PIDS && InBounds(c.payload)
    ensures c.NotPsi? ==> c.pid < NUM_PIDS
  {
    if |pkt| < 5 then Malformed
    else if pkt[0] != SYNC_BYTE then Ignored
    else
      var pid := Read16(pkt, 1) % NUM_PIDS;
      var start := pkt[1] as int / 64 % 2 == 1;
      var control := pkt[3] as int / 16 % 4;
      var skip := if control >= 2 then 5 + pkt[4] as int else 4;
      if control == 0 || control == 2 then Ignored
      else if pid == NULL_PID then Ignored
      else if pid !in psi then NotPsi(pid)
      else if skip > |pkt| || !InBounds(Payload(start, pkt[skip..], after)) then Malformed
      else Psi(pid, Payload(start, pkt[skip..], after))
  }

  /** What the code reads from a header. */
  lemma {:induction false} HeaderRead(pid: nat, start: bool, k: Carrier, control: nat, more: seq<byte>)
    requires pid < NUM_PIDS && GoodCarrier(k) && control < 4
    ensures var pkt := Header(pid, start, k, control) + more;
            && |pkt| == 4 + |more| && pkt[0] == SYNC_BYTE && pkt[4..] == more
            && Read16(pkt, 1) % NUM_PIDS == pid
            && (pkt[1] as int / 64 % 2 == 1 <==> start) && pkt[3] as int / 16 % 4 == control
  {
    var pkt := Header(pid, start, k, control) + more;
    FlagBits(pid / 256, k.error, start, k.priority);
    var hi := pkt[1] as int;
    assert hi % 32 == pid / 256 && Read16(pkt, 1) == hi * 256 + pid % 256;
    assert hi == 32 * (hi / 32) + hi % 32;
    assert Read16(pkt, 1) == NUM_PIDS * (hi / 32) + pid;
    assert pkt[3] as int == 16 * (4 * k.scrambling + control) + k.cc % 16;
  }

  lemma {:induction false} FlagBits(low: nat, error: bool, start: bool, priority: bool)
    requires low < 32
    ensures var hi := low + (if error then 0x80 else 0) + (if start then 0x40 else 0) + (if priority then 0x20 else 0);
            hi < 256 && hi % 32 == low && (hi / 64 % 2 == 1 <==> start)
  {
  }

  /** Every packet with a sync byte has such a header. */
  lemma {:induction false} HeaderOf(pkt: seq<byte>) returns (pid: nat, start: bool, k: Carrier, control: nat)
    requires |pkt| >= 4 && pkt[0] == SYNC_BYTE
    ensures pid < NUM_PIDS && GoodCarrier(k) && control < 4 && pkt == Header(pid, start, k, control) + pkt[4..]
  {
    var (hi, lo, c) := (pkt[1] as int, pkt[2] as int, pkt[3] as int);
    pid, start, control := hi % 32 * 256 + lo, hi / 64 % 2 == 1, c / 16 % 4;
    k := Carrier(hi / 128 == 1, hi / 32 % 2 == 1, c / 64, c % 16, None);
    assert hi == hi / 128 * 128 + hi / 64 % 2 * 64 + hi / 32 % 2 * 32 + hi % 32;
    assert c == c / 64 * 64 + c / 16 % 4 * 16 + c % 16;
    assert pid / 256 == hi % 32 && pid % 256 == lo;
    assert pkt[..4] == Header(pid, start, k, control);
  }

  /** A packet is recognised as PSI with its PID and payload, whatever
      adaptation field stands before the payload. */
  lemma {:induction false} PacketClass(pid: nat, k: Carrier, p: Payload, after: seq<byte>, psi: set<nat>)
    requires pid < NUM_PIDS && pid != NULL_PID && pid in psi && GoodCarrier(k)
    requires InBounds(p.(after := after)) && (p.data != [] || k.field.Some?)
    ensures Classify(Packet(pid, k, p), after, psi) == Psi(pid, p.(after := after))
  {
    var (control, field) := (if k.field.Some? then 3 else 1, FieldBytes(k.field));
    HeaderRead(pid, p.start, k, control, field + p.data);
    Assoc(Header(pid, p.start, k, control), field, p.data);
    var pkt := Packet(pid, k, p);
    assert pkt[4..] == field + p.data && pkt[4 + |field|..] == p.data;
    assert k.field.Some? ==> pkt[4] == pkt[4..][0] == field[0];
  }

  /** No payload, no sync byte or the null PID: nothing happens. On any other
      PID that is not PSI the payload is left to the PES branch. */
  lemma {:induction false} OtherClasses(pid: nat, start: bool, k: Carrier, control: nat, more: seq<byte>,
                                        after: seq<byte>, psi: set<nat>, b: byte)
    requires pid < NUM_PIDS && GoodCarrier(k) && control < 4 && more != []
    ensures var pkt := Header(pid, start, k, control) + more;
            && (control == 0 || control == 2 || pid == NULL_PID ==> Classify(pkt, after, psi) == Ignored)
            && (control % 2 == 1 && pid != NULL_PID && pid !in psi ==> Classify(pkt, after, psi) == NotPsi(pid))
            && (b != SYNC_BYTE ==> Classify(pkt[0 := b], after, psi) == Ignored)
  {
    HeaderRead(pid, start, k, control, more);
  }

  // ----- a whole stream -----

  /** A packet, the bytes behind it, the PIDs that count as PSI when it arrives,
      and the record that the PES branch would leave behind, about which nothing
      is known. */
  datatype Arrival = Arrival(pkt: seq<byte>, after: seq<byte>, psi: set<nat>, pes: Parser)

  function ClassOf(a: Arrival): (c: Class)
    ensures c.Psi? ==> c.pid in a.psi && c.pid < NUM_PIDS && InBounds(c.payload)
    ensures c.NotPsi? ==> c.pid < NUM_PIDS
  {
    Classify(a.pkt, a.after, a.psi)
  }

  /** The table `sec` of src/ts.c; `es` are the PIDs that are elementary streams
      at some time of the run. */
  predicate AllReady(sec: seq<Parser>, es: set<nat>) {
    |sec| == NUM_PIDS && forall i :: 0 <= i < NUM_PIDS && i !in es ==> Ready(sec[i])
  }

  /** No PID of an elementary stream ever counts as PSI. */
  predicate Apart(arrivals: seq<Arrival>, es: set<nat>) {
    forall i :: 0 <= i < |arrivals| ==> arrivals[i].psi !! es
  }

  /** No packet makes the code copy from outside. */
  predicate Readable(arrivals: seq<Arrival>) {
    forall i :: 0 <= i < |arrivals| ==> !ClassOf(arrivals[i]).Malformed?
  }

  datatype Delivery = Delivery(pid: nat, section: seq<byte>)

  /** `ts_proc` on one packet. The PES branch shares the record of its PID; a
      packet that is neither PSI nor part of a known stream changes nothing. */
  function Process(sec: seq<Parser>, a: Arrival, es: set<nat>): (r: (seq<Parser>, Option<Delivery>))
    requires AllReady(sec, es) && a.psi !! es && !ClassOf(a).Malformed?
    ensures AllReady(r.0, es)
  {
    var c := ClassOf(a);
    if c.Psi? then
      var (p, out) := Preproc(sec[c.pid], c.payload);
      (sec[c.pid := p], if out.Some? then Some(Delivery(c.pid, out.value)) else None)
    else if c.NotPsi? && c.pid in es then (sec[c.pid := a.pes], None)
    else (sec, None)
  }

  function Run(sec: seq<Parser>, arrivals: seq<Arrival>, es: set<nat>): (r: (seq<Parser>, seq<Option<Delivery>>))
    requires AllReady(sec, es) && Apart(arrivals, es) && Readable(arrivals)
    ensures AllReady(r.0, es) && |r.1| == |arrivals|
    decreases |arrivals|
  {
    if arrivals == [] then (sec, [])
    else
      var (t, out) := Process(sec, arrivals[0], es);
      var (u, outs) := Run(t, arrivals[1..], es);
      (u, [out] + outs)
  }

  predicate IsOn(a: Arrival, pid: nat) {
    var c := ClassOf(a);
    c.Psi? && c.pid == pid
  }

  /** The packets of one PID. */
  function OnPid(arrivals: seq<Arrival>, pid: nat): seq<seq<byte>> {
    if arrivals == [] then []
    else (if IsOn(arrivals[0], pid) then [arrivals[0].pkt] else []) + OnPid(arrivals[1..], pid)
  }

  function PayloadsOn(arrivals: seq<Arrival>, pid: nat): (r: seq<Payload>)
    ensures forall p :: p in r ==> InBounds(p)
  {
    if arrivals == [] then []
    else
      (if IsOn(arrivals[0], pid) then [ClassOf(arrivals[0]).payload] else [])
      + PayloadsOn(arrivals[1..], pid)
  }

  /** What was delivered with each packet of one PID. */
  function OutcomesOn(arrivals: seq<Arrival>, outs: seq<Option<Delivery>>, pid: nat): seq<Option<seq<byte>>>
    requires |arrivals| == |outs|
  {
    if arrivals == [] then []
    else
      (if IsOn(arrivals[0], pid) then [if outs[0].Some? then Some(outs[0].value.section) else None] else [])
      + OutcomesOn(arrivals[1..], outs[1..], pid)
  }

  /** Every section delivered, with its PID, in order. */
  function Deliveries(outs: seq<Option<Delivery>>): seq<Delivery> {
    if outs == [] then [] else (if outs[0].Some? then [outs[0].value] else []) + Deliveries(outs[1..])
  }

  function DeliveredOn(ds: seq<Delivery>, pid: nat): seq<seq<byte>> {
    if ds == [] then [] else (if ds[0].pid == pid then [ds[0].section] else []) + DeliveredOn(ds[1..], pid)
  }

  /** The packets of other PIDs in between make no difference to a PID. */
  lemma {:induction false} PidsAreIndependent(sec: seq<Parser>, arrivals: seq<Arrival>, es: set<nat>, pid: nat)
    requires AllReady(sec, es) && Apart(arrivals, es) && Readable(arrivals) && pid < NUM_PIDS && pid !in es
    ensures OutcomesOn(arrivals, Run(sec, arrivals, es).1, pid) == Feed(sec[pid], PayloadsOn(arrivals, pid)).1
    decreases |arrivals|
  {
    if arrivals != [] {
      var (a, rest) := (arrivals[0], arrivals[1..]);
      var (t, out) := Process(sec, a, es);
      var outs := Run(sec, arrivals, es).1;
      assert outs[1..] == Run(t, rest, es).1;
      PidsAreIndependent(t, rest, es, pid);
      if IsOn(a, pid) {
        HeadTail(ClassOf(a).payload, PayloadsOn(rest, pid));
      } else {
        assert [] + PayloadsOn(rest, pid) == PayloadsOn(rest, pid);
      }
    }
  }

  /** The deliveries on a PID are the sections among its own outcomes. */
  lemma {:induction false} DeliveredAreOutcomes(sec: seq<Parser>, arrivals: seq<Arrival>, es: set<nat>, pid: nat)
    requires AllReady(sec, es) && Apart(arrivals, es) && Readable(arrivals)
    ensures var outs := Run(sec, arrivals, es).1;
            DeliveredOn(Deliveries(outs), pid) == Somes(OutcomesOn(arrivals, outs, pid))
    decreases |arrivals|
  {
    if arrivals != [] {
      var (a, rest) := (arrivals[0], arrivals[1..]);
      var (t, out) := Process(sec, a, es);
      var outs := Run(sec, arrivals, es).1;
      assert outs[1..] == Run(t, rest, es).1;
      DeliveredAreOutcomes(t, rest, es, pid);
      var (d, o) := (Deliveries(outs[1..]), OutcomesOn(rest, outs[1..], pid));
      if out.Some? {
        HeadTail(out.value, d);
      } else {
        assert [] + d == d;
      }
      if IsOn(a, pid) {
        HeadTail(if out.Some? then Some(out.value.section) else None, o);
      } else {
        assert [] + o == o;
      }
    }
  }

  /** The packets that the fragmenter makes of a list of sections on one PID. */
  function FragmentAll(pid: nat, cc: nat, secs: seq<seq<byte>>): seq<seq<byte>>
    requires pid < NUM_PIDS
  {
    PlainPackets(pid, cc, AllPayloads(Fragmented(secs)))
  }

  predicate Loaded(ks: seq<Carrier>, ps: seq<Payload>) {
    && |ks| == |ps|
    && forall i :: 0 <= i < |ps| ==> GoodCarrier(ks[i]) && (ps[i].data != [] || ks[i].field.Some?)
  }

  /** The packets of one PID carry these sections, in payloads of any sizes and
      with any adaptation fields. */
  ghost predicate Sends(packets: seq<seq<byte>>, pid: nat, secs: seq<seq<byte>>)
    requires pid < NUM_PIDS
  {
    exists ks, fs :: AllFly(fs) && SectionsOf(fs) == secs && Loaded(ks, AllPayloads(fs))
      && packets == PacketsOf(pid, ks, AllPayloads(fs))
  }

  lemma {:induction false} OnPidNext(arrivals: seq<Arrival>, pid: nat)
    requires arrivals != []
    ensures var (a, rest) := (arrivals[0], arrivals[1..]);
            if IsOn(a, pid) then
              && OnPid(arrivals, pid) == [a.pkt] + OnPid(rest, pid)
              && PayloadsOn(arrivals, pid) == [ClassOf(a).payload] + PayloadsOn(rest, pid)
            else OnPid(arrivals, pid) == OnPid(rest, pid) && PayloadsOn(arrivals, pid) == PayloadsOn(rest, pid)
  {
    hide ClassOf;
    var rest := arrivals[1..];
    assert [] + OnPid(rest, pid) == OnPid(rest, pid) && [] + PayloadsOn(rest, pid) == PayloadsOn(rest, pid);
  }

  lemma {:induction false} LoadedNext(pid: nat, ks: seq<Carrier>, ps: seq<Payload>)
    requires pid < NUM_PIDS && Loaded(ks, ps) && ps != [] && forall p :: p in ps ==> InBounds(p) && Whole(p)
    ensures GoodCarrier(ks[0]) && (ps[0].data != [] || ks[0].field.Some?) && InBounds(ps[0]) && Whole(ps[0])
    ensures Loaded(ks[1..], ps[1..]) && forall p :: p in ps[1..] ==> InBounds(p) && Whole(p)
    ensures PacketsOf(pid, ks, ps) == [Packet(pid, ks[0], ps[0])] + PacketsOf(pid, ks[1..], ps[1..])
    ensures Bare(ps) == [ps[0].(after := [])] + Bare(ps[1..])
  {
    hide InBounds, Whole, Packet;
    assert ps[0] in ps;
  }

  /** Packets of one PID carry the payloads they were made of. */
  lemma {:induction false} PayloadsRecovered(arrivals: seq<Arrival>, pid: nat, ks: seq<Carrier>, ps: seq<Payload>)
    requires pid < NUM_PIDS && pid != NULL_PID && Loaded(ks, ps)
    requires forall p :: p in ps ==> InBounds(p) && Whole(p)
    requires OnPid(arrivals, pid) == PacketsOf(pid, ks, ps)
    ensures AllWhole(PayloadsOn(arrivals, pid)) && Bare(PayloadsOn(arrivals, pid)) == Bare(ps)
    decreases |arrivals|
  {
    hide InBounds, Whole, ClassOf, Packet, IsOn, GoodCarrier;
    if arrivals == [] {
      assert ps == [];
    } else {
      hide OnPid, PayloadsOn, PacketsOf, Bare, AllWhole, Loaded;
      var (a, rest) := (arrivals[0], arrivals[1..]);
      OnPidNext(arrivals, pid);
      if IsOn(a, pid) {
        assert |ps| == |OnPid(arrivals, pid)| > 0;
        LoadedNext(pid, ks, ps);
        SameHeads(a.pkt, OnPid(rest, pid), Packet(pid, ks[0], ps[0]), PacketsOf(pid, ks[1..], ps[1..]));
        OneRecovered(a, pid, ks[0], ps[0]);
        PayloadsRecovered(rest, pid, ks[1..], ps[1..]);
        BareCons(ps[0].(after := a.after), PayloadsOn(rest, pid));
      } else {
        PayloadsRecovered(rest, pid, ks, ps);
      }
    }
  }

  lemma {:induction false} OneRecovered(a: Arrival, pid: nat, k: Carrier, p: Payload)
    requires pid < NUM_PIDS && pid != NULL_PID && GoodCarrier(k) && (p.data != [] || k.field.Some?)
    requires InBounds(p) && Whole(p) && IsOn(a, pid) && a.pkt == Packet(pid, k, p)
    ensures ClassOf(a) == Psi(pid, p.(after := a.after))
    ensures InBounds(p.(after := a.after)) && Whole(p.(after := a.after))
  {
    PacketClass(pid, k, p, a.after, a.psi);
  }

  lemma {:induction false} BareCons(p: Payload, ps: seq<Payload>)
    requires InBounds(p) && Whole(p) && AllWhole(ps)
    ensures AllWhole([p] + ps) && Bare([p] + ps) == [p.(after := [])] + Bare(ps)
  {
    HeadTail(p, ps);
  }

  /** However the packets of many PIDs are mixed, and whatever the records
      held before: a PID whose packets carry a list of sections delivers exactly
      those sections, in order, each with its last packet. */
  lemma {:induction false} PacketsDeliver(sec: seq<Parser>, arrivals: seq<Arrival>, es: set<nat>, pid: nat,
                                          ks: seq<Carrier>, fs: seq<Flight>)
    requires AllReady(sec, es) && Apart(arrivals, es) && Readable(arrivals)
    requires pid < NUM_PIDS && pid != NULL_PID && pid !in es
    requires AllFly(fs) && Loaded(ks, AllPayloads(fs))
    requires OnPid(arrivals, pid) == PacketsOf(pid, ks, AllPayloads(fs))
    ensures var outs := Run(sec, arrivals, es).1;
            && OutcomesOn(arrivals, outs, pid) == AllOnLast(fs)
            && DeliveredOn(Deliveries(outs), pid) == SectionsOf(fs)
  {
    hide InBounds, Whole, Flies, OnPid, PacketsOf, Run, Feed;
    var ps := AllPayloads(fs);
    FlightsInBounds(fs);
    PayloadsRecovered(arrivals, pid, ks, ps);
    PidsAreIndependent(sec, arrivals, es, pid);
    FeedWhole(sec[pid], PayloadsOn(arrivals, pid));
    assert AllWhole(ps) by {
      forall i | 0 <= i < |ps| ensures InBounds(ps[i]) && Whole(ps[i]) {
        assert ps[i] in ps;
      }
    }
    FeedWhole(sec[pid], ps);
    SectionsDelivered(sec[pid], fs);
    DeliveredAreOutcomes(sec, arrivals, es, pid);
    SomesAll(fs);
  }

  lemma {:induction false} Reassembly(sec: seq<Parser>, arrivals: seq<Arrival>, es: set<nat>, pid: nat,
                                      secs: seq<seq<byte>>)
    requires AllReady(sec, es) && Apart(arrivals, es) && Readable(arrivals)
    requires pid < NUM_PIDS && pid != NULL_PID && pid !in es
    requires Sends(OnPid(arrivals, pid), pid, secs)
    ensures DeliveredOn(Deliveries(Run(sec, arrivals, es).1), pid) == secs
  {
    var ks, fs :| AllFly(fs) && SectionsOf(fs) == secs && Loaded(ks, AllPayloads(fs))
      && OnPid(arrivals, pid) == PacketsOf(pid, ks, AllPayloads(fs));
    PacketsDeliver(sec, arrivals, es, pid, ks, fs);
  }

  // ----- the fragmenter's packets -----

  lemma {:induction false} RestNonEmpty(sec: seq<byte>)
    ensures forall p :: p in Rest(sec) ==> p.data != [] && p.after == [] && !p.start
    decreases |sec|
  {
    if |sec| > PAYLOAD_MAX {
      RestNonEmpty(sec[PAYLOAD_MAX..]);
    }
  }

  lemma {:induction false} PayloadsNonEmpty(sec: seq<byte>)
    ensures forall p :: p in Payloads(sec) ==> p.data != [] && p.after == [] && Whole(p)
  {
    if sec != [] {
      var n := if |sec| < PAYLOAD_MAX - 1 then |sec| else PAYLOAD_MAX - 1;
      RestNonEmpty(sec[n..]);
    }
  }

  lemma {:induction false} FragmentsNonEmpty(secs: seq<seq<byte>>)
    ensures forall p :: p in AllPayloads(Fragmented(secs)) ==> p.data != []
  {
    if secs != [] {
      PayloadsNonEmpty(secs[0]);
      FragmentsNonEmpty(secs[1..]);
      assert Fragmented(secs)[1..] == Fragmented(secs[1..]);
    }
  }

  /** What `emit_section` makes of sections carries them. */
  lemma {:induction false} FragmentsAreSent(pid: nat, cc: nat, secs: seq<seq<byte>>)
    requires pid < NUM_PIDS && forall x :: x in secs ==> IsSection(x)
    ensures Sends(FragmentAll(pid, cc, secs), pid, secs)
  {
    hide PacketsOf, PlainPackets, AllPayloads, Flies;
    var fs := Fragmented(secs);
    var ps := AllPayloads(fs);
    var ks := Counting(cc, |ps|);
    FragmentedFly(secs);
    FragmentsNonEmpty(secs);
    PlainAreCounting(pid, cc, ps);
    assert Loaded(ks, ps) by {
      forall i | 0 <= i < |ps| ensures ps[i].data != [] {
        assert ps[i] in ps;
      }
    }
    assert AllFly(fs) && SectionsOf(fs) == secs && Loaded(ks, AllPayloads(fs));
  }
}
