/** From blocks of bytes to sections: `ts_process` and `ts_proc` of src/ts.c one
    after the other. */
module Stream {
  import opened Options
  import opened Bytes
  import opened Sequences
  import opened Blocks
  import Sections
  import Demux

  const PACKET_SIZE := 188

  /** What a packet finds when it arrives: the bytes behind it, the PSI PIDs, and
      what the PES branch would leave in its record. */
  datatype Context = Context(after: seq<byte>, psi: set<nat>, pes: Sections.Parser)

  function Arrivals(packets: seq<seq<byte>>, ctx: seq<Context>): (r: seq<Demux.Arrival>)
    requires |packets| == |ctx|
    ensures |r| == |packets|
  {
    seq(|packets|, i requires 0 <= i < |packets| => Demux.Arrival(packets[i], ctx[i].after, ctx[i].psi, ctx[i].pes))
  }

  predicate Apart(ctx: seq<Context>, es: set<nat>) {
    forall i :: 0 <= i < |ctx| ==> ctx[i].psi !! es
  }

  /** Blocks in, what each packet delivers out: the same as if the packets of
      the concatenated blocks had arrived one by one. */
  method ProcessBlocks(first: seq<byte>, input: seq<Read>, ghost blocks: seq<seq<byte>>, ctx: seq<Context>,
                       records: seq<Sections.Parser>, es: set<nat>)
    returns (outs: seq<Option<Demux.Delivery>>)
    requires Feeds(input, blocks) && forall r :: r in input && r.Block? ==> |r.data| >= PACKET_SIZE
    requires |ctx| == |Packets(first + Flat(blocks), PACKET_SIZE)| && Apart(ctx, es)
    requires Demux.AllReady(records, es)
    requires Demux.Readable(Arrivals(Packets(first + Flat(blocks), PACKET_SIZE), ctx))
    ensures var arrivals := Arrivals(Packets(first + Flat(blocks), PACKET_SIZE), ctx);
            outs == Demux.Run(records, arrivals, es).1
  {
    var packets := SplitBlocks(PACKET_SIZE, first, input);
    ghost var arrivals := Arrivals(packets, ctx);
    outs := [];
    var (sec, i) := (records, 0);
    assert arrivals[0..] == arrivals;
    assert [] + Demux.Run(records, arrivals, es).1 == Demux.Run(records, arrivals, es).1;
    while i < |packets|
      invariant 0 <= i <= |packets|
      invariant Demux.AllReady(sec, es)
      invariant outs + Demux.Run(sec, arrivals[i..], es).1 == Demux.Run(records, arrivals, es).1
    {
      ghost var rest := arrivals[i..];
      assert rest[1..] == arrivals[i + 1..];
      var (t, out) := Demux.Process(sec, Demux.Arrival(packets[i], ctx[i].after, ctx[i].psi, ctx[i].pes), es);
      Assoc(outs, [out], Demux.Run(t, arrivals[i + 1..], es).1);
      sec, outs, i := t, outs + [out], i + 1;
    }
    assert arrivals[i..] == [] && outs + [] == outs;
  }

  lemma {:induction false} PacketsOfFlat(packets: seq<seq<byte>>, tail: seq<byte>, size: nat)
    requires 0 < size && (forall i :: 0 <= i < |packets| ==> |packets[i]| == size) && |tail| < size
    ensures Packets(Flat(packets) + tail, size) == packets
    decreases |packets|
  {
    if packets != [] {
      var (p, rest) := (packets[0], packets[1..]);
      Assoc(p, Flat(rest), tail);
      var s := p + (Flat(rest) + tail);
      assert s[..size] == p && s[size..] == Flat(rest) + tail;
      PacketsOfFlat(rest, tail, size);
    }
  }

  /** However a stream of packets is cut into blocks, every PID whose packets
      carry a list of sections delivers exactly those. */
  lemma {:induction false} AnyBlockingDelivers(first: seq<byte>, blocks: seq<seq<byte>>, packets: seq<seq<byte>>,
                                               tail: seq<byte>, ctx: seq<Context>,
                                               records: seq<Sections.Parser>, es: set<nat>,
                                               pid: nat, secs: seq<seq<byte>>)
    requires first + Flat(blocks) == Flat(packets) + tail && |tail| < PACKET_SIZE
    requires forall i :: 0 <= i < |packets| ==> |packets[i]| == PACKET_SIZE
    requires |ctx| == |packets| && Apart(ctx, es) && Demux.AllReady(records, es)
    requires Demux.Readable(Arrivals(packets, ctx))
    requires pid < Demux.NUM_PIDS && pid != Demux.NULL_PID && pid !in es
    requires Demux.Sends(Demux.OnPid(Arrivals(packets, ctx), pid), pid, secs)
    ensures Packets(first + Flat(blocks), PACKET_SIZE) == packets
    ensures var outs := Demux.Run(records, Arrivals(packets, ctx), es).1;
            Demux.DeliveredOn(Demux.Deliveries(outs), pid) == secs
  {
    PacketsOfFlat(packets, tail, PACKET_SIZE);
    Demux.Reassembly(records, Arrivals(packets, ctx), es, pid, secs);
  }
}
