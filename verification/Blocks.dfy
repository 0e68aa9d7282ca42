/** The block loop of `ts_process` (src/ts.c): packets are cut out of blocks of
    any size, with a carry-over buffer for a packet that lies across two. */
module Blocks {
  import opened Bytes
  import opened Sequences

  const MAX_PACKET := 204

  /** What a read gives: nothing, or a block and whether more data is left. */
  datatype Read = Failed | Block(data: seq<byte>, more: bool)

  /** The consecutive packets of a byte sequence. */
  function Packets(s: seq<byte>, size: nat): seq<seq<byte>>
    requires size > 0
    decreases |s|
  {
    if |s| < size then [] else [s[..size]] + Packets(s[size..], size)
  }

  /** What is left after the last whole packet. */
  function Tail(s: seq<byte>, size: nat): (r: seq<byte>)
    requires size > 0
    ensures |r| < size
    decreases |s|
  {
    if |s| < size then s else Tail(s[size..], size)
  }

  lemma {:induction false} MoreBytes(s: seq<byte>, t: seq<byte>, size: nat)
    requires size > 0
    ensures Packets(s + t, size) == Packets(s, size) + Packets(Tail(s, size) + t, size)
    ensures Tail(s + t, size) == Tail(Tail(s, size) + t, size)
    decreases |s|
  {
    if |s| < size {
      assert [] + Packets(s + t, size) == Packets(s + t, size);
    } else {
      assert (s + t)[..size] == s[..size] && (s + t)[size..] == s[size..] + t;
      MoreBytes(s[size..], t, size);
      Assoc([s[..size]], Packets(s[size..], size), Packets(Tail(s, size) + t, size));
    }
  }

  /** One after the other. */
  function Flat(parts: seq<seq<byte>>): seq<byte> {
    if parts == [] then [] else parts[0] + Flat(parts[1..])
  }

  lemma {:induction false} FlatNext(parts: seq<seq<byte>>, i: nat)
    requires i < |parts|
    ensures Flat(parts[..i + 1]) == Flat(parts[..i]) + parts[i]
    decreases i
  {
    if i == 0 {
      assert parts[..1][1..] == [] && parts[..0] == [];
      assert parts[0] + [] == parts[0] && [] + parts[0] == parts[0];
    } else {
      assert parts[..i + 1][1..] == parts[1..][..i] && parts[..i][1..] == parts[1..][..i - 1];
      FlatNext(parts[1..], i - 1);
      Assoc(parts[0], Flat(parts[1..][..i - 1]), parts[i]);
    }
  }

  /** These blocks are read with data left after each of them; then a read
      fails, or nothing is left after it, or there is no other. */
  predicate Feeds(input: seq<Read>, blocks: seq<seq<byte>>) {
    && |blocks| <= |input|
    && (forall i :: 0 <= i < |blocks| ==> input[i] == Block(blocks[i], true))
    && (|blocks| < |input| ==> input[|blocks|].Failed? || !input[|blocks|].more)
  }

  /** Every input feeds just one list of blocks. */
  lemma {:induction false} FeedsOne(input: seq<Read>) returns (blocks: seq<seq<byte>>)
    ensures Feeds(input, blocks) && forall other :: Feeds(input, other) ==> other == blocks
  {
    if input == [] || input[0].Failed? || !input[0].more {
      blocks := [];
    } else {
      var rest := FeedsOne(input[1..]);
      blocks := [input[0].data] + rest;
      forall other | Feeds(input, other) ensures other == blocks {
        assert Feeds(input[1..], other[1..]);
        assert other == [other[0]] + other[1..];
      }
    }
  }

  class Splitter {
    const size: nat
    const pktCon: array<byte>
    var conLen: nat
    var ptr: seq<byte>
    var out: seq<seq<byte>>

    ghost predicate Valid()
      reads this, pktCon
    {
      0 < size <= MAX_PACKET == pktCon.Length && conLen <= size
    }

    /** The bytes in hand: carried over, then the rest of the block. */
    ghost function Pending(): seq<byte>
      reads this, pktCon
      requires Valid()
    {
      pktCon[..conLen] + ptr
    }

    constructor (packetSize: nat, first: seq<byte>)
      requires 0 < packetSize <= MAX_PACKET
      ensures Valid() && fresh(pktCon) && size == packetSize
      ensures conLen == 0 && ptr == first && out == []
    {
      size, conLen, ptr, out := packetSize, 0, first, [];
      pktCon := new byte[MAX_PACKET](_ => 0);
    }

    /** The first half of an iteration: hand out whole packets, keep the rest. */
    method Cut()
      requires Valid() && (conLen == 0 || conLen == size)
      modifies this`conLen, this`ptr, this`out, pktCon
      ensures Valid()
      ensures out == old(out) + Packets(old(Pending()), size)
      ensures pktCon[..conLen] == Tail(old(Pending()), size)
    {
      ghost var pending := Pending();
      if conLen == size {
        out := out + [pktCon[..size]];
        assert pending[..size] == pktCon[..size] && pending[size..] == ptr;
        Assoc(old(out), [pktCon[..size]], Packets(ptr, size));
        conLen := 0;
      } else {
        assert pending == ptr;
      }
      while |ptr| >= size
        invariant Valid() && conLen == 0
        invariant out + Packets(ptr, size) == old(out) + Packets(pending, size)
        invariant Tail(ptr, size) == Tail(pending, size)
        decreases |ptr|
      {
        Assoc(out, [ptr[..size]], Packets(ptr[size..], size));
        out := out + [ptr[..size]];
        ptr := ptr[size..];
      }
      assert out + [] == out;
      if |ptr| > 0 {
        forall i | 0 <= i < |ptr| {
          pktCon[i] := ptr[i];
        }
        conLen := |ptr|;
        assert pktCon[..conLen] == ptr;
      }
    }

    /** The second half: a new block completes the carried packet. */
    method Take(block: seq<byte>)
      requires Valid() && conLen < size <= |block|
      modifies this`conLen, this`ptr, pktCon
      ensures Valid() && (conLen == 0 || conLen == size)
      ensures Pending() == old(pktCon[..conLen]) + block
    {
      ptr := block;
      ghost var carry := pktCon[..conLen];
      if conLen > 0 {
        var need := size - conLen;
        forall i | 0 <= i < need {
          pktCon[conLen + i] := ptr[i];
        }
        assert pktCon[..size] == carry + block[..need];
        ptr := ptr[need..];
        conLen := size;
        assert block == block[..need] + block[need..];
      }
    }
  }

  /** The packets handed to `ts_proc` are the consecutive packets of the first
      block and all that are read with data left after them, wherever the block
      boundaries fall. */
  method SplitBlocks(size: nat, first: seq<byte>, input: seq<Read>) returns (packets: seq<seq<byte>>)
    requires 0 < size <= MAX_PACKET
    requires forall r :: r in input && r.Block? ==> |r.data| >= size
    ensures forall blocks :: Feeds(input, blocks) ==> packets == Packets(first + Flat(blocks), size)
  {
    var s := new Splitter(size, first);
    var i := 0;
    var running := true;
    ghost var blocks := FeedsOne(input);
    ghost var done := first;
    assert first + [] == first && blocks[..0] == [] && blocks[..|blocks|] == blocks;
    assert s.Pending() == first;
    assert [] + Packets(first, size) == Packets(first, size);
    while running
      invariant 0 <= i <= |input|
      invariant s.Valid() && fresh(s) && fresh(s.pktCon) && s.size == size
      invariant running ==> i <= |blocks| && done == first + Flat(blocks[..i])
      invariant running ==> s.conLen == 0 || s.conLen == size
      invariant running ==> s.out + Packets(s.Pending(), size) == Packets(done, size)
      invariant running ==> Tail(s.Pending(), size) == Tail(done, size)
      invariant !running ==> s.out == Packets(first + Flat(blocks), size)
      decreases running, |input| - i
    {
      s.Cut();
      if i == |input| || input[i].Failed? {
        break;
      }
      assert input[i] in input;
      MoreBytes(done, input[i].data, size);
      s.Take(input[i].data);
      running := input[i].more;
      if running {
        FlatNext(blocks, i);
        Assoc(first, Flat(blocks[..i]), blocks[i]);
      }
      done := done + input[i].data;
      i := i + 1;
    }
    packets := s.out;
  }
}
