/** Descriptor loops: `parse_descriptors` of src/descriptor.c and `desc` of
    tests/gen_full.c. A descriptor is a tag and its payload bytes. */
module Descriptors {
  import opened Options
  import opened Bytes
  import opened Sequences

  datatype Descriptor = Descriptor(tag: byte, payload: seq<byte>)

  predicate Encodable(ds: seq<Descriptor>) {
    ds == [] || (|ds[0].payload| < 256 && Encodable(ds[1..]))
  }

  function EncodeOne(d: Descriptor): seq<byte>
    requires |d.payload| < 256
  {
    [d.tag, |d.payload|] + d.payload
  }

  function Encode(ds: seq<Descriptor>): seq<byte>
    requires Encodable(ds)
  {
    if ds == [] then [] else EncodeOne(ds[0]) + Encode(ds[1..])
  }

  /** The descriptors of the `len` bytes at the start of `buf`; `None` when the
      loop would run past the end of `buf`. The last descriptor may reach
      beyond `len`. */
  function Parse(buf: seq<byte>, len: int): Option<seq<Descriptor>>
    decreases |buf|
  {
    if len <= 0 then Some([])
    else if |buf| < 2 || |buf| < 2 + (buf[1] as int) then None
    else
      var size := 2 + buf[1] as int;
      Prepend([Descriptor(buf[0], buf[2..size])], Parse(buf[size..], len - size))
  }

  /** `parse_descriptors`: `ptr` is what lies ahead of the cursor. */
  method ParseLoop(buf: seq<byte>, len: int) returns (r: Option<seq<Descriptor>>)
    ensures r == Parse(buf, len)
  {
    var l: int, ptr: seq<byte> := len, buf;
    var list: seq<Descriptor> := [];
    PrependNothing(Parse(buf, len));
    while l > 0
      invariant Parse(buf, len) == Prepend(list, Parse(ptr, l))
      decreases |ptr|
    {
      if |ptr| < 2 || |ptr| < 2 + (ptr[1] as int) {
        return None;
      }
      var size := 2 + ptr[1] as int;
      var more := Descriptor(ptr[0], ptr[2..size]);
      PrependTwice(list, [more], Parse(ptr[size..], l - size));
      l, ptr := l - size, ptr[size..];
      list := list + [more];
    }
    assert list + [] == list;
    r := Some(list);
  }

  /** Reading a written loop gives the descriptors back, whatever follows. */
  lemma {:induction false} RoundTrip(ds: seq<Descriptor>, rest: seq<byte>)
    requires Encodable(ds)
    ensures Parse(Encode(ds) + rest, |Encode(ds)|) == Some(ds)
    decreases |ds|
  {
    if ds != [] {
      hide Parse, EncodeOne;
      var d := ds[0];
      Assoc(EncodeOne(d), Encode(ds[1..]), rest);
      ParseOne(d, Encode(ds[1..]) + rest, |Encode(ds)|);
      RoundTrip(ds[1..], rest);
      assert [d] + ds[1..] == ds;
    }
  }

  lemma {:induction false} ParseOne(d: Descriptor, more: seq<byte>, len: int)
    requires |d.payload| < 256 && len > 0
    ensures Parse(EncodeOne(d) + more, len) == Prepend([d], Parse(more, len - |EncodeOne(d)|))
  {
    ReadOne(d, more);
  }

  lemma {:induction false} ReadOne(d: Descriptor, more: seq<byte>)
    requires |d.payload| < 256
    ensures var buf := EncodeOne(d) + more;
            var size := 2 + |d.payload|;
            && |buf| >= size && buf[0] == d.tag && buf[1] as int == |d.payload|
            && buf[2..size] == d.payload && buf[size..] == more
  {
  }
}
