/** The filter registry of one PID (src/filter.c): slots, a 256-entry index by
    table_id, and the flag that forces a linear scan. */
module Filter {
  import opened Options
  import opened Sequences
  import Crc32

  const MAX_FILTERS := 4096
  const MAX_DEPTH := 8
  const NONE := 0xFFFF

  /** `filter_param_t`: the first `depth` bytes of each array count. */
  datatype Param = Param(coff: seq<bv8>, mask: seq<bv8>, negate: seq<bv8>)

  predicate GoodParam(p: Param) {
    |p.coff| == |p.mask| == |p.negate| <= MAX_DEPTH
  }

  /** A registered filter; the callback is known by its name only. */
  datatype Slot = Slot(para: Param, callback: nat)

  /** The test of `filter_match` on every byte. */
  predicate Matches(p: Param, data: seq<bv8>)
    requires |p.coff| == |p.mask| <= |data|
  {
    forall i :: 0 <= i < |p.mask| ==> ByteMatches(data[i], p.mask[i], p.coff[i])
  }

  predicate ByteMatches(d: bv8, mask: bv8, coff: bv8) { d & mask == mask & coff }

  /** What a filter asks for: every bit that is set in the mask is in the section
      as it is in the filter. */
  predicate Agrees(p: Param, data: seq<bv8>)
    requires |p.coff| == |p.mask| <= |data|
  {
    forall i :: 0 <= i < |p.mask| ==> ByteAgrees(data[i], p.mask[i], p.coff[i])
  }

  predicate ByteAgrees(d: bv8, mask: bv8, coff: bv8) {
    SameWhere(Crc32.Bits(mask), Crc32.Bits(d), Crc32.Bits(coff))
  }

  predicate SameWhere(set': seq<bool>, x: seq<bool>, y: seq<bool>)
    requires |set'| == |x| == |y|
  {
    forall k :: 0 <= k < |set'| && set'[k] ==> x[k] == y[k]
  }

  /** The bits of a byte, one test each. */
  predicate Tests(s: seq<bool>, b: bv8) {
    && |s| == 8
    && (s[0] <==> b & 0x80 != 0) && (s[1] <==> b & 0x40 != 0) && (s[2] <==> b & 0x20 != 0) && (s[3] <==> b & 0x10 != 0)
    && (s[4] <==> b & 0x08 != 0) && (s[5] <==> b & 0x04 != 0) && (s[6] <==> b & 0x02 != 0) && (s[7] <==> b & 0x01 != 0)
  }

  lemma {:induction false} BitTests(b: bv8)
    ensures Tests(Crc32.Bits(b), b)
  {
  }

  lemma {:induction false} UpperTests(m: seq<bool>, x: seq<bool>, y: seq<bool>, d: bv8, mask: bv8, coff: bv8)
    requires Tests(m, mask) && Tests(x, d) && Tests(y, coff)
    ensures d & mask & 0xF0 == mask & coff & 0xF0 <==>
      && (m[0] ==> x[0] == y[0]) && (m[1] ==> x[1] == y[1]) && (m[2] ==> x[2] == y[2]) && (m[3] ==> x[3] == y[3])
  {
    assert d & mask & 0xF0 == mask & coff & 0xF0 <==>
      && (mask & 0x80 != 0 ==> (d & 0x80 != 0 <==> coff & 0x80 != 0))
      && (mask & 0x40 != 0 ==> (d & 0x40 != 0 <==> coff & 0x40 != 0))
      && (mask & 0x20 != 0 ==> (d & 0x20 != 0 <==> coff & 0x20 != 0))
      && (mask & 0x10 != 0 ==> (d & 0x10 != 0 <==> coff & 0x10 != 0));
  }

  lemma {:induction false} LowerTests(m: seq<bool>, x: seq<bool>, y: seq<bool>, d: bv8, mask: bv8, coff: bv8)
    requires Tests(m, mask) && Tests(x, d) && Tests(y, coff)
    ensures d & mask & 0x0F == mask & coff & 0x0F <==>
      && (m[4] ==> x[4] == y[4]) && (m[5] ==> x[5] == y[5]) && (m[6] ==> x[6] == y[6]) && (m[7] ==> x[7] == y[7])
  {
    assert d & mask & 0x0F == mask & coff & 0x0F <==>
      && (mask & 0x08 != 0 ==> (d & 0x08 != 0 <==> coff & 0x08 != 0))
      && (mask & 0x04 != 0 ==> (d & 0x04 != 0 <==> coff & 0x04 != 0))
      && (mask & 0x02 != 0 ==> (d & 0x02 != 0 <==> coff & 0x02 != 0))
      && (mask & 0x01 != 0 ==> (d & 0x01 != 0 <==> coff & 0x01 != 0));
  }

  lemma {:induction false} SameTests(m: seq<bool>, x: seq<bool>, y: seq<bool>, d: bv8, mask: bv8, coff: bv8)
    requires Tests(m, mask) && Tests(x, d) && Tests(y, coff)
    ensures |m| == |x| == |y| == 8
    ensures ByteMatches(d, mask, coff) <==>
      && (m[0] ==> x[0] == y[0]) && (m[1] ==> x[1] == y[1]) && (m[2] ==> x[2] == y[2]) && (m[3] ==> x[3] == y[3])
      && (m[4] ==> x[4] == y[4]) && (m[5] ==> x[5] == y[5]) && (m[6] ==> x[6] == y[6]) && (m[7] ==> x[7] == y[7])
  {
    assert |m| == |x| == |y| == 8;
    hide Tests;
    UpperTests(m, x, y, d, mask, coff);
    LowerTests(m, x, y, d, mask, coff);
  }

  lemma {:induction false} EightBits(m: seq<bool>, x: seq<bool>, y: seq<bool>)
    requires |m| == |x| == |y| == 8
    ensures SameWhere(m, x, y) <==>
      && (m[0] ==> x[0] == y[0]) && (m[1] ==> x[1] == y[1]) && (m[2] ==> x[2] == y[2]) && (m[3] ==> x[3] == y[3])
      && (m[4] ==> x[4] == y[4]) && (m[5] ==> x[5] == y[5]) && (m[6] ==> x[6] == y[6]) && (m[7] ==> x[7] == y[7])
  {
  }

  lemma {:induction false} ByteMatch(d: bv8, mask: bv8, coff: bv8)
    ensures ByteMatches(d, mask, coff) <==> ByteAgrees(d, mask, coff)
  {
    hide Crc32.Bits, SameWhere, Tests, ByteMatches;
    var (m, x, y) := (Crc32.Bits(mask), Crc32.Bits(d), Crc32.Bits(coff));
    BitTests(d);
    BitTests(mask);
    BitTests(coff);
    SameTests(m, x, y, d, mask, coff);
    EightBits(m, x, y);
  }

  lemma {:induction false} MatchesAgrees(p: Param, data: seq<bv8>)
    requires |p.coff| == |p.mask| <= |data|
    ensures Matches(p, data) <==> Agrees(p, data)
  {
    hide ByteAgrees, ByteMatches;
    forall i | 0 <= i < |p.mask|
      ensures ByteMatches(data[i], p.mask[i], p.coff[i]) <==> ByteAgrees(data[i], p.mask[i], p.coff[i])
    {
      ByteMatch(data[i], p.mask[i], p.coff[i]);
    }
  }

  /** `filter_match`. */
  method Match(p: Param, data: seq<bv8>) returns (r: bool)
    requires |p.coff| == |p.mask| <= |data|
    ensures r == Agrees(p, data) == Matches(p, data)
  {
    hide Agrees;
    MatchesAgrees(p, data);
    var i := 0;
    while i < |p.mask|
      invariant 0 <= i <= |p.mask|
      invariant forall j :: 0 <= j < i ==> ByteMatches(data[j], p.mask[j], p.coff[j])
    {
      if data[i] & p.mask[i] != p.mask[i] & p.coff[i] {
        return false;
      }
      i := i + 1;
    }
    return true;
  }

  /** The section is long enough for every filter. */
  predicate Covers(slots: seq<Slot>, data: seq<bv8>) {
    |data| >= 1 && forall i :: 0 <= i < |slots| ==> GoodParam(slots[i].para) && |slots[i].para.coff| <= |data|
  }

  /** The reference: the callbacks a linear scan makes, in slot order. */
  function LinearScan(slots: seq<Slot>, data: seq<bv8>): seq<nat>
    requires Covers(slots, data)
  {
    if slots == [] then []
    else (if Matches(slots[0].para, data) then [slots[0].callback] else []) + LinearScan(slots[1..], data)
  }

  /** One concrete table_id. */
  predicate IsExact(p: Param) {
    |p.coff| == |p.mask| == 1 && p.mask[0] == 0xFF
  }

  /** Where the index keeps an exact filter. */
  function TableId(p: Param): nat
    requires IsExact(p)
  {
    p.coff[0] as int
  }

  /** What the index has to say about the slots: it is only consulted when
      every filter is exact and no table_id occurs twice, and then it finds the
      slot of each. */
  ghost predicate Indexed(slots: seq<Slot>, index: seq<nat>, multi: bool) {
    && |index| == 256
    && (!multi ==> AllFound(slots, index) && NoneElse(slots, index))
  }

  ghost predicate AllFound(slots: seq<Slot>, index: seq<nat>)
    requires |index| == 256
  {
    forall i :: 0 <= i < |slots| ==> IsExact(slots[i].para) && index[TableId(slots[i].para)] == i
  }

  ghost predicate NoneElse(slots: seq<Slot>, index: seq<nat>)
    requires |index| == 256
  {
    forall k :: 0 <= k < 256 ==>
      index[k] == NONE
      || (index[k] < |slots| && IsExact(slots[index[k]].para) && TableId(slots[index[k]].para) == k)
  }

  /** One round of `filter_rebuild`. */
  lemma {:induction false} IndexNext(slots: seq<Slot>, i: nat, index: seq<nat>, multi: bool)
    requires i < |slots| <= MAX_FILTERS && GoodParam(slots[i].para) && Indexed(slots[..i], index, multi)
    ensures var p := slots[i].para;
            if !IsExact(p) then Indexed(slots[..i + 1], index, true)
            else if index[TableId(p)] != NONE then Indexed(slots[..i + 1], index, true)
            else Indexed(slots[..i + 1], index[TableId(p) := i], multi)
  {
    var (p, old', new') := (slots[i].para, slots[..i], slots[..i + 1]);
    assert forall j :: 0 <= j < i ==> new'[j] == old'[j];
    assert new'[i] == slots[i];
  }

  class Head {
    var slots: seq<Slot>
    const index: array<nat>
    var multi: bool

    ghost predicate Valid()
      reads this, index
    {
      && index.Length == 256 && |slots| <= MAX_FILTERS
      && (forall i :: 0 <= i < |slots| ==> GoodParam(slots[i].para))
      && (slots != [] ==> Indexed(slots, index[..], multi))
    }

    /** Static storage: the index starts out as zeros. */
    constructor ()
      ensures Valid() && slots == [] && fresh(index)
    {
      slots, multi := [], false;
      index := new nat[256](_ => 0);
    }

    /** `filter_rebuild`. */
    method Rebuild()
      requires index.Length == 256 && |slots| <= MAX_FILTERS
      requires forall i :: 0 <= i < |slots| ==> GoodParam(slots[i].para)
      modifies index, this`multi
      ensures Valid()
    {
      var k := 0;
      while k < 256
        invariant 0 <= k <= 256
        invariant forall j :: 0 <= j < k ==> index[j] == NONE
      {
        index[k] := NONE;
        k := k + 1;
      }
      multi := false;
      var i := 0;
      while i < |slots|
        invariant 0 <= i <= |slots|
        invariant Indexed(slots[..i], index[..], multi)
      {
        var p := slots[i].para;
        IndexNext(slots, i, index[..], multi);
        if |p.coff| == 1 && p.mask[0] == 0xFF {
          var tid := p.coff[0] as int;
          if index[tid] != NONE {
            multi := true;
          } else {
            index[tid] := i;
          }
        } else {
          multi := true;
        }
        i := i + 1;
      }
      assert slots[..i] == slots;
    }

    /** `filter_alloc` followed by `filter_set`. */
    method Register(para: Option<Param>, callback: nat) returns (ok: bool)
      requires Valid() && (para.Some? ==> GoodParam(para.value))
      modifies this, index
      ensures Valid()
      ensures ok == (|old(slots)| < MAX_FILTERS)
      ensures slots == Apply(old(slots), Add(para, callback))
    {
      if |slots| >= MAX_FILTERS {
        return false;
      }
      var f := Slot(Param([], [], []), 0);
      if para.Some? {
        f := f.(para := para.value);
      }
      f := f.(callback := callback);
      slots := slots + [f];
      Rebuild();
      return true;
    }

    /** `filter_lookup`. */
    method Lookup(para: Param) returns (i: nat)
      ensures i == Find(slots, para)
    {
      i := 0;
      while i < |slots|
        invariant 0 <= i <= |slots|
        invariant i + Find(slots[i..], para) == Find(slots, para)
      {
        var tf := slots[i];
        assert slots[i..][1..] == slots[i + 1..];
        if |tf.para.coff| == |para.coff| {
          if tf.para.coff == para.coff && tf.para.mask == para.mask && tf.para.negate == para.negate {
            return;
          }
        }
        i := i + 1;
      }
    }

    /** `filter_lookup` followed by `filter_free`, which fills the hole with
        the last slot. */
    method Unregister(para: Param)
      requires Valid()
      modifies this, index
      ensures Valid()
      ensures slots == Apply(old(slots), Drop(para))
    {
      var i := Lookup(para);
      if i < |slots| {
        slots := slots[i := slots[|slots| - 1]];
        slots := slots[..|slots| - 1];
        Rebuild();
      }
    }

    method Perform(op: Op)
      requires Valid() && GoodOp(op)
      modifies this, index
      ensures Valid()
      ensures slots == Apply(old(slots), op)
    {
      match op
      case Add(para, callback) =>
        var ok := Register(para, callback);
      case Drop(para) =>
        Unregister(para);
    }

    /** `filter_proc`: the callbacks made. */
    method Process(data: seq<bv8>) returns (calls: seq<nat>)
      requires Valid() && Covers(slots, data)
      ensures calls == LinearScan(slots, data)
    {
      calls := [];
      if |slots| == 0 {
        return;
      }
      if multi {
        var i := 0;
        while i < |slots|
          invariant 0 <= i <= |slots|
          invariant Covers(slots[i..], data) && calls + LinearScan(slots[i..], data) == LinearScan(slots, data)
        {
          ScanNext(slots, i, data, calls);
          var matched := Match(slots[i].para, data);
          if matched {
            calls := calls + [slots[i].callback];
          }
          i := i + 1;
        }
        assert slots[i..] == [] && calls + [] == calls;
      } else {
        var idx := index[data[0] as int];
        IndexAgrees(slots, index[..], data);
        if idx != NONE && idx < |slots| {
          calls := [slots[idx].callback];
        }
      }
    }
  }

  // ----- the index agrees with the scan -----

  lemma {:induction false} ScanNext(slots: seq<Slot>, i: nat, data: seq<bv8>, calls: seq<nat>)
    requires i < |slots| && Covers(slots[i..], data)
    ensures Covers(slots[i + 1..], data)
    ensures calls + LinearScan(slots[i..], data)
         == (if Matches(slots[i].para, data) then calls + [slots[i].callback] else calls)
            + LinearScan(slots[i + 1..], data)
  {
    var rest := slots[i..];
    assert rest[1..] == slots[i + 1..];
    assert forall j :: 1 <= j < |rest| ==> slots[i + 1..][j - 1] == rest[j];
    var tail := LinearScan(slots[i + 1..], data);
    Assoc(calls, [slots[i].callback], tail);
    assert [] + tail == tail;
  }

  lemma ExactBits(d: bv8, c: bv8)
    ensures d & 0xFF == 0xFF & c <==> d == c
  {
  }

  lemma {:induction false} SameByte(a: bv8, b: bv8)
    ensures a as int == b as int <==> a == b
  {
    assert (a as int) as bv8 == a && (b as int) as bv8 == b;
  }

  lemma {:induction false} ExactMatch(p: Param, data: seq<bv8>)
    requires GoodParam(p) && IsExact(p) && |data| >= 1
    ensures Matches(p, data) <==> TableId(p) == data[0] as int
  {
    ExactBits(data[0], p.coff[0]);
    SameByte(data[0], p.coff[0]);
  }

  lemma {:induction false} NoMatch(slots: seq<Slot>, data: seq<bv8>)
    requires Covers(slots, data) && forall i :: 0 <= i < |slots| ==> !Matches(slots[i].para, data)
    ensures LinearScan(slots, data) == []
  {
    if slots != [] {
      NoMatch(slots[1..], data);
    }
  }

  lemma {:induction false} OneMatch(slots: seq<Slot>, data: seq<bv8>, k: nat)
    requires Covers(slots, data) && k < |slots| && Matches(slots[k].para, data)
    requires forall i :: 0 <= i < |slots| && i != k ==> !Matches(slots[i].para, data)
    ensures LinearScan(slots, data) == [slots[k].callback]
  {
    if k == 0 {
      NoMatch(slots[1..], data);
    } else {
      OneMatch(slots[1..], data, k - 1);
    }
  }

  /** Looking up the table_id finds the one filter that matches, if any. */
  lemma {:induction false} IndexAgrees(slots: seq<Slot>, index: seq<nat>, data: seq<bv8>)
    requires Covers(slots, data) && Indexed(slots, index, false) && |slots| <= MAX_FILTERS
    ensures var k := index[data[0] as int];
            LinearScan(slots, data) == if k != NONE && k < |slots| then [slots[k].callback] else []
  {
    forall i | 0 <= i < |slots|
      ensures IsExact(slots[i].para) && (Matches(slots[i].para, data) <==> TableId(slots[i].para) == data[0] as int)
    {
      ExactMatch(slots[i].para, data);
    }
    var k := index[data[0] as int];
    if k == NONE {
      NoMatch(slots, data);
    } else {
      OneMatch(slots, data, k);
    }
  }

  // ----- runs -----

  datatype Op = Add(para: Option<Param>, callback: nat) | Drop(which: Param)

  predicate GoodOp(op: Op) {
    op.Add? && op.para.Some? ==> GoodParam(op.para.value)
  }

  /** The first slot with these parameters, or the number of slots. */
  function Find(slots: seq<Slot>, para: Param): (i: nat)
    ensures i <= |slots|
    ensures i < |slots| ==> slots[i].para == para
    ensures forall j :: 0 <= j < i ==> slots[j].para != para
  {
    if slots == [] || slots[0].para == para then 0 else 1 + Find(slots[1..], para)
  }

  function Apply(slots: seq<Slot>, op: Op): seq<Slot> {
    match op
    case Add(para, callback) =>
      if |slots| >= MAX_FILTERS then slots
      else slots + [Slot(if para.Some? then para.value else Param([], [], []), callback)]
    case Drop(para) =>
      var (i, n) := (Find(slots, para), |slots| - 1);
      if i > n then slots else slots[i := slots[n]][..n]
  }

  function ApplyAll(slots: seq<Slot>, ops: seq<Op>): seq<Slot>
    decreases |ops|
  {
    if ops == [] then slots else ApplyAll(Apply(slots, ops[0]), ops[1..])
  }

  /** A removal takes out one registration, if there is one with these
      parameters, and keeps all others. */
  lemma {:induction false} DropTakesOne(slots: seq<Slot>, para: Param)
    ensures var (i, after) := (Find(slots, para), Apply(slots, Drop(para)));
            if i < |slots| then multiset(slots) == multiset(after) + multiset{slots[i]}
            else after == slots && forall j :: 0 <= j < |slots| ==> slots[j].para != para
  {
    if Find(slots, para) < |slots| {
      SwapPopped(slots, Find(slots, para));
    }
  }

  /** Filling a hole with the last element and dropping that takes out one. */
  lemma {:induction false} SwapPopped<T>(s: seq<T>, i: nat)
    requires i < |s|
    ensures multiset(s) == multiset(s[i := s[|s| - 1]][..|s| - 1]) + multiset{s[i]}
  {
    var n := |s| - 1;
    assert s == s[..n] + [s[n]];
    if i < n {
      assert s[..n] == s[..i] + [s[i]] + s[i + 1..n];
      assert s[i := s[n]][..n] == s[..i] + [s[n]] + s[i + 1..n];
    } else {
      assert s[i := s[n]][..n] == s[..n];
    }
  }
}
