/** Which registrations of a PID are in force after any operations on its filters
    (src/filter.c), and which sections they take. */
module FilterRuns {
  import opened Options
  import opened Sequences
  import opened Filter
  import Crc32

  // ----- in force, by parameters -----

  /** The parameters an operation registers, or names for removal; a
      registration without any takes every section. */
  function ParaOf(op: Op): Param {
    if op.Drop? then op.which else if op.para.Some? then op.para.value else Param([], [], [])
  }

  /** The parameters in force: a registration adds its own unless the PID is
      full, a removal takes away one of those it names. */
  function ParasInForce(ops: seq<Op>): multiset<Param> {
    if ops == [] then multiset{}
    else
      var (n, op) := (|ops| - 1, ops[|ops| - 1]);
      var before := ParasInForce(ops[..n]);
      if op.Drop? then before - multiset{ParaOf(op)}
      else if |before| < MAX_FILTERS then before + multiset{ParaOf(op)}
      else before
  }

  function Paras(slots: seq<Slot>): (r: seq<Param>)
    ensures |r| == |slots|
    ensures forall j :: 0 <= j < |slots| ==> r[j] == slots[j].para
  {
    seq(|slots|, j requires 0 <= j < |slots| => slots[j].para)
  }

  lemma {:induction false} ParasAfterDrop(slots: seq<Slot>, para: Param)
    ensures multiset(Paras(Apply(slots, Drop(para)))) == multiset(Paras(slots)) - multiset{para}
  {
    var (i, n, ps) := (Find(slots, para), |slots| - 1, Paras(slots));
    if i <= n {
      SwapPopped(ps, i);
      assert Paras(Apply(slots, Drop(para))) == ps[i := ps[n]][..n];
      assert ps[i] == para;
    } else {
      assert para !in ps;
    }
  }

  lemma {:induction false} ParasAfter(slots: seq<Slot>, op: Op)
    ensures var before := multiset(Paras(slots));
            multiset(Paras(Apply(slots, op)))
            == if op.Drop? then before - multiset{ParaOf(op)}
               else if |slots| < MAX_FILTERS then before + multiset{ParaOf(op)} else before
  {
    if op.Drop? {
      ParasAfterDrop(slots, op.which);
    } else if |slots| < MAX_FILTERS {
      assert Paras(Apply(slots, op)) == Paras(slots) + [ParaOf(op)];
    }
  }

  lemma {:induction false} ApplyLast(slots: seq<Slot>, ops: seq<Op>)
    requires ops != []
    ensures ApplyAll(slots, ops) == Apply(ApplyAll(slots, ops[..|ops| - 1]), ops[|ops| - 1])
    decreases |ops|
  {
    hide Apply;
    var n := |ops| - 1;
    if n == 0 {
      assert ops[1..] == [] && ops[..0] == [];
    } else {
      ApplyLast(Apply(slots, ops[0]), ops[1..]);
      assert ops[1..][..n - 1] == ops[..n][1..] && ops[1..][n - 1] == ops[n];
    }
  }

  /** The slots hold exactly the parameters in force. */
  lemma {:induction false} SlotsInForce(ops: seq<Op>)
    ensures multiset(Paras(ApplyAll([], ops))) == ParasInForce(ops)
    ensures |ApplyAll([], ops)| == |ParasInForce(ops)|
    decreases |ops|
  {
    hide Apply;
    if ops != [] {
      var n := |ops| - 1;
      SlotsInForce(ops[..n]);
      ApplyLast([], ops);
      ParasAfter(ApplyAll([], ops[..n]), ops[n]);
    }
    assert |multiset(Paras(ApplyAll([], ops)))| == |Paras(ApplyAll([], ops))|;
  }

  // ----- in force, by registration -----

  predicate Registering(ops: seq<Op>, held: seq<nat>) {
    forall j :: 0 <= j < |held| ==> held[j] < |ops| && ops[held[j]].Add?
  }

  /** The place of the first registration with these parameters, or the length. */
  function Place(ops: seq<Op>, held: seq<nat>, para: Param): (i: nat)
    requires Registering(ops, held)
    ensures i <= |held| && (i < |held| ==> ParaOf(ops[held[i]]) == para)
  {
    if held == [] || ParaOf(ops[held[0]]) == para then 0 else 1 + Place(ops, held[1..], para)
  }

  function SwapPop(held: seq<nat>, i: nat): seq<nat>
    requires i < |held|
  {
    held[i := held[|held| - 1]][..|held| - 1]
  }

  /** The registrations in force, as numbers of operations, in slot order. */
  function Held(ops: seq<Op>): (r: seq<nat>)
    ensures Registering(ops, r)
  {
    if ops == [] then []
    else
      var (n, op) := (|ops| - 1, ops[|ops| - 1]);
      var held := Held(ops[..n]);
      assert Registering(ops, held);
      if op.Add? then (if |held| < MAX_FILTERS then held + [n] else held) else Without(ops, held, op.which)
  }

  function Without(ops: seq<Op>, held: seq<nat>, para: Param): (r: seq<nat>)
    requires Registering(ops, held)
    ensures Registering(ops, r)
  {
    var i := Place(ops, held, para);
    if i == |held| then held else SwapPop(held, i)
  }

  function SlotsOf(ops: seq<Op>, held: seq<nat>): (r: seq<Slot>)
    requires Registering(ops, held)
    ensures |r| == |held|
    ensures forall j :: 0 <= j < |held| ==> r[j] == Slot(ParaOf(ops[held[j]]), ops[held[j]].callback)
  {
    seq(|held|, j requires 0 <= j < |held| => Slot(ParaOf(ops[held[j]]), ops[held[j]].callback))
  }

  lemma {:induction false} PlaceIsFind(ops: seq<Op>, held: seq<nat>, para: Param)
    requires Registering(ops, held)
    ensures Place(ops, held, para) == Find(SlotsOf(ops, held), para)
    decreases |held|
  {
    if held != [] {
      PlaceIsFind(ops, held[1..], para);
      assert SlotsOf(ops, held)[1..] == SlotsOf(ops, held[1..]);
    }
  }

  lemma {:induction false} SlotsDropped(ops: seq<Op>, held: seq<nat>, para: Param)
    requires Registering(ops, held)
    ensures SlotsOf(ops, Without(ops, held, para)) == Apply(SlotsOf(ops, held), Drop(para))
  {
    PlaceIsFind(ops, held, para);
    var i := Place(ops, held, para);
    if i < |held| {
      SlotsPopped(ops, held, i);
    }
  }

  lemma {:induction false} SlotsPopped(ops: seq<Op>, held: seq<nat>, i: nat)
    requires Registering(ops, held) && i < |held|
    ensures Registering(ops, SwapPop(held, i))
    ensures var (slots, n) := (SlotsOf(ops, held), |held| - 1);
            SlotsOf(ops, SwapPop(held, i)) == slots[i := slots[n]][..n]
  {
    var (slots, n, popped) := (SlotsOf(ops, held), |held| - 1, SwapPop(held, i));
    forall j | 0 <= j < n ensures popped[j] == held[if j == i then n else j] {
    }
    hide SwapPop;
    forall j | 0 <= j < n ensures SlotsOf(ops, popped)[j] == slots[i := slots[n]][..n][j] {
    }
  }

  lemma {:induction false} SlotsAdded(ops: seq<Op>, held: seq<nat>, n: nat)
    requires Registering(ops, held) && n < |ops| && ops[n].Add?
    ensures Registering(ops, held + [n])
    ensures SlotsOf(ops, held + [n]) == SlotsOf(ops, held) + [Slot(ParaOf(ops[n]), ops[n].callback)]
  {
  }

  /** Every slot holds the parameters and the callback of its registration. */
  lemma {:induction false} SlotsAre(ops: seq<Op>)
    ensures ApplyAll([], ops) == SlotsOf(ops, Held(ops))
    decreases |ops|
  {
    if ops != [] {
      var (n, op) := (|ops| - 1, ops[|ops| - 1]);
      var held := Held(ops[..n]);
      SlotsAre(ops[..n]);
      ApplyLast([], ops);
      SameSlots(ops, held);
      hide SlotsOf, ApplyAll;
      if op.Add? {
        SlotsAdded(ops, held, n);
      } else {
        SlotsDropped(ops, held, op.which);
      }
    }
  }

  lemma {:induction false} SameSlots(ops: seq<Op>, held: seq<nat>)
    requires ops != [] && Registering(ops[..|ops| - 1], held)
    ensures Registering(ops, held) && SlotsOf(ops, held) == SlotsOf(ops[..|ops| - 1], held)
  {
  }

  /** No registration is in force twice. */
  lemma {:induction false} HeldOnce(ops: seq<Op>)
    ensures forall i, j :: 0 <= i < j < |Held(ops)| ==> Held(ops)[i] != Held(ops)[j]
    decreases |ops|
  {
    if ops != [] {
      HeldOnce(ops[..|ops| - 1]);
    }
  }

  predicate InForce(ops: seq<Op>, i: nat) {
    i in Held(ops)
  }

  lemma {:induction false} PopKeeps(held: seq<nat>, i: nat, k: nat)
    requires k < |held| && i < |held| && i != k
    ensures held[k] in SwapPop(held, i)
  {
    var (r, n) := (SwapPop(held, i), |held| - 1);
    assert if k < n then r[k] == held[k] else r[i] == held[k];
  }

  /** A registration for which the PID has room is in force until its parameters
      are named for removal. */
  lemma {:induction false} StaysInForce(ops: seq<Op>, i: nat)
    requires i < |ops| && ops[i].Add? && |ParasInForce(ops[..i])| < MAX_FILTERS
    requires forall j :: i < j < |ops| ==> ops[j] != Drop(ParaOf(ops[i]))
    ensures InForce(ops, i)
    decreases |ops|
  {
    hide ParasInForce, Held;
    var n := |ops| - 1;
    var held := Held(ops[..n]);
    HeldNext(ops);
    if i == n {
      SlotsAre(ops[..n]);
      SlotsInForce(ops[..n]);
      assert Held(ops)[|held|] == n;
    } else {
      assert ops[..n][..i] == ops[..i];
      StaysInForce(ops[..n], i);
      var k :| 0 <= k < |held| && held[k] == i;
      if ops[n].Add? {
        assert Held(ops)[k] == i;
      } else if Place(ops, held, ops[n].which) < |held| {
        PopKeeps(held, Place(ops, held, ops[n].which), k);
      }
    }
  }

  lemma {:induction false} HeldNext(ops: seq<Op>)
    requires ops != []
    ensures var (n, op, held) := (|ops| - 1, ops[|ops| - 1], Held(ops[..|ops| - 1]));
            && Registering(ops, held)
            && Held(ops) == if op.Drop? then Without(ops, held, op.which)
                            else if |held| < MAX_FILTERS then held + [n] else held
  {
  }

  // ----- what is dispatched -----

  /** The registration is in force, and the section agrees with it in every bit
      that its mask sets. */
  predicate Answers(ops: seq<Op>, i: nat, data: seq<bv8>) {
    && InForce(ops, i) && i < |ops|
    && var p := ParaOf(ops[i]); |p.coff| == |p.mask| <= |data| && Agrees(p, data)
  }

  lemma {:induction false} CalledBySlot(slots: seq<Slot>, data: seq<bv8>, callback: nat)
    requires Covers(slots, data)
    ensures callback in LinearScan(slots, data)
       <==> exists j :: 0 <= j < |slots| && slots[j].callback == callback && Matches(slots[j].para, data)
  {
    if slots != [] {
      CalledBySlot(slots[1..], data, callback);
      if exists j :: 0 <= j < |slots| && slots[j].callback == callback && Matches(slots[j].para, data) {
        var j :| 0 <= j < |slots| && slots[j].callback == callback && Matches(slots[j].para, data);
        assert j > 0 ==> slots[1..][j - 1] == slots[j];
      }
    }
  }

  /** A callback is called exactly when a registration of it in force agrees with
      the section. */
  lemma {:induction false} CalledWhen(ops: seq<Op>, data: seq<bv8>, callback: nat)
    requires Covers(ApplyAll([], ops), data)
    ensures callback in LinearScan(ApplyAll([], ops), data)
       <==> exists i :: 0 <= i < |ops| && ops[i].Add? && ops[i].callback == callback && Answers(ops, i, data)
  {
    hide Agrees, Matches, LinearScan, ApplyAll, Held;
    var (slots, held) := (ApplyAll([], ops), Held(ops));
    SlotsAre(ops);
    CalledBySlot(slots, data, callback);
    forall j | 0 <= j < |held| ensures Matches(slots[j].para, data) <==> Answers(ops, held[j], data) {
      MatchesAgrees(slots[j].para, data);
      assert InForce(ops, held[j]);
    }
  }

  /** A registration for which the section is long enough. */
  predicate Fits(op: Op, data: seq<bv8>) {
    op.Add? && GoodParam(ParaOf(op)) && |ParaOf(op).coff| <= |data|
  }

  /** Registrations only: the callbacks are called in the order they came. */
  function InOrder(ops: seq<Op>, data: seq<bv8>): seq<nat>
    requires forall i :: 0 <= i < |ops| ==> Fits(ops[i], data)
  {
    if ops == [] then []
    else
      assert Fits(ops[0], data);
      (if Agrees(ParaOf(ops[0]), data) then [ops[0].callback] else []) + InOrder(ops[1..], data)
  }

  lemma {:induction false} CalledInOrder(slots: seq<Slot>, ops: seq<Op>, data: seq<bv8>)
    requires forall i :: 0 <= i < |ops| ==> Fits(ops[i], data)
    requires |slots| + |ops| <= MAX_FILTERS && Covers(slots, data)
    ensures Covers(ApplyAll(slots, ops), data)
    ensures LinearScan(ApplyAll(slots, ops), data) == LinearScan(slots, data) + InOrder(ops, data)
    decreases |ops|
  {
    if ops == [] {
      assert LinearScan(slots, data) + [] == LinearScan(slots, data);
    } else {
      assert Fits(ops[0], data);
      var slot := Slot(ParaOf(ops[0]), ops[0].callback);
      ScanAdded(slots, slot, data);
      MatchesAgrees(slot.para, data);
      CalledInOrder(slots + [slot], ops[1..], data);
      Assoc(LinearScan(slots, data), if Agrees(slot.para, data) then [slot.callback] else [], InOrder(ops[1..], data));
    }
  }

  lemma {:induction false} ScanAdded(slots: seq<Slot>, slot: Slot, data: seq<bv8>)
    requires Covers(slots, data) && GoodParam(slot.para) && |slot.para.coff| <= |data|
    ensures Covers(slots + [slot], data)
    ensures LinearScan(slots + [slot], data)
         == LinearScan(slots, data) + (if Matches(slot.para, data) then [slot.callback] else [])
    decreases |slots|
  {
    hide Matches;
    var more := if Matches(slot.para, data) then [slot.callback] else [];
    if slots == [] {
      assert slots + [slot] == [slot] && [slot][1..] == [] && more + [] == more && [] + more == more;
    } else {
      assert (slots + [slot])[1..] == slots[1..] + [slot];
      ScanAdded(slots[1..], slot, data);
      Assoc(if Matches(slots[0].para, data) then [slots[0].callback] else [], LinearScan(slots[1..], data), more);
    }
  }

  /** A mask of 0xFE takes the two table_ids that differ in the last bit. */
  lemma {:induction false} PairMask(coff: bv8, negate: bv8, data: seq<bv8>)
    requires |data| >= 1
    ensures Agrees(Param([coff], [0xFE], [negate]), data) <==> data[0] == coff || data[0] == coff ^ 1
  {
    hide Agrees, ByteAgrees;
    var p := Param([coff], [0xFE], [negate]);
    MatchesAgrees(p, data);
    assert Matches(p, data) <==> ByteMatches(data[0], 0xFE, coff);
    PairBits(data[0], coff);
  }

  lemma {:induction false} PairBits(d: bv8, c: bv8)
    ensures ByteMatches(d, 0xFE, c) <==> d == c || d == c ^ 1
  {
  }

  /** A mask without a bit takes every section, and so does depth 0. */
  lemma {:induction false} OpenMask(p: Param, data: seq<bv8>)
    requires |p.coff| == |p.mask| <= |data| && forall i :: 0 <= i < |p.mask| ==> p.mask[i] == 0
    ensures Agrees(p, data)
  {
    forall i | 0 <= i < |p.mask| ensures ByteAgrees(data[i], p.mask[i], p.coff[i]) {
      assert forall k :: 0 <= k < 8 ==> !Crc32.Bits(0)[k];
    }
  }

  /** After every sequence of registrations and removals, what is dispatched
      is what a linear scan over the registered filters would dispatch: a
      callback is called exactly when a registration of it in force agrees with
      the section. */
  method Dispatch(ops: seq<Op>, data: seq<bv8>) returns (calls: seq<nat>)
    requires (forall op :: op in ops ==> GoodOp(op)) && Covers(ApplyAll([], ops), data)
    ensures calls == LinearScan(ApplyAll([], ops), data)
    ensures forall callback :: callback in calls
              <==> exists i :: 0 <= i < |ops| && ops[i].Add? && ops[i].callback == callback && Answers(ops, i, data)
  {
    var h := new Head();
    var i := 0;
    while i < |ops|
      invariant 0 <= i <= |ops|
      invariant h.Valid() && fresh(h) && fresh(h.index)
      invariant ApplyAll(h.slots, ops[i..]) == ApplyAll([], ops)
    {
      assert ops[i] in ops;
      assert ops[i..][1..] == ops[i + 1..];
      h.Perform(ops[i]);
      i := i + 1;
    }
    assert ops[i..] == [];
    calls := h.Process(data);
    forall callback
      ensures callback in calls
        <==> exists i :: 0 <= i < |ops| && ops[i].Add? && ops[i].callback == callback && Answers(ops, i, data)
    {
      CalledWhen(ops, data, callback);
    }
  }
}
