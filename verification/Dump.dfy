/** The calls that the dump code makes (src/table.c, src/dvb_si.c, src/ts.c), and
    the tree that they stand for, told from what is dumped. */
module Dump {
  import opened Options
  import opened Sequences
  import opened ResultTree
  import opened Emitter
  import EmitterProof
  import JsonParser
  import JsonRoundTrip

  /** What is dumped: a field, a container of fields, or a list. Each may be put
      `dip` levels deeper than its container asks for; the elements of a list are
      put at the level of its own call or one deeper. */
  datatype Item =
    | Field(dip: nat, key: string, text: string)
    | Group(dip: nat, key: string, members: seq<Item>)
    | List(dip: nat, key: string, deep: bool, rows: seq<Row>)

  /** An element of a list, or an object in it. */
  datatype Row = Element(text: string) | Record(items: seq<Item>)

  /** A container shows by its first child what it is: a group has one with a
      key, a list one without. What follows a container is not put deeper than
      that; what follows the first member of an object in a list is. */
  predicate Good(it: Item)
    decreases it, 1
  {
    match it
    case Field(_, _, _) => true
    case Group(_, _, members) => members != [] && AllGood(members)
    case List(_, _, _, rows) => (rows != [] ==> rows[0].Element?) && RowsGood(rows)
  }

  predicate AllGood(items: seq<Item>)
    decreases items, 0
  {
    items == [] ||
    (Good(items[0]) && (!items[0].Field? && |items| > 1 ==> items[1].dip <= items[0].dip) && AllGood(items[1..]))
  }

  predicate RowGood(row: Row)
    decreases row, 1
  {
    row.Record? ==> row.items != [] && AllGood(row.items) && row.items[0].dip == 0 && Deeper(row.items[1..])
  }

  predicate Deeper(items: seq<Item>) {
    forall i :: 0 <= i < |items| ==> items[i].dip > 0
  }

  predicate RowsGood(rows: seq<Row>)
    decreases rows, 0
  {
    rows == [] || (RowGood(rows[0]) && RowsGood(rows[1..]))
  }

  // ----- the calls -----

  function ItemCalls(it: Item, lv: nat): (r: seq<Event>)
    ensures r != [] && r[0].lv == lv + it.dip && r[0].key == Some(it.key) && (it.Field? <==> r[0].val.Some?)
    decreases it, 1
  {
    var own := lv + it.dip;
    match it
    case Field(_, key, text) => [Event(own, Some(key), Some(text))]
    case Group(_, key, members) => [Event(own, Some(key), None)] + Calls(members, own + 1)
    case List(_, key, deep, rows) => [Event(own, Some(key), None)] + RowsCalls(rows, if deep then own + 1 else own)
  }

  function Calls(items: seq<Item>, lv: nat): (r: seq<Event>)
    ensures r == [] <==> items == []
    ensures r != [] ==> r[0].lv == lv + items[0].dip && r[0].key.Some?
    decreases items, 0
  {
    if items == [] then [] else ItemCalls(items[0], lv) + Calls(items[1..], lv)
  }

  function RowCalls(row: Row, lv: nat): (r: seq<Event>)
    ensures r == [] <==> row == Record([])
    ensures r != [] ==> if row.Element? then r[0].lv == lv && r[0].key.None?
                        else r[0].lv == lv + 1 + row.items[0].dip && r[0].key.Some?
    decreases row, 1
  {
    match row
    case Element(text) => [Event(lv, None, Some(text))]
    case Record(items) => Calls(items, lv + 1)
  }

  function RowsCalls(rows: seq<Row>, lv: nat): seq<Event>
    decreases rows, 0
  {
    if rows == [] then [] else RowCalls(rows[0], lv) + RowsCalls(rows[1..], lv)
  }

  // ----- the tree -----

  function ItemTree(it: Item): Member
    decreases it, 1
  {
    match it
    case Field(_, key, text) => Member(Some(key), Text(text))
    case Group(_, key, members) => Member(Some(key), Node(Curly, Trees(members)))
    case List(_, key, _, rows) => Member(Some(key), Node(Square, RowTrees(rows)))
  }

  function Trees(items: seq<Item>): seq<Member>
    decreases items, 0
  {
    if items == [] then [] else [ItemTree(items[0])] + Trees(items[1..])
  }

  function RowTree(row: Row): Member
    decreases row, 1
  {
    match row
    case Element(text) => Member(None, Text(text))
    case Record(items) => Member(None, Node(Curly, Trees(items)))
  }

  function RowTrees(rows: seq<Row>): seq<Member>
    decreases rows, 0
  {
    if rows == [] then [] else [RowTree(rows[0])] + RowTrees(rows[1..])
  }

  // ----- which calls stay in which container -----

  predicate Stay(evs: seq<Event>, lv: int) {
    forall i :: 0 <= i < |evs| ==> MinClose(evs[i]) > lv
  }

  predicate Leaves(evs: seq<Event>, lv: int) {
    evs == [] || MinClose(evs[0]) <= lv
  }

  lemma {:induction false} SpanOver(inner: seq<Event>, more: seq<Event>, lv: int)
    requires Stay(inner, lv) && Leaves(more, lv)
    ensures var (evs, n) := (inner + more, Span(inner + more, lv));
            n == |inner| && evs[..n] == inner && evs[n..] == more
  {
    var evs := inner + more;
    assert forall i :: 0 <= i < |inner| ==> MinClose(evs[i]) > lv;
    assert more != [] ==> MinClose(evs[|inner|]) <= lv;
  }

  lemma {:induction false} ItemStays(it: Item, lv: nat)
    ensures Stay(ItemCalls(it, lv)[1..], lv + it.dip) && Stay(ItemCalls(it, lv), lv + it.dip - 1)
    decreases it, 1
  {
    var own := lv + it.dip;
    match it
    case Field(_, _, _) =>
    case Group(_, _, members) => CallsStay(members, own + 1, -1);
    case List(_, _, deep, rows) => RowsStay(rows, if deep then own + 1 else own);
  }

  lemma {:induction false} CallsStay(items: seq<Item>, lv: nat, dip: int)
    requires forall i :: 0 <= i < |items| ==> items[i].dip > dip
    ensures Stay(Calls(items, lv), lv + dip)
    decreases items, 0
  {
    if items != [] {
      ItemStays(items[0], lv);
      CallsStay(items[1..], lv, dip);
    }
  }

  lemma {:induction false} RowStays(row: Row, lv: nat)
    requires RowGood(row)
    ensures Stay(RowCalls(row, lv), lv)
    ensures row.Record? ==> Stay(RowCalls(row, lv)[1..], RowCalls(row, lv)[0].lv)
    decreases row, 1
  {
    if row.Record? {
      var (it, more) := (row.items[0], row.items[1..]);
      CallsStay(row.items, lv + 1, -1);
      ItemStays(it, lv + 1);
      CallsStay(more, lv + 1, 0);
      var (a, b) := (ItemCalls(it, lv + 1), Calls(more, lv + 1));
      assert (a + b)[1..] == a[1..] + b;
    }
  }

  lemma {:induction false} RowsStay(rows: seq<Row>, lv: nat)
    ensures Stay(RowsCalls(rows, lv), lv)
    decreases rows, 0
  {
    if rows != [] {
      if rows[0].Record? {
        CallsStay(rows[0].items, lv + 1, -1);
      }
      RowsStay(rows[1..], lv);
    }
  }

  // ----- the calls stand for the tree -----

  /** A container with its calls, and what follows it. */
  lemma {:induction false} ContainerKid(e: Event, inner: seq<Event>, more: seq<Event>)
    requires e.key.Some? && e.val.None? && Stay(inner, e.lv) && Leaves(more, e.lv)
    ensures Kids([e] + inner + more, Curly) == [Member(e.key, Content(inner))] + Kids(more, Curly)
  {
    Assoc([e], inner, more);
    HeadTail(e, inner + more);
    SpanOver(inner, more, e.lv);
  }

  lemma {:induction false} LeafKid(e: Event, more: seq<Event>, kind: Bracket)
    requires e.val.Some? && (kind == Curly || e.key.None?)
    ensures Kids([e] + more, kind) == [Member(e.key, Text(e.val.value))] + Kids(more, kind)
  {
    HeadTail(e, more);
  }

  /** An object in a list, and what follows it. */
  lemma {:induction false} RecordKid(evs: seq<Event>, more: seq<Event>)
    requires evs != [] && evs[0].key.Some? && Stay(evs[1..], evs[0].lv) && Leaves(more, evs[0].lv)
    ensures Kids(evs + more, Square) == [Member(None, Node(Curly, Kids(evs, Curly)))] + Kids(more, Square)
  {
    var (e, inner) := (evs[0], evs[1..]);
    assert evs == [e] + inner;
    Assoc([e], inner, more);
    HeadTail(e, inner + more);
    SpanOver(inner, more, e.lv);
    assert (evs + more)[..|evs|] == evs;
  }

  lemma {:induction false} ItemKids(it: Item, lv: nat, more: seq<Event>)
    requires Good(it) && (it.Field? || Leaves(more, lv + it.dip))
    ensures Kids(ItemCalls(it, lv) + more, Curly) == [ItemTree(it)] + Kids(more, Curly)
    decreases it, 1
  {
    hide Kids;
    ItemStays(it, lv);
    var (e, own) := (ItemCalls(it, lv)[0], lv + it.dip);
    match it
    case Field(_, _, _) =>
      LeafKid(e, more, Curly);
    case Group(_, _, members) =>
      var inner := Calls(members, own + 1);
      HeadTail(e, inner);
      ContainerKid(e, inner, more);
      CallsKids(members, own + 1);
    case List(_, _, deep, rows) =>
      var el := if deep then own + 1 else own;
      var inner := RowsCalls(rows, el);
      HeadTail(e, inner);
      ContainerKid(e, inner, more);
      RowsLeave(rows, el);
      RowsKids(rows, el);
  }

  lemma {:induction false} CallsKids(items: seq<Item>, lv: nat)
    requires AllGood(items)
    ensures Kids(Calls(items, lv), Curly) == Trees(items)
    decreases items, 0
  {
    if items != [] {
      ItemKids(items[0], lv, Calls(items[1..], lv));
      CallsKids(items[1..], lv);
    }
  }

  lemma {:induction false} RowKids(row: Row, lv: nat, more: seq<Event>)
    requires RowGood(row) && (row.Record? ==> Leaves(more, lv + 1))
    ensures Kids(RowCalls(row, lv) + more, Square) == [RowTree(row)] + Kids(more, Square)
    decreases row, 1
  {
    hide Kids, Stay;
    if row.Element? {
      LeafKid(Event(lv, None, Some(row.text)), more, Square);
    } else {
      RowStays(row, lv);
      CallsKids(row.items, lv + 1);
      RecordKid(RowCalls(row, lv), more);
    }
  }

  lemma {:induction false} RowsLeave(rows: seq<Row>, lv: nat)
    requires RowsGood(rows)
    ensures Leaves(RowsCalls(rows, lv), lv + 1)
    ensures rows != [] ==> RowsCalls(rows, lv) != [] && RowsCalls(rows, lv)[0].key.None? == rows[0].Element?
  {
  }

  lemma {:induction false} RowsKids(rows: seq<Row>, lv: nat)
    requires RowsGood(rows)
    ensures Kids(RowsCalls(rows, lv), Square) == RowTrees(rows)
    decreases rows, 0
  {
    hide Kids, Leaves, RowCalls, RowTree, RowGood;
    if rows == [] {
      NoKids(Square);
    } else {
      RowsLeave(rows[1..], lv);
      RowKids(rows[0], lv, RowsCalls(rows[1..], lv));
      RowsKids(rows[1..], lv);
    }
  }

  lemma {:induction false} NoKids(kind: Bracket)
    ensures Kids([], kind) == []
  {
  }

  /** The calls of a dump build what was dumped: in the object that is the root of
      a JSON document, and, put at one level, in the array of objects of an HTML
      document. */
  lemma {:induction false} DumpBuilds(items: seq<Item>)
    requires AllGood(items)
    ensures Build(Curly, Calls(items, 0)) == Node(Curly, Trees(items))
    ensures Even(items) ==> Build(Square, Calls(items, 0)) == Node(Square, Wrapped(items))
  {
    CallsKids(items, 0);
    if Even(items) {
      WrappedKids(items);
    }
  }

  predicate Even(items: seq<Item>) {
    forall i :: 0 <= i < |items| ==> items[i].dip == 0
  }

  function Wrapped(items: seq<Item>): seq<Member> {
    if items == [] then [] else [Member(None, Node(Curly, [ItemTree(items[0])]))] + Wrapped(items[1..])
  }

  lemma {:induction false} WrappedKids(items: seq<Item>)
    requires AllGood(items) && Even(items)
    ensures Kids(Calls(items, 0), Square) == Wrapped(items)
    decreases |items|
  {
    hide Kids;
    if items == [] {
      NoKids(Square);
    } else {
      var (one, more) := (ItemCalls(items[0], 0), Calls(items[1..], 0));
      ItemStays(items[0], 0);
      RecordKid(one, more);
      ItemKids(items[0], 0, []);
      NoKids(Curly);
      assert one + [] == one && [ItemTree(items[0])] + [] == [ItemTree(items[0])];
      assert Kids(one, Curly) == [ItemTree(items[0])];
      assert Calls(items, 0) == one + more;
      WrappedKids(items[1..]);
    }
  }

  // ----- the document of a dump -----

  lemma {:induction false} ItemKeyed(it: Item)
    requires Good(it)
    ensures MemberKeyed(ItemTree(it), Curly)
    decreases it, 1
  {
    match it
    case Field(_, _, _) =>
    case Group(_, _, members) => TreesKeyed(members);
    case List(_, _, _, rows) => RowsKeyed(rows);
  }

  lemma {:induction false} TreesKeyed(items: seq<Item>)
    requires AllGood(items)
    ensures KidsKeyed(Trees(items), Curly)
    decreases items, 0
  {
    if items != [] {
      ItemKeyed(items[0]);
      TreesKeyed(items[1..]);
      HeadTail(ItemTree(items[0]), Trees(items[1..]));
    }
  }

  lemma {:induction false} RowsKeyed(rows: seq<Row>)
    requires RowsGood(rows)
    ensures KidsKeyed(RowTrees(rows), Square)
    decreases rows, 0
  {
    if rows != [] {
      if rows[0].Record? {
        TreesKeyed(rows[0].items);
      }
      RowsKeyed(rows[1..]);
      HeadTail(RowTree(rows[0]), RowTrees(rows[1..]));
    }
  }

  predicate Placed(evs: seq<Event>) {
    forall i :: 0 <= i < |evs| ==> IsChild(evs[i])
  }

  lemma {:induction false} ItemPlaced(it: Item, lv: nat)
    ensures Placed(ItemCalls(it, lv))
    decreases it, 1
  {
    var own := lv + it.dip;
    match it
    case Field(_, _, _) =>
    case Group(_, _, members) => CallsPlaced(members, own + 1);
    case List(_, _, deep, rows) => RowsPlaced(rows, if deep then own + 1 else own);
  }

  lemma {:induction false} CallsPlaced(items: seq<Item>, lv: nat)
    ensures Placed(Calls(items, lv))
    decreases items, 0
  {
    if items != [] {
      ItemPlaced(items[0], lv);
      CallsPlaced(items[1..], lv);
    }
  }

  lemma {:induction false} RowsPlaced(rows: seq<Row>, lv: nat)
    ensures Placed(RowsCalls(rows, lv))
    decreases rows, 0
  {
    if rows != [] {
      if rows[0].Record? {
        CallsPlaced(rows[0].items, lv + 1);
      }
      RowsPlaced(rows[1..], lv);
    }
  }

  /** What is dumped is what a reader of the JSON document gets. */
  lemma {:induction false} DumpReadsBack(items: seq<Item>)
    requires AllGood(items)
    ensures JsonParser.ParseDocument(Document(Curly, Calls(items, 0))) == Some(Node(Curly, Trees(items)))
  {
    hide Kids, Document;
    CallsPlaced(items, 0);
    EmitterProof.WritesTheTree(Curly, Calls(items, 0));
    CallsKids(items, 0);
    TreesKeyed(items);
    JsonRoundTrip.DocumentRoundTrip(Curly, Trees(items));
  }
}
