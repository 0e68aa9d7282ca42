/** The circular intrusive list of include/list.h. A ring is the sequence of its
    nodes, the list head first; every operation rewrites `next` and `prev`
    pointers of shared nodes. */
module List {

  class Node {
    var next: Node
    var prev: Node

    /** `list_head_init`, `list_node_init`. */
    constructor ()
      ensures next == this && prev == this
    {
      next, prev := this, this;
    }
  }

  predicate Distinct(c: seq<Node>) {
    forall i, j :: 0 <= i < j < |c| ==> c[i] != c[j]
  }

  function Up(i: nat, n: nat): nat { if i + 1 >= n then 0 else i + 1 }

  function Down(i: nat, n: nat): nat
    requires n > 0
  {
    if i == 0 then n - 1 else i - 1
  }

  /** `c[0]` is the head; following `next` runs through `c` and back to the
      head, `prev` the other way. */
  ghost predicate Ring(c: seq<Node>)
    reads c
  {
    && c != [] && Distinct(c)
    && (forall i {:trigger c[i].next} :: 0 <= i < |c| ==> c[i].next == c[Up(i, |c|)])
    && (forall i {:trigger c[i].prev} :: 0 <= i < |c| ==> c[i].prev == c[Down(i, |c|)])
  }

  /** `n` behind position `k`. */
  function Inserted(c: seq<Node>, k: nat, n: Node): (d: seq<Node>)
    requires k < |c|
    ensures |d| == |c| + 1
    ensures forall i {:trigger d[i]} :: 0 <= i < |d| ==> d[i] == if i <= k then c[i] else if i == k + 1 then n else c[i - 1]
  {
    c[..k + 1] + [n] + c[k + 1..]
  }

  function Removed(c: seq<Node>, k: nat): (d: seq<Node>)
    requires k < |c|
    ensures |d| == |c| - 1
    ensures forall i {:trigger d[i]} :: 0 <= i < |d| ==> d[i] == if i < k then c[i] else c[i + 1]
  {
    c[..k] + c[k + 1..]
  }

  lemma InsertedDistinct(c: seq<Node>, k: nat, n: Node)
    requires k < |c| && Distinct(c) && n !in c
    ensures Distinct(Inserted(c, k, n))
  {
  }

  lemma RemovedDistinct(c: seq<Node>, k: nat)
    requires k < |c| && Distinct(c)
    ensures Distinct(Removed(c, k))
  {
  }

  /** All `next` pointers but the one at `k` follow the sequence. */
  ghost predicate NextBut(c: seq<Node>, k: nat)
    reads c
  {
    forall i {:trigger c[i].next} :: 0 <= i < |c| && i != k ==> c[i].next == c[Up(i, |c|)]
  }

  ghost predicate PrevBut(c: seq<Node>, k: nat)
    reads c
  {
    forall i {:trigger c[i].prev} :: 0 <= i < |c| && i != k ==> c[i].prev == c[Down(i, |c|)]
  }

  /** A node between position `k` and the next makes a larger ring. */
  lemma Spliced(c: seq<Node>, k: nat, n: Node)
    requires k < |c| && Distinct(c) && n !in c
    requires NextBut(c, k) && PrevBut(c, Up(k, |c|))
    requires c[k].next == n && n.prev == c[k]
    requires n.next == c[Up(k, |c|)] && c[Up(k, |c|)].prev == n
    ensures Ring(Inserted(c, k, n))
  {
    var d := Inserted(c, k, n);
    InsertedDistinct(c, k, n);
    forall i | 0 <= i < |d| ensures d[i].next == d[Up(i, |d|)] {
      if i < k {
        assert c[i].next == c[i + 1];
      } else if i > k + 1 {
        assert c[i - 1].next == c[Up(i - 1, |c|)];
      }
    }
    forall i | 0 <= i < |d| ensures d[i].prev == d[Down(i, |d|)] {
      if i <= k && i != Up(k, |c|) {
        assert c[i].prev == c[Down(i, |c|)];
      } else if i > k + 2 {
        assert c[i - 1].prev == c[i - 2];
      }
    }
  }

  /** Bypassing the node at `k` makes a smaller ring. */
  lemma Bypassed(c: seq<Node>, k: nat)
    requires 0 < k < |c| && Distinct(c)
    requires NextBut(c, k - 1) && PrevBut(c, Up(k, |c|))
    requires c[k - 1].next == c[Up(k, |c|)] && c[Up(k, |c|)].prev == c[k - 1]
    ensures Ring(Removed(c, k))
  {
    var d := Removed(c, k);
    RemovedDistinct(c, k);
    forall i | 0 <= i < |d| ensures d[i].next == d[Up(i, |d|)] {
      if i < k - 1 {
        assert c[i].next == c[i + 1];
      } else if i > k - 1 {
        assert c[i + 1].next == c[Up(i + 1, |c|)];
      }
    }
    forall i | 0 <= i < |d| ensures d[i].prev == d[Down(i, |d|)] {
      if i < k && i != Up(k, |c|) {
        assert c[i].prev == c[Down(i, |c|)];
      } else if i > k {
        assert c[i + 1].prev == c[i];
      }
    }
  }

  /** `list_add_after_`: `n` comes behind the node at position `k`. */
  method AddAfter(p: Node, n: Node, ghost c: seq<Node>, ghost k: nat)
    requires Ring(c) && k < |c| && c[k] == p && n !in c
    modifies c, n
    ensures Ring(Inserted(c, k, n))
  {
    assert p.next == c[Up(k, |c|)];
    n.next := p.next;
    n.prev := p;
    p.next.prev := n;
    p.next := n;
    Spliced(c, k, n);
  }

  /** `list_add_before_`: `n` comes before the node at position `k`; before the
      head is the end of the list. */
  method AddBefore(p: Node, n: Node, ghost c: seq<Node>, ghost k: nat)
    requires Ring(c) && k < |c| && c[k] == p && n !in c
    modifies c, n
    ensures Ring(Inserted(c, Down(k, |c|), n))
  {
    assert p.prev == c[Down(k, |c|)];
    n.next := p;
    n.prev := p.prev;
    p.prev.next := n;
    p.prev := n;
    Spliced(c, Down(k, |c|), n);
  }

  /** `list_del_`; the node keeps its own pointers. */
  method Delete(n: Node, ghost c: seq<Node>, ghost k: nat)
    requires Ring(c) && 0 < k < |c| && c[k] == n
    modifies c
    ensures Ring(Removed(c, k))
    ensures n.next == old(n.next) && n.prev == old(n.prev)
  {
    assert n.next == c[Up(k, |c|)] && n.prev == c[k - 1];
    n.next.prev := n.prev;
    n.prev.next := n.next;
    Bypassed(c, k);
  }

  /** `list_swap_`: `n` takes the place of `o`. */
  method Swap(o: Node, n: Node, ghost c: seq<Node>, ghost k: nat)
    requires Ring(c) && 0 < k < |c| && c[k] == o && n !in c
    modifies c, n
    ensures Ring(c[k := n])
  {
    assert o.next == c[Up(k, |c|)] && o.prev == c[k - 1];
    n.next, n.prev := o.next, o.prev;
    n.next.prev := n;
    n.prev.next := n;
    assert NextBut(c, k - 1) && PrevBut(c, Up(k, |c|));
  }

  /** `list_empty_`. */
  method IsEmpty(h: Node, ghost c: seq<Node>) returns (b: bool)
    requires Ring(c) && c[0] == h
    ensures b == (|c| == 1)
  {
    b := h.next == h;
  }

  // ----- joining lists -----

  predicate Disjoint(a: seq<Node>, b: seq<Node>) {
    forall i, j :: 0 <= i < |a| && 0 <= j < |b| ==> a[i] != b[j]
  }

  lemma JoinedDistinct(a: seq<Node>, b: seq<Node>)
    requires Distinct(a) && Distinct(b) && Disjoint(a, b)
    ensures Distinct(a + b) && Distinct(b + a)
  {
  }

  /** Two open rings whose ends are tied together. */
  lemma Sewn(a: seq<Node>, b: seq<Node>)
    requires a != [] && b != [] && Distinct(a) && Distinct(b) && Disjoint(a, b)
    requires NextBut(a, |a| - 1) && PrevBut(a, 0) && NextBut(b, |b| - 1) && PrevBut(b, 0)
    requires a[|a| - 1].next == b[0] && b[0].prev == a[|a| - 1]
    requires b[|b| - 1].next == a[0] && a[0].prev == b[|b| - 1]
    ensures Ring(a + b)
  {
    var (d, m) := (a + b, |a|);
    JoinedDistinct(a, b);
    forall i | 0 <= i < |d| ensures d[i].next == d[Up(i, |d|)] {
      if i < m - 1 {
        assert a[i].next == a[i + 1];
      } else if m <= i < |d| - 1 {
        assert b[i - m].next == b[i - m + 1];
      }
    }
    forall i | 0 <= i < |d| ensures d[i].prev == d[Down(i, |d|)] {
      if 0 < i < m {
        assert a[i].prev == a[i - 1];
      } else if i > m {
        assert b[i - m].prev == b[i - m - 1];
      }
    }
  }

  /** A ring may be read from any of its nodes. */
  lemma Rotated(a: seq<Node>, b: seq<Node>)
    requires Ring(a + b)
    ensures Ring(b + a)
  {
    var (c, d, m) := (a + b, b + a, |b|);
    assert forall i {:trigger d[i]} :: 0 <= i < |d| ==> d[i] == if i < m then c[i + |a|] else c[i - m];
    forall i | 0 <= i < |d| ensures d[i].next == d[Up(i, |d|)] && d[i].prev == d[Down(i, |d|)] {
      var j := if i < m then i + |a| else i - m;
      assert c[j].next == c[Up(j, |c|)] && c[j].prev == c[Down(j, |c|)];
    }
  }

  /** `list_append_list_`. */
  method AppendList(to: Node, from: Node, ghost ct: seq<Node>, ghost cf: seq<Node>)
    requires Ring(ct) && Ring(cf) && ct[0] == to && cf[0] == from && Disjoint(ct, cf)
    modifies ct, cf
    ensures Ring(ct + cf[1..]) && Ring([from])
  {
    var fromTail := from.prev;
    var toTail := to.prev;
    assert fromTail == cf[|cf| - 1] && toTail == ct[|ct| - 1];
    to.prev := fromTail;
    fromTail.next := to;
    toTail.next := from;
    from.prev := toTail;
    Sewn(ct, cf);
    RemoveSecond(from, ct, cf);
  }

  /** `list_prepend_list_`. */
  method PrependList(to: Node, from: Node, ghost ct: seq<Node>, ghost cf: seq<Node>)
    requires Ring(ct) && Ring(cf) && ct[0] == to && cf[0] == from && Disjoint(ct, cf)
    modifies ct, cf
    ensures Ring([to] + cf[1..] + ct[1..]) && Ring([from])
  {
    var fromTail := from.prev;
    var toHead := to.next;
    ghost var rot := ct[1..] + [to];
    assert ct == [to] + ct[1..];
    Rotated([to], ct[1..]);
    assert fromTail == cf[|cf| - 1] && toHead == rot[0] == ct[Up(0, |ct|)];
    to.next := from;
    from.prev := to;
    toHead.prev := fromTail;
    fromTail.next := toHead;
    Sewn(rot, cf);
    RemoveSecond(from, rot, cf);
    assert ct[1..] + ([to] + cf[1..]) == rot + cf[1..];
    Rotated(ct[1..], [to] + cf[1..]);
  }

  /** "Now remove head": the second list's head leaves the joined ring. */
  method RemoveSecond(from: Node, ghost a: seq<Node>, ghost b: seq<Node>)
    requires a != [] && b != [] && b[0] == from && Ring(a + b)
    modifies a, b
    ensures Ring(a + b[1..]) && Ring([from])
  {
    Delete(from, a + b, |a|);
    assert Removed(a + b, |a|) == a + b[1..];
    assert from == (a + b)[|a|] && from !in a + b[1..];
    from.next, from.prev := from, from;
  }

  // ----- deleting while traversing -----

  /** `list_for_each_safe` with `list_del` in its body, as `free_descriptors`
      of src/descriptor.c runs it: every node once, in order, and an empty ring
      at the end. */
  method DeleteAll(h: Node, ghost c: seq<Node>) returns (visited: seq<Node>)
    requires Ring(c) && c[0] == h
    modifies c
    ensures visited == c[1..] && Ring([h])
  {
    visited := [];
    var i := h.next;
    var nxt := i.next;
    ghost var left := c;
    while i != h
      invariant Ring(left) && left[0] == h && (forall k :: 0 <= k < |left| ==> left[k] in c)
      invariant i == left[Up(0, |left|)] && nxt == i.next
      invariant visited + left[1..] == c[1..]
      decreases |left|
    {
      assert |left| > 1 && i == left[1];
      assert nxt == left[Up(1, |left|)];
      RemoveFirst(left, visited);
      visited := visited + [i];
      Delete(i, left, 1);
      left := Removed(left, 1);
      i := nxt;
      nxt := i.next;
    }
    assert |left| == 1;
    assert left == [h] && left[1..] == [] && visited + [] == visited;
  }

  lemma RemoveFirst(left: seq<Node>, visited: seq<Node>)
    requires |left| > 1
    ensures var d := Removed(left, 1);
            && d[0] == left[0] && d[Up(0, |d|)] == left[Up(1, |left|)]
            && visited + [left[1]] + d[1..] == visited + left[1..]
            && forall k :: 0 <= k < |d| ==> d[k] in left
  {
    var d := Removed(left, 1);
    assert left[1..] == [left[1]] + d[1..];
  }
}
