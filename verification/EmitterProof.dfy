/** Writing on the fly equals building the tree and printing it. */
module EmitterProof {
  import opened Options
  import opened ResultTree
  import opened Emitter
  import opened Sequences

  /** The first `|base| + 1` containers of `s` are those of `base` and one
      more, and all above it were opened at level `lv` or deeper. */
  predicate Above(s: State, base: seq<Container>, lv: int) {
    && |s.stack| > |base|
    && s.stack[..|base|] == base
    && forall i :: |base| < i < |s.stack| ==> s.stack[i].lv >= lv
  }

  lemma {:induction false} RunSplit(s: State, evs: seq<Event>, n: nat)
    requires s.stack != [] && n <= |evs|
    ensures Run(s, evs) == Run(Run(s, evs[..n]), evs[n..])
  {
    RunConcat(s, evs[..n], evs[n..]);
    TakeDrop(evs, n);
  }

  lemma {:induction false} RunConcat(s: State, a: seq<Event>, b: seq<Event>)
    requires s.stack != []
    ensures Run(s, a + b) == Run(Run(s, a), b)
    decreases |a|
  {
    if a == [] {
      assert a + b == b;
    } else {
      assert (a + b)[1..] == a[1..] + b;
      RunConcat(Emit(s, a[0]), a[1..], b);
    }
  }

  lemma {:induction false} CloseToTwice(s: State, k: nat, j: nat)
    requires j <= k
    ensures CloseTo(CloseTo(s, k), j) == CloseTo(s, j)
    decreases |s.stack|
  {
    if |s.stack| > k {
      CloseToTwice(Pop(s), k, j);
    }
  }

  /** A call that ascends out of all that is above `base` closes exactly that. */
  lemma {:induction false} SealCloses(s: State, base: seq<Container>, minClose: int)
    requires Above(s, base, minClose)
    requires s.stack[|base|].lv < minClose
    ensures Seal(s, minClose) == CloseTo(s, |base| + 1)
    decreases |s.stack|
  {
    if |s.stack| > |base| + 1 {
      assert Pop(s).stack[..|base|] == s.stack[..|base|];
      SealCloses(Pop(s), base, minClose);
    }
  }

  /** `r` is what writing `kids` into the container on top of `base` leaves:
      once what they left open is closed, the output has grown by their text. */
  predicate Wrote(r: State, base: seq<Container>, c: Container, out: string, kids: seq<Member>) {
    && Above(r, base, c.lv)
    && CloseTo(r, |base| + 1)
       == State(base + [c.(hasChild := true)], out + RenderKids(kids, |base|, c.hasChild))
  }

  predicate Children(evs: seq<Event>) {
    forall i :: 0 <= i < |evs| ==> IsChild(evs[i])
  }

  predicate Leveled(evs: seq<Event>) {
    forall i :: 0 <= i < |evs| ==> evs[i].lv >= 0
  }

  predicate Belong(evs: seq<Event>, lv: int) {
    Children(evs) && Under(evs, lv)
  }

  /** All but the first of the calls stay inside a container of level `lv`. */
  predicate Under(evs: seq<Event>, lv: int) {
    && evs != [] && Leveled(evs)
    && (evs[0].key.Some? ==> evs[0].lv >= lv)
    && forall i :: 1 <= i < |evs| ==> MinClose(evs[i]) > lv
  }

  lemma {:induction false} RenderCons(m: Member, kids: seq<Member>, d: nat, hasChild: bool)
    ensures RenderKids([m] + kids, d, hasChild)
         == (if hasChild then "," else "") + Pad(d) + RenderMember(m, d) + RenderKids(kids, d, true)
  {
    assert ([m] + kids)[1..] == kids;
  }

  lemma {:induction false} CloseToPrefix(s: State, k: nat)
    requires k <= |s.stack|
    ensures CloseTo(s, k).stack == s.stack[..k]
    decreases |s.stack|
  {
    if |s.stack| > k {
      CloseToPrefix(Pop(s), k);
      assert Pop(s).stack[..k] == s.stack[..k];
    } else {
      assert s.stack[..k] == s.stack;
    }
  }

  /** After the first child, the remaining calls go on in the same container. */
  lemma {:induction false} Continue(r: State, base: seq<Container>, c: Container, out: string, m: Member,
                 evs: seq<Event>, more: seq<Member>)
    requires Wrote(r, base, c, out, [m])
    requires evs == [] ==> more == []
    requires evs != [] ==>
      var (c1, out1) := (c.(hasChild := true), out + RenderKids([m], |base|, c.hasChild));
      && IsChild(evs[0]) && c.lv < MinClose(evs[0]) && Above(r, base, MinClose(evs[0]))
      && Wrote(Run(Place(State(base + [c1], out1), evs[0]), evs[1..]), base, c1, out1, more)
    ensures Wrote(Run(r, evs), base, c, out, [m] + more)
  {
    if evs == [] {
      assert [m] + more == [m];
    } else {
      CloseToPrefix(r, |base| + 1);
      assert r.stack[|base|] == r.stack[..|base| + 1][|base|] == c.(hasChild := true);
      SealCloses(r, base, MinClose(evs[0]));
      RenderSplit(m, more, |base|, c.hasChild, out);
    }
  }

  lemma {:induction false} RenderSplit(m: Member, more: seq<Member>, d: nat, hasChild: bool, out: string)
    ensures out + RenderKids([m], d, hasChild) + RenderKids(more, d, true)
         == out + RenderKids([m] + more, d, hasChild)
  {
    RenderCons(m, [], d, hasChild);
    RenderCons(m, more, d, hasChild);
    assert [m] + [] == [m];
    Assoc(out, RenderKids([m], d, hasChild), RenderKids(more, d, true));
  }

  /** The text that precedes a child's value. */
  function Before(c: Container, d: nat, key: Option<string>): string {
    Comma(c) + Pad(d) + KeyText(key)
  }

  lemma {:induction false} OneKid(out: string, m: Member, d: nat, c: Container)
    ensures out + RenderKids([m], d, c.hasChild) == out + Before(c, d, m.key) + Render(m.value, d + 1)
  {
    RenderCons(m, [], d, c.hasChild);
    assert [m] + [] == [m];
    var (x, y, k, v) := (Comma(c), Pad(d), KeyText(m.key), Render(m.value, d + 1));
    assert x + y + (k + v) + "" == x + y + (k + v);
    Assoc(x + y, k, v);
    Assoc(out, x + y + k, v);
  }

  /** The prelude inside a decided container that takes the call as it is. */
  lemma {:induction false} Plain(base: seq<Container>, c: Container, out: string, e: Event)
    requires c.close.Some? && c.childLv >= 0
    requires c.close == Some(Square) ==> e.key.None?
    ensures Place(State(base + [c], out), e)
         == Payload(State(base + [c.(hasChild := true)], out + Comma(c) + Pad(|base|)), e)
  {
    var s := State(base + [c], out);
    assert Top(s) == c;
    SetLast(base, c, c.(hasChild := true));
  }

  lemma {:induction false} BeforeText(out: string, c: Container, d: nat, key: Option<string>)
    ensures out + Comma(c) + Pad(d) + KeyText(key) == out + Before(c, d, key)
  {
    Assoc4(out, Comma(c), Pad(d), KeyText(key));
  }

  /** A field or an element. */
  lemma {:induction false} Leaf(base: seq<Container>, c: Container, out: string, e: Event)
    requires c.close.Some? && c.childLv >= 0 && e.val.Some?
    requires c.close == Some(Square) ==> e.key.None?
    ensures var r := Place(State(base + [c], out), e);
            Wrote(r, base, c, out, [Member(e.key, Text(e.val.value))]) && |r.stack| == |base| + 1
  {
    Plain(base, c, out, e);
    BeforeText(out, c, |base|, e.key);
    OneKid(out, Member(e.key, Text(e.val.value)), |base|, c);
  }

  /** Closing the container on top of `base`. */
  lemma {:induction false} PopTop(base: seq<Container>, w: Container, out: string)
    ensures CloseTo(State(base + [w], out), |base|) == State(base, out + CloseText(w, |base|))
  {
    var s := State(base + [w], out);
    assert Pop(s).stack == base;
    assert Top(s) == w;
  }

  lemma {:induction false} NodeText(pre: string, kind: Bracket, kids: seq<Member>, d: nat)
    requires kids != []
    ensures pre + [Opening(kind)] + RenderKids(kids, d, false) + (Pad(d) + [Closing(kind)])
         == pre + Render(Node(kind, kids), d)
  {
    var (o, body, p, cl) := ([Opening(kind)], RenderKids(kids, d, false), Pad(d), [Closing(kind)]);
    assert Render(Node(kind, kids), d) == o + body + p + cl;
    Assoc5(pre, o, body, p, cl);
    Assoc(pre + o + body, p, cl);
  }

  lemma {:induction false} AboveInner(r: State, base: seq<Container>, c: Container, w: Container)
    requires Above(r, base + [c], w.lv)
    requires CloseTo(r, |base| + 2).stack == base + [c] + [w]
    ensures Above(r, base, w.lv)
  {
    CloseToPrefix(r, |base| + 2);
    var t := r.stack[..|base| + 2];
    assert r.stack[|base| + 1] == t[|base| + 1] == w;
    assert r.stack[..|base|] == t[..|base|] == base;
  }

  /** A child that is itself a container with children. */
  lemma {:induction false} Nested(r: State, base: seq<Container>, c: Container, out: string, key: Option<string>,
               w: Container, kind: Bracket, kids: seq<Member>)
    requires w.close == Some(kind) && w.childLv >= 0 && !w.hasChild && w.lv >= c.lv && kids != []
    requires Wrote(r, base + [c.(hasChild := true)], w, out + Before(c, |base|, key) + [Opening(kind)], kids)
    ensures Wrote(r, base, c, out, [Member(key, Node(kind, kids))]) && Above(r, base, w.lv)
  {
    hide RenderKids, Render, Before;
    var (d, c1, w1) := (|base| + 1, c.(hasChild := true), w.(hasChild := true));
    var pre := out + Before(c, |base|, key);
    CloseToTwice(r, d + 1, d);
    PopTop(base + [c1], w1, pre + [Opening(kind)] + RenderKids(kids, d, false));
    assert CloseText(w1, d) == Pad(d) + [Closing(kind)];
    NodeText(pre, kind, kids, d);
    OneKid(out, Member(key, Node(kind, kids)), |base|, c);
    AboveInner(r, base, c1, w1);
  }

  lemma {:induction false} Segment(base: seq<Container>, c: Container, out: string, evs: seq<Event>, kind: Bracket)
    requires c.close == Some(kind) && c.childLv >= 0
    requires Belong(evs, c.lv)
    ensures Wrote(Run(Place(State(base + [c], out), evs[0]), evs[1..]), base, c, out, Kids(evs, kind))
    decreases |evs|, if kind == Square then 1 else 0, 2
  {
    var (e, rest) := (evs[0], evs[1..]);
    if kind == Square && e.key.Some? {
      WrapSegment(base, c, out, evs);
    } else if e.val.Some? {
      var m := Member(e.key, Text(e.val.value));
      Leaf(base, c, out, e);
      if rest != [] {
        Segment(base, c.(hasChild := true), out + RenderKids([m], |base|, c.hasChild), rest, kind);
      }
      Continue(Place(State(base + [c], out), e), base, c, out, m, rest, Kids(rest, kind));
    } else {
      OpenSegment(base, c, out, evs);
    }
  }

  /** A keyed member of an array lands in a new object. */
  lemma {:induction false} WrapPlace(base: seq<Container>, c: Container, out: string, e: Event)
    requires c.close == Some(Square) && e.key.Some?
    ensures var w := Container(e.lv, e.lv, Some(Curly), false);
            Place(State(base + [c], out), e)
            == Place(State(base + [c.(hasChild := true)] + [w], out + Before(c, |base|, None) + "{"), e)
  {
    var (c1, w) := (c.(hasChild := true), Container(e.lv, e.lv, Some(Curly), false));
    SetLast(base, c, c1);
    assert base + [c1, w] == base + [c1] + [w];
    BeforeText(out, c, |base|, None);
    assert out + Comma(c) + Pad(|base|) + "" == out + Comma(c) + Pad(|base|);
    var s1 := State(base + [c1] + [w], out + Before(c, |base|, None) + "{");
    assert Wrap(State(base + [c], out), e) == s1;
    assert Wrap(s1, e) == s1;
  }

  /** A call and those that stay below its level. */
  lemma {:induction false} GroupUnder(evs: seq<Event>, n: nat)
    requires evs != [] && Leveled(evs) && n == Span(evs[1..], evs[0].lv)
    ensures var group := evs[..n + 1];
            Under(group, evs[0].lv) && group[0] == evs[0] && group[1..] == evs[1..][..n]
  {
    var group := evs[..n + 1];
    assert forall i :: 1 <= i < |group| ==> group[i] == evs[1..][i - 1];
  }

  /** The object around a keyed member of an array takes the calls up to the
      next one that is not deeper. */
  lemma {:induction false} WrapSegment(base: seq<Container>, c: Container, out: string, evs: seq<Event>)
    requires c.close == Some(Square) && c.childLv >= 0
    requires Belong(evs, c.lv) && evs[0].key.Some?
    ensures Wrote(Run(Place(State(base + [c], out), evs[0]), evs[1..]), base, c, out, Kids(evs, Square))
    decreases |evs|, 1, 1
  {
    var (e, n) := (evs[0], Span(evs[1..], evs[0].lv));
    var (c1, w) := (c.(hasChild := true), Container(e.lv, e.lv, Some(Curly), false));
    var (out1, group) := (out + Before(c, |base|, None) + "{", evs[..n + 1]);
    GroupUnder(evs, n);
    Segment(base + [c1], w, out1, group, Curly);
    WrapPlace(base, c, out, e);
    var start := Place(State(base + [c], out), e);
    Nested(Run(start, group[1..]), base, c, out, None, w, Curly, Kids(group, Curly));
    Rest(start, base, c, out, Member(None, Node(Curly, Kids(group, Curly))), evs, n, Square);
  }

  lemma {:induction false} LaterUnder(evs: seq<Event>, n: nat, lv: int)
    requires Under(evs, lv) && n < |evs| - 1 && n == Span(evs[1..], evs[0].lv)
    ensures Under(evs[1..][n..], lv)
    ensures lv < MinClose(evs[1..][n..][0]) <= evs[0].lv
  {
    var later := evs[1..][n..];
    assert forall i :: 0 <= i < |later| ==> later[i] == evs[1 + n + i];
    assert later[0] == evs[1..][n];
  }

  /** The calls after the first child's own. */
  lemma {:induction false} Rest(start: State, base: seq<Container>, c: Container, out: string, m: Member,
                                evs: seq<Event>, n: nat, kind: Bracket)
    requires c.close == Some(kind) && c.childLv >= 0 && start.stack != []
    requires Belong(evs, c.lv) && n == Span(evs[1..], evs[0].lv)
    requires var r := Run(start, evs[1..][..n]);
             Wrote(r, base, c, out, [m]) && Above(r, base, evs[0].lv)
    ensures Wrote(Run(start, evs[1..]), base, c, out, [m] + Kids(evs[1..][n..], kind))
    decreases |evs|, 0, 0
  {
    var later := evs[1..][n..];
    RunSplit(start, evs[1..], n);
    if later != [] {
      LaterUnder(evs, n, c.lv);
      Segment(base, c.(hasChild := true), out + RenderKids([m], |base|, c.hasChild), later, kind);
    }
    Continue(Run(start, evs[1..][..n]), base, c, out, m, later, Kids(later, kind));
  }

  /** The state once `e` has opened a container. */
  function AfterOpen(base: seq<Container>, c: Container, out: string, e: Event): State {
    State(base + [c.(hasChild := true)] + [Container(e.lv, -1, None, false)], out + Before(c, |base|, e.key))
  }

  /** A call that opens a container. */
  lemma {:induction false} OpenSegment(base: seq<Container>, c: Container, out: string, evs: seq<Event>)
    requires c.close == Some(Curly) && c.childLv >= 0
    requires Belong(evs, c.lv) && evs[0].val.None?
    ensures Wrote(Run(Place(State(base + [c], out), evs[0]), evs[1..]), base, c, out, Kids(evs, Curly))
    decreases |evs|, 0, 1
  {
    hide Wrote, Above, Before, Span;
    var (e, n) := (evs[0], Span(evs[1..], evs[0].lv));
    Plain(base, c, out, e);
    BeforeText(out, c, |base|, e.key);
    OpenKid(base, c, out, e, evs[1..][..n]);
    Rest(AfterOpen(base, c, out, e), base, c, out, Member(e.key, Content(evs[1..][..n])), evs, n, Curly);
  }

  lemma {:induction false} EmptyKid(base: seq<Container>, c: Container, out: string, e: Event)
    requires e.key.Some? && e.lv >= c.lv
    ensures var r := AfterOpen(base, c, out, e);
            Wrote(r, base, c, out, [Member(e.key, Node(Square, []))]) && Above(r, base, e.lv)
  {
    PopTop(base + [c.(hasChild := true)], Container(e.lv, -1, None, false), out + Before(c, |base|, e.key));
    OneKid(out, Member(e.key, Node(Square, [])), |base|, c);
  }

  /** The container that `e` opened gets the calls `inner`. */
  lemma {:induction false} OpenKid(base: seq<Container>, c: Container, out: string, e: Event, inner: seq<Event>)
    requires e.key.Some? && e.lv >= c.lv
    requires Children(inner) && forall i :: 0 <= i < |inner| ==> MinClose(inner[i]) > e.lv
    ensures var r := Run(AfterOpen(base, c, out, e), inner);
            Wrote(r, base, c, out, [Member(e.key, Content(inner))]) && Above(r, base, e.lv)
    decreases |inner|, 3
  {
    if inner == [] {
      EmptyKid(base, c, out, e);
    } else {
      hide Wrote, Above, Before;
      var (c1, u, out1) := (c.(hasChild := true), Container(e.lv, -1, None, false), out + Before(c, |base|, e.key));
      Opened(base + [c1], u, out1, inner);
      var k := if inner[0].key.None? then Square else Curly;
      var w := u.(childLv := inner[0].lv, close := Some(k));
      Nested(Run(AfterOpen(base, c, out, e), inner), base, c, out, e.key, w, k, Kids(inner, k));
    }
  }

  /** The first child decides the type of the container on top. */
  lemma {:induction false} Opened(base: seq<Container>, u: Container, out: string, evs: seq<Event>)
    requires base != [] && u.childLv < 0 && u.close.None? && !u.hasChild
    requires evs != [] && Children(evs) && forall i :: 0 <= i < |evs| ==> MinClose(evs[i]) > u.lv
    ensures var kind := if evs[0].key.None? then Square else Curly;
            Wrote(Run(State(base + [u], out), evs), base, u.(childLv := evs[0].lv, close := Some(kind)),
                  out + [Opening(kind)], Kids(evs, kind))
    decreases |evs|, 2
  {
    var e := evs[0];
    var kind := if e.key.None? then Square else Curly;
    var w := u.(childLv := e.lv, close := Some(kind));
    var s := State(base + [u], out);
    assert Resolve(s, e) == State(base + [w], out + [Opening(kind)]);
    Segment(base, w, out + [Opening(kind)], evs, kind);
  }

  /** The bytes written from `res_open` to the end of `hier_close` are the
      printed form of the tree that the calls denote. */
  lemma {:induction false} WritesTheTree(kind: Bracket, evs: seq<Event>)
    requires Children(evs)
    ensures Document(kind, evs) == RenderRoot(kind, Kids(evs, kind))
  {
    var s := Start(kind);
    if evs != [] {
      FirstCall(kind, evs);
      var c := s.stack[0];
      hide Kids, Place, Start, Emit, Run, Children, Above;
      Segment([], c, s.out, evs, kind);
    }
  }

  /** The first call goes to the root. */
  lemma {:induction false} FirstCall(kind: Bracket, evs: seq<Event>)
    requires Children(evs) && evs != []
    ensures var s := Start(kind);
            && Run(s, evs) == Run(Place(State([] + [s.stack[0]], s.out), evs[0]), evs[1..])
            && Belong(evs, s.stack[0].lv)
  {
    var s := Start(kind);
    assert s.stack == [] + s.stack;
  }
}
