/** When a document is well formed, told from the calls alone: a bare element
    must never find an object open. */
module BareRule {
  import opened Options
  import opened ResultTree
  import opened Emitter
  import opened EmitterProof
  import opened Sequences

  /** A bare element finds the innermost container that sealing leaves open
      undecided or an array. */
  predicate Lands(s: State, e: Event)
    requires s.stack != []
  {
    e.key.None? ==> Top(Seal(s, MinClose(e))).close != Some(Curly)
  }

  /** Every call of the run lands. */
  predicate Respects(s: State, evs: seq<Event>)
    requires s.stack != []
    decreases |evs|
  {
    evs == [] || (Lands(s, evs[0]) && Respects(Emit(s, evs[0]), evs[1..]))
  }

  /** The same, when the first call has already been sealed for: `c` is the
      container it goes to. */
  predicate RespectsIn(base: seq<Container>, c: Container, out: string, evs: seq<Event>)
    requires evs != []
  {
    && (evs[0].key.None? ==> c.close != Some(Curly))
    && Respects(Place(State(base + [c], out), evs[0]), evs[1..])
  }

  lemma {:induction false} RespectsConcat(s: State, a: seq<Event>, b: seq<Event>)
    requires s.stack != []
    ensures Respects(s, a + b) <==> Respects(s, a) && Respects(Run(s, a), b)
    decreases |a|
  {
    if a == [] {
      assert a + b == b;
    } else {
      assert (a + b)[1..] == a[1..] + b;
      RespectsConcat(Emit(s, a[0]), a[1..], b);
    }
  }

  lemma {:induction false} KeyedCons(m: Member, kids: seq<Member>, kind: Bracket)
    ensures KidsKeyed([m] + kids, kind) <==> MemberKeyed(m, kind) && KidsKeyed(kids, kind)
  {
    HeadTail(m, kids);
  }

  /** The calls after a first child go to the same container. */
  lemma {:induction false} Later(r: State, base: seq<Container>, c: Container, out: string, m: Member,
                                 evs: seq<Event>)
    requires Wrote(r, base, c, out, [m])
    requires evs != [] && IsChild(evs[0]) && c.lv < MinClose(evs[0]) && Above(r, base, MinClose(evs[0]))
    ensures Respects(r, evs)
       <==> RespectsIn(base, c.(hasChild := true), out + RenderKids([m], |base|, c.hasChild), evs)
  {
    CloseToPrefix(r, |base| + 1);
    assert r.stack[|base|] == r.stack[..|base| + 1][|base|] == c.(hasChild := true);
    SealCloses(r, base, MinClose(evs[0]));
  }

  lemma {:induction false} Segment(base: seq<Container>, c: Container, out: string, evs: seq<Event>, kind: Bracket)
    requires c.close == Some(kind) && c.childLv >= 0 && Belong(evs, c.lv)
    ensures RespectsIn(base, c, out, evs) <==> KidsKeyed(Kids(evs, kind), kind)
    decreases |evs|, if kind == Square then 1 else 0, 2
  {
    var (e, rest) := (evs[0], evs[1..]);
    if kind == Square && e.key.Some? {
      WrapSegment(base, c, out, evs);
    } else if e.val.Some? {
      if rest != [] {
        var m := Member(e.key, Text(e.val.value));
        Segment(base, c.(hasChild := true), out + RenderKids([m], |base|, c.hasChild), rest, kind);
      }
      LeafSegment(base, c, out, evs, kind);
    } else {
      OpenSegment(base, c, out, evs);
    }
  }

  lemma {:induction false} LeafSegment(base: seq<Container>, c: Container, out: string, evs: seq<Event>, kind: Bracket)
    requires c.close == Some(kind) && c.childLv >= 0 && Belong(evs, c.lv)
    requires evs[0].val.Some? && (kind == Square ==> evs[0].key.None?)
    requires var m := Member(evs[0].key, Text(evs[0].val.value));
             evs[1..] != [] ==>
               (RespectsIn(base, c.(hasChild := true), out + RenderKids([m], |base|, c.hasChild), evs[1..])
                <==> KidsKeyed(Kids(evs[1..], kind), kind))
    ensures RespectsIn(base, c, out, evs) <==> KidsKeyed(Kids(evs, kind), kind)
  {
    var (e, rest) := (evs[0], evs[1..]);
    var m := Member(e.key, Text(e.val.value));
    assert Kids(evs, kind) == [m] + Kids(rest, kind);
    assert MemberKeyed(m, kind) <==> e.key.Some? == (kind == Curly);
    Leaf(base, c, out, e);
    KeyedCons(m, Kids(rest, kind), kind);
    if rest != [] {
      Later(Place(State(base + [c], out), e), base, c, out, m, rest);
    }
  }

  /** The first child's own calls, then those of the other children. */
  lemma {:induction false} Split(start: State, base: seq<Container>, c: Container, out: string, m: Member,
                                 evs: seq<Event>, n: nat, kind: Bracket)
    requires c.close == Some(kind) && c.childLv >= 0 && start.stack != []
    requires Belong(evs, c.lv) && n == Span(evs[1..], evs[0].lv)
    requires var r := Run(start, evs[1..][..n]);
             Wrote(r, base, c, out, [m]) && Above(r, base, evs[0].lv)
    ensures Respects(start, evs[1..])
       <==> Respects(start, evs[1..][..n]) && KidsKeyed(Kids(evs[1..][n..], kind), kind)
    decreases |evs|, 0, 0
  {
    var later := evs[1..][n..];
    RespectsConcat(start, evs[1..][..n], later);
    TakeDrop(evs[1..], n);
    if later != [] {
      LaterUnder(evs, n, c.lv);
      Later(Run(start, evs[1..][..n]), base, c, out, m, later);
      Segment(base, c.(hasChild := true), out + RenderKids([m], |base|, c.hasChild), later, kind);
    }
  }

  lemma {:induction false} WrapSegment(base: seq<Container>, c: Container, out: string, evs: seq<Event>)
    requires c.close == Some(Square) && c.childLv >= 0
    requires Belong(evs, c.lv) && evs[0].key.Some?
    ensures RespectsIn(base, c, out, evs) <==> KidsKeyed(Kids(evs, Square), Square)
    decreases |evs|, 1, 1
  {
    hide Wrote, Above, Before, Place, Respects, Span;
    var (e, n) := (evs[0], Span(evs[1..], evs[0].lv));
    var (c1, w) := (c.(hasChild := true), Container(e.lv, e.lv, Some(Curly), false));
    var (out1, group) := (out + Before(c, |base|, None) + "{", evs[..n + 1]);
    var m := Member(None, Node(Curly, Kids(group, Curly)));
    GroupUnder(evs, n);
    EmitterProof.Segment(base + [c1], w, out1, group, Curly);
    Segment(base + [c1], w, out1, group, Curly);
    WrapPlace(base, c, out, e);
    var start := Place(State(base + [c], out), e);
    Nested(Run(start, group[1..]), base, c, out, None, w, Curly, Kids(group, Curly));
    Split(start, base, c, out, m, evs, n, Square);
    KeyedCons(m, Kids(evs[1..][n..], Square), Square);
  }

  lemma {:induction false} OpenSegment(base: seq<Container>, c: Container, out: string, evs: seq<Event>)
    requires c.close == Some(Curly) && c.childLv >= 0
    requires Belong(evs, c.lv) && evs[0].val.None?
    ensures RespectsIn(base, c, out, evs) <==> KidsKeyed(Kids(evs, Curly), Curly)
    decreases |evs|, 0, 1
  {
    hide Wrote, Above, Before, Span;
    var (e, n) := (evs[0], Span(evs[1..], evs[0].lv));
    var (inner, start) := (evs[1..][..n], AfterOpen(base, c, out, e));
    var m := Member(e.key, Content(inner));
    Plain(base, c, out, e);
    BeforeText(out, c, |base|, e.key);
    OpenKid(base, c, out, e, inner);
    if inner != [] {
      Opened(base + [c.(hasChild := true)], Container(e.lv, -1, None, false), out + Before(c, |base|, e.key), inner);
    }
    Split(start, base, c, out, m, evs, n, Curly);
    KeyedCons(m, Kids(evs[1..][n..], Curly), Curly);
  }

  /** The first child of an undecided container always lands. */
  lemma {:induction false} Opened(base: seq<Container>, u: Container, out: string, evs: seq<Event>)
    requires base != [] && u.childLv < 0 && u.close.None? && !u.hasChild
    requires evs != [] && Children(evs) && forall i :: 0 <= i < |evs| ==> MinClose(evs[i]) > u.lv
    ensures Respects(State(base + [u], out), evs) <==> WellKeyed(Content(evs))
    decreases |evs|, 2
  {
    hide Lead, Payload, Kids, KidsKeyed;
    var e := evs[0];
    var kind := if e.key.None? then Square else Curly;
    var w := u.(childLv := e.lv, close := Some(kind));
    var s := State(base + [u], out);
    assert Resolve(s, e) == State(base + [w], out + [Opening(kind)]);
    Segment(base, w, out + [Opening(kind)], evs, kind);
  }

  /** The tree of the calls is well keyed exactly when every call lands. */
  lemma {:induction false} RespectsIsKeyed(kind: Bracket, evs: seq<Event>)
    requires Children(evs)
    ensures Respects(Start(kind), evs) <==> WellKeyed(Build(kind, evs))
  {
    var s := Start(kind);
    if evs != [] {
      assert s.stack == [] + s.stack;
      Segment([], s.stack[0], s.out, evs, kind);
    }
  }
}
