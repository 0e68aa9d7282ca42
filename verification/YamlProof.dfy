/** The YAML writer prints the tree that its calls denote, and keeps the same
    container stack as the JSON writer. */
module YamlProof {
  import opened Options
  import opened ResultTree
  import opened Yaml
  import E = Emitter
  import EmitterProof
  import opened Sequences

  // ----- the same stack as in JSON -----

  /** Same levels, same child levels, same closing brackets. */
  predicate SameStack(y: seq<Mapping>, j: seq<E.Container>) {
    && |y| == |j|
    && forall i :: 0 <= i < |y| ==>
         y[i].lv == j[i].lv && y[i].childLv == j[i].childLv && y[i].close == j[i].close
  }

  lemma {:induction false} SealSame(y: State, j: E.State, minClose: int)
    requires SameStack(y.stack, j.stack) && y.stack != []
    ensures SameStack(Seal(y, minClose).stack, E.Seal(j, minClose).stack)
    decreases |y.stack|
  {
    var n := |y.stack|;
    if n > 1 && Top(y).lv >= minClose {
      SealSame(y.(stack := y.stack[..n - 1]), E.Pop(j), minClose);
    }
  }

  lemma {:induction false} PlaceSame(y: State, j: E.State, e: Event)
    requires SameStack(y.stack, j.stack) && y.stack != []
    ensures SameStack(Resolve(Dash(y, e), e).stack, E.Resolve(E.Wrap(j, e), e).stack)
  {
    var (y2, j2) := (Dash(y, e), E.Wrap(j, e));
    assert SameStack(y2.stack, j2.stack);
  }

  lemma {:induction false} LeadSame(y: State, j: E.State, e: Event)
    requires SameStack(y.stack, j.stack) && y.stack != [] && E.IsChild(e)
    ensures SameStack(Payload(WriteKey(y, e), e).stack, E.Payload(E.Lead(j), e).stack)
  {
    var (y4, j4) := (WriteKey(y, e), E.Lead(j));
    assert SameStack(y4.stack, j4.stack);
  }

  lemma {:induction false} EmitSame(y: State, j: E.State, e: Event)
    requires SameStack(y.stack, j.stack) && y.stack != [] && E.IsChild(e)
    ensures SameStack(Emit(y, e).stack, E.Emit(j, e).stack)
  {
    SealSame(y, j, E.MinClose(e));
    var (y1, j1) := (Line(Seal(y, E.MinClose(e))), E.Seal(j, E.MinClose(e)));
    PlaceSame(y1, j1, e);
    LeadSame(Resolve(Dash(y1, e), e), E.Resolve(E.Wrap(j1, e), e), e);
  }

  /** On every run of calls that each carry a key or a value. */
  lemma {:induction false} RunSame(y: State, j: E.State, evs: seq<Event>)
    requires SameStack(y.stack, j.stack) && y.stack != [] && EmitterProof.Children(evs)
    ensures SameStack(Run(y, evs).stack, E.Run(j, evs).stack)
    decreases |evs|
  {
    if evs != [] {
      EmitSame(y, j, evs[0]);
      RunSame(Emit(y, evs[0]), E.Emit(j, evs[0]), evs[1..]);
    }
  }

  lemma {:induction false} SealShrinks(y: State, minClose: int)
    ensures |Seal(y, minClose).stack| <= |y.stack|
    decreases |y.stack|
  {
    if |y.stack| > 1 && Top(y).lv >= minClose {
      SealShrinks(y.(stack := y.stack[..|y.stack| - 1]), minClose);
    }
  }

  /** A call with neither key nor value does nothing in JSON. In YAML it seals
      and may decide a container: the stacks stay the same exactly when it
      finds nothing to close and nothing to decide. */
  lemma {:induction false} SilentCallSame(y: State, j: E.State, e: Event)
    requires SameStack(y.stack, j.stack) && y.stack != []
    requires e.key.None? && e.val.None? && e.lv >= 0
    ensures SameStack(Emit(y, e).stack, E.Emit(j, e).stack)
       <==> |y.stack| == 1 || (Top(y).lv <= e.lv && Top(y).childLv >= 0)
  {
    var n := |y.stack| - 1;
    if n > 0 && Top(y).lv > e.lv {
      SealShrinks(y.(stack := y.stack[..n]), e.lv + 1);
    } else {
      assert Seal(y, E.MinClose(e)) == y;
      if n > 0 && Top(y).childLv < 0 {
        assert Emit(y, e).stack[n].childLv == e.lv;
      }
    }
  }

  // ----- the text -----

  predicate Above(s: State, base: seq<Mapping>, lv: int) {
    && |s.stack| > |base|
    && s.stack[..|base|] == base
    && forall i :: |base| < i < |s.stack| ==> s.stack[i].lv >= lv
  }

  /** `r` is what writing `kids` into the container on top of `base`, after
      earlier keys `raw`, leaves. */
  predicate Wrote(r: State, base: seq<Mapping>, m: Mapping, out: string, kids: seq<Member>, raw: seq<string>) {
    && Above(r, base, m.lv)
    && !r.first
    && r.stack[|base|] == m.(keys := Records(raw + KeysOf(kids)))
    && r.out == out + RenderHead(kids, |base|, raw)
  }

  lemma {:induction false} RunSplit(s: State, evs: seq<Event>, n: nat)
    requires s.stack != [] && n <= |evs|
    ensures Run(s, evs) == Run(Run(s, evs[..n]), evs[n..])
  {
    RunConcat(s, evs[..n], evs[n..]);
    TakeDrop(evs, n);
  }

  lemma {:induction false} RunConcat(s: State, a: seq<Event>, b: seq<Event>)
    requires s.stack != []
    ensures Run(s, a + b) == Run(Run(s, a), b)
    decreases |a|
  {
    if a == [] {
      assert a + b == b;
    } else {
      assert (a + b)[1..] == a[1..] + b;
      RunConcat(Emit(s, a[0]), a[1..], b);
    }
  }

  lemma {:induction false} SealCuts(s: State, base: seq<Mapping>, minClose: int)
    requires Above(s, base, minClose)
    requires s.stack[|base|].lv < minClose
    ensures Seal(s, minClose) == s.(stack := base + [s.stack[|base|]])
    decreases |s.stack|
  {
    if |s.stack| > |base| + 1 {
      var t := s.(stack := s.stack[..|s.stack| - 1]);
      assert t.stack[..|base|] == s.stack[..|base|];
      SealCuts(t, base, minClose);
    } else {
      assert s.stack == base + [s.stack[|base|]];
    }
  }

  lemma {:induction false} OneItem(kid: Member, d: nat, raw: seq<string>)
    ensures RenderHead([kid], d, raw) == RenderItem(kid, d, raw)
    ensures KeysOf([kid]) == KeyOf(kid)
  {
    assert [kid][1..] == [];
    assert RenderLines([], d, raw + KeyOf(kid)) == "";
  }

  lemma {:induction false} HeadSplit(kid: Member, more: seq<Member>, d: nat, raw: seq<string>, out: string)
    requires more != []
    ensures out + RenderHead([kid], d, raw) + "\n" + Spaces(2 * d) + RenderHead(more, d, raw + KeyOf(kid))
         == out + RenderHead([kid] + more, d, raw)
    ensures raw + KeysOf([kid] + more) == (raw + KeyOf(kid)) + KeysOf(more)
  {
    OneItem(kid, d, raw);
    assert ([kid] + more)[1..] == more;
    var (i, n, s, h) := (RenderItem(kid, d, raw), "\n", Spaces(2 * d), RenderHead(more, d, raw + KeyOf(kid)));
    Assoc5(out, i, n, s, h);
    Assoc(raw, KeyOf(kid), KeysOf(more));
  }

  /** The output up to the indentation of the child after `kid`. */
  function NextLine(out: string, kid: Member, d: nat, raw: seq<string>): string {
    out + RenderHead([kid], d, raw) + "\n" + Spaces(2 * d)
  }

  function Keyed(m: Mapping, raw: seq<string>, kid: Member): Mapping {
    m.(keys := Records(raw + KeyOf(kid)))
  }

  lemma {:induction false} Continue(r: State, base: seq<Mapping>, m: Mapping, out: string, kid: Member, raw: seq<string>,
                 evs: seq<Event>, more: seq<Member>)
    requires Wrote(r, base, m, out, [kid], raw)
    requires evs == [] <==> more == []
    requires evs != [] ==>
      var (m1, out1) := (Keyed(m, raw, kid), NextLine(out, kid, |base|, raw));
      && m.lv < E.MinClose(evs[0]) && Above(r, base, E.MinClose(evs[0]))
      && Wrote(Run(Write(State(base + [m1], false, out1), evs[0]), evs[1..]), base, m1, out1, more, raw + KeyOf(kid))
    ensures Wrote(Run(r, evs), base, m, out, [kid] + more, raw)
  {
    if evs == [] {
      assert [kid] + more == [kid];
    } else {
      OneItem(kid, |base|, raw);
      SealCuts(r, base, E.MinClose(evs[0]));
      HeadSplit(kid, more, |base|, raw, out);
    }
  }

  /** Writing into a decided container that takes the call as it is. */
  lemma {:induction false} Plain(base: seq<Mapping>, m: Mapping, out: string, e: Event, raw: seq<string>)
    requires m.close.Some? && m.childLv >= 0 && m.keys == Records(raw)
    requires m.close == Some(Square) ==> e.key.None?
    ensures var m1 := m.(keys := Records(raw + KeyOf(Member(e.key, Text("")))));
            var head := if e.key.None? then "- " else Quoted(EmittedKey(m.keys, e.key.value)) + ":";
            Write(State(base + [m], false, out), e) == Payload(State(base + [m1], false, out + head), e)
  {
    var s := State(base + [m], false, out);
    assert Top(s) == m;
    if e.key.Some? {
      var k := e.key.value;
      SetLast(raw, k, k);
      var m1 := m.(keys := Records(raw + [k]));
      SetLast(base, m, m1);
      Assoc(out, Quoted(EmittedKey(m.keys, k)), ":");
    } else {
      assert raw + [] == raw;
    }
  }

  lemma {:induction false} Leaf(base: seq<Mapping>, m: Mapping, out: string, e: Event, raw: seq<string>)
    requires m.close.Some? && m.childLv >= 0 && m.keys == Records(raw) && E.IsLeaf(e)
    requires m.close == Some(Square) ==> e.key.None?
    ensures var r := Write(State(base + [m], false, out), e);
            Wrote(r, base, m, out, [Member(e.key, E.LeafValue(e))], raw) && |r.stack| == |base| + 1
  {
    var kid := Member(e.key, E.LeafValue(e));
    Plain(base, m, out, e, raw);
    OneItem(kid, |base|, raw);
    if e.key.Some? {
      var (q, v) := (Quoted(EmittedKey(m.keys, e.key.value)), Quoted(e.val.value));
      Assoc4(out, q + ":", " ", v);
    } else {
      assert out + "- " + "" == out + "- ";
      var text := RenderEntry(kid.value, |base|);
      assert text == (if e.val.Some? then Quoted(e.val.value) else "");
      Assoc(out, "- ", text);
    }
  }

  lemma {:induction false} AboveInner(r: State, base: seq<Mapping>, m: Mapping, lv: int)
    requires Above(r, base + [m], lv) && r.stack[|base| + 1].lv >= lv
    ensures Above(r, base, lv) && r.stack[|base|] == m
  {
    var t := r.stack[..|base| + 1];
    assert r.stack[|base|] == t[|base|];
    assert r.stack[..|base|] == t[..|base|] == base;
  }

  /** A child container that wrote `kids` after `head`. */
  lemma {:induction false} Nested(r: State, base: seq<Mapping>, m: Mapping, out: string, kid: Member, head: string,
                                  w: Mapping, kids: seq<Member>, raw: seq<string>)
    requires w.lv >= m.lv
    requires Wrote(r, base + [Keyed(m, raw, kid)], w, out + head, kids, [])
    requires RenderItem(kid, |base|, raw) == head + RenderHead(kids, |base| + 1, [])
    ensures Wrote(r, base, m, out, [kid], raw) && Above(r, base, w.lv)
  {
    OneItem(kid, |base|, raw);
    AboveInner(r, base, Keyed(m, raw, kid), w.lv);
    Assoc(out, head, RenderHead(kids, |base| + 1, []));
  }

  lemma {:induction false} Segment(base: seq<Mapping>, m: Mapping, out: string, evs: seq<Event>, kind: Bracket,
                                   raw: seq<string>)
    requires m.close == Some(kind) && m.childLv >= 0 && m.keys == Records(raw)
    requires EmitterProof.Under(evs, m.lv)
    ensures Wrote(Run(Write(State(base + [m], false, out), evs[0]), evs[1..]), base, m, out, E.Kids(evs, kind), raw)
    decreases |evs|, if kind == Square then 1 else 0, 2
  {
    var (e, rest) := (evs[0], evs[1..]);
    if kind == Square && e.key.Some? {
      WrapSegment(base, m, out, evs, raw);
    } else if E.IsLeaf(e) {
      var kid := Member(e.key, E.LeafValue(e));
      Leaf(base, m, out, e, raw);
      if rest != [] {
        Segment(base, Keyed(m, raw, kid), NextLine(out, kid, |base|, raw), rest, kind, raw + KeyOf(kid));
      }
      Continue(Write(State(base + [m], false, out), e), base, m, out, kid, raw, rest, E.Kids(rest, kind));
    } else {
      OpenSegment(base, m, out, evs, raw);
    }
  }

  lemma {:induction false} WrapWrite(base: seq<Mapping>, m: Mapping, out: string, e: Event)
    requires m.close == Some(Square) && e.key.Some?
    ensures var w := Mapping(e.lv, e.lv, Some(Curly), []);
            Write(State(base + [m], false, out), e) == Write(State(base + [m] + [w], false, out + "- "), e)
  {
    var s1 := State(base + [m] + [Mapping(e.lv, e.lv, Some(Curly), [])], false, out + "- ");
    assert Dash(State(base + [m], false, out), e) == s1;
    assert Dash(s1, e) == s1;
  }

  /** A mapping behind a dash. */
  lemma {:induction false} NestedEntry(r: State, base: seq<Mapping>, m: Mapping, out: string, w: Mapping,
                                       kids: seq<Member>, raw: seq<string>)
    requires w.lv >= m.lv && m.keys == Records(raw)
    requires Wrote(r, base + [m], w, out + "- ", kids, [])
    ensures Wrote(r, base, m, out, [Member(None, Node(Curly, kids))], raw) && Above(r, base, w.lv)
  {
    var kid := Member(None, Node(Curly, kids));
    assert raw + KeyOf(kid) == raw;
    assert Keyed(m, raw, kid) == m;
    assert RenderItem(kid, |base|, raw) == "- " + RenderHead(kids, |base| + 1, []);
    Nested(r, base, m, out, kid, "- ", w, kids, raw);
  }

  lemma {:induction false} WrapSegment(base: seq<Mapping>, m: Mapping, out: string, evs: seq<Event>, raw: seq<string>)
    requires m.close == Some(Square) && m.childLv >= 0 && m.keys == Records(raw)
    requires EmitterProof.Under(evs, m.lv) && evs[0].key.Some?
    ensures Wrote(Run(Write(State(base + [m], false, out), evs[0]), evs[1..]), base, m, out, E.Kids(evs, Square), raw)
    decreases |evs|, 1, 1
  {
    var (e, n) := (evs[0], E.Span(evs[1..], evs[0].lv));
    var (w, group) := (Mapping(e.lv, e.lv, Some(Curly), []), evs[..n + 1]);
    EmitterProof.GroupUnder(evs, n);
    Segment(base + [m], w, out + "- ", group, Curly, []);
    WrapWrite(base, m, out, e);
    var start := Write(State(base + [m], false, out), e);
    var kid := Member(None, Node(Curly, E.Kids(group, Curly)));
    NestedEntry(Run(start, group[1..]), base, m, out, w, E.Kids(group, Curly), raw);
    Rest(start, base, m, out, kid, evs, n, Square, raw);
  }

  lemma {:induction false} Rest(start: State, base: seq<Mapping>, m: Mapping, out: string, kid: Member,
                                evs: seq<Event>, n: nat, kind: Bracket, raw: seq<string>)
    requires m.close == Some(kind) && m.childLv >= 0 && m.keys == Records(raw) && start.stack != []
    requires EmitterProof.Under(evs, m.lv) && n == E.Span(evs[1..], evs[0].lv)
    requires var r := Run(start, evs[1..][..n]);
             Wrote(r, base, m, out, [kid], raw) && Above(r, base, evs[0].lv)
    ensures Wrote(Run(start, evs[1..]), base, m, out, [kid] + E.Kids(evs[1..][n..], kind), raw)
    decreases |evs|, 0, 0
  {
    var later := evs[1..][n..];
    var r := Run(start, evs[1..][..n]);
    RunSplit(start, evs[1..], n);
    if later != [] {
      LaterSegment(r, base, m, out, kid, evs, n, kind, raw);
    } else {
      assert [kid] + [] == [kid];
    }
  }

  lemma {:induction false} LaterSegment(r: State, base: seq<Mapping>, m: Mapping, out: string, kid: Member,
                                        evs: seq<Event>, n: nat, kind: Bracket, raw: seq<string>)
    requires m.close == Some(kind) && m.childLv >= 0
    requires EmitterProof.Under(evs, m.lv) && n == E.Span(evs[1..], evs[0].lv) && n < |evs| - 1
    requires Wrote(r, base, m, out, [kid], raw) && Above(r, base, evs[0].lv)
    ensures var later := evs[1..][n..];
            Wrote(Run(r, later), base, m, out, [kid] + E.Kids(later, kind), raw)
    decreases |evs| - 1, 3
  {
    var later := evs[1..][n..];
    EmitterProof.LaterUnder(evs, n, m.lv);
    Segment(base, Keyed(m, raw, kid), NextLine(out, kid, |base|, raw), later, kind, raw + KeyOf(kid));
    Continue(r, base, m, out, kid, raw, later, E.Kids(later, kind));
  }

  function KeyHead(k: string, raw: seq<string>): string {
    Quoted(EmittedKey(Records(raw), k)) + ":"
  }

  /** The state once `e` has opened a container. */
  function AfterOpen(base: seq<Mapping>, m: Mapping, out: string, e: Event, raw: seq<string>): State
    requires e.key.Some?
  {
    State(base + [m.(keys := Records(raw + [e.key.value]))] + [Mapping(e.lv, -1, None, [])], false,
          out + KeyHead(e.key.value, raw))
  }

  lemma {:induction false} OpenSegment(base: seq<Mapping>, m: Mapping, out: string, evs: seq<Event>, raw: seq<string>)
    requires m.close == Some(Curly) && m.childLv >= 0 && m.keys == Records(raw)
    requires EmitterProof.Under(evs, m.lv) && !E.IsLeaf(evs[0])
    ensures Wrote(Run(Write(State(base + [m], false, out), evs[0]), evs[1..]), base, m, out, E.Kids(evs, Curly), raw)
    decreases |evs|, 0, 1
  {
    var (e, n) := (evs[0], E.Span(evs[1..], evs[0].lv));
    Plain(base, m, out, e, raw);
    OpenKid(base, m, out, e, evs[1..][..n], raw);
    Rest(AfterOpen(base, m, out, e, raw), base, m, out, Member(e.key, E.Content(evs[1..][..n])), evs, n, Curly, raw);
  }

  /** A keyed container with children. */
  lemma {:induction false} ValueItem(k: string, kind: Bracket, kids: seq<Member>, d: nat, raw: seq<string>)
    requires kids != []
    ensures RenderItem(Member(Some(k), Node(kind, kids)), d, raw)
         == KeyHead(k, raw) + Pad(d + 1) + RenderHead(kids, d + 1, [])
  {
    assert RenderValue(Node(kind, kids), d) == Pad(d + 1) + RenderHead(kids, d + 1, []);
    Assoc(KeyHead(k, raw), Pad(d + 1), RenderHead(kids, d + 1, []));
  }

  /** The container that `e` opened gets the calls `inner`. */
  lemma {:induction false} OpenKid(base: seq<Mapping>, m: Mapping, out: string, e: Event, inner: seq<Event>,
                                   raw: seq<string>)
    requires e.key.Some? && e.lv >= m.lv
    requires EmitterProof.Leveled(inner) && forall i :: 0 <= i < |inner| ==> E.MinClose(inner[i]) > e.lv
    ensures var r := Run(AfterOpen(base, m, out, e, raw), inner);
            Wrote(r, base, m, out, [Member(e.key, E.Content(inner))], raw) && Above(r, base, e.lv)
    decreases |inner|, 3
  {
    hide Wrote, Above, KeyHead, Records;
    if inner == [] {
      EmptyKid(base, m, out, e, raw);
    } else {
      var k := if inner[0].key.None? then Square else Curly;
      var m1 := m.(keys := Records(raw + [e.key.value]));
      var u := Mapping(e.lv, -1, None, []);
      Opened(base + [m1], u, out + KeyHead(e.key.value, raw), inner);
      FullKid(Run(AfterOpen(base, m, out, e, raw), inner), base, m, out, e,
              u.(childLv := inner[0].lv, close := Some(k)), k, E.Kids(inner, k), raw);
    }
  }

  lemma {:induction false} EmptyKid(base: seq<Mapping>, m: Mapping, out: string, e: Event, raw: seq<string>)
    requires e.key.Some? && e.lv >= m.lv
    ensures var r := AfterOpen(base, m, out, e, raw);
            Wrote(r, base, m, out, [Member(e.key, Node(Square, []))], raw) && Above(r, base, e.lv)
  {
    var kid := Member(e.key, Node(Square, []));
    OneItem(kid, |base|, raw);
    assert RenderValue(kid.value, |base|) == "";
    assert RenderItem(kid, |base|, raw) == KeyHead(e.key.value, raw);
  }

  lemma {:induction false} FullKid(r: State, base: seq<Mapping>, m: Mapping, out: string, e: Event, w: Mapping,
                                   kind: Bracket, kids: seq<Member>, raw: seq<string>)
    requires e.key.Some? && w.lv == e.lv >= m.lv && kids != []
    requires Wrote(r, base + [m.(keys := Records(raw + [e.key.value]))], w,
                   out + KeyHead(e.key.value, raw) + Pad(|base| + 1), kids, [])
    ensures Wrote(r, base, m, out, [Member(e.key, Node(kind, kids))], raw) && Above(r, base, e.lv)
  {
    var (kid, k) := (Member(e.key, Node(kind, kids)), e.key.value);
    ValueItem(k, kind, kids, |base|, raw);
    Assoc(out, KeyHead(k, raw), Pad(|base| + 1));
    Nested(r, base, m, out, kid, KeyHead(k, raw) + Pad(|base| + 1), w, kids, raw);
  }

  lemma {:induction false} Opened(base: seq<Mapping>, u: Mapping, out: string, evs: seq<Event>)
    requires base != [] && u.childLv < 0 && u.close.None? && u.keys == []
    requires evs != [] && EmitterProof.Leveled(evs)
    requires forall i :: 0 <= i < |evs| ==> E.MinClose(evs[i]) > u.lv
    ensures var kind := if evs[0].key.None? then Square else Curly;
            Wrote(Run(State(base + [u], false, out), evs), base, u.(childLv := evs[0].lv, close := Some(kind)),
                  out + Pad(|base|), E.Kids(evs, kind), [])
    decreases |evs|, 2
  {
    var e := evs[0];
    var kind := if e.key.None? then Square else Curly;
    var w := u.(childLv := e.lv, close := Some(kind));
    var out1 := out + Pad(|base|);
    Assoc(out, "\n", Spaces(2 * |base|));
    var s := State(base + [u], false, out);
    assert Line(s) == State(base + [u], false, out1);
    var (d, d1) := (Dash(Line(s), e), Dash(State(base + [w], false, out1), e));
    assert Resolve(d, e) == Resolve(d1, e);
    Segment(base, w, out1, evs, kind, []);
  }

  /** The YAML text of any run of calls is the block form of their tree. */
  lemma {:induction false} WritesTheTree(evs: seq<Event>)
    requires EmitterProof.Leveled(evs)
    ensures Run(Start(), evs).out == RenderHead(E.Kids(evs, Curly), 0, [])
  {
    if evs != [] {
      var m := Start().stack[0];
      assert [] + [m] == [m];
      assert Line(Start()) == State([m], false, "");
      Segment([], m, "", evs, Curly, []);
    }
  }
}
