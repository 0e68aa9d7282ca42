/** How deep the container stack of src/result.c can get. */
module EmitterStack {
  import opened Options
  import opened ResultTree
  import opened Emitter

  /** Levels never decrease up the stack, no level occurs more than twice, and
      only the root lies below level 0. */
  predicate Shape(levels: seq<int>, maxLevel: int) {
    && levels != [] && levels[0] == -1
    && (forall i :: 1 <= i < |levels| ==> 0 <= levels[i] <= maxLevel)
    && (forall i, j :: 0 <= i <= j < |levels| ==> levels[i] <= levels[j])
    && (forall i, j :: 0 <= i && j == i + 2 < |levels| ==> levels[i] < levels[j])
  }

  function Levels(stack: seq<Container>): seq<int> {
    seq(|stack|, i requires 0 <= i < |stack| => stack[i].lv)
  }

  lemma {:induction false} ShapeGrows(levels: seq<int>, maxLevel: int, k: nat)
    requires Shape(levels, maxLevel) && 2 * k + 1 < |levels|
    ensures levels[2 * k + 1] >= k
  {
    if k > 0 {
      ShapeGrows(levels, maxLevel, k - 1);
      assert levels[2 * (k - 1) + 1] < levels[2 * k + 1];
    }
  }

  /** With levels up to `maxLevel` at most `2 * maxLevel + 3` containers are open. */
  lemma {:induction false} DepthBound(levels: seq<int>, maxLevel: nat)
    requires Shape(levels, maxLevel)
    ensures |levels| <= 2 * maxLevel + 3
  {
    if |levels| > 2 * maxLevel + 3 {
      ShapeGrows(levels, maxLevel, maxLevel + 1);
    }
  }

  /** What sealing leaves lies below `minClose`. */
  lemma {:induction false} SealShape(s: State, minClose: int, maxLevel: int)
    requires Shape(Levels(s.stack), maxLevel) && minClose >= 0
    ensures var r := Seal(s, minClose);
            && r.stack <= s.stack
            && Shape(Levels(r.stack), maxLevel)
            && forall i :: 0 <= i < |r.stack| ==> r.stack[i].lv < minClose
    decreases |s.stack|
  {
    var (l, n) := (Levels(s.stack), |s.stack|);
    if n > 1 && Top(s).lv >= minClose {
      assert Levels(Pop(s).stack) == l[..n - 1];
      SealShape(Pop(s), minClose, maxLevel);
    } else {
      assert forall i :: 0 <= i < n ==> s.stack[i].lv == l[i] <= l[n - 1];
    }
  }

  lemma {:induction false} PushShape(levels: seq<int>, lv: int, pushed: seq<int>, maxLevel: int)
    requires Shape(levels, maxLevel) && 0 <= lv <= maxLevel
    requires pushed == [] || pushed == [lv] || pushed == [lv] + [lv]
    requires forall i :: 0 <= i < |levels| ==> levels[i] < lv
    ensures Shape(levels + pushed, maxLevel)
  {
  }

  lemma {:induction false} SetTopLevels(s: State, c: Container)
    requires s.stack != [] && c.lv == Top(s).lv
    ensures Levels(WithTop(s, c).stack) == Levels(s.stack)
  {
  }

  lemma {:induction false} PushLevels(stack: seq<Container>, c: Container)
    ensures Levels(stack + [c]) == Levels(stack) + [c.lv]
  {
  }

  function Pushed(wrapped: bool, e: Event): seq<int> {
    (if wrapped then [e.lv] else []) + (if e.val.None? then [e.lv] else [])
  }

  /** A call pushes at most two containers, both at its own level. */
  lemma {:induction false} PlaceLevels(s: State, e: Event)
    requires s.stack != []
    ensures Levels(Place(s, e).stack)
         == Levels(s.stack) + Pushed(e.key.Some? && Top(s).close == Some(Square), e)
  {
    var w := Wrap(s, e);
    if e.key.Some? && Top(s).close == Some(Square) {
      var marked := WithTop(s, Top(s).(hasChild := true));
      SetTopLevels(s, Top(s).(hasChild := true));
      assert w.stack == marked.stack + [Container(e.lv, e.lv, Some(Curly), false)];
      PushLevels(marked.stack, Top(w));
    }
    var r := Resolve(w, e);
    SetTopLevels(w, Top(r));
    var l := Lead(r);
    SetTopLevels(r, Top(l));
    assert l.stack == WithTop(r, Top(l)).stack;
    PushLevels(l.stack, Container(e.lv, -1, None, false));
  }

  /** Every call keeps the shape, so it holds on every run. */
  lemma {:induction false} EmitShape(s: State, e: Event, maxLevel: int)
    requires Shape(Levels(s.stack), maxLevel) && IsChild(e) && e.lv <= maxLevel
    ensures Shape(Levels(Emit(s, e).stack), maxLevel)
  {
    SealShape(s, MinClose(e), maxLevel);
    var t := Seal(s, MinClose(e));
    var wrapped := e.key.Some? && Top(t).close == Some(Square);
    PlaceLevels(t, e);
    if e.key.None? {
      assert Levels(t.stack) + Pushed(wrapped, e) == Levels(t.stack);
    } else {
      PushShape(Levels(t.stack), e.lv, Pushed(wrapped, e), maxLevel);
    }
  }

  lemma {:induction false} RunShape(s: State, evs: seq<Event>, maxLevel: nat)
    requires Shape(Levels(s.stack), maxLevel)
    requires forall e :: e in evs ==> IsChild(e) && e.lv <= maxLevel
    ensures var r := Run(s, evs);
            Shape(Levels(r.stack), maxLevel) && |r.stack| <= 2 * maxLevel + 3
    decreases |evs|
  {
    DepthBound(Levels(s.stack), maxLevel);
    if evs != [] {
      EmitShape(s, evs[0], maxLevel);
      RunShape(Emit(s, evs[0]), evs[1..], maxLevel);
    }
  }
}
