/** The JSON and HTML writer of src/result.c with its fixed stack of 32
    containers, updated in place. */
module JsonWriter {
  import opened Options
  import opened ResultTree
  import opened Emitter
  import opened EmitterStack
  import EmitterProof
  import JsonParser
  import JsonRoundTrip
  import BareRule
  import opened Sequences

  const MAX_DEPTH := 32

  /** The deepest level any dump code of the program uses. */
  const MAX_LEVEL := 14

  class Writer {
    const jstack: array<Container>
    var jdepth: nat
    var out: string
    const rootClose: Bracket

    ghost predicate Valid()
      reads this, jstack
    {
      && jstack.Length == MAX_DEPTH
      && 1 <= jdepth <= MAX_DEPTH
      && Shape(Levels(jstack[..jdepth]), MAX_LEVEL)
    }

    ghost function View(): State
      reads this, jstack
      requires jdepth <= jstack.Length
    {
      State(jstack[..jdepth], out)
    }

    /** `res_open` and `res_init_root`. */
    constructor (kind: Bracket)
      ensures Valid() && fresh(jstack) && rootClose == kind
      ensures View() == Start(kind)
    {
      jstack := new Container[MAX_DEPTH](_ => Container(0, 0, None, false));
      jdepth := 1;
      out := [Opening(kind)];
      rootClose := kind;
      new;
      jstack[0] := Container(-1, 0, Some(kind), false);
      assert jstack[..jdepth] == Start(kind).stack;
    }

    method PutIndent(count: nat)
      modifies this`out
      ensures out == old(out) + Spaces(count)
    {
      var n := count;
      ghost var done := 0;
      while n > 0
        invariant 0 <= n <= count && done == count - n
        invariant out == old(out) + Spaces(done)
      {
        SpacesEnd(done);
        out := out + " ";
        n, done := n - 1, done + 1;
      }
    }

    method PutEscaped(s: string)
      modifies this`out
      ensures out == old(out) + Escape(s)
    {
      var i := 0;
      while i < |s|
        invariant 0 <= i <= |s|
        invariant out == old(out) + Escape(s[..i])
      {
        EscapeStep(s, i, old(out));
        out := out + EscapeChar(s[i]);
        i := i + 1;
      }
      assert s[..|s|] == s;
    }

    method PutQuoted(s: string)
      modifies this`out
      ensures out == old(out) + Quoted(s)
    {
      out := out + "\"";
      PutEscaped(s);
      out := out + "\"";
    }

    method PutPad()
      requires jdepth >= 1
      modifies this`out
      ensures out == old(out) + Pad(jdepth - 1)
    {
      out := out + "\n";
      PutIndent(2 * (jdepth - 1));
    }

    /** Closes the innermost container. */
    method CloseTop()
      requires 2 <= jdepth <= jstack.Length
      modifies this`out, this`jdepth
      ensures 1 <= jdepth <= jstack.Length
      ensures View() == Pop(old(View()))
    {
      ghost var s := View();
      var t := jstack[jdepth - 1];
      PutPad();
      if t.childLv < 0 {
        out := out + "[]";
      } else {
        out := out + (if t.close == Some(Square) then "]" else "}");
      }
      jdepth := jdepth - 1;
      assert jstack[..jdepth] == s.stack[..jdepth];
      assert out == s.out + CloseText(t, jdepth);
    }

    method SealTo(minClose: int)
      requires 1 <= jdepth <= jstack.Length
      modifies this`out, this`jdepth
      ensures 1 <= jdepth <= jstack.Length
      ensures View() == Seal(old(View()), minClose)
    {
      ghost var s := View();
      while jdepth > 1
        invariant 1 <= jdepth <= jstack.Length
        invariant Seal(View(), minClose) == Seal(s, minClose)
        decreases jdepth
      {
        if jstack[jdepth - 1].lv < minClose {
          break;
        }
        CloseTop();
      }
    }

    /** Step 1b of `j_prelude`. */
    method WrapMember(ghost e: Event, lv: int)
      requires 1 <= jdepth < jstack.Length && e.lv == lv && e.key.Some?
      modifies this`out, this`jdepth, jstack
      ensures 1 <= jdepth <= jstack.Length
      ensures View() == Wrap(old(View()), e)
    {
      ghost var s := View();
      if jstack[jdepth - 1].close == Some(Square) {
        var arr := jstack[jdepth - 1];
        out := out + Comma(arr);
        PutPad();
        out := out + "{";
        jstack[jdepth] := Container(lv, lv, Some(Curly), false);
        jdepth := jdepth + 1;
        jstack[jdepth - 2] := arr.(hasChild := true);
        assert jstack[..jdepth] == Wrap(s, e).stack;
      }
    }

    /** Step 2 of `j_prelude`. */
    method ResolveTop(ghost e: Event, lv: int, isArrayElement: bool)
      requires 1 <= jdepth <= jstack.Length && e.lv == lv && e.key.None? == isArrayElement
      modifies this`out, jstack
      ensures View() == Resolve(old(View()), e)
    {
      ghost var s := View();
      if jdepth > 1 && jstack[jdepth - 1].childLv < 0 {
        var kind := if isArrayElement then Square else Curly;
        jstack[jdepth - 1] := jstack[jdepth - 1].(childLv := lv, close := Some(kind), hasChild := false);
        out := out + [Opening(kind)];
        assert jstack[..jdepth] == Resolve(s, e).stack;
      }
    }

    /** Step 3 of `j_prelude`. */
    method LeadChild()
      requires 1 <= jdepth <= jstack.Length
      modifies this`out, jstack
      ensures View() == Lead(old(View()))
    {
      ghost var s := View();
      out := out + Comma(jstack[jdepth - 1]);
      PutPad();
      jstack[jdepth - 1] := jstack[jdepth - 1].(hasChild := true);
      assert jstack[..jdepth] == Lead(s).stack;
    }

    /** `j_emit` on one call. */
    method Put(e: Event)
      requires Valid() && 0 <= e.lv <= MAX_LEVEL
      modifies this`out, this`jdepth, jstack
      ensures Valid()
      ensures View() == Emit(old(View()), e)
    {
      ghost var s := View();
      if e.key.None? && e.val.None? {
        return;
      }
      DepthBound(Levels(s.stack), MAX_LEVEL);
      EmitShape(s, e, MAX_LEVEL);
      DepthBound(Levels(Emit(s, e).stack), MAX_LEVEL);
      hide Seal, Resolve, Lead, Shape;
      SealTo(MinClose(e));
      if e.key.Some? {
        WrapMember(e, e.lv);
      }
      ResolveTop(e, e.lv, e.key.None?);
      LeadChild();
      assert Payload(View(), e) == Emit(s, e);
      PutPayload(e);
    }

    /** Key and value, or key and a new container. */
    method PutPayload(e: Event)
      requires 1 <= jdepth <= jstack.Length && (e.val.None? ==> jdepth < jstack.Length)
      modifies this`out, this`jdepth, jstack
      ensures 1 <= jdepth <= jstack.Length
      ensures View() == Payload(old(View()), e)
    {
      ghost var t := View();
      if e.key.Some? {
        PutQuoted(e.key.value);
        out := out + ":";
      }
      if e.val.Some? {
        PutQuoted(e.val.value);
      } else {
        jstack[jdepth] := Container(e.lv, -1, None, false);
        jdepth := jdepth + 1;
      }
      KeyOut(t.out, e.key);
      assert jstack[..jdepth] == Payload(t, e).stack;
    }

    /** `hier_close`. */
    method Close()
      requires Valid()
      modifies this`out, this`jdepth
      ensures jdepth == 0
      ensures out == Finish(old(View()), rootClose)
    {
      ghost var s := View();
      while jdepth > 1
        invariant 1 <= jdepth <= jstack.Length
        invariant CloseTo(View(), 1) == CloseTo(s, 1)
      {
        CloseTop();
      }
      out := out + "\n";
      out := out + [Closing(rootClose)];
      out := out + "\n";
      jdepth := 0;
    }
  }

  lemma KeyOut(out: string, key: Option<string>)
    ensures out + KeyText(key) == if key.Some? then out + Quoted(key.value) + ":" else out
  {
  }

  /** A call of `res_put` other than the closing signal. */
  predicate IsCall(e: Event) {
    0 <= e.lv <= MAX_LEVEL && !(e.lv == 0 && e.key.None? && e.val.None?)
  }

  /** The calls that write something. */
  function Calls(evs: seq<Event>): (r: seq<Event>)
    ensures (forall e :: e in evs ==> IsCall(e)) ==> EmitterProof.Children(r)
  {
    if evs == [] then []
    else if evs[0].key.None? && evs[0].val.None? then Calls(evs[1..])
    else
      assert evs[0] in evs && forall e :: e in evs[1..] ==> e in evs;
      [evs[0]] + Calls(evs[1..])
  }

  lemma {:induction false} SilentCalls(s: State, evs: seq<Event>)
    requires s.stack != []
    ensures Run(s, evs) == Run(s, Calls(evs))
    decreases |evs|
  {
    if evs != [] {
      SilentCalls(Emit(s, evs[0]), evs[1..]);
    }
  }

  /** One whole session: whatever is called, the bytes written are the printed
      tree of the calls; they are well formed, and read back as that tree,
      exactly when no bare element finds an object open. */
  method WriteDocument(kind: Bracket, evs: seq<Event>) returns (text: string)
    requires forall e :: e in evs ==> IsCall(e)
    ensures text == RenderRoot(kind, Kids(Calls(evs), kind))
    ensures JsonParser.ParseDocument(text)
         == if BareRule.Respects(Start(kind), Calls(evs)) then Some(Build(kind, Calls(evs))) else None
  {
    var w := new Writer(kind);
    var i := 0;
    while i < |evs|
      invariant 0 <= i <= |evs|
      invariant w.Valid() && fresh(w) && fresh(w.jstack) && w.rootClose == kind
      invariant Run(w.View(), evs[i..]) == Run(Start(kind), evs)
    {
      assert evs[i] in evs;
      assert evs[i..][1..] == evs[i + 1..];
      w.Put(evs[i]);
      i := i + 1;
    }
    w.Close();
    text := w.out;
    SilentCalls(Start(kind), evs);
    EmitterProof.WritesTheTree(kind, Calls(evs));
    JsonRoundTrip.DocumentRoundTrip(kind, Kids(Calls(evs), kind));
    BareRule.RespectsIsKeyed(kind, Calls(evs));
  }

  lemma {:induction false} SpacesEnd(n: nat)
    ensures Spaces(n + 1) == Spaces(n) + " "
  {
    if n > 0 {
      SpacesEnd(n - 1);
    }
  }

  lemma {:induction false} EscapeStep(s: string, i: nat, out: string)
    requires i < |s|
    ensures out + Escape(s[..i]) + EscapeChar(s[i]) == out + Escape(s[..i + 1])
  {
    EscapeEnd(s[..i], s[i]);
    assert s[..i + 1] == s[..i] + [s[i]];
    Assoc(out, Escape(s[..i]), EscapeChar(s[i]));
  }

  lemma {:induction false} EscapeEnd(s: string, c: char)
    ensures Escape(s + [c]) == Escape(s) + EscapeChar(c)
  {
    if s == "" {
      assert s + [c] == [c];
      assert Escape([c]) == EscapeChar(c) + Escape([c][1..]);
    } else {
      assert (s + [c])[1..] == s[1..] + [c];
      EscapeEnd(s[1..], c);
      Assoc(EscapeChar(s[0]), Escape(s[1..]), EscapeChar(c));
    }
  }
}
