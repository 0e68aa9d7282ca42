/** The YAML writer of src/result.c on its fixed stack. A slot that is pushed
    keeps whatever keys it still remembers, so the keys have to be dropped when
    a slot is popped. */
module YamlWriter {
  import opened Options
  import opened ResultTree
  import opened Yaml
  import E = Emitter
  import EmitterProof
  import EmitterStack
  import YamlDocument
  import YamlKeys
  import YamlParser
  import YamlProof
  import YamlRoundTrip
  import JsonWriter

  const MAX_DEPTH := JsonWriter.MAX_DEPTH
  const MAX_LEVEL := JsonWriter.MAX_LEVEL

  function Levels(stack: seq<Mapping>): seq<int> {
    seq(|stack|, i requires 0 <= i < |stack| => stack[i].lv)
  }

  /** The JSON stack with the same frames. */
  function Twin(stack: seq<Mapping>): seq<E.Container> {
    seq(|stack|, i requires 0 <= i < |stack| =>
      E.Container(stack[i].lv, stack[i].childLv, stack[i].close, false))
  }

  lemma {:induction false} TwinLevels(s: State, j: E.State)
    requires YamlProof.SameStack(s.stack, j.stack)
    ensures Levels(s.stack) == EmitterStack.Levels(j.stack)
  {
  }

  /** A call without key and value moves the stack like a list item. */
  lemma {:induction false} SilentStack(s: State, e: Event)
    requires s.stack != [] && e.key.None?
    ensures Emit(s, e).stack == Emit(s, e.(val := Some(""))).stack
  {
  }

  lemma {:induction false} EmitShape(s: State, e: Event)
    requires EmitterStack.Shape(Levels(s.stack), MAX_LEVEL) && 0 <= e.lv <= MAX_LEVEL
    ensures EmitterStack.Shape(Levels(Emit(s, e).stack), MAX_LEVEL)
  {
    var c := if e.key.None? then e.(val := Some("")) else e;
    if e.key.None? {
      SilentStack(s, e);
    }
    var j := E.State(Twin(s.stack), "");
    TwinLevels(s, j);
    YamlProof.EmitSame(s, j, c);
    EmitterStack.EmitShape(j, c, MAX_LEVEL);
    TwinLevels(Emit(s, c), E.Emit(j, c));
  }

  /** After sealing there is room for the two containers a call may push. */
  lemma {:induction false} Room(s: State, e: Event)
    requires EmitterStack.Shape(Levels(s.stack), MAX_LEVEL) && 0 <= e.lv <= MAX_LEVEL && e.key.Some?
    ensures |Seal(s, e.lv).stack| + 2 < MAX_DEPTH
  {
    var j := E.State(Twin(s.stack), "");
    assert Levels(s.stack) == EmitterStack.Levels(j.stack);
    EmitterStack.SealShape(j, e.lv, MAX_LEVEL);
    YamlProof.SealSame(s, j, e.lv);
    var l := EmitterStack.Levels(E.Seal(j, e.lv).stack);
    EmitterStack.PushShape(l, e.lv, [e.lv] + [e.lv], MAX_LEVEL);
    EmitterStack.DepthBound(l + ([e.lv] + [e.lv]), MAX_LEVEL);
  }

  /** The output after one line, piece by piece. */
  function LineText(out: string, first: bool, e: Event, indent: nat, dash: bool, ekey: string): string {
    var o1 := out + (if first then "" else "\n") + Spaces(indent);
    var o2 := if dash then o1 + "- " else o1;
    var o3 := if e.key.Some? then o2 + Quoted(ekey) + ":" else o2;
    var o4 := if e.key.Some? && e.val.Some? then o3 + " " else o3;
    if e.val.Some? then o4 + Quoted(e.val.value) else o4
  }

  /** Stack and text of a call after sealing. */
  lemma {:induction false} EmitParts(t: State, e: Event, ekey: string)
    requires t.stack != []
    requires e.key.Some? ==> ekey == EmittedKey(Top(Resolve(Dash(t, e), e)).keys, e.key.value)
    ensures var r := Write(Line(t), e);
            var wrap := Top(t).close == Some(Square) && e.key.Some?;
            && !r.first
            && r.out == LineText(t.out, t.first, e, 2 * (|t.stack| - 1), e.key.None? || wrap, ekey)
            && r.stack == if e.key.None? then Resolve(t, e).stack else
                 var entered := WriteKey(Resolve(Dash(t, e), e), e).stack;
                 if e.val.None? then entered + [Mapping(e.lv, -1, None, [])] else entered
  {
    hide Quoted, Spaces, EmittedKey, Record;
    var l := Line(t);
    assert Resolve(Dash(l, e), e).stack == Resolve(Dash(t, e), e).stack;
    if e.key.None? && e.val.Some? {
      var o := Dash(l, e).out;
      assert o + "" == o;
    }
  }

  class Writer {
    const jstack: array<Mapping>
    var jdepth: nat
    var yfirst: bool
    var out: string

    ghost predicate Valid()
      reads this, jstack
    {
      && jstack.Length == MAX_DEPTH
      && 1 <= jdepth <= MAX_DEPTH
      && EmitterStack.Shape(Levels(jstack[..jdepth]), MAX_LEVEL)
      && FreeSlotsClean()
    }

    /** A mapping opened next starts with no remembered keys. */
    ghost predicate FreeSlotsClean()
      reads this, jstack
    {
      forall i :: jdepth <= i < jstack.Length ==> jstack[i].keys == []
    }

    ghost function View(): State
      reads this, jstack
      requires jdepth <= jstack.Length
    {
      State(jstack[..jdepth], yfirst, out)
    }

    constructor ()
      ensures Valid() && fresh(jstack) && View() == Start()
    {
      jstack := new Mapping[MAX_DEPTH](_ => Mapping(0, 0, None, []));
      jdepth, yfirst, out := 1, true, "";
      new;
      jstack[0] := Mapping(-1, 0, Some(Curly), []);
      assert jstack[..jdepth] == Start().stack;
    }

    /** The sealing loop, `jcnt_key_free` included. */
    method SealTo(minClose: int)
      requires 1 <= jdepth <= jstack.Length && FreeSlotsClean()
      modifies this`jdepth, jstack
      ensures 1 <= jdepth <= jstack.Length && FreeSlotsClean()
      ensures View() == Seal(old(View()), minClose)
    {
      ghost var s := View();
      while jdepth > 1
        invariant 1 <= jdepth <= jstack.Length && FreeSlotsClean()
        invariant Seal(View(), minClose) == Seal(s, minClose)
        decreases jdepth
      {
        var t := jstack[jdepth - 1];
        if t.lv < minClose {
          break;
        }
        ghost var v := View();
        jstack[jdepth - 1] := t.(keys := []);
        jdepth := jdepth - 1;
        assert jstack[..jdepth] == v.stack[..jdepth];
      }
    }

    /** `y_dedup_key` on the innermost container. */
    method DedupKey(key: string) returns (ekey: string)
      requires 1 <= jdepth <= jstack.Length && FreeSlotsClean()
      modifies jstack
      ensures FreeSlotsClean()
      ensures ekey == EmittedKey(old(jstack[jdepth - 1].keys), key)
      ensures forall raw :: old(jstack[jdepth - 1].keys) == Records(raw) ==> YamlKeys.WrittenFor(raw, key, ekey)
      ensures View() == WithTop(old(View()), old(jstack[jdepth - 1]).(keys := Record(old(jstack[jdepth - 1].keys), key)))
    {
      ghost var v := View();
      var m := jstack[jdepth - 1];
      var recs := m.keys;
      var i := 0;
      while i < |recs| && recs[i].key != key
        invariant 0 <= i <= |recs|
        invariant forall j :: 0 <= j < i ==> recs[j].key != key
      {
        i := i + 1;
      }
      assert i == Find(recs, key);
      if i < |recs| {
        ekey := Fit(Suffixed(key, recs[i].count + 1));
        jstack[jdepth - 1] := m.(keys := recs[i := KeyRec(key, recs[i].count + 1)]);
      } else {
        ekey := key;
        jstack[jdepth - 1] := m.(keys := recs + [KeyRec(key, 1)]);
      }
      assert jstack[..jdepth] == WithTop(v, m.(keys := Record(recs, key))).stack;
      forall raw | recs == Records(raw) ensures YamlKeys.WrittenFor(raw, key, ekey) {
        YamlKeys.DedupedKey(raw, key);
      }
    }

    /** Pushing writes every field of the slot but its keys. */
    method Push(lv: int, childLv: int, close: Option<Bracket>)
      requires 1 <= jdepth < jstack.Length && FreeSlotsClean()
      modifies this`jdepth, jstack
      ensures jdepth == old(jdepth) + 1 <= jstack.Length && FreeSlotsClean()
      ensures jstack[..jdepth] == old(jstack[..jdepth]) + [Mapping(lv, childLv, close, [])]
    {
      jstack[jdepth] := jstack[jdepth].(lv := lv, childLv := childLv, close := close);
      jdepth := jdepth + 1;
    }

    /** The stack part of `y_emit` up to the deduplicated key. */
    method Enter(e: Event, wrap: bool) returns (ekey: string)
      requires 1 <= jdepth && jdepth + 2 < jstack.Length && FreeSlotsClean()
      requires wrap == (jstack[jdepth - 1].close == Some(Square)) && e.key.Some?
      modifies this`jdepth, jstack
      ensures 1 <= jdepth < jstack.Length && FreeSlotsClean()
      ensures var r := Resolve(Dash(old(View()), e), e);
              ekey == EmittedKey(Top(r).keys, e.key.value) && jstack[..jdepth] == WriteKey(r, e).stack
    {
      ghost var s1 := View();
      if wrap {
        Push(e.lv, e.lv, Some(Curly));
      }
      ghost var s2 := View();
      assert s2.stack == Dash(s1, e).stack;
      ResolveTop(e);
      ekey := DedupKey(e.key.value);
    }

    method ResolveTop(e: Event)
      requires 1 <= jdepth <= jstack.Length && FreeSlotsClean()
      modifies jstack
      ensures FreeSlotsClean()
      ensures View() == Resolve(old(View()), e)
    {
      ghost var s := View();
      if jdepth > 1 && jstack[jdepth - 1].childLv < 0 {
        jstack[jdepth - 1] := jstack[jdepth - 1].(childLv := e.lv,
                                                  close := Some(if e.key.None? then Square else Curly));
        assert jstack[..jdepth] == Resolve(s, e).stack;
      }
    }

    /** The text part of `y_emit`. */
    method PutLine(e: Event, indent: nat, dash: bool, ekey: string)
      modifies this`yfirst, this`out
      ensures !yfirst && out == LineText(old(out), old(yfirst), e, indent, dash, ekey)
    {
      if yfirst {
        yfirst := false;
        out := out + "";
      } else {
        out := out + "\n";
      }
      out := out + Spaces(indent);
      if dash {
        out := out + "- ";
      }
      if e.key.Some? {
        out := out + Quoted(ekey);
        out := out + ":";
        if e.val.Some? {
          out := out + " ";
        }
      }
      if e.val.Some? {
        out := out + Quoted(e.val.value);
      }
    }

    /** `y_emit` after sealing. */
    method Place(e: Event)
      requires 1 <= jdepth <= jstack.Length == MAX_DEPTH && FreeSlotsClean()
      requires e.key.Some? ==> jdepth + 2 < MAX_DEPTH
      modifies this`jdepth, this`yfirst, this`out, jstack
      ensures 1 <= jdepth <= jstack.Length && FreeSlotsClean()
      ensures View() == Write(Line(old(View())), e)
    {
      hide LineText, Write, Line, Dash, Resolve, WriteKey;
      ghost var t := View();
      var indent := 2 * (jdepth - 1);
      var wrap := jstack[jdepth - 1].close == Some(Square) && e.key.Some?;
      if wrap && jdepth >= MAX_DEPTH - 1 {
        return;
      }
      if e.key.None? {
        ResolveTop(e);
        PutLine(e, indent, true, "");
        EmitParts(t, e, "");
      } else {
        var ekey := Enter(e, wrap);
        PutLine(e, indent, wrap, ekey);
        if e.val.None? {
          Push(e.lv, -1, None);
        }
        EmitParts(t, e, ekey);
      }
    }

    /** `y_emit`. */
    method Put(e: Event)
      requires Valid() && 0 <= e.lv <= MAX_LEVEL
      modifies this`jdepth, this`yfirst, this`out, jstack
      ensures Valid()
      ensures View() == Emit(old(View()), e)
    {
      ghost var s := View();
      EmitShape(s, e);
      if e.key.Some? {
        Room(s, e);
      }
      SealTo(E.MinClose(e));
      Place(e);
    }

    /** `hier_close` in YAML: nothing is written, all keys are dropped. */
    method Close()
      requires Valid()
      modifies this`jdepth, jstack
      ensures jdepth == 0 && FreeSlotsClean() && out == old(out)
    {
      var i := 0;
      while i < jdepth
        invariant 0 <= i <= jdepth && jdepth == old(jdepth)
        invariant forall k :: 0 <= k < i || jdepth <= k < jstack.Length ==> jstack[k].keys == []
      {
        jstack[i] := jstack[i].(keys := []);
        i := i + 1;
      }
      jdepth := 0;
    }
  }

  /** One whole session writes the block text of the tree of its calls, with
      the repeated keys of every mapping renamed. The text reads back as that
      tree exactly when no container mixes members with and without a key, and
      no key clashes. */
  method WriteDocument(evs: seq<Event>) returns (text: string)
    requires forall e :: e in evs ==> JsonWriter.IsCall(e)
    ensures var (t, kids) := (E.Build(Curly, evs), YamlDocument.RenameKids(E.Kids(evs, Curly), []));
            && text == YamlDocument.BlockHead(kids, 0)
            && (YamlParser.ReadDocument(text) == Some(kids)
                <==> YamlRoundTrip.Regular(t) && YamlDocument.Everywhere(t, YamlDocument.Unclashing))
  {
    var w := new Writer();
    var i := 0;
    while i < |evs|
      invariant 0 <= i <= |evs|
      invariant w.Valid() && fresh(w) && fresh(w.jstack)
      invariant Run(w.View(), evs[i..]) == Run(Start(), evs)
    {
      assert evs[i] in evs;
      assert evs[i..][1..] == evs[i + 1..];
      w.Put(evs[i]);
      i := i + 1;
    }
    text := w.out;
    w.Close();
    assert EmitterProof.Leveled(evs) by {
      forall k | 0 <= k < |evs| ensures evs[k].lv >= 0 {
        assert evs[k] in evs;
      }
    }
    YamlProof.WritesTheTree(evs);
    YamlDocument.HeadRenamed(E.Kids(evs, Curly), 0, []);
    YamlRoundTrip.CallsReadBack(evs);
  }
}
