/** A YAML document reads back as the tree it was printed from. */
module YamlRoundTrip {
  import opened Options
  import opened Sequences
  import opened ResultTree
  import opened JsonParser
  import opened JsonRoundTrip
  import opened YamlParser
  import opened YamlDocument
  import E = Emitter
  import Yaml

  // ----- trees -----

  /** The kind of every container is the one that its children show. */
  predicate Shaped(t: Tree)
    decreases t, 1
  {
    t.Node? ==> t.kind == KindOf(t.kids) && AllShaped(t.kids)
  }

  predicate MemberShaped(m: Member)
    decreases m, 0
  {
    Shaped(m.value)
  }

  predicate AllShaped(kids: seq<Member>)
    decreases kids, 0
  {
    kids == [] || (MemberShaped(kids[0]) && AllShaped(kids[1..]))
  }

  /** Every container inside makes one node. */
  predicate Good(t: Tree)
    decreases t, 1
  {
    t.Node? ==> ValidNode(t.kids) && AllGood(t.kids)
  }

  predicate MemberGood(m: Member)
    decreases m, 0
  {
    Good(m.value)
  }

  predicate AllGood(kids: seq<Member>)
    decreases kids, 0
  {
    kids == [] || (MemberGood(kids[0]) && AllGood(kids[1..]))
  }

  // ----- what may follow a node -----

  /** The text ends, or goes on in a line that is less deep than `d`. */
  predicate Follows(s: string, d: nat) {
    s == "" || (s[0] == '\n' && Indent(s[1..]) < 2 * d)
  }

  lemma {:induction false} IndentSpaces(n: nat, s: string)
    requires s == "" || s[0] != ' '
    ensures Indent(Spaces(n) + s) == n && (Spaces(n) + s)[n..] == s
  {
    if n > 0 {
      assert (Spaces(n) + s)[1..] == Spaces(n - 1) + s;
      IndentSpaces(n - 1, s);
    } else {
      assert Spaces(n) + s == s;
    }
  }

  /** A line at depth `d`. */
  lemma {:induction false} LineRead(d: nat, s: string)
    requires s == "" || s[0] != ' '
    ensures var line := "\n" + Spaces(2 * d) + s;
            AtIndent(line, d) && 1 + 2 * d <= |line| && line[1 + 2 * d..] == s
            && Follows(line, d + 1) && (d > 0 ==> !Follows(line, d))
  {
    var line := "\n" + Spaces(2 * d) + s;
    IndentSpaces(2 * d, s);
    assert line[1..] == Spaces(2 * d) + s;
    assert line[1 + 2 * d..] == line[1..][2 * d..];
  }

  /** Items start with a dash or a quote. */
  lemma {:induction false} HeadStart(kids: seq<Member>, d: nat, rest: string)
    requires kids != []
    ensures var s := BlockHead(kids, d) + rest;
            s != "" && s[0] == (if kids[0].key.None? then '-' else '"')
  {
  }

  // ----- items -----

  lemma {:induction false} BareRead(v: Tree, d: nat, rest: string)
    ensures ReadItem(BlockItem(Member(None, v), d) + rest, d)
         == var r := ReadEntry(BlockEntry(v, d) + rest, d);
            if r.Fail? then Fail else Ok(Member(None, r.value), r.rest)
  {
    var s := BlockItem(Member(None, v), d) + rest;
    Assoc("- ", BlockEntry(v, d), rest);
    assert s[..2] == "- " && s[2..] == BlockEntry(v, d) + rest;
  }

  lemma {:induction false} KeyedRead(k: string, v: Tree, d: nat, rest: string)
    ensures ReadItem(BlockItem(Member(Some(k), v), d) + rest, d)
         == var r := ReadValue(BlockValue(v, d) + rest, d);
            if r.Fail? then Fail else Ok(Member(Some(k), r.value), r.rest)
  {
    hide ReadValue, BlockValue, ParseChars, Quoted;
    var (s, more) := (BlockItem(Member(Some(k), v), d) + rest, BlockValue(v, d) + rest);
    Assoc4(Quoted(k), ":", BlockValue(v, d), rest);
    assert s == Quoted(k) + (":" + more);
    QuotedRead(k, ":" + more);
    assert (":" + more)[1..] == more;
    assert s[..2] != "- ";
  }

  lemma {:induction false} EntryText(x: string, d: nat, rest: string)
    requires Follows(rest, d + 1)
    ensures ReadEntry(Quoted(x) + rest, d) == Ok(Text(x), rest)
  {
    QuotedRead(x, rest);
  }

  lemma {:induction false} ValueText(x: string, d: nat, rest: string)
    ensures ReadValue(" " + Quoted(x) + rest, d) == Ok(Text(x), rest)
  {
    var s := " " + Quoted(x) + rest;
    QuotedRead(x, rest);
    assert s[1..] == Quoted(x) + rest;
    assert s[2..] == s[1..][1..];
    assert s[..2] == " \"";
  }

  lemma {:induction false} EmptyRead(d: nat, rest: string)
    requires Follows(rest, d + 1)
    ensures ReadEntry("" + rest, d) == Ok(Node(Square, []), rest)
    ensures !DashFollows(rest, d) ==> ReadValue("" + rest, d) == Ok(Node(Square, []), rest)
  {
    assert "" + rest == rest;
  }

  /** A node after a dash is not taken for a scalar. */
  lemma {:induction false} EntryNode(kids: seq<Member>, d: nat, rest: string)
    requires kids != []
    ensures var s := BlockHead(kids, d + 1) + rest;
            ReadEntry(s, d) == ReadNode(s, d + 1)
  {
    var s := BlockHead(kids, d + 1) + rest;
    HeadStart(kids, d + 1, rest);
    if kids[0].key.Some? {
      var (k, v, tail) := (kids[0].key.value, BlockValue(kids[0].value, d + 1), BlockLines(kids[1..], d + 1));
      assert BlockHead(kids, d + 1) == Quoted(k) + ":" + v + tail;
      Regroup(Quoted(k), ":", v, tail, rest);
      QuotedRead(k, ":" + (v + tail + rest));
    }
  }

  lemma Regroup(a: string, b: string, c: string, d: string, e: string)
    ensures a + b + c + d + e == a + (b + (c + d + e))
  {
    Assoc5(a, b, c, d, e);
  }

  lemma {:induction false} ValueLine(s: string, d: nat, head: string)
    requires AtIndent(s, d + 1) && s[1 + 2 * (d + 1)..] == head
    ensures ReadValue(s, d) == ReadNode(head, d + 1)
  {
    assert s[0] == '\n';
  }

  lemma {:induction false} ValueNode(kids: seq<Member>, d: nat, rest: string)
    requires kids != []
    ensures ReadValue(BlockLines(kids, d + 1) + rest, d) == ReadNode(BlockHead(kids, d + 1) + rest, d + 1)
  {
    var (s, head) := (BlockLines(kids, d + 1) + rest, BlockHead(kids, d + 1) + rest);
    HeadStart(kids, d + 1, rest);
    hide AtIndent, Follows, Spaces, ReadNode, ReadValue, BlockHead;
    Assoc("\n" + Spaces(2 * (d + 1)), BlockHead(kids, d + 1), rest);
    LineRead(d + 1, head);
    ValueLine(s, d, head);
  }

  // ----- reading back -----

  lemma {:induction false} ItemBack(m: Member, d: nat, rest: string)
    requires MemberShaped(m) && MemberGood(m) && Follows(rest, d + 1)
    requires m.key.Some? ==> !DashFollows(rest, d)
    ensures ReadItem(BlockItem(m, d) + rest, d) == Ok(m, rest)
    decreases m, 0
  {
    hide ReadItem, ReadEntry, ReadValue, BlockItem, ValidNode;
    var v := m.value;
    if m.key.None? {
      BareRead(v, d, rest);
    } else {
      KeyedRead(m.key.value, v, d, rest);
    }
    match v
    case Text(x) =>
      EntryText(x, d, rest);
      ValueText(x, d, rest);
    case Node(kind, kids) =>
      if kids == [] {
        EmptyRead(d, rest);
      } else {
        NodeBack(kids, d + 1, rest);
        EntryNode(kids, d, rest);
        ValueNode(kids, d, rest);
      }
  }

  lemma {:induction false} NodeBack(kids: seq<Member>, d: nat, rest: string)
    requires kids != [] && AllShaped(kids) && ValidNode(kids) && AllGood(kids) && Follows(rest, d)
    ensures ReadNode(BlockHead(kids, d) + rest, d) == Ok(Node(KindOf(kids), kids), rest)
    decreases kids, 1
  {
    HeadBack(kids, d, rest);
  }

  lemma {:induction false} HeadBack(kids: seq<Member>, d: nat, rest: string)
    requires kids != [] && AllShaped(kids) && Uniform(kids) && AllGood(kids) && Follows(rest, d)
    ensures ReadHead(BlockHead(kids, d) + rest, d) == Ok(kids, rest)
    decreases kids, 0
  {
    hide ReadItem, BlockItem;
    var (m, more) := (kids[0], kids[1..]);
    var tail := BlockLines(more, d) + rest;
    Assoc(BlockItem(m, d), BlockLines(more, d), rest);
    if more == [] {
      assert tail == rest;
      ItemBack(m, d, rest);
      assert kids == [m];
    } else {
      var head := BlockHead(more, d) + rest;
      HeadStart(more, d, rest);
      Assoc("\n" + Spaces(2 * d), BlockHead(more, d), rest);
      LineRead(d, head);
      assert more[0] == kids[1] && forall i :: 0 <= i < |more| ==> more[i] == kids[i + 1];
      ItemBack(m, d, tail);
      HeadBack(more, d, rest);
      assert kids == [m] + more;
    }
  }

  // ----- the reader gives good trees only -----

  lemma {:induction false} HeadGood(s: string, d: nat)
    requires ReadHead(s, d).Ok?
    ensures AllGood(ReadHead(s, d).value)
    decreases |s|, 1
  {
    var m := ReadItem(s, d);
    ItemGood(s, d);
    if AtIndent(m.rest, d) {
      HeadGood(m.rest[1 + 2 * d..], d);
      GoodCons(m.value, ReadHead(m.rest[1 + 2 * d..], d).value);
    } else {
      GoodCons(m.value, []);
    }
  }

  lemma {:induction false} GoodCons(m: Member, kids: seq<Member>)
    requires MemberGood(m) && AllGood(kids)
    ensures AllGood([m] + kids)
  {
    HeadTail(m, kids);
  }

  lemma {:induction false} NodeGood(s: string, d: nat)
    requires ReadNode(s, d).Ok?
    ensures Good(ReadNode(s, d).value)
    decreases |s|, 2
  {
    HeadGood(s, d);
  }

  lemma {:induction false} DashesGood(s: string, d: nat)
    requires IsDash(s) && ReadDashes(s, d).Ok?
    ensures var kids := ReadDashes(s, d).value;
            AllGood(kids) && Yaml.KeysOf(kids) == [] && forall i :: 0 <= i < |kids| ==> kids[i].key.None?
    decreases |s|, 1
  {
    var m := ReadItem(s, d);
    ItemGood(s, d);
    if DashFollows(m.rest, d) {
      var more := ReadDashes(m.rest[1 + 2 * d..], d).value;
      DashesGood(m.rest[1 + 2 * d..], d);
      GoodCons(m.value, more);
      HeadTail(m.value, more);
    } else {
      GoodCons(m.value, []);
    }
  }

  lemma {:induction false} ItemGood(s: string, d: nat)
    requires ReadItem(s, d).Ok?
    ensures MemberGood(ReadItem(s, d).value)
    decreases |s|, 0
  {
    if IsDash(s) {
      EntryGood(s[2..], d);
    } else {
      ValueGood(ParseChars(s[1..]).rest[1..], d);
    }
  }

  lemma {:induction false} EntryGood(s: string, d: nat)
    requires ReadEntry(s, d).Ok?
    ensures Good(ReadEntry(s, d).value)
    decreases |s|, 3
  {
    if ReadEntry(s, d) == ReadNode(s, d + 1) {
      NodeGood(s, d + 1);
    }
  }

  lemma {:induction false} ValueGood(s: string, d: nat)
    requires ReadValue(s, d).Ok?
    ensures Good(ReadValue(s, d).value)
    decreases |s|, 3
  {
    if |s| >= 2 && s[..2] == " \"" {
    } else if AtIndent(s, d + 1) {
      NodeGood(s[1 + 2 * (d + 1)..], d + 1);
    } else if DashFollows(s, d) {
      DashesGood(s[1 + 2 * d..], d);
    }
  }

  /** A printed document reads back as the tree it was printed from exactly when
      every container of it makes one node. */
  lemma {:induction false} DocumentBack(kids: seq<Member>)
    requires AllShaped(kids)
    ensures ReadDocument(BlockHead(kids, 0)) == Some(kids) <==> ValidNode(kids) && AllGood(kids)
  {
    var s := BlockHead(kids, 0);
    if kids != [] {
      HeadStart(kids, 0, "");
      assert s + "" == s;
      if ValidNode(kids) && AllGood(kids) {
        HeadBack(kids, 0, "");
      } else if ReadHead(s, 0).Ok? {
        HeadGood(s, 0);
      }
    }
  }

  // ----- the trees of the calls -----

  lemma {:induction false} KidsShaped(evs: seq<E.Event>, kind: Bracket)
    ensures AllShaped(E.Kids(evs, kind))
    ensures evs != [] ==>
      E.Kids(evs, kind) != [] && (kind == Curly ==> E.Kids(evs, kind)[0].key == evs[0].key)
    ensures evs != [] && kind == Square ==> E.Kids(evs, kind)[0].key.None?
    decreases |evs|, if kind == Square then 1 else 0
  {
    if evs != [] {
      var (e, rest) := (evs[0], evs[1..]);
      var n := E.Span(rest, e.lv);
      if kind == Square && e.key.Some? {
        KidsShaped(evs[..n + 1], Curly);
        KidsShaped(rest[n..], kind);
        ShapedCons(Member(None, Node(Curly, E.Kids(evs[..n + 1], Curly))), E.Kids(rest[n..], kind));
      } else if E.IsLeaf(e) {
        KidsShaped(rest, kind);
        ShapedCons(Member(e.key, E.LeafValue(e)), E.Kids(rest, kind));
      } else {
        ContentShaped(rest[..n]);
        KidsShaped(rest[n..], kind);
        ShapedCons(Member(e.key, E.Content(rest[..n])), E.Kids(rest[n..], kind));
      }
    }
  }

  lemma {:induction false} ShapedCons(m: Member, kids: seq<Member>)
    requires Shaped(m.value) && AllShaped(kids)
    ensures AllShaped([m] + kids)
  {
    HeadTail(m, kids);
  }

  lemma {:induction false} ContentShaped(evs: seq<E.Event>)
    ensures Shaped(E.Content(evs))
    decreases |evs|, 2
  {
    if evs != [] {
      KidsShaped(evs, if evs[0].key.None? then Square else Curly);
    }
  }

  // ----- and of their renamed form -----

  lemma {:induction false} RenameShaped(t: Tree)
    requires Shaped(t)
    ensures Shaped(Rename(t))
    decreases t, 1
  {
    if t.Node? {
      RenameAllShaped(t.kids, []);
      RenameKeyed(t.kids, []);
    }
  }

  lemma {:induction false} RenameMemberShaped(m: Member, raw: seq<string>)
    requires MemberShaped(m)
    ensures MemberShaped(RenameMember(m, raw))
    decreases m, 0
  {
    RenameShaped(m.value);
  }

  lemma {:induction false} RenameAllShaped(kids: seq<Member>, raw: seq<string>)
    requires AllShaped(kids)
    ensures AllShaped(RenameKids(kids, raw))
    decreases kids, 0
  {
    if kids != [] {
      var raw1 := raw + Yaml.KeyOf(kids[0]);
      RenameMemberShaped(kids[0], raw);
      RenameAllShaped(kids[1..], raw1);
      HeadTail(RenameMember(kids[0], raw), RenameKids(kids[1..], raw1));
    }
  }

  /** Renaming keeps which members have a key. */
  lemma {:induction false} RenameKeyed(kids: seq<Member>, raw: seq<string>)
    ensures |RenameKids(kids, raw)| == |kids|
    ensures forall i :: 0 <= i < |kids| ==> RenameKids(kids, raw)[i].key.Some? == kids[i].key.Some?
    decreases |kids|
  {
    if kids != [] {
      RenameKeyed(kids[1..], raw + Yaml.KeyOf(kids[0]));
    }
  }

  /** No container of the tree mixes members with and without a key. */
  predicate Regular(t: Tree)
    decreases t, 1
  {
    t.Node? ==> Uniform(t.kids) && AllRegular(t.kids)
  }

  predicate MemberRegular(m: Member)
    decreases m, 0
  {
    Regular(m.value)
  }

  predicate AllRegular(kids: seq<Member>)
    decreases kids, 0
  {
    kids == [] || (MemberRegular(kids[0]) && AllRegular(kids[1..]))
  }

  /** The renamed tree is readable exactly when no container mixes and no key
      clashes. */
  lemma {:induction false} GoodRenamed(t: Tree)
    ensures Good(Rename(t)) <==> Regular(t) && Everywhere(t, Unclashing)
    decreases t, 1
  {
    if t.Node? {
      RenameKeyed(t.kids, []);
      NodeKeysDistinct(t.kids);
      AllGoodRenamed(t.kids, []);
    }
  }

  lemma {:induction false} MemberGoodRenamed(m: Member, raw: seq<string>)
    ensures MemberGood(RenameMember(m, raw)) <==> MemberRegular(m) && InMember(m, Unclashing)
    decreases m, 0
  {
    GoodRenamed(m.value);
  }

  lemma {:induction false} AllGoodRenamed(kids: seq<Member>, raw: seq<string>)
    ensures AllGood(RenameKids(kids, raw)) <==> AllRegular(kids) && YamlDocument.Inside(kids, Unclashing)
    decreases kids, 0
  {
    if kids != [] {
      var raw1 := raw + Yaml.KeyOf(kids[0]);
      MemberGoodRenamed(kids[0], raw);
      AllGoodRenamed(kids[1..], raw1);
      HeadTail(RenameMember(kids[0], raw), RenameKids(kids[1..], raw1));
    }
  }

  /** Whatever is called: the YAML text reads back as the renamed tree of the
      calls exactly when no container mixes members with and without a key and
      no key clashes. */
  lemma {:induction false} CallsReadBack(evs: seq<E.Event>)
    ensures var (t, kids) := (E.Build(Curly, evs), RenameKids(E.Kids(evs, Curly), []));
            ReadDocument(BlockHead(kids, 0)) == Some(kids) <==> Regular(t) && Everywhere(t, Unclashing)
  {
    KidsShaped(evs, Curly);
    RenameAllShaped(E.Kids(evs, Curly), []);
    GoodRenamed(E.Build(Curly, evs));
    DocumentBack(RenameKids(E.Kids(evs, Curly), []));
  }

  /** A tree that is fit for JSON mixes nowhere. */
  lemma {:induction false} KeyedIsRegular(t: Tree)
    requires WellKeyed(t)
    ensures Regular(t)
    decreases t, 1
  {
    if t.Node? {
      KidsRegular(t.kids, t.kind);
    }
  }

  lemma {:induction false} MemberKeyedRegular(m: Member, kind: Bracket)
    requires MemberKeyed(m, kind)
    ensures MemberRegular(m)
    decreases m, 0
  {
    KeyedIsRegular(m.value);
  }

  lemma {:induction false} KidsRegular(kids: seq<Member>, kind: Bracket)
    requires KidsKeyed(kids, kind)
    ensures AllRegular(kids)
    ensures forall i :: 0 <= i < |kids| ==> kids[i].key.Some? == (kind == Curly)
    decreases kids, 0
  {
    if kids != [] {
      MemberKeyedRegular(kids[0], kind);
      KidsRegular(kids[1..], kind);
      assert forall i :: 1 <= i < |kids| ==> kids[i] == kids[1..][i - 1];
    }
  }
}
