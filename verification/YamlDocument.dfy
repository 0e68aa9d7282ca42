/** A whole YAML document is the plain block text of a tree whose repeated keys
    were renamed beforehand; its mappings have distinct keys exactly when no
    renaming clashes. */
module YamlDocument {
  import opened Options
  import opened ResultTree
  import opened Yaml
  import opened YamlKeys
  import opened Sequences

  // ----- renaming first -----

  function Rename(t: Tree): Tree
    decreases t, 1
  {
    match t
    case Text(s) => t
    case Node(kind, kids) => Node(kind, RenameKids(kids, []))
  }

  function RenameMember(m: Member, raw: seq<string>): Member
    decreases m, 0
  {
    Member(if m.key.None? then None else Some(EmittedKey(Records(raw), m.key.value)), Rename(m.value))
  }

  /** `raw` are the keys that stand before `kids` in the same mapping. */
  function RenameKids(kids: seq<Member>, raw: seq<string>): seq<Member>
    decreases kids, 0
  {
    if kids == [] then []
    else [RenameMember(kids[0], raw)] + RenameKids(kids[1..], raw + KeyOf(kids[0]))
  }

  // ----- printing what stands there -----

  function BlockItem(m: Member, d: nat): string
    decreases m, 0
  {
    match m
    case Member(None, v) => "- " + BlockEntry(v, d)
    case Member(Some(k), v) => Quoted(k) + ":" + BlockValue(v, d)
  }

  function BlockEntry(v: Tree, d: nat): string
    decreases v, 1
  {
    match v
    case Text(s) => Quoted(s)
    case Node(_, kids) => BlockHead(kids, d + 1)
  }

  function BlockValue(v: Tree, d: nat): string
    decreases v, 1
  {
    match v
    case Text(s) => " " + Quoted(s)
    case Node(_, kids) => BlockLines(kids, d + 1)
  }

  function BlockHead(kids: seq<Member>, d: nat): string
    decreases kids, 0
  {
    if kids == [] then "" else BlockItem(kids[0], d) + BlockLines(kids[1..], d)
  }

  function BlockLines(kids: seq<Member>, d: nat): string
    decreases kids, 1
  {
    if kids == [] then "" else "\n" + Spaces(2 * d) + BlockHead(kids, d)
  }

  // ----- renaming on the fly is renaming first -----

  lemma {:induction false} ItemRenamed(m: Member, d: nat, raw: seq<string>)
    ensures RenderItem(m, d, raw) == BlockItem(RenameMember(m, raw), d)
    decreases m, 0
  {
    match m.value
    case Text(_) =>
    case Node(_, kids) =>
      HeadRenamed(kids, d + 1, []);
      LinesRenamed(kids, d + 1, []);
  }

  lemma {:induction false} HeadRenamed(kids: seq<Member>, d: nat, raw: seq<string>)
    ensures RenderHead(kids, d, raw) == BlockHead(RenameKids(kids, raw), d)
    decreases kids, 0
  {
    if kids != [] {
      var raw1 := raw + KeyOf(kids[0]);
      ItemRenamed(kids[0], d, raw);
      LinesRenamed(kids[1..], d, raw1);
      HeadTail(RenameMember(kids[0], raw), RenameKids(kids[1..], raw1));
    }
  }

  lemma {:induction false} LinesRenamed(kids: seq<Member>, d: nat, raw: seq<string>)
    ensures RenderLines(kids, d, raw) == BlockLines(RenameKids(kids, raw), d)
    decreases kids, 1
  {
    HeadRenamed(kids, d, raw);
  }

  // ----- the keys of every mapping -----

  lemma {:induction false} EmittedPrefix(raw: seq<string>, key: string)
    ensures Emitted(raw + [key]) == Emitted(raw) + [EmittedKey(Records(raw), key)]
  {
    assert (raw + [key])[..|raw|] == raw;
  }

  /** The keys of a renamed mapping are those that `Emitted` gives. */
  lemma {:induction false} RenamedKeys(kids: seq<Member>, raw: seq<string>)
    ensures Emitted(raw) + KeysOf(RenameKids(kids, raw)) == Emitted(raw + KeysOf(kids))
    decreases |kids|
  {
    if kids == [] {
      assert raw + [] == raw && Emitted(raw) + [] == Emitted(raw);
    } else {
      var (m, rest, raw1) := (kids[0], kids[1..], raw + KeyOf(kids[0]));
      var (m1, rest1) := (RenameMember(m, raw), RenameKids(rest, raw1));
      RenamedKeys(rest, raw1);
      HeadTail(m1, rest1);
      Assoc(raw, KeyOf(m), KeysOf(rest));
      Assoc(Emitted(raw), KeyOf(m1), KeysOf(rest1));
      KeyStep(m, raw);
    }
  }

  lemma {:induction false} KeyStep(m: Member, raw: seq<string>)
    ensures Emitted(raw + KeyOf(m)) == Emitted(raw) + KeyOf(RenameMember(m, raw))
  {
    if m.key.Some? {
      EmittedPrefix(raw, m.key.value);
    } else {
      assert raw + [] == raw && Emitted(raw) + [] == Emitted(raw);
    }
  }

  /** `P` holds of the keys of every container of the tree. */
  predicate Everywhere(t: Tree, P: seq<string> -> bool)
    decreases t, 1
  {
    t.Node? ==> P(KeysOf(t.kids)) && Inside(t.kids, P)
  }

  predicate InMember(m: Member, P: seq<string> -> bool)
    decreases m, 0
  {
    Everywhere(m.value, P)
  }

  predicate Inside(kids: seq<Member>, P: seq<string> -> bool)
    decreases kids, 0
  {
    kids == [] || (InMember(kids[0], P) && Inside(kids[1..], P))
  }

  predicate Unclashing(raw: seq<string>) { !Clash(raw) }

  /** The keys of every mapping of the written document are pairwise distinct
      exactly when no repeat anywhere clashes in its own mapping. */
  lemma {:induction false} DocumentKeysDistinct(t: Tree)
    ensures Everywhere(Rename(t), Distinct) <==> Everywhere(t, Unclashing)
    decreases t, 1
  {
    match t
    case Text(_) =>
    case Node(kind, kids) =>
      NodeKeysDistinct(kids);
      InsideDistinct(kids, []);
  }

  lemma {:induction false} NodeKeysDistinct(kids: seq<Member>)
    ensures Distinct(KeysOf(RenameKids(kids, []))) <==> Unclashing(KeysOf(kids))
  {
    RenamedKeys(kids, []);
    assert [] + KeysOf(kids) == KeysOf(kids);
    assert Emitted([]) + KeysOf(RenameKids(kids, [])) == KeysOf(RenameKids(kids, []));
    KeysDistinct(KeysOf(kids));
  }

  lemma {:induction false} MemberDistinct(m: Member, raw: seq<string>)
    ensures InMember(RenameMember(m, raw), Distinct) <==> InMember(m, Unclashing)
    decreases m, 0
  {
    DocumentKeysDistinct(m.value);
  }

  lemma {:induction false} InsideDistinct(kids: seq<Member>, raw: seq<string>)
    ensures Inside(RenameKids(kids, raw), Distinct) <==> Inside(kids, Unclashing)
    decreases kids, 0
  {
    if kids != [] {
      var raw1 := raw + KeyOf(kids[0]);
      MemberDistinct(kids[0], raw);
      InsideDistinct(kids[1..], raw1);
      HeadTail(RenameMember(kids[0], raw), RenameKids(kids[1..], raw1));
    }
  }
}
