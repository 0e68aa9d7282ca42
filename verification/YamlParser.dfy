/** A reader for the block YAML that the program writes: block mappings and
    block sequences told apart by indentation, double-quoted scalars, and empty
    nodes (chapters 7 and 8 of YAML 1.2). Mapping keys must be distinct
    (section 3.2.1.1), and a node is either a mapping or a sequence. */
module YamlParser {
  import opened Options
  import opened ResultTree
  import opened JsonParser
  import Yaml
  import YamlKeys

  /** The number of leading spaces. */
  function Indent(s: string): (n: nat)
    ensures n <= |s|
  {
    if s == "" || s[0] != ' ' then 0 else 1 + Indent(s[1..])
  }

  /** A new line with exactly the indentation of depth `d`. */
  predicate AtIndent(s: string, d: nat) {
    s != "" && s[0] == '\n' && Indent(s[1..]) == 2 * d
  }

  predicate Uniform(kids: seq<Member>) {
    forall i :: 0 <= i < |kids| ==> kids[i].key.Some? == kids[0].key.Some?
  }

  /** The children make one node. */
  predicate ValidNode(kids: seq<Member>) {
    Uniform(kids) && YamlKeys.Distinct(Yaml.KeysOf(kids))
  }

  /** A node is a sequence when it is empty or its first child has no key. */
  function KindOf(kids: seq<Member>): Bracket {
    if kids == [] || kids[0].key.None? then Square else Curly
  }

  /** The children of a node at depth `d`, its first line's indentation read. */
  function ReadHead(s: string, d: nat): (p: Parsed<seq<Member>>)
    ensures p.Ok? ==> |p.rest| < |s|
    decreases |s|, 1
  {
    var m := ReadItem(s, d);
    if m.Fail? then Fail
    else if !AtIndent(m.rest, d) then Ok([m.value], m.rest)
    else
      var more := ReadHead(m.rest[1 + 2 * d..], d);
      if more.Fail? then Fail else Ok([m.value] + more.value, more.rest)
  }

  /** A node with at least one child. */
  function ReadNode(s: string, d: nat): (p: Parsed<Tree>)
    ensures p.Ok? ==> |p.rest| < |s|
    decreases |s|, 2
  {
    var kids := ReadHead(s, d);
    if kids.Ok? && ValidNode(kids.value) then Ok(Node(KindOf(kids.value), kids.value), kids.rest) else Fail
  }

  function ReadItem(s: string, d: nat): (p: Parsed<Member>)
    ensures p.Ok? ==> |p.rest| < |s|
    decreases |s|, 0
  {
    if IsDash(s) then
      var v := ReadEntry(s[2..], d);
      if v.Fail? then Fail else Ok(Member(None, v.value), v.rest)
    else if s != "" && s[0] == '"' then
      var key := ParseChars(s[1..]);
      if key.Fail? || key.rest == "" || key.rest[0] != ':' then Fail
      else
        var v := ReadValue(key.rest[1..], d);
        if v.Fail? then Fail else Ok(Member(Some(key.value), v.value), v.rest)
    else Fail
  }

  /** What follows a dash: nothing, a scalar, or a node that starts here. */
  function ReadEntry(s: string, d: nat): (p: Parsed<Tree>)
    ensures p.Ok? ==> |p.rest| <= |s|
    decreases |s|, 3
  {
    if s == "" || s[0] == '\n' then Ok(Node(Square, []), s)
    else
      var text := if s[0] == '"' then ParseChars(s[1..]) else Fail;
      if text.Ok? && (text.rest == "" || text.rest[0] != ':') then Ok(Text(text.value), text.rest)
      else ReadNode(s, d + 1)
  }

  predicate IsDash(s: string) {
    |s| >= 2 && s[..2] == "- "
  }

  /** The next line is an entry of a sequence at depth `d`. */
  predicate DashFollows(s: string, d: nat) {
    AtIndent(s, d) && IsDash(s[1 + 2 * d..])
  }

  /** A sequence at the indentation of the mapping it is a value in. */
  function ReadDashes(s: string, d: nat): (p: Parsed<seq<Member>>)
    requires IsDash(s)
    ensures p.Ok? ==> |p.rest| < |s|
    decreases |s|, 1
  {
    var m := ReadItem(s, d);
    if m.Fail? then Fail
    else if !DashFollows(m.rest, d) then Ok([m.value], m.rest)
    else
      var more := ReadDashes(m.rest[1 + 2 * d..], d);
      if more.Fail? then Fail else Ok([m.value] + more.value, more.rest)
  }

  /** What follows a key: a scalar, a node on the next line, a sequence that is
      not indented, or nothing. */
  function ReadValue(s: string, d: nat): (p: Parsed<Tree>)
    ensures p.Ok? ==> |p.rest| <= |s|
    decreases |s|, 3
  {
    if |s| >= 2 && s[..2] == " \"" then
      var text := ParseChars(s[2..]);
      if text.Fail? then Fail else Ok(Text(text.value), text.rest)
    else if AtIndent(s, d + 1) then ReadNode(s[1 + 2 * (d + 1)..], d + 1)
    else if DashFollows(s, d) then
      var kids := ReadDashes(s[1 + 2 * d..], d);
      if kids.Fail? then Fail else Ok(Node(Square, kids.value), kids.rest)
    else Ok(Node(Square, []), s)
  }

  /** A whole document: the children of its root. */
  function ReadDocument(s: string): Option<seq<Member>> {
    if s == "" then Some([])
    else
      var kids := ReadHead(s, 0);
      if kids.Ok? && kids.rest == "" && ValidNode(kids.value) then Some(kids.value) else None
  }
}
