/** The documents that the JSON and HTML writers of src/result.c produce: the
    tree a document denotes, and the exact text of that tree. */
module ResultTree {
  import opened Options

  /** `[...]` or `{...}`. */
  datatype Bracket = Square | Curly

  /** A parsed or a printable document. The members of an array carry no key,
      those of an object carry one; `WellKeyed` says so. */
  datatype Tree =
    | Text(text: string)
    | Node(kind: Bracket, kids: seq<Member>)

  datatype Member = Member(key: Option<string>, value: Tree)

  predicate WellKeyed(t: Tree)
    decreases t, 1
  {
    t.Node? ==> KidsKeyed(t.kids, t.kind)
  }

  predicate MemberKeyed(m: Member, kind: Bracket)
    decreases m, 0
  {
    m.key.Some? == (kind == Curly) && WellKeyed(m.value)
  }

  predicate KidsKeyed(kids: seq<Member>, kind: Bracket)
    decreases kids, 0
  {
    kids == [] ||
    (MemberKeyed(kids[0], kind) && KidsKeyed(kids[1..], kind))
  }

  function Opening(b: Bracket): char { if b == Square then '[' else '{' }
  function Closing(b: Bracket): char { if b == Square then ']' else '}' }

  function Spaces(n: nat): string {
    if n == 0 then "" else " " + Spaces(n - 1)
  }

  /** Line break and indentation of whatever stands in the container with
      stack index `d`. */
  function Pad(d: nat): string { "\n" + Spaces(2 * d) }

  function HexDigit(n: nat): char
    requires n < 16
  {
    "0123456789abcdef"[n]
  }

  function EscapeChar(c: char): string {
    if c == '"' then "\\\""
    else if c == '\\' then "\\\\"
    else if c == '\n' then "\\n"
    else if c == '\r' then "\\r"
    else if c == '\t' then "\\t"
    else if c < ' ' then "\\u00" + [HexDigit(c as int / 16), HexDigit(c as int % 16)]
    else [c]
  }

  /** The body of a double-quoted string. */
  function Escape(s: string): string {
    if s == "" then "" else EscapeChar(s[0]) + Escape(s[1..])
  }

  function Quoted(s: string): string { "\"" + Escape(s) + "\"" }

  function KeyText(key: Option<string>): string {
    if key.Some? then Quoted(key.value) + ":" else ""
  }

  /** A container that never got a child is written as an empty array on a
      line of its own. */
  function Render(t: Tree, d: nat): string
    decreases t, 1
  {
    match t
    case Text(s) => Quoted(s)
    case Node(kind, kids) =>
      if kind == Square && kids == [] then Pad(d) + "[]"
      else [Opening(kind)] + RenderKids(kids, d, false) + Pad(d) + [Closing(kind)]
  }

  function RenderMember(m: Member, d: nat): string
    decreases m, 0
  {
    KeyText(m.key) + Render(m.value, d + 1)
  }

  /** Commas lead: every child but the first is preceded by one. */
  function RenderKids(kids: seq<Member>, d: nat, hasChild: bool): string
    decreases kids, 0
  {
    if kids == [] then ""
    else
      (if hasChild then "," else "") + Pad(d) + RenderMember(kids[0], d) + RenderKids(kids[1..], d, true)
  }

  /** The whole document, up to and including the line after the root bracket. */
  function RenderRoot(kind: Bracket, kids: seq<Member>): string {
    [Opening(kind)] + RenderKids(kids, 0, false) + "\n" + [Closing(kind)] + "\n"
  }
}
