/** A reader for the strings, arrays and objects of RFC 8259 (sections 4, 5
    and 7), the only values src/result.c writes. A document is well formed
    exactly when `ParseDocument` succeeds. */
module JsonParser {
  import opened Options
  import opened ResultTree

  datatype Parsed<+T> = Fail | Ok(value: T, rest: string)

  predicate IsSpace(c: char) { c == ' ' || c == '\n' || c == '\r' || c == '\t' }

  function SkipSpace(s: string): (r: string)
    ensures |r| <= |s|
    ensures r != "" ==> !IsSpace(r[0])
  {
    if s != "" && IsSpace(s[0]) then SkipSpace(s[1..]) else s
  }

  function HexValue(c: char): Option<nat> {
    if '0' <= c <= '9' then Some(c as int - '0' as int)
    else if 'a' <= c <= 'f' then Some(c as int - 'a' as int + 10)
    else if 'A' <= c <= 'F' then Some(c as int - 'A' as int + 10)
    else None
  }

  /** One escape sequence, after its backslash. A surrogate on its own is
      refused; surrogate pairs are not read. */
  function ParseEscape(s: string): (p: Parsed<char>)
    ensures p.Ok? ==> |p.rest| < |s|
  {
    if s == "" then Fail
    else if s[0] == '"' || s[0] == '\\' || s[0] == '/' then Ok(s[0], s[1..])
    else if s[0] == 'b' then Ok(8 as char, s[1..])
    else if s[0] == 'f' then Ok(12 as char, s[1..])
    else if s[0] == 'n' then Ok('\n', s[1..])
    else if s[0] == 'r' then Ok('\r', s[1..])
    else if s[0] == 't' then Ok('\t', s[1..])
    else if s[0] == 'u' && |s| >= 5 then
      var (a, b, c, e) := (HexValue(s[1]), HexValue(s[2]), HexValue(s[3]), HexValue(s[4]));
      if a.None? || b.None? || c.None? || e.None? then Fail
      else
        var code := ((a.value * 16 + b.value) * 16 + c.value) * 16 + e.value;
        if code < 0xD800 || 0xE000 <= code < 0x10000 then Ok(code as char, s[5..]) else Fail
    else Fail
  }

  /** The rest of a string, after its opening quote. */
  function ParseChars(s: string): (p: Parsed<string>)
    ensures p.Ok? ==> |p.rest| < |s|
  {
    if s == "" || s[0] < ' ' then Fail
    else if s[0] == '"' then Ok("", s[1..])
    else
      var head := if s[0] == '\\' then ParseEscape(s[1..]) else Ok(s[0], s[1..]);
      if head.Fail? then Fail
      else
        var tail := ParseChars(head.rest);
        if tail.Fail? then Fail else Ok([head.value] + tail.value, tail.rest)
  }

  function ParseValue(s: string): (p: Parsed<Tree>)
    ensures p.Ok? ==> |p.rest| < |s|
    decreases |s|, 0
  {
    var t := SkipSpace(s);
    if t == "" then Fail
    else if t[0] == '"' then
      var str := ParseChars(t[1..]);
      if str.Fail? then Fail else Ok(Text(str.value), str.rest)
    else if t[0] == '[' || t[0] == '{' then
      var kind := if t[0] == '[' then Square else Curly;
      var inner := SkipSpace(t[1..]);
      if inner != "" && inner[0] == Closing(kind) then Ok(Node(kind, []), inner[1..])
      else
        var kids := ParseKids(t[1..], kind);
        if kids.Fail? then Fail else Ok(Node(kind, kids.value), kids.rest)
    else Fail
  }

  function ParseMember(s: string, kind: Bracket): (p: Parsed<Member>)
    ensures p.Ok? ==> |p.rest| < |s|
    decreases |s|, 1
  {
    if kind == Square then
      var v := ParseValue(s);
      if v.Fail? then Fail else Ok(Member(None, v.value), v.rest)
    else
      var t := SkipSpace(s);
      if t == "" || t[0] != '"' then Fail
      else
        var key := ParseChars(t[1..]);
        if key.Fail? then Fail
        else
          var colon := SkipSpace(key.rest);
          if colon == "" || colon[0] != ':' then Fail
          else
            var v := ParseValue(colon[1..]);
            if v.Fail? then Fail else Ok(Member(Some(key.value), v.value), v.rest)
  }

  /** One or more members up to and including the closing bracket. */
  function ParseKids(s: string, kind: Bracket): (p: Parsed<seq<Member>>)
    ensures p.Ok? ==> |p.rest| < |s|
    decreases |s|, 2
  {
    var head := ParseMember(s, kind);
    if head.Fail? then Fail
    else
      var next := SkipSpace(head.rest);
      if next == "" then Fail
      else if next[0] == Closing(kind) then Ok([head.value], next[1..])
      else if next[0] == ',' then
        var tail := ParseKids(next[1..], kind);
        if tail.Fail? then Fail else Ok([head.value] + tail.value, tail.rest)
      else Fail
  }

  function ParseDocument(s: string): Option<Tree> {
    var p := ParseValue(s);
    if p.Ok? && SkipSpace(p.rest) == "" then Some(p.value) else None
  }
}
