/** Reading back what `ResultTree` prints: the text of a tree parses to that
    tree when every object member has a key and no array element has one, and
    is malformed in every other case. */
module JsonRoundTrip {
  import opened Options
  import opened ResultTree
  import opened JsonParser
  import opened Sequences

  lemma {:induction false} SkipSpaces(n: nat, s: string)
    ensures SkipSpace(Spaces(n) + s) == SkipSpace(s)
  {
    if n == 0 {
      assert Spaces(0) + s == s;
    } else {
      assert (Spaces(n) + s)[1..] == Spaces(n - 1) + s;
      SkipSpaces(n - 1, s);
    }
  }

  lemma {:induction false} SkipPad(d: nat, s: string)
    ensures SkipSpace(Pad(d) + s) == SkipSpace(s)
  {
    assert (Pad(d) + s)[1..] == Spaces(2 * d) + s;
    SkipSpaces(2 * d, s);
  }

  lemma {:induction false} HexRoundTrip(n: nat)
    requires n < 16
    ensures HexValue(HexDigit(n)) == Some(n)
  {
    assert n == 0 || n == 1 || n == 2 || n == 3 || n == 4 || n == 5 || n == 6 || n == 7 || n == 8
        || n == 9 || n == 10 || n == 11 || n == 12 || n == 13 || n == 14 || n == 15;
  }

  lemma {:induction false} EscapeCharRead(c: char, rest: string)
    ensures var s := EscapeChar(c) + rest;
            && s[0] >= ' ' && s[0] != '"'
            && (if s[0] == '\\' then ParseEscape(s[1..]) else Ok(s[0], s[1..])) == Ok(c, rest)
  {
    var s := EscapeChar(c) + rest;
    if c == '"' || c == '\\' || c == '\n' || c == '\r' || c == '\t' {
      assert s[2..] == rest;
      assert s[1..][1..] == rest;
    } else if c < ' ' {
      HexRoundTrip(c as int / 16);
      HexRoundTrip(c as int % 16);
      HexRoundTrip(0);
      assert HexValue('0') == Some(0);
      assert s[1..][5..] == rest;
      var t := s[1..];
      assert t[0] == 'u' && t[1] == '0' && t[2] == '0';
      assert t[3] == HexDigit(c as int / 16) && t[4] == HexDigit(c as int % 16);
    } else {
      assert s[1..] == rest;
    }
  }

  /** Every string is recovered through the escaping. */
  lemma {:induction false} EscapeRoundTrip(s: string, rest: string)
    ensures ParseChars(Escape(s) + "\"" + rest) == Ok(s, rest)
  {
    if s == "" {
      assert Escape(s) + "\"" + rest == "\"" + rest;
    } else {
      var more := Escape(s[1..]) + "\"" + rest;
      assert Escape(s) + "\"" + rest == EscapeChar(s[0]) + more;
      EscapeCharRead(s[0], more);
      EscapeRoundTrip(s[1..], rest);
      assert [s[0]] + s[1..] == s;
    }
  }

  lemma {:induction false} QuotedRead(s: string, rest: string)
    ensures var t := Quoted(s) + rest;
            t[0] == '"' && SkipSpace(t) == t && ParseChars(t[1..]) == Ok(s, rest)
  {
    var t := Quoted(s) + rest;
    assert t[1..] == Escape(s) + "\"" + rest;
    EscapeRoundTrip(s, rest);
  }

  function ReadBack<T>(good: bool, value: T, rest: string): Parsed<T> {
    if good then Ok(value, rest) else Fail
  }

  /** The text that follows the first child inside a container. */
  function After(kids: seq<Member>, d: nat, kind: Bracket, rest: string): string
  {
    RenderKids(kids, d, true) + Pad(d) + [Closing(kind)] + rest
  }

  /** A member, and all that follows it in its container. */
  function FromMember(kids: seq<Member>, d: nat, kind: Bracket, rest: string): string
    requires kids != []
  {
    RenderMember(kids[0], d) + After(kids[1..], d, kind, rest)
  }

  lemma {:induction false} AfterMore(kids: seq<Member>, d: nat, kind: Bracket, rest: string)
    requires kids != []
    ensures After(kids, d, kind, rest) == [','] + (Pad(d) + FromMember(kids, d, kind, rest))
  {
    var (c, p, m, k, e) := ([','], Pad(d), RenderMember(kids[0], d), RenderKids(kids[1..], d, true),
                            Pad(d) + [Closing(kind)] + rest);
    calc {
      After(kids, d, kind, rest);
      { Assoc4(RenderKids(kids, d, true), Pad(d), [Closing(kind)], rest); }
      c + p + m + k + e;
      { Assoc5(c, p, m, k, e); }
      c + (p + (m + (k + e)));
      { Assoc4(k, Pad(d), [Closing(kind)], rest); }
      c + (p + FromMember(kids, d, kind, rest));
    }
  }

  lemma {:induction false} AfterStart(kids: seq<Member>, d: nat, kind: Bracket, rest: string)
    ensures SkipSpace(After(kids, d, kind, rest))
         == if kids == [] then [Closing(kind)] + rest
            else [','] + (Pad(d) + FromMember(kids, d, kind, rest))
  {
    if kids == [] {
      assert After(kids, d, kind, rest) == Pad(d) + ([Closing(kind)] + rest);
      SkipPad(d, [Closing(kind)] + rest);
    } else {
      AfterMore(kids, d, kind, rest);
    }
  }

  /** A printed value starts with a quote or an opening bracket. */
  lemma {:induction false} ValueStart(t: Tree, d: nat, rest: string)
    ensures var s := SkipSpace(Render(t, d) + rest);
            s != "" && s[0] == (if t.Text? then '"' else Opening(t.kind))
  {
    if t.Node? && t.kind == Square && t.kids == [] {
      assert Render(t, d) + rest == Pad(d) + ("[]" + rest);
      SkipPad(d, "[]" + rest);
    }
  }

  lemma {:induction false} MemberStart(m: Member, d: nat, rest: string)
    ensures var s := SkipSpace(RenderMember(m, d) + rest);
            s != "" && s[0] != ']' && s[0] != '}'
  {
    if m.key.None? {
      assert RenderMember(m, d) + rest == Render(m.value, d + 1) + rest;
      ValueStart(m.value, d + 1, rest);
    }
  }

  lemma {:induction false} ValueRoundTrip(t: Tree, d: nat, rest: string)
    ensures ParseValue(Render(t, d) + rest) == ReadBack(WellKeyed(t), t, rest)
    decreases t, 1
  {
    match t
    case Text(s) =>
      QuotedRead(s, rest);
    case Node(kind, kids) =>
      if kind == Square && kids == [] {
        assert Render(t, d) + rest == Pad(d) + ("[]" + rest);
        SkipPad(d, "[]" + rest);
        assert ("[]" + rest)[1..] == "]" + rest;
      } else {
        assert Render(t, d) + rest == [Opening(kind)] + Inside(kids, d, kind, rest);
        InsideRoundTrip(kids, d, kind, rest);
      }
  }

  /** Everything after the opening bracket of a container. */
  function Inside(kids: seq<Member>, d: nat, kind: Bracket, rest: string): string {
    RenderKids(kids, d, false) + Pad(d) + [Closing(kind)] + rest
  }

  lemma {:induction false} InsideMore(kids: seq<Member>, d: nat, kind: Bracket, rest: string)
    requires kids != []
    ensures Inside(kids, d, kind, rest) == Pad(d) + FromMember(kids, d, kind, rest)
  {
    var (p, m, k, e) := (Pad(d), RenderMember(kids[0], d), RenderKids(kids[1..], d, true),
                         Pad(d) + [Closing(kind)] + rest);
    calc {
      Inside(kids, d, kind, rest);
      { Assoc4(RenderKids(kids, d, false), Pad(d), [Closing(kind)], rest); }
      "" + p + m + k + e;
      { Assoc5("", p, m, k, e); }
      "" + (p + (m + (k + e)));
      { Assoc4(k, Pad(d), [Closing(kind)], rest); }
      p + FromMember(kids, d, kind, rest);
    }
  }

  lemma {:induction false} InsideRoundTrip(kids: seq<Member>, d: nat, kind: Bracket, rest: string)
    ensures ParseValue([Opening(kind)] + Inside(kids, d, kind, rest))
         == ReadBack(KidsKeyed(kids, kind), Node(kind, kids), rest)
    decreases kids, 1
  {
    var inside := Inside(kids, d, kind, rest);
    HeadTail(Opening(kind), inside);
    if kids == [] {
      AfterStart(kids, d, kind, rest);
      assert inside == After(kids, d, kind, rest);
      HeadTail(Closing(kind), rest);
    } else {
      InsideMore(kids, d, kind, rest);
      SkipPad(d, FromMember(kids, d, kind, rest));
      MemberStart(kids[0], d, After(kids[1..], d, kind, rest));
      KidsRoundTrip(kids, d, kind, rest);
    }
  }

  /** How the reader sees one member followed by `next`. */
  lemma {:induction false} MemberRoundTrip(m: Member, d: nat, kind: Bracket, next: string)
    requires SkipSpace(next) != "" && SkipSpace(next)[0] != ':'
    ensures var p := ParseMember(RenderMember(m, d) + next, kind);
            if MemberKeyed(m, kind) then p == Ok(m, next)
            else p.Fail? || (p.rest != "" && p.rest[0] == ':')
    decreases m, 0
  {
    var v := Render(m.value, d + 1);
    if m.key.None? {
      assert RenderMember(m, d) == v;
      if kind == Square {
        ValueRoundTrip(m.value, d + 1, next);
      } else {
        BareInObject(m.value, d + 1, next);
      }
    } else {
      var after := ":" + (v + next);
      MemberText(m.key.value, v, next);
      QuotedRead(m.key.value, after);
      HeadTail(':', v + next);
      if kind == Curly {
        ValueRoundTrip(m.value, d + 1, next);
      }
    }
  }

  lemma {:induction false} MemberText(key: string, v: string, next: string)
    ensures Quoted(key) + ":" + v + next == Quoted(key) + (":" + (v + next))
  {
    Assoc4(Quoted(key), ":", v, next);
    Assoc(":", v, next);
  }

  /** A member without a key is malformed inside an object. */
  lemma {:induction false} BareInObject(t: Tree, d: nat, next: string)
    requires SkipSpace(next) != "" && SkipSpace(next)[0] != ':'
    ensures ParseMember(Render(t, d) + next, Curly).Fail?
  {
    ValueStart(t, d, next);
    if t.Text? {
      QuotedRead(t.text, next);
    }
  }

  lemma {:induction false} KidsRoundTrip(kids: seq<Member>, d: nat, kind: Bracket, rest: string)
    requires kids != []
    ensures ParseKids(Pad(d) + FromMember(kids, d, kind, rest), kind)
         == ReadBack(KidsKeyed(kids, kind), kids, rest)
    decreases kids, 0
  {
    var (m, more) := (kids[0], kids[1..]);
    var next := After(more, d, kind, rest);
    assert [m] + more == kids;
    AfterStart(more, d, kind, rest);
    MemberRoundTrip(m, d, kind, next);
    PadMember(d, FromMember(kids, d, kind, rest), kind);
    if more == [] {
      HeadTail(Closing(kind), rest);
      assert [m] == kids;
    } else {
      HeadTail(',', Pad(d) + FromMember(more, d, kind, rest));
      KidsRoundTrip(more, d, kind, rest);
    }
  }

  lemma {:induction false} PadMember(d: nat, s: string, kind: Bracket)
    ensures ParseMember(Pad(d) + s, kind) == ParseMember(s, kind)
  {
    SkipPad(d, s);
  }

  /** The printed document parses back to the tree it denotes exactly when
      that tree has a key on every object member and on no array element. */
  lemma {:induction false} DocumentRoundTrip(kind: Bracket, kids: seq<Member>)
    ensures ParseDocument(RenderRoot(kind, kids))
         == if KidsKeyed(kids, kind) then Some(Node(kind, kids)) else None
  {
    assert Pad(0) == "\n";
    assert RenderRoot(kind, kids) == [Opening(kind)] + Inside(kids, 0, kind, "\n");
    InsideRoundTrip(kids, 0, kind, "\n");
    assert SkipSpace("\n") == "";
  }
}
