/** GNU getopt in PERMUTE mode (src/win_getopt.c): the in-place block exchange,
    one call, and whole runs. */
module Getopt {
  import opened Options
  import opened Sequences

  // ----- what a run should do, said on the original arguments -----

  /** `struct option`; `hasArg` is 0, 1 for a required or 2 for an optional
      argument, `flag` the identity of the variable to set. */
  datatype LongOption = LongOption(name: string, hasArg: nat, flag: Option<nat>, val: int)

  /** `optstring`, and the table of `getopt_long` if there is one. */
  datatype Spec = Spec(short: string, longs: Option<seq<LongOption>>)

  /** What `optstring` says about an option character. */
  datatype Wants = Unknown | NoArgument | OptionalArgument | RequiredArgument

  function IndexOf(s: string, c: char): (i: nat)
    ensures i <= |s|
    ensures i < |s| ==> s[i] == c
    ensures forall j :: 0 <= j < i ==> s[j] != c
  {
    if s == "" || s[0] == c then 0 else 1 + IndexOf(s[1..], c)
  }

  function WantsOf(spec: Spec, c: char): Wants {
    var s := spec.short;
    var i := IndexOf(s, c);
    if i == |s| || c == ':' then Unknown
    else if i + 1 < |s| && s[i + 1] == ':' then
      if i + 2 < |s| && s[i + 2] == ':' then OptionalArgument else RequiredArgument
    else NoArgument
  }

  /** One value returned to the caller: the option character, or `?` or `:`
      for an error, or the entry of the long option, and `optarg`. */
  datatype Found =
    | Found(c: char, arg: Option<string>)
    | FoundLong(index: nat, arg: Option<string>)

  function Missing(spec: Spec): char {
    if spec.short != "" && spec.short[0] == ':' then ':' else '?'
  }

  // ----- long options -----

  predicate Abbreviates(name: string, o: LongOption) {
    |name| <= |o.name| && o.name[..|name|] == name
  }

  predicate Alike(a: LongOption, b: LongOption) {
    a.hasArg == b.hasArg && a.flag == b.flag && a.val == b.val
  }

  /** The first option of that very name, or the number of options. */
  function FirstExact(longs: seq<LongOption>, name: string): (i: nat)
    ensures i <= |longs| && (i < |longs| ==> longs[i].name == name)
    ensures forall j :: 0 <= j < i ==> longs[j].name != name
  {
    if longs == [] || longs[0].name == name then 0 else 1 + FirstExact(longs[1..], name)
  }

  /** The first option that the name abbreviates, or the number of options. */
  function FirstAbbreviated(longs: seq<LongOption>, name: string): (i: nat)
    ensures i <= |longs| && (i < |longs| ==> Abbreviates(name, longs[i]))
    ensures forall j :: 0 <= j < i ==> !Abbreviates(name, longs[j])
  {
    if longs == [] || Abbreviates(name, longs[0]) then 0 else 1 + FirstAbbreviated(longs[1..], name)
  }

  datatype Match = NoMatch | Ambiguous | Matched(index: nat)

  /** An exact name wins; an abbreviation must not stand for different options. */
  function MatchLong(longs: seq<LongOption>, name: string): (m: Match)
    ensures m.Matched? ==> m.index < |longs|
  {
    var (e, a) := (FirstExact(longs, name), FirstAbbreviated(longs, name));
    if e < |longs| then Matched(e)
    else if a == |longs| then NoMatch
    else if exists j :: a < j < |longs| && Abbreviates(name, longs[j]) && !Alike(longs[a], longs[j]) then Ambiguous
    else Matched(a)
  }

  predicate IsLong(spec: Spec, element: string) {
    spec.longs.Some? && |element| >= 2 && element[1] == '-'
  }

  /** What the long option at the front returns, and how many arguments it
      takes. */
  function LongStep(args: seq<string>, spec: Spec): (r: (Found, nat))
    requires args != [] && IsLong(spec, args[0])
    ensures 1 <= r.1 <= 2 && r.1 <= |args|
  {
    var (longs, text) := (spec.longs.value, args[0][2..]);
    var end := IndexOf(text, '=');
    match MatchLong(longs, text[..end])
    case NoMatch => (Found('?', None), 1)
    case Ambiguous => (Found('?', None), 1)
    case Matched(i) =>
      if end < |text| then
        (if longs[i].hasArg == 0 then Found('?', None) else FoundLong(i, Some(text[end + 1..])), 1)
      else if longs[i].hasArg != 1 then (FoundLong(i, None), 1)
      else if |args| == 1 then (Found(Missing(spec), None), 1)
      else (FoundLong(i, Some(args[1])), 2)
  }

  /** The two loops over the name and over the table. */
  method FindLong(longs: seq<LongOption>, text: string) returns (nameend: nat, m: Match)
    ensures nameend == IndexOf(text, '=') && m == MatchLong(longs, text[..nameend])
  {
    nameend := 0;
    while nameend < |text| && text[nameend] != '='
      invariant nameend <= |text| && forall j :: 0 <= j < nameend ==> text[j] != '='
    {
      nameend := nameend + 1;
    }
    var name := text[..nameend];
    var pfound: Option<nat>, ambig := None, false;
    var i := 0;
    while i < |longs|
      invariant 0 <= i <= |longs|
      invariant forall j :: 0 <= j < i ==> longs[j].name != name
      invariant pfound.None? ==> !ambig && forall j :: 0 <= j < i ==> !Abbreviates(name, longs[j])
      invariant pfound.Some? ==> pfound.value < i && Abbreviates(name, longs[pfound.value])
      invariant pfound.Some? ==> forall j :: 0 <= j < pfound.value ==> !Abbreviates(name, longs[j])
      invariant pfound.Some? ==>
        (ambig <==>
         exists j :: pfound.value < j < i && Abbreviates(name, longs[j]) && !Alike(longs[pfound.value], longs[j]))
    {
      if Abbreviates(name, longs[i]) {
        if |name| == |longs[i].name| {
          assert longs[i].name == name;
          return nameend, Matched(i);
        } else if pfound.None? {
          pfound := Some(i);
        } else if !Alike(longs[pfound.value], longs[i]) {
          ambig := true;
        }
      }
      i := i + 1;
    }
    m := if ambig then Ambiguous else if pfound.Some? then Matched(pfound.value) else NoMatch;
  }

  /** The text does not have option syntax. */
  predicate IsNonOption(s: string) { |s| < 2 || s[0] != '-' }

  /** How an argument list divides: options with their arguments, the rest,
      and the values returned on the way, each in the original order. */
  datatype Plan = Plan(opts: seq<string>, nonopts: seq<string>, trace: seq<Found>)

  function Scan(args: seq<string>, spec: Spec): Plan
    decreases |args|, 1
  {
    if args == [] then Plan([], [], [])
    else if args[0] == "--" then Plan(["--"], args[1..], [])
    else if IsNonOption(args[0]) then
      var p := Scan(args[1..], spec);
      p.(nonopts := [args[0]] + p.nonopts)
    else if IsLong(spec, args[0]) then ScanLong(args, spec)
    else ScanElement(args[0][1..], args, spec)
  }

  /** The first argument is a long option. */
  function ScanLong(args: seq<string>, spec: Spec): Plan
    requires args != [] && IsLong(spec, args[0])
    decreases |args|, 0
  {
    var (found, n) := LongStep(args, spec);
    var p := Scan(args[n..], spec);
    Plan(args[..n] + p.opts, p.nonopts, [found] + p.trace)
  }

  /** The first argument is an option element of which `text` is still to be
      read. */
  function ScanElement(text: string, args: seq<string>, spec: Spec): Plan
    requires args != []
    decreases |args|, 0, |text|
  {
    if text == "" then
      var p := Scan(args[1..], spec);
      p.(opts := [args[0]] + p.opts)
    else
      var (c, more) := (text[0], text[1..]);
      match WantsOf(spec, c)
      case Unknown =>
        var p := ScanElement(more, args, spec);
        p.(trace := [Found('?', None)] + p.trace)
      case NoArgument =>
        var p := ScanElement(more, args, spec);
        p.(trace := [Found(c, None)] + p.trace)
      case OptionalArgument =>
        var p := Scan(args[1..], spec);
        Plan([args[0]] + p.opts, p.nonopts, [Found(c, if more == "" then None else Some(more))] + p.trace)
      case RequiredArgument =>
        if more != "" then
          var p := Scan(args[1..], spec);
          Plan([args[0]] + p.opts, p.nonopts, [Found(c, Some(more))] + p.trace)
        else if |args| == 1 then
          Plan([args[0]], [], [Found(Missing(spec), None)])
        else
          var p := Scan(args[2..], spec);
          Plan(args[..2] + p.opts, p.nonopts, [Found(c, Some(args[1]))] + p.trace)
  }

  // ----- the two parts keep the original order -----

  /** `s` is a shuffle of `a` and `b`: every element of `s` goes to one of them,
      in order. */
  predicate Interleaves(s: seq<string>, a: seq<string>, b: seq<string>)
    decreases |s|
  {
    if s == [] then a == [] && b == []
    else
      || (a != [] && a[0] == s[0] && Interleaves(s[1..], a[1..], b))
      || (b != [] && b[0] == s[0] && Interleaves(s[1..], a, b[1..]))
  }

  lemma {:induction false} TakeOne(x: string, s: seq<string>, a: seq<string>, b: seq<string>)
    requires Interleaves(s, a, b)
    ensures Interleaves([x] + s, [x] + a, b) && Interleaves([x] + s, a, [x] + b)
  {
    HeadTail(x, s);
    HeadTail(x, a);
    HeadTail(x, b);
  }

  lemma {:induction false} AllRight(s: seq<string>)
    ensures Interleaves(s, [], s)
  {
    if s != [] {
      AllRight(s[1..]);
    }
  }

  lemma {:induction false} SameElements(s: seq<string>, a: seq<string>, b: seq<string>)
    requires Interleaves(s, a, b)
    ensures multiset(s) == multiset(a) + multiset(b)
    decreases |s|
  {
    if s != [] {
      assert s == [s[0]] + s[1..];
      if a != [] && a[0] == s[0] && Interleaves(s[1..], a[1..], b) {
        assert a == [a[0]] + a[1..];
        SameElements(s[1..], a[1..], b);
      } else {
        assert b == [b[0]] + b[1..];
        SameElements(s[1..], a, b[1..]);
      }
    }
  }

  /** Options with their arguments and all other arguments both keep their
      order; nothing gets lost and nothing is invented. */
  lemma {:induction false} ScanKeepsOrder(args: seq<string>, spec: Spec)
    ensures Interleaves(args, Scan(args, spec).opts, Scan(args, spec).nonopts)
    decreases |args|, 1
  {
    if args != [] {
      var rest := args[1..];
      assert args == [args[0]] + rest;
      if args[0] == "--" {
        AllRight(rest);
        TakeOne("--", rest, [], rest);
        assert ["--"] + [] == ["--"];
      } else if IsNonOption(args[0]) {
        var p := Scan(rest, spec);
        ScanKeepsOrder(rest, spec);
        TakeOne(args[0], rest, p.opts, p.nonopts);
      } else if IsLong(spec, args[0]) {
        var n := LongStep(args, spec).1;
        var p := Scan(args[n..], spec);
        ScanKeepsOrder(args[n..], spec);
        if n == 2 {
          TakeTwo(args, p.opts, p.nonopts);
        } else {
          TakeOne(args[0], rest, p.opts, p.nonopts);
          assert args[..1] == [args[0]];
        }
      } else {
        ElementKeepsOrder(args[0][1..], args, spec);
      }
    }
  }

  lemma {:induction false} ElementKeepsOrder(text: string, args: seq<string>, spec: Spec)
    requires args != []
    ensures Interleaves(args, ScanElement(text, args, spec).opts, ScanElement(text, args, spec).nonopts)
    decreases |args|, 0, |text|
  {
    var rest := args[1..];
    assert args == [args[0]] + rest;
    if text != "" && WantsOf(spec, text[0]) in {Unknown, NoArgument} {
      ElementKeepsOrder(text[1..], args, spec);
    } else if text != "" && WantsOf(spec, text[0]) == RequiredArgument && text[1..] == "" && |args| > 1 {
      var p := Scan(args[2..], spec);
      ScanKeepsOrder(args[2..], spec);
      TakeTwo(args, p.opts, p.nonopts);
    } else {
      var p := Scan(rest, spec);
      ScanKeepsOrder(rest, spec);
      TakeOne(args[0], rest, p.opts, p.nonopts);
      assert rest == [] ==> [args[0]] + p.opts == [args[0]];
    }
  }

  lemma {:induction false} TakeTwo(s: seq<string>, a: seq<string>, b: seq<string>)
    requires |s| > 1 && Interleaves(s[2..], a, b)
    ensures Interleaves(s, s[..2] + a, b)
  {
    assert s[1..] == [s[1]] + s[2..] && s == [s[0]] + s[1..];
    TakeOne(s[1], s[2..], a, b);
    TakeOne(s[0], s[1..], [s[1]] + a, b);
    assert s[..2] + a == [s[0]] + ([s[1]] + a);
  }

  // ----- the block exchange -----

  /** Swaps two blocks of equal length that do not overlap. */
  method SwapBlocks(a: array<string>, i: nat, j: nat, len: nat)
    requires i + len <= j && j + len <= a.Length
    modifies a
    ensures Swapped(old(a[..]), a[..], i, j, len)
  {
    ghost var s := a[..];
    var n := 0;
    while n < len
      invariant 0 <= n <= len
      invariant Swapped(s, a[..], i, j, n)
    {
      var tem := a[i + n];
      a[i + n] := a[j + n];
      a[j + n] := tem;
      n := n + 1;
    }
  }

  ghost predicate Swapped(s: seq<string>, t: seq<string>, i: nat, j: nat, len: nat)
    requires i + len <= j && j + len <= |s|
  {
    && |t| == |s|
    && (forall k :: i <= k < i + len ==> t[k] == s[k + (j - i)])
    && (forall k :: j <= k < j + len ==> t[k] == s[k - (j - i)])
    && (forall k {:trigger t[k]} :: 0 <= k < |s| && !(i <= k < i + len) && !(j <= k < j + len) ==> t[k] == s[k])
  }

  /** Two neighbouring blocks change places. */
  function Exchanged(s: seq<string>, bottom: nat, middle: nat, top: nat): (r: seq<string>)
    requires bottom <= middle <= top <= |s|
    ensures |r| == |s|
  {
    s[..bottom] + s[middle..top] + s[bottom..middle] + s[top..]
  }

  lemma ExchangedPermutes(s: seq<string>, bottom: nat, middle: nat, top: nat)
    requires bottom <= middle <= top <= |s|
    ensures multiset(Exchanged(s, bottom, middle, top)) == multiset(s)
  {
    var (a, b, c, d) := (s[..bottom], s[bottom..middle], s[middle..top], s[top..]);
    assert s == a + b + c + d;
    BlocksPermute(a, b, c, d);
  }

  lemma BlocksPermute(a: seq<string>, b: seq<string>, c: seq<string>, d: seq<string>)
    ensures multiset(a + c + b + d) == multiset(a + b + c + d)
  {
  }

  /** Outside `bottom..top` the goal is reached; inside, the two blocks still
      have to change places. */
  ghost predicate Towards(goal: seq<string>, s: seq<string>, bottom: nat, middle: nat, top: nat) {
    && bottom <= middle <= top <= |s| == |goal|
    && (forall k {:trigger s[k]} :: 0 <= k < bottom || top <= k < |s| ==> s[k] == goal[k])
    && (forall k :: middle <= k < top ==> s[k] == goal[k - (middle - bottom)])
    && (forall k :: bottom <= k < middle ==> s[k] == goal[k + (top - middle)])
  }

  lemma ExchangeStart(s: seq<string>, bottom: nat, middle: nat, top: nat)
    requires bottom <= middle <= top <= |s|
    ensures Towards(Exchanged(s, bottom, middle, top), s, bottom, middle, top)
  {
  }

  lemma ExchangeDone(goal: seq<string>, s: seq<string>, bottom: nat, middle: nat, top: nat)
    requires Towards(goal, s, bottom, middle, top) && (top == middle || middle == bottom)
    ensures s == goal
  {
  }

  lemma ShorterBottom(goal: seq<string>, s: seq<string>, t: seq<string>, bottom: nat, middle: nat, top: nat)
    requires Towards(goal, s, bottom, middle, top) && top - middle > middle - bottom
    requires Swapped(s, t, bottom, top - (middle - bottom), middle - bottom)
    ensures Towards(goal, t, bottom, middle, top - (middle - bottom))
  {
  }

  lemma ShorterTop(goal: seq<string>, s: seq<string>, t: seq<string>, bottom: nat, middle: nat, top: nat)
    requires Towards(goal, s, bottom, middle, top) && top - middle <= middle - bottom
    requires Swapped(s, t, bottom, middle, top - middle)
    ensures Towards(goal, t, bottom + (top - middle), middle, top)
  {
  }

  /** The bottom block is the short one: it goes to the very top. */
  method MoveBottom(a: array<string>, bottom: nat, middle: nat, top: nat, ghost goal: seq<string>)
    requires Towards(goal, a[..], bottom, middle, top) && top - middle > middle - bottom
    modifies a
    ensures Towards(goal, a[..], bottom, middle, top - (middle - bottom))
  {
    ghost var s := a[..];
    SwapBlocks(a, bottom, top - (middle - bottom), middle - bottom);
    ShorterBottom(goal, s, a[..], bottom, middle, top);
  }

  /** The top block is the short one: it goes to the very bottom. */
  method MoveTop(a: array<string>, bottom: nat, middle: nat, top: nat, ghost goal: seq<string>)
    requires Towards(goal, a[..], bottom, middle, top) && top - middle <= middle - bottom
    modifies a
    ensures Towards(goal, a[..], bottom + (top - middle), middle, top)
  {
    ghost var s := a[..];
    SwapBlocks(a, bottom, middle, top - middle);
    ShorterTop(goal, s, a[..], bottom, middle, top);
  }

  method MoveShorter(a: array<string>, bottom: nat, middle: nat, top: nat, ghost goal: seq<string>)
    returns (bottom': nat, top': nat)
    requires Towards(goal, a[..], bottom, middle, top) && bottom < middle < top
    modifies a
    ensures Towards(goal, a[..], bottom', middle, top') && top' - bottom' < top - bottom
  {
    if top - middle > middle - bottom {
      MoveBottom(a, bottom, middle, top, goal);
      return bottom, top - (middle - bottom);
    } else {
      MoveTop(a, bottom, middle, top, goal);
      return bottom + (top - middle), top;
    }
  }

  /** `exchange`: the shorter block is swapped with the far end of the longer
      until nothing is left to move. */
  method Exchange(a: array<string>, first: nat, last: nat, optind: nat)
    requires first <= last <= optind <= a.Length
    modifies a
    ensures a[..] == Exchanged(old(a[..]), first, last, optind)
  {
    var bottom, middle, top := first, last, optind;
    ghost var goal := Exchanged(a[..], first, last, optind);
    ExchangeStart(a[..], first, last, optind);
    while top > middle && middle > bottom
      invariant Towards(goal, a[..], bottom, middle, top)
      decreases top - bottom
    {
      bottom, top := MoveShorter(a, bottom, middle, top, goal);
    }
    ExchangeDone(goal, a[..], bottom, middle, top);
  }
}
