/** What an argument list means, told from the text of the option string and the
    table of long options, and that the scan of src/win_getopt.c finds it. */
module GetoptCommands {
  import opened Options
  import opened Sequences
  import opened Getopt

  // ----- the option string -----

  /** The first `c` of the option string is followed by `more`. */
  ghost predicate Listed(short: string, c: char, more: string) {
    c != ':' && exists before :: short == before + [c] + more && c !in before
  }

  ghost predicate IsFlag(short: string, c: char) {
    exists more :: Listed(short, c, more) && !(":" <= more)
  }

  ghost predicate NeedsArgument(short: string, c: char) {
    exists more :: Listed(short, c, more) && ":" <= more && !("::" <= more)
  }

  ghost predicate MayHaveArgument(short: string, c: char) {
    exists more :: Listed(short, c, more) && "::" <= more
  }

  lemma {:induction false} IndexListed(short: string, before: string, c: char, more: string)
    requires short == before + [c] + more && c !in before
    ensures IndexOf(short, c) == |before| && short[|before| + 1..] == more
  {
    assert short[|before|] == c;
    forall j | 0 <= j < |before| ensures short[j] != c {
      assert before[j] in before;
    }
  }

  /** The four kinds of characters, said without an index. */
  lemma {:induction false} WantsRead(spec: Spec, c: char)
    ensures WantsOf(spec, c) == Unknown <==> c == ':' || c !in spec.short
    ensures WantsOf(spec, c) == NoArgument <==> IsFlag(spec.short, c)
    ensures WantsOf(spec, c) == RequiredArgument <==> NeedsArgument(spec.short, c)
    ensures WantsOf(spec, c) == OptionalArgument <==> MayHaveArgument(spec.short, c)
  {
    hide Listed;
    ListedOnce(spec.short, c);
  }

  lemma {:induction false} ListedOnce(short: string, c: char)
    ensures var i := IndexOf(short, c);
            && (c != ':' && i < |short| ==> Listed(short, c, short[i + 1..]))
            && forall more :: Listed(short, c, more) ==> c != ':' && i < |short| && more == short[i + 1..]
  {
    var i := IndexOf(short, c);
    if c != ':' && i < |short| {
      assert short == short[..i] + [c] + short[i + 1..];
    }
    forall more | Listed(short, c, more) ensures i < |short| && more == short[i + 1..] {
      var before :| short == before + [c] + more && c !in before;
      IndexListed(short, before, c, more);
    }
  }

  // ----- the table of long options -----

  /** The name, or what of it was typed, means the `i`-th option: the first of
      that very name; or else the first whose name goes on from there, if all
      such options are the same up to their names. */
  predicate Means(longs: seq<LongOption>, name: string, i: nat) {
    && i < |longs| && name <= longs[i].name
    && if name == longs[i].name then forall j :: 0 <= j < i ==> longs[j].name != name
       else
         forall j :: 0 <= j < |longs| && name <= longs[j].name ==>
           longs[j].name != name && i <= j && longs[j] == longs[i].(name := longs[j].name)
  }

  lemma {:induction false} MatchMeans(longs: seq<LongOption>, name: string, i: nat)
    ensures MatchLong(longs, name) == Matched(i) <==> Means(longs, name, i)
  {
    hide FirstExact, FirstAbbreviated;
    var (e, a) := (FirstExact(longs, name), FirstAbbreviated(longs, name));
    forall j | 0 <= j < |longs| ensures Abbreviates(name, longs[j]) <==> name <= longs[j].name {
    }
    if e < |longs| {
      if Means(longs, name, i) {
        assert longs[e].name == name <= longs[e].name;
      }
    } else if a < |longs| {
      assert Abbreviates(name, longs[a]);
      forall j | 0 <= j < |longs| ensures Alike(longs[a], longs[j]) <==> longs[j] == longs[a].(name := longs[j].name) {
      }
      if Means(longs, name, i) {
        assert i <= a && Abbreviates(name, longs[i]);
      }
    }
  }

  // ----- commands -----

  /** A character that is not the last of its element, or has no argument. */
  datatype Letter = Flag(c: char) | Stranger(c: char)

  /** How an element of short options ends. */
  datatype Last = NoMore | Attached(c: char, arg: string) | Bare(c: char) | Detached(c: char, arg: string)
    | Lacking(c: char)

  datatype LongArg = Absent | Joined(arg: string) | Separate(arg: string) | Refused(arg: string) | Wanting

  /** What one or two arguments stand for. `Unclear` is a name that means no
      option. */
  datatype Choice =
    | Operand(text: string)
    | Short(letters: seq<Letter>, last: Last)
    | Long(name: string, index: nat, arg: LongArg)
    | Unclear(name: string, tail: Option<string>)

  /** The choices in order, and what stands behind a `--`. */
  datatype Command = Command(choices: seq<Choice>, rest: Option<seq<string>>)

  function Chars(letters: seq<Letter>): (s: string)
    ensures |s| == |letters|
  {
    if letters == [] then "" else [letters[0].c] + Chars(letters[1..])
  }

  function LastText(last: Last): string {
    match last
    case NoMore => ""
    case Attached(c, arg) => [c] + arg
    case Bare(c) => [c]
    case Detached(c, _) => [c]
    case Lacking(c) => [c]
  }

  function LongText(arg: LongArg): string {
    if arg.Joined? || arg.Refused? then "=" + arg.arg else ""
  }

  /** The arguments that say it. */
  function Said(ch: Choice): (r: seq<string>)
    ensures r != []
  {
    match ch
    case Operand(text) => [text]
    case Short(letters, last) =>
      ["-" + (Chars(letters) + LastText(last))] + (if last.Detached? then [last.arg] else [])
    case Long(name, _, arg) => ["--" + (name + LongText(arg))] + (if arg.Separate? then [arg.arg] else [])
    case Unclear(name, tail) => ["--" + (name + (if tail.Some? then "=" + tail.value else ""))]
  }

  function SaidAll(choices: seq<Choice>, rest: Option<seq<string>>): seq<string> {
    if choices == [] then (if rest.Some? then ["--"] + rest.value else [])
    else Said(choices[0]) + SaidAll(choices[1..], rest)
  }

  /** It wants an argument that is not there. */
  predicate Lacks(ch: Choice) {
    (ch.Short? && ch.last.Lacking?) || (ch.Long? && ch.arg.Wanting?)
  }

  ghost predicate LegalLetter(l: Letter, short: string) {
    if l.Flag? then IsFlag(short, l.c) else l.c == ':' || l.c !in short
  }

  ghost predicate LegalLast(last: Last, short: string) {
    match last
    case NoMore => true
    case Attached(c, arg) => arg != "" && (NeedsArgument(short, c) || MayHaveArgument(short, c))
    case Bare(c) => MayHaveArgument(short, c)
    case Detached(c, _) => NeedsArgument(short, c)
    case Lacking(c) => NeedsArgument(short, c)
  }

  /** `hasArg` is 0 for none, 1 for a required and else an optional argument. */
  predicate LegalArg(arg: LongArg, hasArg: nat) {
    match arg
    case Absent => hasArg != 1
    case Joined(_) => hasArg != 0
    case Separate(_) => hasArg == 1
    case Refused(_) => hasArg == 0
    case Wanting => hasArg == 1
  }

  ghost predicate Legal(ch: Choice, spec: Spec) {
    match ch
    case Operand(text) => text == "-" || !("-" <= text)
    case Short(letters, last) =>
      && (letters != [] || last != NoMore)
      && Said(ch)[0] != "--" && (spec.longs.Some? ==> !("--" <= Said(ch)[0]))
      && (forall i :: 0 <= i < |letters| ==> LegalLetter(letters[i], spec.short))
      && LegalLast(last, spec.short)
    case Long(name, i, arg) =>
      && spec.longs.Some? && '=' !in name && Said(ch)[0] != "--"
      && Means(spec.longs.value, name, i) && LegalArg(arg, spec.longs.value[i].hasArg)
    case Unclear(name, _) =>
      && spec.longs.Some? && '=' !in name && Said(ch)[0] != "--"
      && forall i: nat :: !Means(spec.longs.value, name, i)
  }

  /** Only the last of all arguments can lack its own. */
  ghost predicate AllLegal(choices: seq<Choice>, rest: Option<seq<string>>, spec: Spec) {
    choices == [] ||
    (Legal(choices[0], spec)
     && (Lacks(choices[0]) ==> choices[1..] == [] && rest.None?)
     && AllLegal(choices[1..], rest, spec))
  }

  /** The arguments say this command, and it obeys the option string and the
      table. */
  ghost predicate Says(args: seq<string>, cmd: Command, spec: Spec) {
    AllLegal(cmd.choices, cmd.rest, spec) && SaidAll(cmd.choices, cmd.rest) == args
  }

  // ----- what a command yields -----

  function LetterValue(l: Letter): Found {
    Found(if l.Flag? then l.c else '?', None)
  }

  function LetterValues(letters: seq<Letter>): seq<Found> {
    if letters == [] then [] else [LetterValue(letters[0])] + LetterValues(letters[1..])
  }

  function LackValue(spec: Spec): Found {
    Found(if ":" <= spec.short then ':' else '?', None)
  }

  function LastValue(last: Last, spec: Spec): seq<Found> {
    match last
    case NoMore => []
    case Attached(c, arg) => [Found(c, Some(arg))]
    case Bare(c) => [Found(c, None)]
    case Detached(c, arg) => [Found(c, Some(arg))]
    case Lacking(_) => [LackValue(spec)]
  }

  function LongValue(i: nat, arg: LongArg, spec: Spec): Found {
    match arg
    case Absent => FoundLong(i, None)
    case Joined(a) => FoundLong(i, Some(a))
    case Separate(a) => FoundLong(i, Some(a))
    case Refused(_) => Found('?', None)
    case Wanting => LackValue(spec)
  }

  function Value(ch: Choice, spec: Spec): seq<Found> {
    match ch
    case Operand(_) => []
    case Short(letters, last) => LetterValues(letters) + LastValue(last, spec)
    case Long(_, i, arg) => [LongValue(i, arg, spec)]
    case Unclear(_, _) => [Found('?', None)]
  }

  function Values(choices: seq<Choice>, spec: Spec): seq<Found> {
    if choices == [] then [] else Value(choices[0], spec) + Values(choices[1..], spec)
  }

  function Operands(choices: seq<Choice>): seq<string> {
    if choices == [] then []
    else (if choices[0].Operand? then [choices[0].text] else []) + Operands(choices[1..])
  }

  function OptionsOf(choices: seq<Choice>): seq<string> {
    if choices == [] then []
    else (if choices[0].Operand? then [] else Said(choices[0])) + OptionsOf(choices[1..])
  }

  /** Values in order; options with their arguments and the `--`; operands and
      what stands behind the `--`. */
  function Yield(choices: seq<Choice>, rest: Option<seq<string>>, spec: Spec): Plan {
    Plan(OptionsOf(choices) + (if rest.Some? then ["--"] else []),
         Operands(choices) + (if rest.Some? then rest.value else []),
         Values(choices, spec))
  }

  // ----- the scan of a command -----

  /** The plan when `taken` arguments have been read before those of `p`. */
  function Before(taken: seq<string>, values: seq<Found>, p: Plan): Plan {
    Plan(taken + p.opts, p.nonopts, values + p.trace)
  }

  lemma {:induction false} YieldNext(ch: Choice, more: seq<Choice>, rest: Option<seq<string>>, spec: Spec)
    ensures var p := Yield(more, rest, spec);
            Yield([ch] + more, rest, spec)
            == if ch.Operand? then p.(nonopts := [ch.text] + p.nonopts) else Before(Said(ch), Value(ch, spec), p)
  {
    HeadTail(ch, more);
    var (o, n) := (if rest.Some? then ["--"] else [], if rest.Some? then rest.value else []);
    if ch.Operand? {
      Assoc([ch.text], Operands(more), n);
      assert [] + OptionsOf(more) == OptionsOf(more) && [] + Values(more, spec) == Values(more, spec);
    } else {
      Assoc(Said(ch), OptionsOf(more), o);
      assert [] + Operands(more) == Operands(more);
    }
  }

  /** The last option of an element, and the arguments behind it. */
  lemma {:induction false} LastScanned(last: Last, args: seq<string>, spec: Spec)
    requires args != [] && LegalLast(last, spec.short)
    requires last.Detached? ==> |args| > 1 && args[1] == last.arg
    requires last.Lacking? ==> |args| == 1
    ensures var n := if last.Detached? then 2 else 1;
            ScanElement(LastText(last), args, spec)
            == Before(args[..n], LastValue(last, spec), Scan(args[n..], spec))
  {
    assert args[..1] == [args[0]];
    if last.NoMore? {
      var p := Scan(args[1..], spec);
      assert [] + p.trace == p.trace;
    } else {
      WantsRead(spec, last.c);
      assert LastText(last)[0] == last.c && LastText(last)[1..] == if last.Attached? then last.arg else "";
      assert |args| == 1 ==> args[1..] == [];
    }
  }

  lemma {:induction false} ElementScanned(letters: seq<Letter>, last: Last, args: seq<string>, spec: Spec)
    requires args != [] && LegalLast(last, spec.short)
    requires forall i :: 0 <= i < |letters| ==> LegalLetter(letters[i], spec.short)
    requires last.Detached? ==> |args| > 1 && args[1] == last.arg
    requires last.Lacking? ==> |args| == 1
    ensures var n := if last.Detached? then 2 else 1;
            ScanElement(Chars(letters) + LastText(last), args, spec)
            == Before(args[..n], LetterValues(letters) + LastValue(last, spec), Scan(args[n..], spec))
    decreases |letters|
  {
    hide LegalLast, IsFlag, WantsOf, Scan;
    var (n, tail) := (if last.Detached? then 2 else 1, LastText(last));
    if letters == [] {
      assert "" + tail == tail;
      assert [] + LastValue(last, spec) == LastValue(last, spec);
      LastScanned(last, args, spec);
    } else {
      var (l, more) := (letters[0], letters[1..]);
      assert LegalLetter(l, spec.short);
      WantsRead(spec, l.c);
      Assoc([l.c], Chars(more), tail);
      HeadTail(l.c, Chars(more) + tail);
      ElementScanned(more, last, args, spec);
      var p := Scan(args[n..], spec);
      Assoc4([LetterValue(l)], LetterValues(more), LastValue(last, spec), p.trace);
    }
  }

  lemma {:induction false} LongScanned(ch: Choice, args: seq<string>, spec: Spec)
    requires (ch.Long? || ch.Unclear?) && Legal(ch, spec) && Said(ch) <= args
    requires Lacks(ch) ==> |args| == 1
    ensures IsLong(spec, args[0]) && LongStep(args, spec) == (Value(ch, spec)[0], |Said(ch)|)
  {
    hide MatchLong, Means;
    var name := ch.name;
    var text := if ch.Long? then LongText(ch.arg) else if ch.tail.Some? then "=" + ch.tail.value else "";
    assert args[0] == Said(ch)[0];
    assert args[0][2..] == name + text;
    NameEnds(name, text);
    if ch.Long? {
      MatchMeans(spec.longs.value, name, ch.index);
      assert ch.arg.Separate? ==> args[1] == Said(ch)[1];
    } else {
      var m := MatchLong(spec.longs.value, name);
      if m.Matched? {
        MatchMeans(spec.longs.value, name, m.index);
      }
    }
  }

  lemma {:induction false} NameEnds(name: string, text: string)
    requires '=' !in name && (text == "" || text[0] == '=')
    ensures IndexOf(name + text, '=') == |name| && (name + text)[..|name|] == name
    ensures text != "" ==> (name + text)[|name| + 1..] == text[1..]
  {
    var s := name + text;
    assert text != "" ==> s[|name|] == '=';
    forall j | 0 <= j < |name| ensures s[j] != '=' {
      assert name[j] in name;
    }
  }

  lemma {:induction false} ShortScanned(ch: Choice, args: seq<string>, spec: Spec)
    requires ch.Short? && Legal(ch, spec) && Said(ch) <= args && (Lacks(ch) ==> |args| == 1)
    ensures Scan(args, spec) == Before(Said(ch), Value(ch, spec), Scan(args[|Said(ch)|..], spec))
  {
    hide LegalLast, LegalLetter, WantsOf, ScanElement;
    var text := Chars(ch.letters) + LastText(ch.last);
    assert args[0] == Said(ch)[0] == "-" + text && args[0][1..] == text && text != "";
    assert ch.last.Detached? ==> args[1] == Said(ch)[1];
    assert args[0][..2] == ['-', text[0]];
    assert IsLong(spec, args[0]) <==> spec.longs.Some? && "--" <= args[0];
    ElementScanned(ch.letters, ch.last, args, spec);
  }

  /** One choice at the front of the arguments. */
  lemma {:induction false} ChoiceScanned(ch: Choice, more: seq<string>, spec: Spec)
    requires Legal(ch, spec) && (Lacks(ch) ==> more == [])
    ensures var p := Scan(more, spec);
            Scan(Said(ch) + more, spec)
            == if ch.Operand? then p.(nonopts := [ch.text] + p.nonopts) else Before(Said(ch), Value(ch, spec), p)
  {
    hide LegalLast, LegalArg, Means, WantsOf, LongStep;
    var (args, n) := (Said(ch) + more, |Said(ch)|);
    assert args[..n] == Said(ch) && args[n..] == more && args[0] == Said(ch)[0];
    match ch
    case Operand(text) =>
      assert text != "" ==> text[..1] == [text[0]];
    case Short(_, _) =>
      ShortScanned(ch, args, spec);
    case Long(_, _, _) =>
      LongScanned(ch, args, spec);
      assert args[0][0] == '-';
    case Unclear(_, _) =>
      LongScanned(ch, args, spec);
      assert args[0][0] == '-';
  }

  /** Whatever is said, the scan finds: the values of every command that obeys
      the option string and the table, its options and its operands. */
  lemma {:induction false} CommandScanned(choices: seq<Choice>, rest: Option<seq<string>>, spec: Spec)
    requires AllLegal(choices, rest, spec)
    ensures Scan(SaidAll(choices, rest), spec) == Yield(choices, rest, spec)
    decreases |choices|
  {
    hide Legal, Lacks, Value, Said;
    if choices == [] {
      if rest.Some? {
        HeadTail("--", rest.value);
        assert [] + ["--"] == ["--"] && [] + rest.value == rest.value;
      }
    } else {
      var (ch, more) := (choices[0], choices[1..]);
      assert choices == [ch] + more;
      CommandScanned(more, rest, spec);
      ChoiceScanned(ch, SaidAll(more, rest), spec);
      YieldNext(ch, more, rest, spec);
    }
  }

  // ----- every argument list says something -----

  lemma {:induction false} LetterOf(c: char, spec: Spec) returns (l: Letter)
    requires WantsOf(spec, c) in {Unknown, NoArgument}
    ensures l.c == c && LegalLetter(l, spec.short)
  {
    WantsRead(spec, c);
    l := if WantsOf(spec, c) == Unknown then Stranger(c) else Flag(c);
  }

  /** An element can be read as letters and a last option; `more` stands behind
      it. */
  lemma {:induction false} ElementSays(text: string, more: seq<string>, spec: Spec)
    returns (letters: seq<Letter>, last: Last)
    ensures Chars(letters) + LastText(last) == text && LegalLast(last, spec.short)
    ensures forall i :: 0 <= i < |letters| ==> LegalLetter(letters[i], spec.short)
    ensures last.Detached? ==> more != [] && last.arg == more[0]
    ensures last.Lacking? ==> more == []
    decreases |text|
  {
    hide LegalLetter;
    if text == "" {
      letters, last := [], NoMore;
    } else {
      var (c, w) := (text[0], WantsOf(spec, text[0]));
      assert text == [c] + text[1..];
      if w in {Unknown, NoArgument} {
        var l := LetterOf(c, spec);
        letters, last := ElementSays(text[1..], more, spec);
        Assoc([c], Chars(letters), LastText(last));
        HeadTail(l, letters);
        letters := [l] + letters;
      } else {
        WantsRead(spec, c);
        letters := [];
        last := if |text| > 1 then Attached(c, text[1..])
                else if w == OptionalArgument then Bare(c)
                else if more == [] then Lacking(c) else Detached(c, more[0]);
        assert "" + LastText(last) == text;
      }
    }
  }

  lemma {:induction false} LongSays(text: string, more: seq<string>, spec: Spec) returns (ch: Choice)
    requires spec.longs.Some? && text != ""
    ensures (ch.Long? || ch.Unclear?) && Legal(ch, spec) && Said(ch)[0] == "--" + text
    ensures |Said(ch)| > 1 ==> more != [] && Said(ch) == ["--" + text, more[0]]
    ensures Lacks(ch) ==> more == []
  {
    hide MatchLong, Means;
    var (longs, end) := (spec.longs.value, IndexOf(text, '='));
    var name := text[..end];
    var arg := if end < |text| then Some(text[end + 1..]) else None;
    assert text == name + if arg.Some? then "=" + arg.value else "";
    assert forall i :: 0 <= i < |name| ==> name[i] == text[i] != '=';
    var m := MatchLong(longs, name);
    if m.Matched? {
      MatchMeans(longs, name, m.index);
      var h := longs[m.index].hasArg;
      ch := Long(name, m.index,
                 if arg.Some? then (if h == 0 then Refused(arg.value) else Joined(arg.value))
                 else if h != 1 then Absent
                 else if more == [] then Wanting else Separate(more[0]));
    } else {
      forall i: nat ensures !Means(longs, name, i) {
        MatchMeans(longs, name, i);
      }
      ch := Unclear(name, arg);
    }
  }

  /** One choice can be read off the front of any arguments. */
  lemma {:induction false} ChoiceSaid(args: seq<string>, spec: Spec) returns (ch: Choice)
    requires args != [] && args[0] != "--"
    ensures Legal(ch, spec) && Said(ch) <= args && (Lacks(ch) ==> |args| == 1)
  {
    hide LegalLast, LegalLetter, Means, LegalArg;
    var s := args[0];
    if s == "-" || !("-" <= s) {
      ch := Operand(s);
    } else if spec.longs.Some? && "--" <= s {
      ch := LongSays(s[2..], args[1..], spec);
      assert s == "--" + s[2..];
    } else {
      var letters, last := ElementSays(s[1..], args[1..], spec);
      ch := Short(letters, last);
      assert s == "-" + s[1..];
    }
  }

  /** Every argument list says a command that obeys the option string and the
      table. */
  lemma {:induction false} EverythingSays(args: seq<string>, spec: Spec) returns (cmd: Command)
    ensures Says(args, cmd, spec)
    decreases |args|
  {
    hide Legal, Said, Lacks;
    if args == [] {
      cmd := Command([], None);
    } else if args[0] == "--" {
      cmd := Command([], Some(args[1..]));
      assert args == ["--"] + args[1..];
    } else {
      var ch := ChoiceSaid(args, spec);
      var n := |Said(ch)|;
      var more := EverythingSays(args[n..], spec);
      TakeDrop(args, n);
      HeadTail(ch, more.choices);
      cmd := Command([ch] + more.choices, more.rest);
      if Lacks(ch) {
        assert args[n..] == [];
        NothingSaid(more.choices, more.rest);
      }
    }
  }

  /** So the scan of any arguments is what some command yields, and what every
      command yields that they say. */
  lemma {:induction false} ScanIsYield(args: seq<string>, spec: Spec)
    ensures exists cmd :: Says(args, cmd, spec)
    ensures forall cmd :: Says(args, cmd, spec) ==> Scan(args, spec) == Yield(cmd.choices, cmd.rest, spec)
  {
    var _ := EverythingSays(args, spec);
    forall cmd | Says(args, cmd, spec) ensures Scan(args, spec) == Yield(cmd.choices, cmd.rest, spec) {
      CommandScanned(cmd.choices, cmd.rest, spec);
    }
  }

  lemma {:induction false} NothingSaid(choices: seq<Choice>, rest: Option<seq<string>>)
    requires SaidAll(choices, rest) == []
    ensures choices == [] && rest.None?
  {
  }
}
