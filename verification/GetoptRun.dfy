/** `_getopt_internal` in PERMUTE mode, short and long options
    (src/win_getopt.c), and the run of calls until it returns -1. */
module GetoptRun {
  import opened Options
  import opened Sequences
  import opened Getopt
  import opened GetoptCommands

  /** Where the scan stands: `[first, last)` holds the non-options skipped so
      far, `[last, optind)` the options read since, and `nextchar` what is left
      of the option element at `optind`. */
  datatype Cursor = Cursor(first: nat, last: nat, optind: nat, nextchar: string)

  predicate InRange(c: Cursor, argv: seq<string>) {
    && 1 <= c.first <= c.last <= c.optind <= |argv|
    && (c.nextchar != "" ==> c.optind < |argv|)
  }

  function Remaining(c: Cursor, argv: seq<string>, spec: Spec): Plan
    requires InRange(c, argv)
  {
    if c.nextchar == "" then Scan(argv[c.optind..], spec)
    else if IsLong(spec, argv[c.optind]) then ScanLong(argv[c.optind..], spec)
    else ScanElement(c.nextchar, argv[c.optind..], spec)
  }

  /** The outcome that the scan is heading for: what has been sorted out so
      far, followed by what the remaining arguments will add. */
  function Outcome(c: Cursor, argv: seq<string>, spec: Spec): Plan
    requires InRange(c, argv)
  {
    var p := Remaining(c, argv, spec);
    Plan(argv[1..c.first] + argv[c.last..c.optind] + p.opts, argv[c.first..c.last] + p.nonopts, p.trace)
  }

  /** The arguments end up as the outcome says: options first. */
  predicate Arranged(argv: seq<string>, optind: nat, program: string, p: Plan) {
    argv == [program] + p.opts + p.nonopts && optind == 1 + |p.opts|
  }

  // ----- how each step of the scan relates to the outcome -----

  lemma {:induction false} AfterExchange(c: Cursor, s: seq<string>, spec: Spec)
    requires InRange(c, s) && c.nextchar == ""
    ensures var t := Exchanged(s, c.first, c.last, c.optind);
            var d := Cursor(c.first + (c.optind - c.last), c.optind, c.optind, "");
            InRange(d, t) && Outcome(d, t, spec) == Outcome(c, s, spec) && t[0] == s[0]
  {
    var t := Exchanged(s, c.first, c.last, c.optind);
    var f := c.first + (c.optind - c.last);
    assert t[1..f] == s[1..c.first] + s[c.last..c.optind];
    assert t[f..c.optind] == s[c.first..c.last];
    assert t[c.optind..] == s[c.optind..];
    assert t[c.optind..c.optind] == [];
    assert t[1..f] + [] == t[1..f];
  }

  lemma {:induction false} NothingSkipped(c: Cursor, s: seq<string>, spec: Spec)
    requires InRange(c, s) && c.nextchar == "" && c.first == c.last
    ensures var d := c.(first := c.optind, last := c.optind);
            Outcome(d, s, spec) == Outcome(c, s, spec)
  {
    assert s[1..c.first] + s[c.last..c.optind] == s[1..c.optind];
    assert s[c.optind..c.optind] == [] && s[1..c.optind] + [] == s[1..c.optind];
  }

  lemma {:induction false} SkipOne(c: Cursor, s: seq<string>, spec: Spec)
    requires InRange(c, s) && c.nextchar == "" && c.last == c.optind < |s| && IsNonOption(s[c.optind])
    ensures var d := c.(last := c.optind + 1, optind := c.optind + 1);
            Outcome(d, s, spec) == Outcome(c, s, spec)
  {
    var o := c.optind;
    assert s[o..][1..] == s[o + 1..];
    assert s[c.first..o + 1] == s[c.first..o] + [s[o]];
    Assoc(s[c.first..o], [s[o]], Scan(s[o + 1..], spec).nonopts);
    assert s[o..o] == s[o + 1..o + 1] == [];
  }

  lemma {:induction false} AtEnd(c: Cursor, s: seq<string>, spec: Spec)
    requires InRange(c, s) && c.nextchar == "" && c.last == c.optind == |s|
    ensures var p := Outcome(c, s, spec);
            p.trace == [] && Arranged(s, c.first, s[0], p)
  {
    assert s[c.optind..] == [] && s[c.last..c.optind] == [];
    assert s[1..c.first] + [] + [] == s[1..c.first];
    assert s[c.first..c.last] + [] == s[c.first..];
    assert s == [s[0]] + s[1..c.first] + s[c.first..];
  }

  /** `--` is read as an option, and all after it is skipped. */
  lemma {:induction false} DashDash(c: Cursor, s: seq<string>, spec: Spec)
    requires InRange(c, s) && c.nextchar == "" && c.last == c.optind < |s| && s[c.optind] == "--"
    ensures var t := Exchanged(s, c.first, c.last, c.optind + 1);
            var p := Outcome(c, s, spec);
            p.trace == [] && Arranged(t, c.first + 1, s[0], p)
  {
    var o := c.optind;
    var t := Exchanged(s, c.first, o, o + 1);
    assert s[o..][1..] == s[o + 1..];
    assert s[o..o + 1] == ["--"] && s[o..o] == [];
    assert s[1..c.first] + [] + ["--"] == s[1..c.first] + ["--"];
    assert [s[0]] + s[1..c.first] == s[..c.first];
    assert t == s[..c.first] + ["--"] + s[c.first..o] + s[o + 1..];
    Assoc([s[0]], s[1..c.first], ["--"]);
    Assoc(s[..c.first] + ["--"], s[c.first..o], s[o + 1..]);
  }

  /** Past the initial punctuation: one dash, or two for a long option. */
  function Opening(spec: Spec, element: string): string
    requires !IsNonOption(element)
  {
    element[if IsLong(spec, element) then 2 else 1..]
  }

  lemma {:induction false} StartElement(c: Cursor, s: seq<string>, spec: Spec)
    requires InRange(c, s) && c.nextchar == "" && c.optind < |s|
    requires !IsNonOption(s[c.optind]) && s[c.optind] != "--"
    ensures Opening(spec, s[c.optind]) != ""
    ensures Outcome(c.(nextchar := Opening(spec, s[c.optind])), s, spec) == Outcome(c, s, spec)
  {
    if IsLong(spec, s[c.optind]) {
      assert |s[c.optind]| > 2;
    }
  }

  /** One value is returned and the rest of the outcome stays ahead. */
  predicate Returns(before: Plan, r: Found, after: Plan) {
    before.opts == after.opts && before.nonopts == after.nonopts && before.trace == [r] + after.trace
  }

  /** The element at `optind`, with `n - 1` more, has been read. */
  lemma {:induction false} ElementRead(c: Cursor, s: seq<string>, spec: Spec, n: nat, r: Found)
    requires InRange(c, s) && c.nextchar != "" && c.optind + n <= |s|
    requires var p := Remaining(c, s, spec);
             var q := Scan(s[c.optind..][n..], spec);
             p == Plan(s[c.optind..][..n] + q.opts, q.nonopts, [r] + q.trace)
    ensures var d := c.(optind := c.optind + n, nextchar := "");
            Returns(Outcome(c, s, spec), r, Outcome(d, s, spec))
  {
    var o := c.optind;
    assert s[o..][n..] == s[o + n..];
    assert s[c.last..o] + s[o..][..n] == s[c.last..o + n];
    var q := Scan(s[o + n..], spec);
    Assoc4(s[1..c.first], s[c.last..o], s[o..][..n], q.opts);
    Assoc(s[1..c.first], s[c.last..o + n], q.opts);
    Assoc(s[c.last..o], s[o..][..n], q.opts);
    Assoc(s[1..c.first] + s[c.last..o], s[o..][..n], q.opts);
  }

  /** Within an element the next character is read and more is left. */
  lemma {:induction false} CharRead(c: Cursor, s: seq<string>, spec: Spec, r: Found)
    requires InRange(c, s) && |c.nextchar| > 1 && !IsLong(spec, s[c.optind])
    requires WantsOf(spec, c.nextchar[0]) in {Unknown, NoArgument}
    requires r == Found(if WantsOf(spec, c.nextchar[0]) == Unknown then '?' else c.nextchar[0], None)
    ensures var d := c.(nextchar := c.nextchar[1..]);
            Returns(Outcome(c, s, spec), r, Outcome(d, s, spec))
  {
  }

  /** What the last character of an element, or one with an argument, does. */
  lemma {:induction false} OneElement(args: seq<string>, text: string, spec: Spec)
    requires args != [] && text != ""
    requires WantsOf(spec, text[0]) in {Unknown, NoArgument} ==> |text| == 1
    ensures var w := WantsOf(spec, text[0]);
            var more := text[1..];
            var takes := w == RequiredArgument && more == "" && |args| > 1;
            var q := Scan(args[if takes then 2 else 1..], spec);
            var r := if w == Unknown then Found('?', None)
                     else if w == NoArgument then Found(text[0], None)
                     else if more != "" then Found(text[0], Some(more))
                     else if w == OptionalArgument then Found(text[0], None)
                     else if takes then Found(text[0], Some(args[1]))
                     else Found(Missing(spec), None);
            ScanElement(text, args, spec)
            == Plan(args[..if takes then 2 else 1] + q.opts, q.nonopts, [r] + q.trace)
  {
    assert args[..1] == [args[0]];
    if |args| == 1 {
      assert args[1..] == [];
    }
  }

  /** What reading one character does to the position, in every case. */
  lemma {:induction false} Decoded(c: Cursor, s: seq<string>, spec: Spec, d: Cursor, r: Found)
    requires InRange(c, s) && InRange(d, s) && c.nextchar != "" && d.first == c.first && d.last == c.last
    requires !IsLong(spec, s[c.optind])
    requires var (w, more) := (WantsOf(spec, c.nextchar[0]), c.nextchar[1..]);
             if w in {Unknown, NoArgument} then
               && d.nextchar == more && d.optind == c.optind + (if more == "" then 1 else 0)
               && r == Found(if w == Unknown then '?' else c.nextchar[0], None)
             else
               var takes := w == RequiredArgument && more == "" && c.optind + 1 < |s|;
               && d.nextchar == "" && d.optind == c.optind + (if takes then 2 else 1)
               && r == if more != "" then Found(c.nextchar[0], Some(more))
                       else if w == OptionalArgument then Found(c.nextchar[0], None)
                       else if takes then Found(c.nextchar[0], Some(s[c.optind + 1]))
                       else Found(Missing(spec), None)
    ensures Returns(Outcome(c, s, spec), r, Outcome(d, s, spec))
  {
    if d.nextchar != "" {
      CharRead(c, s, spec, r);
    } else {
      OneElement(s[c.optind..], c.nextchar, spec);
      ElementRead(c, s, spec, d.optind - c.optind, r);
    }
  }

  /** A long option is read in one call. */
  lemma {:induction false} DecodedLong(c: Cursor, s: seq<string>, spec: Spec, d: Cursor, r: Found)
    requires InRange(c, s) && c.nextchar != "" && IsLong(spec, s[c.optind])
    requires var (found, n) := LongStep(s[c.optind..], spec);
             r == found && d == c.(optind := c.optind + n, nextchar := "")
    ensures InRange(d, s) && Returns(Outcome(c, s, spec), r, Outcome(d, s, spec))
  {
    ElementRead(c, s, spec, d.optind - c.optind, r);
  }

  lemma {:induction false} SameExchanged(s: seq<string>, bottom: nat, top: nat)
    requires bottom <= top <= |s|
    ensures Exchanged(s, bottom, bottom, top) == s
  {
  }

  lemma {:induction false} Finished(c: Cursor, s: seq<string>, t: seq<string>, optind: nat, spec: Spec)
    requires InRange(c, s) && c.nextchar == "" && c.last == c.optind
    requires c.optind < |s| ==> s[c.optind] == "--" && t == Exchanged(s, c.first, c.last, c.optind + 1)
    requires c.optind == |s| ==> t == s
    requires optind == if c.optind == |s| then c.first else c.first + 1
    ensures var p := Outcome(c, s, spec);
            p.trace == [] && Arranged(t, optind, s[0], p)
  {
    if c.optind < |s| {
      DashDash(c, s, spec);
    } else {
      AtEnd(c, s, spec);
    }
  }

  function Min(a: nat, b: nat): nat { if a < b then a else b }

  /** No leading `-` or `+`, which select another mode, and no `W;`, which asks
      for long options behind `-W`. */
  predicate Permuting(spec: Spec) {
    var s := spec.short;
    && (s != "" ==> s[0] != '-' && s[0] != '+')
    && forall i, j :: 0 <= i && j == i + 1 < |s| ==> !(s[i] == 'W' && s[j] == ';')
  }

  class Scanner {
    const argv: array<string>
    const spec: Spec
    var optind: nat
    var nextchar: string
    var firstNonopt: nat
    var lastNonopt: nat
    var initialized: bool

    ghost predicate Valid()
      reads this, argv
    {
      argv.Length >= 1 ==>
        && InRange(Position(), argv[..])
        && (!initialized ==> optind == 1 && nextchar == "")
        && (nextchar != "" ==> initialized && firstNonopt <= lastNonopt <= optind < argv.Length)
        && (nextchar != "" ==> !IsNonOption(argv[optind]))
        && (nextchar != "" && IsLong(spec, argv[optind]) ==> nextchar == argv[optind][2..])
    }

    /** The state of a scan that has begun, or the one it begins in; records
        that lie beyond `optind` are pulled back to it. */
    ghost function Position(): Cursor
      reads this
    {
      if initialized then Cursor(Min(firstNonopt, optind), Min(lastNonopt, optind), optind, nextchar)
      else Cursor(1, 1, 1, "")
    }

    ghost function Goal(): Plan
      reads this, argv
      requires Valid() && argv.Length >= 1
    {
      Outcome(Position(), argv[..], spec)
    }

    constructor (args: array<string>, opts: Spec)
      requires Permuting(opts)
      ensures Valid() && argv == args && spec == opts && !initialized
    {
      argv, spec := args, opts;
      optind, nextchar := 1, "";
      firstNonopt, lastNonopt, initialized := 0, 0, false;
    }

    /** `exchange` together with the records of where the non-options lie. */
    method ExchangeBlocks()
      requires InRange(Cursor(firstNonopt, lastNonopt, optind, ""), argv[..])
      modifies this`firstNonopt, this`lastNonopt, argv
      ensures argv[..] == Exchanged(old(argv[..]), old(firstNonopt), old(lastNonopt), optind)
      ensures firstNonopt == old(firstNonopt) + (optind - old(lastNonopt)) && lastNonopt == optind
    {
      Exchange(argv, firstNonopt, lastNonopt, optind);
      firstNonopt := firstNonopt + (optind - lastNonopt);
      lastNonopt := optind;
    }

    /** Options read since the last non-options move in front of them. */
    method Settle()
      requires argv.Length >= 1 && initialized && Valid() && nextchar == ""
      modifies this`firstNonopt, this`lastNonopt, argv
      ensures Valid() && firstNonopt <= lastNonopt == optind
      ensures Goal() == old(Goal()) && argv[0] == old(argv[0])
      ensures multiset(argv[..]) == multiset(old(argv[..]))
    {
      hide Outcome, Exchanged;
      ghost var (c, s) := (Position(), argv[..]);
      if lastNonopt > optind {
        lastNonopt := optind;
      }
      if firstNonopt > optind {
        firstNonopt := optind;
      }
      if firstNonopt != lastNonopt && lastNonopt != optind {
        ExchangeBlocks();
        AfterExchange(c, s, spec);
        ExchangedPermutes(s, c.first, c.last, c.optind);
        assert argv[0] == argv[..][0];
      } else if lastNonopt != optind {
        NothingSkipped(c, s, spec);
        firstNonopt := optind;
        lastNonopt := optind;
      }
    }

    method SkipNonOptions()
      requires argv.Length >= 1 && initialized && Valid() && nextchar == "" && firstNonopt <= lastNonopt == optind
      modifies this`optind, this`lastNonopt
      ensures Valid() && firstNonopt <= lastNonopt == optind
      ensures Goal() == old(Goal())
      ensures optind < argv.Length ==> !IsNonOption(argv[optind])
    {
      while optind < argv.Length && IsNonOption(argv[optind])
        invariant Valid() && firstNonopt <= lastNonopt == optind
        invariant Goal() == old(Goal())
        decreases argv.Length - optind
      {
        SkipOne(Position(), argv[..], spec);
        optind := optind + 1;
        lastNonopt := optind;
      }
    }

    /** `--`: it joins the options, everything else is skipped. */
    method EndOptions()
      requires argv.Length >= 1 && initialized && Valid() && nextchar == ""
      requires firstNonopt <= lastNonopt == optind < argv.Length && argv[optind] == "--"
      modifies this`optind, this`firstNonopt, this`lastNonopt, argv
      ensures argv[..] == Exchanged(old(argv[..]), old(firstNonopt), old(optind), old(optind) + 1)
      ensures firstNonopt == old(firstNonopt) + 1 && lastNonopt == optind == argv.Length
      ensures multiset(argv[..]) == multiset(old(argv[..]))
    {
      ghost var s := argv[..];
      ExchangedPermutes(s, firstNonopt, optind, optind + 1);
      optind := optind + 1;
      if firstNonopt != lastNonopt && lastNonopt != optind {
        ExchangeBlocks();
      } else if firstNonopt == lastNonopt {
        firstNonopt := optind;
        SameExchanged(s, lastNonopt, optind);
      }
      lastNonopt := argv.Length;
      optind := argv.Length;
    }

    /** No option element is left: `optind` goes back to the non-options. */
    method Finish()
      requires argv.Length >= 1 && initialized && Valid() && nextchar == "" && firstNonopt <= lastNonopt == optind
      requires optind == argv.Length || argv[optind] == "--"
      modifies this`optind, this`firstNonopt, this`lastNonopt, argv
      ensures multiset(argv[..]) == multiset(old(argv[..]))
      ensures Valid()
      ensures old(Goal()).trace == [] && Arranged(argv[..], optind, old(argv[0]), old(Goal()))
    {
      hide Outcome, Arranged, Exchanged;
      ghost var (c, s) := (Position(), argv[..]);
      if optind != argv.Length {
        EndOptions();
      }
      if firstNonopt != lastNonopt {
        optind := firstNonopt;
      }
      assert Valid();
      Finished(c, s, argv[..], optind, spec);
    }

    /** Moves on to the next option element; at the end the arguments are in
        their final order. */
    method Advance() returns (done: bool)
      requires argv.Length >= 1 && initialized && Valid() && nextchar == ""
      modifies this`optind, this`nextchar, this`firstNonopt, this`lastNonopt, argv
      ensures multiset(argv[..]) == multiset(old(argv[..]))
      ensures Valid()
      ensures !done ==> nextchar != "" && Goal() == old(Goal()) && argv[0] == old(argv[0])
      ensures done ==> old(Goal()).trace == [] && Arranged(argv[..], optind, old(argv[0]), old(Goal()))
    {
      hide Outcome, Arranged, Scan;
      Settle();
      SkipNonOptions();
      if optind == argv.Length || argv[optind] == "--" {
        Finish();
        return true;
      }
      StartElement(Position(), argv[..], spec);
      nextchar := argv[optind][1 + (if spec.longs.Some? && argv[optind][1] == '-' then 1 else 0)..];
      return false;
    }

    /** Reads the long option at `optind`. */
    method DecodeLong() returns (r: Found)
      requires argv.Length >= 1 && initialized && Valid() && nextchar != "" && IsLong(spec, argv[optind])
      modifies this`optind, this`nextchar
      ensures Valid()
      ensures Returns(old(Goal()), r, Goal())
    {
      hide Outcome, Returns;
      ghost var (c0, s) := (Position(), argv[..]);
      var nameend, m := FindLong(spec.longs.value, nextchar);
      optind := optind + 1;
      if m.Matched? {
        var hasArg := spec.longs.value[m.index].hasArg;
        if nameend < |nextchar| {
          r := if hasArg != 0 then FoundLong(m.index, Some(nextchar[nameend + 1..])) else Found('?', None);
        } else if hasArg == 1 {
          if optind < argv.Length {
            r := FoundLong(m.index, Some(argv[optind]));
            optind := optind + 1;
          } else {
            r := Found(if spec.short != "" && spec.short[0] == ':' then ':' else '?', None);
          }
        } else {
          r := FoundLong(m.index, None);
        }
      } else {
        r := Found('?', None);
      }
      nextchar := "";
      assert s[c0.optind..][0] == argv[c0.optind];
      DecodedLong(c0, s, spec, Position(), r);
    }

    /** Reads the next character of the element at `optind`. */
    method DecodeChar() returns (r: Found)
      requires argv.Length >= 1 && initialized && Valid() && nextchar != "" && !IsLong(spec, argv[optind])
      modifies this`optind, this`nextchar
      ensures Valid()
      ensures Returns(old(Goal()), r, Goal())
    {
      hide Outcome, Returns;
      ghost var (c0, s) := (Position(), argv[..]);
      var c := nextchar[0];
      var temp := IndexOf(spec.short, c);
      nextchar := nextchar[1..];
      if nextchar == "" {
        optind := optind + 1;
      }
      if temp == |spec.short| || c == ':' {
        r := Found('?', None);
      } else if temp + 1 < |spec.short| && spec.short[temp + 1] == ':' {
        r := DecodeArgument(c, temp + 2 < |spec.short| && spec.short[temp + 2] == ':');
      } else {
        r := Found(c, None);
      }
      assert Valid();
      Decoded(c0, s, spec, Position(), r);
    }

    /** The argument of an option that takes one. */
    method DecodeArgument(c: char, optional: bool) returns (r: Found)
      requires spec.short != "" && optind <= argv.Length && (nextchar != "" ==> optind < argv.Length)
      modifies this`optind, this`nextchar
      ensures nextchar == ""
      ensures optind == old(optind) + (if old(nextchar) != "" || (!optional && old(optind) < argv.Length) then 1 else 0)
      ensures r == if old(nextchar) != "" then Found(c, Some(old(nextchar)))
                   else if optional then Found(c, None)
                   else if old(optind) == argv.Length then Found(Missing(spec), None)
                   else Found(c, Some(argv[old(optind)]))
    {
      r := Found(c, None);
      if optional {
        if nextchar != "" {
          r := Found(c, Some(nextchar));
          optind := optind + 1;
        }
      } else if nextchar != "" {
        r := Found(c, Some(nextchar));
        optind := optind + 1;
      } else if optind == argv.Length {
        r := Found(if spec.short[0] == ':' then ':' else '?', None);
      } else {
        r := Found(c, Some(argv[optind]));
        optind := optind + 1;
      }
      nextchar := "";
    }

    /** A call once the scan has begun. */
    method Continue() returns (r: Option<Found>)
      requires argv.Length >= 1 && initialized && Valid()
      modifies this`optind, this`nextchar, this`firstNonopt, this`lastNonopt, argv
      ensures Valid()
      ensures multiset(argv[..]) == multiset(old(argv[..]))
      ensures r.Some? ==> Returns(old(Goal()), r.value, Goal()) && argv[0] == old(argv[0])
      ensures r.None? ==> old(Goal()).trace == [] && Arranged(argv[..], optind, old(argv[0]), old(Goal()))
    {
      if nextchar == "" {
        var done := Advance();
        if done {
          return None;
        }
      }
      var f;
      if spec.longs.Some? && argv[optind][1] == '-' {
        f := DecodeLong();
      } else {
        f := DecodeChar();
      }
      return Some(f);
    }

    /** One call of getopt. */
    method Next() returns (r: Option<Found>)
      requires Valid()
      modifies this, argv
      ensures Valid()
      ensures multiset(argv[..]) == multiset(old(argv[..]))
      ensures r.Some? ==> argv.Length >= 1 && Returns(old(Goal()), r.value, Goal()) && argv[0] == old(argv[0])
      ensures r.None? && argv.Length >= 1 ==>
        old(Goal()).trace == [] && Arranged(argv[..], optind, old(argv[0]), old(Goal()))
    {
      if argv.Length < 1 {
        return None;
      }
      ghost var g := Goal();
      if !initialized {
        firstNonopt, lastNonopt, nextchar, initialized := optind, optind, "", true;
      }
      assert Goal() == g;
      r := Continue();
    }
  }

  /** Calls until -1. Whatever the arguments, the values returned are those of
      the scan of the original list, in order; at the end the options and their
      arguments come first, all other arguments follow from `optind` on, both
      in their original order, and nothing was lost on the way. For every
      command that the arguments say, these are its values, its options and its
      operands. */
  method Run(argv: array<string>, spec: Spec) returns (trace: seq<Found>, optind: nat)
    requires argv.Length >= 1 && Permuting(spec)
    modifies argv
    ensures var p := Scan(old(argv[1..]), spec);
            && trace == p.trace
            && optind == 1 + |p.opts| <= argv.Length
            && argv[..optind] == [old(argv[0])] + p.opts
            && argv[optind..] == p.nonopts
    ensures forall cmd :: Says(old(argv[1..]), cmd, spec) ==>
              var p := Yield(cmd.choices, cmd.rest, spec);
              && trace == Values(cmd.choices, spec)
              && optind <= argv.Length && argv[..optind] == [old(argv[0])] + p.opts && argv[optind..] == p.nonopts
    ensures Interleaves(old(argv[1..]), argv[1..optind], argv[optind..])
    ensures multiset(argv[..]) == multiset(old(argv[..]))
  {
    var g := new Scanner(argv, spec);
    ghost var goal := g.Goal();
    StartOutcome(argv[..], spec);
    trace := [];
    var r := None;
    while true
      invariant g.Valid() && g.argv == argv && g.spec == spec && fresh(g)
      invariant multiset(argv[..]) == multiset(old(argv[..]))
      invariant g.Goal().opts == goal.opts && g.Goal().nonopts == goal.nonopts
      invariant trace + g.Goal().trace == goal.trace
      invariant argv[0] == old(argv[0])
      decreases |g.Goal().trace|
    {
      r := g.Next();
      if r.None? {
        break;
      }
      Assoc(trace, [r.value], g.Goal().trace);
      trace := trace + [r.value];
    }
    optind := g.optind;
    FinalLayout(argv[..], optind, old(argv[0]), goal);
    ScanKeepsOrder(old(argv[1..]), spec);
    ScanIsYield(old(argv[1..]), spec);
  }

  lemma {:induction false} StartOutcome(s: seq<string>, spec: Spec)
    requires |s| >= 1
    ensures Outcome(Cursor(1, 1, 1, ""), s, spec) == Scan(s[1..], spec)
  {
    var p := Scan(s[1..], spec);
    assert s[1..1] == [];
    assert [] + [] + p.opts == p.opts && [] + p.nonopts == p.nonopts;
  }

  lemma {:induction false} FinalLayout(s: seq<string>, optind: nat, program: string, p: Plan)
    requires Arranged(s, optind, program, p)
    ensures s[..optind] == [program] + p.opts && s[1..optind] == p.opts && s[optind..] == p.nonopts
  {
  }
}
