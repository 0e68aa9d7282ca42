/** PATs from their entries to packets and back, and which of them are noticed,
    told by their version_number. */
module PatStream {
  import opened Bytes
  import opened PsiSection
  import opened Pat
  import opened Sequences
  import Sections
  import Demux

  const PAT_PID := 0

  /** What a PAT is built from. */
  datatype Source = Source(ext: nat, version: nat, current: bool, entries: seq<Entry>)

  predicate GoodEntry(e: Entry) {
    e.number < TERMINATOR && e.pid < 8192
  }

  predicate GoodEntries(es: seq<Entry>) {
    forall i :: 0 <= i < |es| ==> GoodEntry(es[i])
  }

  predicate GoodSource(p: Source) {
    p.ext < 65536 && p.version < 32 && GoodEntries(p.entries) && 4 * |p.entries| + 9 <= MAX_LONG
  }

  predicate GoodSources(ps: seq<Source>) {
    forall i :: 0 <= i < |ps| ==> GoodSource(ps[i])
  }

  function EncodeEntry(e: Entry): (r: seq<byte>)
    requires GoodEntry(e)
    ensures |r| == 4
  {
    Write16(e.number) + Write16(0xE000 + e.pid)
  }

  function EncodeEntries(es: seq<Entry>): (r: seq<byte>)
    requires GoodEntries(es)
    ensures |r| == 4 * |es|
  {
    if es == [] then [] else EncodeEntry(es[0]) + EncodeEntries(es[1..])
  }

  function BuildPat(p: Source): seq<byte>
    requires GoodSource(p)
  {
    Build(0x00, p.ext, p.version, p.current, 0, 0, EncodeEntries(p.entries))
  }

  function BuildAll(ps: seq<Source>): (r: seq<seq<byte>>)
    requires GoodSources(ps)
    ensures |r| == |ps|
  {
    seq(|ps|, i requires 0 <= i < |ps| => BuildPat(ps[i]))
  }

  // ----- reading what was built -----

  lemma {:induction false} EntryRead(e: Entry, more: seq<byte>)
    requires GoodEntry(e)
    ensures var data := EncodeEntry(e) + more;
            Read16(data, 0) == e.number && Read16(data, 2) % 8192 == e.pid && data[4..] == more
  {
    var data := EncodeEntry(e) + more;
    assert Read16(data, 0) == e.number;
    assert Read16(data, 2) == 0xE000 + e.pid;
  }

  lemma {:induction false} EntriesRoundTrip(es: seq<Entry>)
    requires GoodEntries(es)
    ensures Entries(EncodeEntries(es), 4 * |es|) == es
  {
    if es != [] {
      EntryRead(es[0], EncodeEntries(es[1..]));
      EntriesRoundTrip(es[1..]);
    }
  }

  /** Nothing behind a program number of 0xFFFF is read. */
  lemma {:induction false} EntriesEnd(es: seq<Entry>, more: seq<byte>)
    requires GoodEntries(es) && |more| >= 2 && |more| % 4 == 0
    ensures Entries(EncodeEntries(es) + (Write16(0xFFFF) + more[2..]), 4 * |es| + |more|) == es
  {
    var end := Write16(0xFFFF) + more[2..];
    if es == [] {
      assert [] + end == end && Read16(end, 0) == 0xFFFF;
    } else {
      var tail := EncodeEntries(es[1..]) + end;
      Assoc(EncodeEntry(es[0]), EncodeEntries(es[1..]), end);
      EntryRead(es[0], tail);
      EntriesEnd(es[1..], more);
    }
  }

  lemma {:induction false} EntriesBetween(s: seq<byte>, body: seq<byte>, es: seq<Entry>)
    requires SingleSection(s) && IsLong(s) && |s| == 12 + |body| && |body| == 4 * |es| && |body| + 9 <= MAX_LONG
    requires Read16(s, 1) % 4096 == |body| + 9 && s[8..|s| - 4] == body && Entries(body, |body|) == es
    ensures WellFormed(s) && EntriesOf(s) == es
  {
    hide SingleSection, IsLong, Entries;
  }

  lemma {:induction false} BuiltPat(p: Source)
    requires GoodSource(p)
    ensures var s := BuildPat(p);
            WellFormed(s) && EntriesOf(s) == p.entries && VersionField(s[5]) == 16 + p.version / 2
  {
    var (s, body) := (BuildPat(p), EncodeEntries(p.entries));
    hide Build, SingleSection, EncodeEntries, IsLong, Entries, EntriesOf, WellFormed, VersionField, Read16, GoodEntries;
    BodyOfBuilt(0x00, p.ext, p.version, p.current, body);
    BuildIsLong(0x00, p.ext, p.version, p.current, 0, 0, body);
    VersionRead(0x00, p.ext, p.version, p.current, body);
    EntriesRoundTrip(p.entries);
    EntriesBetween(s, body, p.entries);
  }

  // ----- updates -----

  /** With a PAT of version `v` active, one of version `w` adds a table if and
      only if it is noticed; otherwise no list changes. */
  lemma {:induction false} UpdateListed(st: State, v: nat, p: Source, junk: seq<byte>)
    requires Sound(st) && ActiveVersion(st) == 16 + v / 2 && v < 32 && GoodSource(p) && |junk| == 5
    ensures WellFormed(BuildPat(p))
    ensures var r := Parse(st, BuildPat(p), junk).0;
            && Sound(r)
            && (|r.list| == |st.list| + 1 <==> Noticed(v, p.version))
            && (Noticed(v, p.version) ==>
                  && r.list[..|r.list| - 1] == st.list && ActiveVersion(r) == 16 + p.version / 2
                  && Describes(r.list[|st.list|], p.entries))
            && (!Noticed(v, p.version) ==>
                  |r.list| == |st.list| && forall i :: 0 <= i < |st.list| ==> Kept(st.list[i], r.list[i]))
  {
    BuiltPat(p);
    UpdateNoticed(0x00, p.ext, v, p.version, p.current, EncodeEntries(p.entries));
    if Noticed(v, p.version) {
      NewVersionsAreListed(st, BuildPat(p), junk);
    } else {
      OldVersionsAreIgnored(st, BuildPat(p), junk);
    }
  }

  /** A missed update: after a PAT of version 0, one of version 1 with other
      programs leaves the list as it is. */
  lemma {:induction false} UpdateMissed(p: Source, q: Source, junk: seq<byte>)
    requires GoodSource(p) && GoodSource(q) && |junk| == 5
    requires p.version == 0 && q.version == 1
    ensures WellFormed(BuildPat(p)) && WellFormed(BuildPat(q))
    ensures var r := Parse(Parse(FRESH, BuildPat(p), junk).0, BuildPat(q), junk).0;
            |r.list| == 1 && Describes(r.list[0], p.entries)
  {
    UpdateListed(FRESH, 31, p, junk);
    var first := Parse(FRESH, BuildPat(p), junk).0;
    UpdateListed(first, 0, q, junk);
    var r := Parse(first, BuildPat(q), junk).0;
    assert Kept(first.list[0], r.list[0]);
  }

  // ----- a whole stream of PATs -----

  /** The PATs that are noticed when version `v` is active. */
  function NoticedOf(v: nat, ps: seq<Source>): (r: seq<Source>)
    requires GoodSources(ps)
    ensures GoodSources(r)
    decreases |ps|
  {
    if ps == [] then []
    else if Noticed(v, ps[0].version) then [ps[0]] + NoticedOf(ps[0].version, ps[1..])
    else NoticedOf(v, ps[1..])
  }

  /** Sections as the parser gets them. */
  function Inputs(ss: seq<seq<byte>>, junks: seq<seq<byte>>): (r: seq<Input>)
    requires |junks| == |ss|
    ensures |r| == |ss|
  {
    seq(|ss|, i requires 0 <= i < |ss| => Input(ss[i], junks[i]))
  }

  predicate GoodJunks(junks: seq<seq<byte>>, n: nat) {
    |junks| == n && forall i :: 0 <= i < n ==> |junks[i]| == 5
  }

  lemma {:induction false} BuiltInputs(ps: seq<Source>, junks: seq<seq<byte>>)
    requires GoodSources(ps) && GoodJunks(junks, |ps|)
    ensures GoodInputs(Inputs(BuildAll(ps), junks))
  {
    forall i | 0 <= i < |ps| ensures WellFormed(BuildPat(ps[i])) {
      BuiltPat(ps[i]);
    }
  }

  lemma {:induction false} InputsTail(ss: seq<seq<byte>>, junks: seq<seq<byte>>)
    requires |junks| == |ss| > 0
    ensures Inputs(ss, junks)[0] == Input(ss[0], junks[0])
    ensures Inputs(ss, junks)[1..] == Inputs(ss[1..], junks[1..])
  {
  }

  lemma {:induction false} BuildCons(p: Source, ps: seq<Source>)
    requires GoodSource(p) && GoodSources(ps)
    ensures GoodSources([p] + ps) && BuildAll([p] + ps) == [BuildPat(p)] + BuildAll(ps)
  {
  }

  lemma {:induction false} ListTails(ps: seq<Source>, junks: seq<seq<byte>>)
    requires GoodSources(ps) && GoodJunks(junks, |ps|) && ps != []
    ensures GoodSource(ps[0]) && GoodSources(ps[1..]) && |junks| == |ps| && GoodJunks(junks[1..], |ps| - 1)
  {
  }

  lemma {:induction false} AcceptedNext(active: nat, ins: seq<Input>)
    requires GoodInputs(ins) && ins != []
    ensures var s := ins[0].section;
            Accepted(active, ins)
            == if CheckVersion(s, active) == Newer then [s] + Accepted(VersionField(s[5]), ins[1..])
               else Accepted(active, ins[1..])
  {
  }

  lemma {:induction false} NoticedNext(v: nat, ps: seq<Source>)
    requires GoodSources(ps) && ps != []
    ensures GoodSource(ps[0]) && ps[0].version < 32
    ensures NoticedOf(v, ps)
         == if Noticed(v, ps[0].version) then [ps[0]] + NoticedOf(ps[0].version, ps[1..]) else NoticedOf(v, ps[1..])
  {
  }

  /** What the code does with the first PAT. */
  lemma {:induction false} AcceptedFirst(v: nat, ps: seq<Source>, junks: seq<seq<byte>>)
    requires GoodSources(ps) && GoodJunks(junks, |ps|) && v < 32 && ps != []
    ensures var ins := Inputs(BuildAll(ps), junks);
            && GoodInputs(ins) && GoodSources(ps[1..]) && ins[1..] == Inputs(BuildAll(ps[1..]), junks[1..])
            && Accepted(16 + v / 2, ins)
               == if Noticed(v, ps[0].version) then [BuildPat(ps[0])] + Accepted(16 + ps[0].version / 2, ins[1..])
                  else Accepted(16 + v / 2, ins[1..])
  {
    hide *;
    BuiltInputs(ps, junks);
    ListTails(ps, junks);
    assert ps == [ps[0]] + ps[1..];
    BuildCons(ps[0], ps[1..]);
    InputsTail(BuildAll(ps), junks);
    Checked(v, ps[0]);
    AcceptedNext(16 + v / 2, Inputs(BuildAll(ps), junks));
  }

  lemma {:induction false} NoneAccepted(v: nat, junks: seq<seq<byte>>)
    requires GoodJunks(junks, 0)
    ensures GoodSources([]) && GoodInputs(Inputs(BuildAll([]), junks))
    ensures Accepted(16 + v / 2, Inputs(BuildAll([]), junks)) == BuildAll(NoticedOf(v, [])) == []
  {
  }

  /** What the code accepts is what is noticed. */
  lemma {:induction false} AcceptedAreNoticed(v: nat, ps: seq<Source>, junks: seq<seq<byte>>)
    requires GoodSources(ps) && GoodJunks(junks, |ps|) && v < 32
    ensures GoodInputs(Inputs(BuildAll(ps), junks))
    ensures Accepted(16 + v / 2, Inputs(BuildAll(ps), junks)) == BuildAll(NoticedOf(v, ps))
    decreases |ps|
  {
    hide *;
    if ps == [] {
      NoneAccepted(v, junks);
    } else {
      AcceptedFirst(v, ps, junks);
      ListTails(ps, junks);
      NoticedNext(v, ps);
      if Noticed(v, ps[0].version) {
        AcceptedAreNoticed(ps[0].version, ps[1..], junks[1..]);
        BuildCons(ps[0], NoticedOf(ps[0].version, ps[1..]));
      } else {
        AcceptedAreNoticed(v, ps[1..], junks[1..]);
      }
    }
  }

  lemma {:induction false} Checked(v: nat, p: Source)
    requires v < 32 && GoodSource(p)
    ensures WellFormed(BuildPat(p)) && |BuildPat(p)| > 5 && VersionField(BuildPat(p)[5]) == 16 + p.version / 2
    ensures CheckVersion(BuildPat(p), 16 + v / 2) == Newer <==> Noticed(v, p.version)
  {
    BuiltPat(p);
    UpdateNoticed(0x00, p.ext, v, p.version, p.current, EncodeEntries(p.entries));
  }

  /** Parsing built PATs from the start leaves one table for each noticed one. */
  lemma {:induction false} NoticedAreListed(ps: seq<Source>, junks: seq<seq<byte>>)
    requires GoodSources(ps) && GoodJunks(junks, |ps|)
    ensures GoodInputs(Inputs(BuildAll(ps), junks))
    ensures var (r, noticed) := (ParseAll(FRESH, Inputs(BuildAll(ps), junks)), NoticedOf(31, ps));
            && Sound(r) && |r.list| == |noticed|
            && forall i :: 0 <= i < |noticed| ==> Describes(r.list[i], noticed[i].entries)
  {
    hide Describes, ParseAll, Accepted, NoticedOf, Inputs, BuildPat, WellFormed, Sound;
    var ins := Inputs(BuildAll(ps), junks);
    AcceptedAreNoticed(31, ps, junks);
    assert Sound(FRESH) by { FreshIsSound(); }
    RunsAreSound(FRESH, ins);
    var (r, noticed) := (ParseAll(FRESH, ins), NoticedOf(31, ps));
    forall i | 0 <= i < |noticed| ensures Describes(r.list[i], noticed[i].entries) {
      BuiltPat(noticed[i]);
      assert Holds(r.list[|FRESH.list| + i], BuildAll(noticed)[i]);
    }
  }

  lemma FreshIsSound()
    ensures Sound(FRESH) && ActiveVersion(FRESH) == 16 + 31 / 2
  {
  }

  lemma {:induction false} SectionsBuilt(ps: seq<Source>)
    requires GoodSources(ps)
    ensures forall s :: s in BuildAll(ps) ==> Sections.IsSection(s)
  {
    var ss := BuildAll(ps);
    forall s | s in ss ensures Sections.IsSection(s) {
      var i :| 0 <= i < |ss| && ss[i] == s;
      BuiltPat(ps[i]);
    }
  }

  /** End to end: PATs built into sections, cut into packets, mixed with any
      other packets, reassembled and parsed from the start leave one table for
      each PAT that is noticed, in order, each with exactly that PAT's
      programs, and the last one active. */
  lemma {:induction false} EndToEnd(ps: seq<Source>, junks: seq<seq<byte>>, sec: seq<Sections.Parser>,
                                    arrivals: seq<Demux.Arrival>, streams: set<nat>)
    requires GoodSources(ps) && GoodJunks(junks, |ps|) && PAT_PID !in streams
    requires Demux.AllReady(sec, streams) && Demux.Apart(arrivals, streams) && Demux.Readable(arrivals)
    requires Demux.Sends(Demux.OnPid(arrivals, PAT_PID), PAT_PID, BuildAll(ps))
    ensures var delivered := Demux.DeliveredOn(Demux.Deliveries(Demux.Run(sec, arrivals, streams).1), PAT_PID);
            && |delivered| == |ps| && GoodInputs(Inputs(delivered, junks))
            && var (r, noticed) := (ParseAll(FRESH, Inputs(delivered, junks)), NoticedOf(31, ps));
               && Sound(r) && |r.list| == |noticed|
               && forall i :: 0 <= i < |noticed| ==> Describes(r.list[i], noticed[i].entries)
  {
    hide Demux.Run, Demux.OnPid, Demux.Sends, Describes, BuildPat, ParseAll, NoticedOf, Sound;
    SectionsBuilt(ps);
    Demux.Reassembly(sec, arrivals, streams, PAT_PID, BuildAll(ps));
    NoticedAreListed(ps, junks);
  }
}
