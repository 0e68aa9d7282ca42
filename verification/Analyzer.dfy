/** The whole path from packets to tables: `ts_proc` of src/ts.c with the PSI PIDs
    that `parse_pat` of src/table.c registers, and the callbacks `pat_proc` and
    `pmt_proc`. */
module Analyzer {
  import opened Options
  import opened Bytes
  import opened Sequences
  import opened PsiSection
  import opened PatStream
  import Sections
  import Demux
  import Pat
  import Pmt
  import D = Descriptors
  import Filter

  const NIT_PID := 0x10
  const PAT_TID: byte := 0x00
  const PMT_TID: byte := 0x02

  // ----- one packet -----

  /** The reassembly records, the PATs, the PIDs registered for PMTs, and a PMT
      slot for every PID. */
  datatype State = State(sec: seq<Sections.Parser>, pat: Pat.State, pmtPids: set<nat>, slots: seq<Pmt.Table>)

  /** A packet and what surrounds it: the bytes behind it, the PIDs registered
      for other sections, what the PES branch would leave in its record, and
      the bytes behind the copy of a section. */
  datatype Tick = Tick(pkt: seq<byte>, after: seq<byte>, others: set<nat>, pes: Sections.Parser, junk: seq<byte>)

  predicate Formed(st: State, es: set<nat>) {
    Demux.AllReady(st.sec, es) && Pat.Linked(st.pat) && |st.slots| == Demux.NUM_PIDS
  }

  function Below(n: nat): (r: set<nat>)
    ensures forall p: nat :: p in r <==> p < n
  {
    if n == 0 then {} else Below(n - 1) + {n - 1}
  }

  /** `head.PID < 0x20 || check_pmt_pid || check_section_pid`. */
  function PsiPids(st: State, a: Tick): set<nat> {
    Below(0x20) + st.pmtPids + a.others
  }

  function ArrivalOf(st: State, a: Tick): Demux.Arrival {
    Demux.Arrival(a.pkt, a.after, PsiPids(st, a), a.pes)
  }

  /** The section passes the filter of that PID and table_id. */
  predicate Passes(d: Demux.Delivery, pid: nat, tid: byte) {
    d.pid == pid && |d.section| >= 3 && d.section[0] == tid
  }

  /** That is the filter that `init_table_filter` sets: the section agrees with
      the table_id in every bit. */
  lemma {:induction false} PassesIsFilter(on: nat, words: seq<bv8>, pid: nat, tid: bv8, negate: bv8)
    requires |words| >= 3
    ensures Passes(Demux.Delivery(on, FromWords(words)), pid, tid as int)
       <==> on == pid && Filter.Agrees(Filter.Param([tid], [0xFF], [negate]), words)
  {
    hide Filter.Agrees;
    var p := Filter.Param([tid], [0xFF], [negate]);
    Filter.ExactMatch(p, words);
    Filter.MatchesAgrees(p, words);
  }

  /** The PIDs that the entry loop registers: those of programs not listed yet. */
  function NewPids(bitmap: set<nat>, es: seq<Pat.Entry>): set<nat>
    decreases |es|
  {
    if es == [] then {}
    else
      (if es[0].number in bitmap || es[0].pid == NIT_PID then {} else {es[0].pid})
      + NewPids(bitmap + {es[0].number}, es[1..])
  }

  function Registered(p: Pat.State, s: seq<byte>, junk: seq<byte>): set<nat>
    requires Pat.Linked(p) && Pat.WellFormed(s) && |junk| == 5
  {
    if Pat.Parse(p, s, junk).1 != Pat.Parsed then {}
    else
      var added := CheckVersion(s, Pat.ActiveVersion(p)) == Newer || p.active.None?;
      NewPids(if added then {} else p.list[p.active.value].bitmap, Pat.EntriesOf(s))
  }

  /** The tables can be read without leaving the section. */
  predicate Deliverable(st: State, d: Demux.Delivery, junk: seq<byte>)
    requires |st.slots| == Demux.NUM_PIDS
  {
    && |junk| == 5
    && (Passes(d, PAT_PID, PAT_TID) ==> Pat.WellFormed(d.section))
    && (d.pid < Demux.NUM_PIDS && d.pid in st.pmtPids && Passes(d, d.pid, PMT_TID) ==>
          SingleSection(d.section) && Pmt.Parse(st.slots[d.pid], d.section, junk).Some?)
  }

  /** `filter_proc` with the filters for PATs and PMTs. */
  function Deliver(st: State, d: Demux.Delivery, junk: seq<byte>): State
    requires |st.slots| == Demux.NUM_PIDS && Pat.Linked(st.pat) && Deliverable(st, d, junk)
  {
    if Passes(d, PAT_PID, PAT_TID) then
      st.(pat := Pat.Parse(st.pat, d.section, junk).0,
          pmtPids := st.pmtPids + Registered(st.pat, d.section, junk))
    else if d.pid < Demux.NUM_PIDS && d.pid in st.pmtPids && Passes(d, d.pid, PMT_TID) then
      st.(slots := st.slots[d.pid := Pmt.Parse(st.slots[d.pid], d.section, junk).value.0])
    else st
  }

  /** The packet does not make the code leave its buffers. */
  predicate StepLawful(st: State, a: Tick, es: set<nat>)
    requires Formed(st, es)
  {
    && |a.junk| == 5 && PsiPids(st, a) !! es && !Demux.ClassOf(ArrivalOf(st, a)).Malformed?
    && var out := Demux.Process(st.sec, ArrivalOf(st, a), es).1;
       out.Some? ==> Deliverable(st, out.value, a.junk)
  }

  /** The section that the packet completes, if any. */
  function OutOf(st: State, a: Tick, es: set<nat>): Option<Demux.Delivery>
    requires Formed(st, es) && StepLawful(st, a, es)
  {
    Demux.Process(st.sec, ArrivalOf(st, a), es).1
  }

  function Step(st: State, a: Tick, es: set<nat>): (r: State)
    requires Formed(st, es) && StepLawful(st, a, es)
    ensures Formed(r, es)
  {
    var (sec, out) := Demux.Process(st.sec, ArrivalOf(st, a), es);
    var st1 := st.(sec := sec);
    if out.None? then st1 else Deliver(st1, out.value, a.junk)
  }

  // ----- runs -----

  predicate Lawful(st: State, ticks: seq<Tick>, es: set<nat>)
    requires Formed(st, es)
    decreases |ticks|
  {
    ticks == [] || (StepLawful(st, ticks[0], es) && Lawful(Step(st, ticks[0], es), ticks[1..], es))
  }

  function Run(st: State, ticks: seq<Tick>, es: set<nat>): (r: State)
    requires Formed(st, es) && Lawful(st, ticks, es)
    ensures Formed(r, es)
    decreases |ticks|
  {
    if ticks == [] then st else Run(Step(st, ticks[0], es), ticks[1..], es)
  }

  /** The packets, each with the PSI PIDs of its time. */
  function Trace(st: State, ticks: seq<Tick>, es: set<nat>): (r: seq<Demux.Arrival>)
    requires Formed(st, es) && Lawful(st, ticks, es)
    ensures |r| == |ticks| && Demux.Apart(r, es) && Demux.Readable(r)
    decreases |ticks|
  {
    if ticks == [] then []
    else
      var (a, rest) := (ArrivalOf(st, ticks[0]), Trace(Step(st, ticks[0], es), ticks[1..], es));
      LawfulCons(a, rest, es);
      [a] + rest
  }

  lemma {:induction false} LawfulCons(a: Demux.Arrival, rest: seq<Demux.Arrival>, es: set<nat>)
    requires a.psi !! es && !Demux.ClassOf(a).Malformed? && Demux.Apart(rest, es) && Demux.Readable(rest)
    ensures Demux.Apart([a] + rest, es) && Demux.Readable([a] + rest)
  {
    hide Demux.ClassOf;
  }

  function Outs(st: State, ticks: seq<Tick>, es: set<nat>): (r: seq<Option<Demux.Delivery>>)
    requires Formed(st, es) && Lawful(st, ticks, es)
    ensures |r| == |ticks|
  {
    Demux.Run(st.sec, Trace(st, ticks, es), es).1
  }

  /** What is delivered, packet by packet. */
  lemma {:induction false} OutsNext(st: State, ticks: seq<Tick>, es: set<nat>)
    requires Formed(st, es) && Lawful(st, ticks, es) && ticks != []
    ensures Outs(st, ticks, es) == [OutOf(st, ticks[0], es)] + Outs(Step(st, ticks[0], es), ticks[1..], es)
  {
    var (next, rest) := (Step(st, ticks[0], es), ticks[1..]);
    HeadTail(ArrivalOf(st, ticks[0]), Trace(next, rest, es));
    assert next.sec == Demux.Process(st.sec, ArrivalOf(st, ticks[0]), es).0;
  }

  // ----- the tables as folds over what is delivered -----

  /** What passes a filter of one outcome. */
  function Passed(out: Option<Demux.Delivery>, junk: seq<byte>, pid: nat, tid: byte): seq<Input> {
    if out.Some? && Passes(out.value, pid, tid) then [Input(out.value.section, junk)] else []
  }

  /** The sections among the outcomes that pass a filter. */
  function PassedAll(outs: seq<Option<Demux.Delivery>>, ticks: seq<Tick>, pid: nat, tid: byte): seq<Input>
    requires |outs| == |ticks|
    decreases |outs|
  {
    if outs == [] then []
    else Passed(outs[0], ticks[0].junk, pid, tid) + PassedAll(outs[1..], ticks[1..], pid, tid)
  }

  /** The PIDs that some PAT sections register. */
  function RegisteredAll(p: Pat.State, ins: seq<Input>): set<nat>
    requires Pat.Linked(p) && Pat.GoodInputs(ins)
    decreases |ins|
  {
    if ins == [] then {}
    else
      Registered(p, ins[0].section, ins[0].junk)
      + RegisteredAll(Pat.Parse(p, ins[0].section, ins[0].junk).0, ins[1..])
  }

  lemma {:induction false} PassedCons(out: Option<Demux.Delivery>, junk: seq<byte>, pid: nat, tid: byte,
                                      more: seq<Input>)
    ensures var ins := Passed(out, junk, pid, tid) + more;
            if out.Some? && Passes(out.value, pid, tid) then
              ins[0] == Input(out.value.section, junk) && ins[1..] == more && |ins| == 1 + |more|
            else ins == more
  {
    HeadTail(if out.Some? then Input(out.value.section, junk) else Input([], junk), more);
  }

  /** What one packet does to the PATs. */
  lemma {:induction false} StepPat(st: State, a: Tick, es: set<nat>)
    requires Formed(st, es) && StepLawful(st, a, es)
    ensures var (next, out) := (Step(st, a, es), OutOf(st, a, es));
            if out.Some? && Passes(out.value, PAT_PID, PAT_TID) then
              && Pat.WellFormed(out.value.section) && |a.junk| == 5
              && next.pat == Pat.Parse(st.pat, out.value.section, a.junk).0
              && next.pmtPids == st.pmtPids + Registered(st.pat, out.value.section, a.junk)
            else next.pat == st.pat && next.pmtPids == st.pmtPids
  {
  }

  lemma {:induction false} PatFold(st: State, ticks: seq<Tick>, es: set<nat>)
    requires Formed(st, es) && Lawful(st, ticks, es)
    ensures var ins := PassedAll(Outs(st, ticks, es), ticks, PAT_PID, PAT_TID);
            && Pat.GoodInputs(ins)
            && Run(st, ticks, es).pat == Pat.ParseAll(st.pat, ins)
            && Run(st, ticks, es).pmtPids == st.pmtPids + RegisteredAll(st.pat, ins)
    decreases |ticks|
  {
    hide OutOf, Outs, Pat.Parse, Pat.WellFormed, Registered, Step, StepLawful, Passes, Passed, Demux.AllReady;
    if ticks != [] {
      var (a, rest) := (ticks[0], ticks[1..]);
      var (next, out) := (Step(st, a, es), OutOf(st, a, es));
      StepPat(st, a, es);
      OutsNext(st, ticks, es);
      HeadTail(out, Outs(next, rest, es));
      PatFold(next, rest, es);
      var more := PassedAll(Outs(next, rest, es), rest, PAT_PID, PAT_TID);
      PassedCons(out, a.junk, PAT_PID, PAT_TID, more);
    }
  }

  /** What one packet does to the slot of a registered PID. */
  lemma {:induction false} StepSlot(st: State, a: Tick, es: set<nat>, q: nat)
    requires Formed(st, es) && StepLawful(st, a, es) && q in st.pmtPids && q < Demux.NUM_PIDS
    ensures var (next, out) := (Step(st, a, es), OutOf(st, a, es));
            && q in next.pmtPids && |a.junk| == 5
            && if out.Some? && Passes(out.value, q, PMT_TID) then
                 && SingleSection(out.value.section)
                 && var r := Pmt.Parse(st.slots[q], out.value.section, a.junk);
                    r.Some? && next.slots[q] == r.value.0
               else next.slots[q] == st.slots[q]
  {
  }

  /** A registered PID's slot takes the PMT sections delivered on that PID. */
  lemma {:induction false} SlotFold(st: State, ticks: seq<Tick>, es: set<nat>, q: nat)
    requires Formed(st, es) && Lawful(st, ticks, es) && q in st.pmtPids && q < Demux.NUM_PIDS
    ensures var ins := PassedAll(Outs(st, ticks, es), ticks, q, PMT_TID);
            Pmt.GoodInputs(ins) && Pmt.ParseAll(st.slots[q], ins) == Some(Run(st, ticks, es).slots[q])
    decreases |ticks|
  {
    hide OutOf, Outs, Pmt.Parse, SingleSection, Step, StepLawful, Passes, Passed, Demux.AllReady;
    if ticks != [] {
      var (a, rest) := (ticks[0], ticks[1..]);
      var (next, out) := (Step(st, a, es), OutOf(st, a, es));
      StepSlot(st, a, es, q);
      OutsNext(st, ticks, es);
      HeadTail(out, Outs(next, rest, es));
      SlotFold(next, rest, es, q);
      var more := PassedAll(Outs(next, rest, es), rest, q, PMT_TID);
      PassedCons(out, a.junk, q, PMT_TID, more);
    }
  }

  /** Without PSI packets on a PID its slot stays as it is. */
  lemma {:induction false} SlotKept(st: State, ticks: seq<Tick>, es: set<nat>, q: nat)
    requires Formed(st, es) && Lawful(st, ticks, es) && q < Demux.NUM_PIDS
    requires Demux.OnPid(Trace(st, ticks, es), q) == []
    ensures Run(st, ticks, es).slots[q] == st.slots[q]
    decreases |ticks|
  {
    hide Pat.Parse, Pat.WellFormed, Registered, Pmt.Parse, Demux.Classify, Sections.Preproc, Demux.AllReady;
    if ticks != [] {
      var (a, rest) := (ticks[0], ticks[1..]);
      var next := Step(st, a, es);
      HeadTail(ArrivalOf(st, a), Trace(next, rest, es));
      assert !Demux.IsOn(ArrivalOf(st, a), q);
      assert [] + Demux.OnPid(Trace(next, rest, es), q) == Demux.OnPid(Trace(next, rest, es), q);
      SlotKept(next, rest, es, q);
    }
  }

  // ----- what is delivered on one PID -----

  /** The sections with that table_id. */
  function WithId(secs: seq<seq<byte>>, tid: byte): seq<seq<byte>> {
    if secs == [] then []
    else (if |secs[0]| >= 3 && secs[0][0] == tid then [secs[0]] else []) + WithId(secs[1..], tid)
  }

  function SectionsOf(ins: seq<Input>): (r: seq<seq<byte>>)
    ensures |r| == |ins|
    ensures forall i :: 0 <= i < |ins| ==> r[i] == ins[i].section
  {
    seq(|ins|, i requires 0 <= i < |ins| => ins[i].section)
  }

  /** What one outcome delivers on a PID. */
  function DeliveredBy(out: Option<Demux.Delivery>, pid: nat): seq<seq<byte>> {
    if out.Some? && out.value.pid == pid then [out.value.section] else []
  }

  lemma {:induction false} DeliveredNext(outs: seq<Option<Demux.Delivery>>, pid: nat)
    requires outs != []
    ensures Demux.DeliveredOn(Demux.Deliveries(outs), pid)
         == DeliveredBy(outs[0], pid) + Demux.DeliveredOn(Demux.Deliveries(outs[1..]), pid)
  {
    var ds := Demux.Deliveries(outs[1..]);
    if outs[0].Some? {
      HeadTail(outs[0].value, ds);
    } else {
      assert [] + ds == ds && [] + Demux.DeliveredOn(ds, pid) == Demux.DeliveredOn(ds, pid);
    }
  }

  lemma {:induction false} WithIdCons(s: seq<byte>, secs: seq<seq<byte>>, tid: byte)
    ensures WithId([s] + secs, tid) == if |s| >= 3 && s[0] == tid then [s] + WithId(secs, tid) else WithId(secs, tid)
  {
    HeadTail(s, secs);
    assert [] + WithId(secs, tid) == WithId(secs, tid);
  }

  lemma {:induction false} SectionsCons(x: Input, ins: seq<Input>)
    ensures SectionsOf([x] + ins) == [x.section] + SectionsOf(ins)
  {
  }

  lemma {:induction false} PassedNext(out: Option<Demux.Delivery>, junk: seq<byte>, pid: nat, tid: byte,
                                      ins: seq<Input>, on: seq<seq<byte>>)
    requires SectionsOf(ins) == WithId(on, tid)
    ensures SectionsOf(Passed(out, junk, pid, tid) + ins) == WithId(DeliveredBy(out, pid) + on, tid)
  {
    hide SectionsOf, WithId;
    assert [] + ins == ins && [] + on == on;
    if out.Some? {
      SectionsCons(Input(out.value.section, junk), ins);
      WithIdCons(out.value.section, on, tid);
    }
  }

  /** What passes a filter is what is delivered on its PID with its table_id. */
  lemma {:induction false} PassedAreDelivered(outs: seq<Option<Demux.Delivery>>, ticks: seq<Tick>, pid: nat, tid: byte)
    requires |outs| == |ticks|
    ensures SectionsOf(PassedAll(outs, ticks, pid, tid)) == WithId(Demux.DeliveredOn(Demux.Deliveries(outs), pid), tid)
    decreases |outs|
  {
    if outs != [] {
      hide WithId, Passed, DeliveredBy, Demux.Deliveries, Demux.DeliveredOn;
      PassedAreDelivered(outs[1..], ticks[1..], pid, tid);
      DeliveredNext(outs, pid);
      PassedNext(outs[0], ticks[0].junk, pid, tid, PassedAll(outs[1..], ticks[1..], pid, tid),
                 Demux.DeliveredOn(Demux.Deliveries(outs[1..]), pid));
    }
  }

  // ----- which PIDs are registered -----

  /** The PIDs of the PATs of a list. */
  function PidsOf(ps: seq<Source>): set<nat> {
    if ps == [] then {} else NewPids({}, ps[0].entries) + PidsOf(ps[1..])
  }

  function PidsIn(ss: seq<seq<byte>>): set<nat>
    requires forall i :: 0 <= i < |ss| ==> Pat.WellFormed(ss[i])
    decreases |ss|
  {
    if ss == [] then {} else NewPids({}, Pat.EntriesOf(ss[0])) + PidsIn(ss[1..])
  }

  /** Exactly the accepted sections register PIDs. */
  lemma {:induction false} RegisteredByAccepted(p: Pat.State, ins: seq<Input>)
    requires Pat.Sound(p) && Pat.GoodInputs(ins)
    ensures RegisteredAll(p, ins) == PidsIn(Pat.Accepted(Pat.ActiveVersion(p), ins))
    decreases |ins|
  {
    hide Pat.Parse, CheckVersion, NewPids;
    if ins != [] {
      var (s, junk, rest) := (ins[0].section, ins[0].junk, ins[1..]);
      if CheckVersion(s, Pat.ActiveVersion(p)) == Newer {
        Pat.NewVersionsAreListed(p, s, junk);
        HeadTail(s, Pat.Accepted(VersionField(s[5]), rest));
      } else {
        Pat.OldVersionsAreIgnored(p, s, junk);
      }
      RegisteredByAccepted(Pat.Parse(p, s, junk).0, rest);
    }
  }

  lemma {:induction false} BuiltPids(ps: seq<Source>)
    requires GoodSources(ps)
    ensures forall i :: 0 <= i < |ps| ==> Pat.WellFormed(BuildAll(ps)[i])
    ensures PidsIn(BuildAll(ps)) == PidsOf(ps)
    decreases |ps|
  {
    hide BuildPat, NewPids;
    forall i | 0 <= i < |ps| ensures Pat.WellFormed(BuildPat(ps[i])) {
      BuiltPat(ps[i]);
    }
    if ps != [] {
      BuiltPat(ps[0]);
      BuiltPids(ps[1..]);
      assert BuildAll(ps)[1..] == BuildAll(ps[1..]);
    }
  }

  /** A PID is registered exactly when it stands in the first entry of some
      program, and is not that of the NIT. */
  lemma {:induction false} NewPidsAre(bitmap: set<nat>, es: seq<Pat.Entry>, q: nat)
    ensures q in NewPids(bitmap, es) <==> q != NIT_PID && Introduces(bitmap, es, q)
    decreases |es|
  {
    if es != [] {
      NewPidsAre(bitmap + {es[0].number}, es[1..], q);
      IntroducesCons(bitmap, es, q);
    }
  }

  predicate Introduces(bitmap: set<nat>, es: seq<Pat.Entry>, q: nat) {
    exists i :: 0 <= i < |es| && FirstWith(es, i, q) && es[i].number !in bitmap
  }

  lemma {:induction false} IntroducesCons(bitmap: set<nat>, es: seq<Pat.Entry>, q: nat)
    requires es != []
    ensures Introduces(bitmap, es, q)
       <==> (es[0].pid == q && es[0].number !in bitmap) || Introduces(bitmap + {es[0].number}, es[1..], q)
  {
    var (rest, seen) := (es[1..], bitmap + {es[0].number});
    if Introduces(bitmap, es, q) {
      var i :| 0 <= i < |es| && FirstWith(es, i, q) && es[i].number !in bitmap;
      if i > 0 {
        assert FirstWith(rest, i - 1, q);
      }
    }
    if Introduces(seen, rest, q) {
      var i :| 0 <= i < |rest| && FirstWith(rest, i, q) && rest[i].number !in seen;
      assert FirstWith(es, i + 1, q);
    }
    assert es[0].pid == q ==> FirstWith(es, 0, q);
  }

  predicate FirstWith(es: seq<Pat.Entry>, i: nat, q: nat)
    requires i < |es|
  {
    es[i].pid == q && Pat.First(es, es[i].number) == i
  }

  /** A program that is listed twice is moved to the second PID, which is not
      registered. */
  lemma {:induction false} MovedPidUnregistered(h: Header, n: nat, p: nat, p': nat)
    requires p != p'
    ensures var es := [Pat.Entry(n, p), Pat.Entry(n, p')];
            Pat.AddAll(Pat.Table(h, {}, []), es).programs == [Pat.Entry(n, p')] && p' !in NewPids({}, es)
  {
    var es := [Pat.Entry(n, p), Pat.Entry(n, p')];
    var one := Pat.AddEntry(Pat.Table(h, {}, []), es[0]);
    var two := Pat.AddEntry(one, es[1]);
    assert one.programs == [es[0]] && two.programs == [es[1]];
    assert es[1..] == [es[1]] && es[1..][1..] == [];
    assert Pat.AddAll(one, es[1..]) == Pat.AddAll(two, es[1..][1..]) == two;
    NewPidsAre({}, es, p');
  }

  // ----- starting up -----

  /** Before the first packet. */
  predicate Initial(st: State) {
    st.pat == Pat.FRESH && st.pmtPids == {} && forall i :: 0 <= i < |st.slots| ==> Pmt.Fresh(st.slots[i])
  }

  lemma {:induction false} AllPats(ps: seq<Source>)
    requires GoodSources(ps)
    ensures WithId(BuildAll(ps), PAT_TID) == BuildAll(ps)
    decreases |ps|
  {
    if ps != [] {
      BuildCons(ps[0], ps[1..]);
      assert ps == [ps[0]] + ps[1..];
      assert |BuildPat(ps[0])| >= 3 && BuildPat(ps[0])[0] == PAT_TID;
      hide BuildPat, BuildAll;
      WithIdCons(BuildPat(ps[0]), BuildAll(ps[1..]), PAT_TID);
      AllPats(ps[1..]);
    }
  }

  /** The PATs of a stream pass their filter, in order. */
  lemma {:induction false} PatsPassed(st: State, ticks: seq<Tick>, es: set<nat>, ps: seq<Source>,
                                      secs: seq<seq<byte>>)
    returns (junks: seq<seq<byte>>)
    requires Formed(st, es) && Lawful(st, ticks, es) && GoodSources(ps) && PAT_PID !in es
    requires Demux.Sends(Demux.OnPid(Trace(st, ticks, es), PAT_PID), PAT_PID, secs)
    requires WithId(secs, PAT_TID) == BuildAll(ps)
    ensures GoodJunks(junks, |ps|)
    ensures PassedAll(Outs(st, ticks, es), ticks, PAT_PID, PAT_TID) == Inputs(BuildAll(ps), junks)
  {
    hide Demux.Run, Demux.OnPid, Demux.Sends, Lawful, Trace, Run, BuildPat, PassedAll, Inputs;
    var (outs, ss) := (Outs(st, ticks, es), BuildAll(ps));
    Demux.Reassembly(st.sec, Trace(st, ticks, es), es, PAT_PID, secs);
    PassedAreDelivered(outs, ticks, PAT_PID, PAT_TID);
    PatFold(st, ticks, es);
    var ins := PassedAll(outs, ticks, PAT_PID, PAT_TID);
    assert SectionsOf(ins) == ss && |ins| == |ss|;
    junks := JunksOf(ins);
  }

  /** After any stream of PATs from the start, with sections of other tables among
      them: one table for each PAT that is noticed, and exactly the PIDs of their
      programs registered. */
  lemma {:induction false} PatsTaken(st: State, ticks: seq<Tick>, es: set<nat>, ps: seq<Source>,
                                     secs: seq<seq<byte>>)
    requires Formed(st, es) && Initial(st) && Lawful(st, ticks, es) && GoodSources(ps) && PAT_PID !in es
    requires Demux.Sends(Demux.OnPid(Trace(st, ticks, es), PAT_PID), PAT_PID, secs)
    requires WithId(secs, PAT_TID) == BuildAll(ps)
    ensures var (r, noticed) := (Run(st, ticks, es), NoticedOf(31, ps));
            && Pat.Sound(r.pat) && |r.pat.list| == |noticed|
            && (forall i :: 0 <= i < |noticed| ==> Pat.Describes(r.pat.list[i], noticed[i].entries))
            && r.pmtPids == PidsOf(noticed)
  {
    hide Demux.OnPid, Demux.Sends, Demux.AllReady, Pat.Describes, Lawful, Trace, Outs, Run, BuildPat, PassedAll,
      Inputs, NoticedOf, Pat.Accepted, Pat.ParseAll, Pat.Sound, PidsIn, PidsOf;
    var (ins, noticed) := (PassedAll(Outs(st, ticks, es), ticks, PAT_PID, PAT_TID), NoticedOf(31, ps));
    PatFold(st, ticks, es);
    var junks := PatsPassed(st, ticks, es, ps, secs);
    NoticedAreListed(ps, junks);
    AcceptedAreNoticed(31, ps, junks);
    FreshIsSound();
    RegisteredByAccepted(Pat.FRESH, ins);
    BuiltPids(noticed);
  }

  lemma {:induction false} JunksOf(ins: seq<Input>) returns (junks: seq<seq<byte>>)
    requires Pat.GoodInputs(ins)
    ensures GoodJunks(junks, |ins|) && ins == Inputs(SectionsOf(ins), junks)
  {
    junks := seq(|ins|, i requires 0 <= i < |ins| => ins[i].junk);
  }

  /** What a PMT is built from. */
  datatype Program = Program(number: nat, version: nat, current: bool, pcrPid: nat,
                             info: seq<D.Descriptor>, streams: seq<Pmt.Stream>)

  predicate GoodProgram(m: Program) {
    && m.number < 65536 && m.version < 32 && m.pcrPid < 8192
    && D.Encodable(m.info) && |D.Encode(m.info)| < 4096 && Pmt.GoodStreams(m.streams)
    && |Pmt.EncodeBody(m.pcrPid, m.info, m.streams)| + 9 <= MAX_LONG
  }

  function BuildPmt(m: Program): seq<byte>
    requires GoodProgram(m)
  {
    Build(PMT_TID, m.number, m.version, m.current, 0, 0, Pmt.EncodeBody(m.pcrPid, m.info, m.streams))
  }

  predicate Shows(t: Pmt.Table, m: Program) {
    t.programNumber == m.number && t.pcrPid == m.pcrPid && t.info == m.info && t.streams == m.streams
  }

  predicate LongSections(ss: seq<seq<byte>>) {
    forall i :: 0 <= i < |ss| ==> Sections.IsSection(ss[i]) && IsLong(ss[i])
  }

  /** The slot of a registered PID shows the first PMT sent on it, whatever
      sections of other tables come before and whatever PMTs follow. */
  lemma {:induction false} PmtTaken(st: State, ticks: seq<Tick>, es: set<nat>, q: nat, m: Program,
                                    secs: seq<seq<byte>>, later: seq<seq<byte>>)
    requires Formed(st, es) && Lawful(st, ticks, es) && GoodProgram(m) && LongSections(later)
    requires q in st.pmtPids && q < Demux.NUM_PIDS && q != Demux.NULL_PID && q !in es && Pmt.Fresh(st.slots[q])
    requires Demux.Sends(Demux.OnPid(Trace(st, ticks, es), q), q, secs)
    requires WithId(secs, PMT_TID) == [BuildPmt(m)] + later
    ensures Shows(Run(st, ticks, es).slots[q], m)
  {
    hide Demux.Run, Demux.OnPid, Demux.Sends, Lawful, Trace, Run, PassedAll, Pmt.Parse, Pmt.ParseAll, Build,
      Demux.DeliveredOn, Demux.Deliveries;
    var (outs, s) := (Outs(st, ticks, es), BuildPmt(m));
    BuiltPmt(m);
    Demux.Reassembly(st.sec, Trace(st, ticks, es), es, q, secs);
    PassedAreDelivered(outs, ticks, q, PMT_TID);
    SlotFold(st, ticks, es, q);
    var ins := PassedAll(outs, ticks, q, PMT_TID);
    assert SectionsOf(ins) == [s] + later;
    LaterLong(ins, s, later);
    Pmt.FirstPmtStays(st.slots[q], m.number, m.version, m.current, m.pcrPid, m.info, m.streams, ins[0].junk, ins[1..]);
    assert ins == [Input(s, ins[0].junk)] + ins[1..];
  }

  lemma {:induction false} BuiltPmt(m: Program)
    requires GoodProgram(m)
    ensures var s := BuildPmt(m);
            Sections.IsSection(s) && IsLong(s) && s[0] == PMT_TID
  {
    var body := Pmt.EncodeBody(m.pcrPid, m.info, m.streams);
    BuildIsSection(PMT_TID, m.number, m.version, m.current, 0, 0, body);
    BuildIsLong(PMT_TID, m.number, m.version, m.current, 0, 0, body);
  }

  lemma {:induction false} LaterLong(ins: seq<Input>, s: seq<byte>, rest: seq<seq<byte>>)
    requires Pmt.GoodInputs(ins) && SectionsOf(ins) == [s] + rest && LongSections(rest)
    ensures ins != [] && ins[0].section == s && |ins[0].junk| == 5 && Pmt.LongInputs(ins[1..])
  {
    assert |SectionsOf(ins)| == |ins| == 1 + |rest|;
    assert SectionsOf(ins)[0] == s;
    forall i | 0 <= i < |ins| - 1 ensures ins[1..][i].section == rest[i] {
      assert SectionsOf(ins)[i + 1] == rest[i];
    }
  }

  /** From an empty state: a stream that first carries PATs, and then on a PID
      that one of the noticed PATs registers a PMT, fills the slot of that PID
      with that PMT. Everything else on the stream may be mixed in. */
  lemma {:induction false} StartUp(st: State, a: seq<Tick>, b: seq<Tick>, es: set<nat>, ps: seq<Source>,
                                   pats: seq<seq<byte>>, q: nat, m: Program, pmts: seq<seq<byte>>,
                                   later: seq<seq<byte>>)
    requires Formed(st, es) && Initial(st) && Lawful(st, a, es) && Lawful(Run(st, a, es), b, es)
    requires GoodSources(ps) && PAT_PID !in es
    requires Demux.Sends(Demux.OnPid(Trace(st, a, es), PAT_PID), PAT_PID, pats)
    requires WithId(pats, PAT_TID) == BuildAll(ps)
    requires q in PidsOf(NoticedOf(31, ps)) && q < Demux.NUM_PIDS && q != Demux.NULL_PID && q !in es
    requires Demux.OnPid(Trace(st, a, es), q) == []
    requires GoodProgram(m) && LongSections(later)
    requires Demux.Sends(Demux.OnPid(Trace(Run(st, a, es), b, es), q), q, pmts)
    requires WithId(pmts, PMT_TID) == [BuildPmt(m)] + later
    ensures Shows(Run(Run(st, a, es), b, es).slots[q], m)
  {
    hide Demux.OnPid, Demux.Sends, Lawful, Trace, Run;
    PatsTaken(st, a, es, ps, pats);
    SlotKept(st, a, es, q);
    PmtTaken(Run(st, a, es), b, es, q, m, pmts, later);
  }

  // ----- PIDs without tables -----

  /** A packet on a PID from 0x20 on that neither a PAT nor other sections
      registered changes nothing, whatever it carries. */
  lemma {:induction false} UnregisteredPid(st: State, a: Tick, es: set<nat>, pid: nat, k: Demux.Carrier,
                                           p: Sections.Payload)
    requires Formed(st, es) && |a.junk| == 5 && PsiPids(st, a) !! es && pid !in es
    requires 0x20 <= pid < Demux.NUM_PIDS && pid !in st.pmtPids && pid !in a.others
    requires Demux.GoodCarrier(k) && a.pkt == Demux.Packet(pid, k, p) && (p.data != [] || k.field.Some?)
    ensures StepLawful(st, a, es) && Step(st, a, es) == st
  {
    var field := Demux.FieldBytes(k.field);
    Assoc(Demux.Header(pid, p.start, k, if k.field.Some? then 3 else 1), field, p.data);
    Demux.OtherClasses(pid, p.start, k, if k.field.Some? then 3 else 1, field + p.data, a.after, PsiPids(st, a), 0);
  }

  // ----- a stream on which all this happens -----

  /** Packets with nothing special around them. */
  function TicksOf(pkts: seq<seq<byte>>, junk: seq<byte>): (r: seq<Tick>)
    ensures |r| == |pkts|
  {
    seq(|pkts|, i requires 0 <= i < |pkts| => Tick(pkts[i], [], {}, Sections.Parser(0, 0, []), junk))
  }

  predicate Plain(ps: seq<Sections.Payload>) {
    forall i :: 0 <= i < |ps| ==>
      Sections.InBounds(ps[i]) && Sections.Whole(ps[i]) && ps[i].data != [] && ps[i].after == []
  }

  predicate IsPsiPid(st: State, pid: nat) {
    pid < Demux.NUM_PIDS && pid != Demux.NULL_PID && (pid < 0x20 || pid in st.pmtPids)
  }

  /** One packet of a section on a PSI PID. */
  lemma {:induction false} OnePacket(st: State, pid: nat, cc: nat, p: Sections.Payload, junk: seq<byte>)
    requires Formed(st, {}) && IsPsiPid(st, pid) && |junk| == 5
    requires Sections.InBounds(p) && Sections.Whole(p) && p.data != [] && p.after == []
    ensures var a := TicksOf([Demux.Packet(pid, Demux.Plain(cc), p)], junk)[0];
            var (rec, out) := Sections.Preproc(st.sec[pid], p);
            && Demux.ClassOf(ArrivalOf(st, a)) == Demux.Psi(pid, p)
            && Demux.Process(st.sec, ArrivalOf(st, a), {})
               == (st.sec[pid := rec], if out.Some? then Some(Demux.Delivery(pid, out.value)) else None)
  {
    hide Sections.Preproc, Sections.InBounds, Sections.Whole;
    var a := TicksOf([Demux.Packet(pid, Demux.Plain(cc), p)], junk)[0];
    Demux.PacketClass(pid, Demux.Plain(cc), p, [], PsiPids(st, a));
    assert p.(after := []) == p;
  }

  /** What a tick changes when it does not complete a section, and when it does. */
  lemma {:induction false} OneStep(st: State, a: Tick, sec: seq<Sections.Parser>, out: Option<Demux.Delivery>)
    requires Formed(st, {}) && |a.junk| == 5 && !Demux.ClassOf(ArrivalOf(st, a)).Malformed?
    requires Demux.Process(st.sec, ArrivalOf(st, a), {}) == (sec, out)
    requires out.Some? ==> Deliverable(st, out.value, a.junk)
    ensures StepLawful(st, a, {})
    ensures Step(st, a, {}) == (if out.None? then st else Deliver(st, out.value, a.junk)).(sec := sec)
  {
    hide Demux.Process, Demux.ClassOf, Pat.Parse, Pmt.Parse, Registered;
  }

  lemma {:induction false} FeedNext(rec: Sections.Parser, ps: seq<Sections.Payload>, s: seq<byte>)
    requires Sections.Ready(rec) && ps != [] && forall p :: p in ps ==> Sections.InBounds(p)
    requires Sections.Feed(rec, ps).1 == Sections.OnLast(|ps|, s)
    ensures forall p :: p in ps[1..] ==> Sections.InBounds(p)
    ensures var (next, out) := Sections.Preproc(rec, ps[0]);
            && Sections.Ready(next)
            && if |ps| == 1 then out == Some(s)
               else out.None? && Sections.Feed(next, ps[1..]).1 == Sections.OnLast(|ps| - 1, s)
  {
    var (next, out) := Sections.Preproc(rec, ps[0]);
    HeadTail(out, Sections.Feed(next, ps[1..]).1);
    if |ps| > 1 {
      HeadTail(None, Sections.OnLast(|ps| - 1, s));
    }
  }

  /** The fragments of a section can be processed, and deliver it. */
  lemma {:induction false} FragmentsRun(st: State, pid: nat, cc: nat, ps: seq<Sections.Payload>, s: seq<byte>,
                                        junk: seq<byte>)
    requires Formed(st, {}) && IsPsiPid(st, pid) && |junk| == 5 && ps != [] && Plain(ps)
    requires forall p :: p in ps ==> Sections.InBounds(p)
    requires Sections.Ready(st.sec[pid]) && Sections.Feed(st.sec[pid], ps).1 == Sections.OnLast(|ps|, s)
    requires Deliverable(st, Demux.Delivery(pid, s), junk)
    ensures var ticks := TicksOf(Demux.PlainPackets(pid, cc, ps), junk);
            && Lawful(st, ticks, {})
            && Run(st, ticks, {}) == Deliver(st, Demux.Delivery(pid, s), junk).(sec := Run(st, ticks, {}).sec)
            && Demux.OnPid(Trace(st, ticks, {}), pid) == Demux.PlainPackets(pid, cc, ps)
            && forall q :: q != pid ==> Demux.OnPid(Trace(st, ticks, {}), q) == []
    decreases |ps|
  {
    hide StepLawful, Step, Demux.Process, Demux.ClassOf, Sections.Preproc, Sections.InBounds, Sections.Whole, Pat.Parse,
      Pat.WellFormed, Pmt.Parse, SingleSection, Registered, Demux.Packet, Sections.Feed, Sections.OnLast, Sections.Ready;
    var (p, more) := (ps[0], ps[1..]);
    var (pkt, pkts) := (Demux.Packet(pid, Demux.Plain(cc), p), Demux.PlainPackets(pid, cc + 1, more));
    var ticks := TicksOf([pkt] + pkts, junk);
    var a := ticks[0];
    assert ticks[1..] == TicksOf(pkts, junk);
    var (rec, out) := Sections.Preproc(st.sec[pid], p);
    OnePacket(st, pid, cc, p, junk);
    assert a == TicksOf([pkt], junk)[0];
    FeedNext(st.sec[pid], ps, s);
    var d := if out.Some? then Some(Demux.Delivery(pid, out.value)) else None;
    OneStep(st, a, st.sec[pid := rec], d);
    var next := Step(st, a, {});
    if more == [] {
      assert ticks[1..] == [];
      TraceOne(st, a, pid);
      assert ticks == [a];
    } else {
      assert out.None? && next == st.(sec := st.sec[pid := rec]);
      FragmentsRun(next, pid, cc + 1, more, s, junk);
      TraceCons(st, ticks, pid);
    }
  }

  lemma {:induction false} TraceOne(st: State, a: Tick, pid: nat)
    requires Formed(st, {}) && StepLawful(st, a, {}) && Demux.IsOn(ArrivalOf(st, a), pid)
    ensures Lawful(st, [a], {})
    ensures Demux.OnPid(Trace(st, [a], {}), pid) == [a.pkt]
    ensures forall q :: q != pid ==> Demux.OnPid(Trace(st, [a], {}), q) == []
  {
    hide StepLawful, Step, Demux.ClassOf;
    assert [a][1..] == [];
    assert Lawful(Step(st, a, {}), [], {});
    var x := ArrivalOf(st, a);
    assert Trace(st, [a], {}) == [x] && [x][1..] == [] && Demux.OnPid([], pid) == [];
  }

  lemma {:induction false} TraceCons(st: State, ticks: seq<Tick>, pid: nat)
    requires Formed(st, {}) && ticks != [] && Lawful(st, ticks, {}) && Demux.IsOn(ArrivalOf(st, ticks[0]), pid)
    ensures var rest := Trace(Step(st, ticks[0], {}), ticks[1..], {});
            && Demux.OnPid(Trace(st, ticks, {}), pid) == [ticks[0].pkt] + Demux.OnPid(rest, pid)
            && forall q :: q != pid ==> Demux.OnPid(Trace(st, ticks, {}), q) == Demux.OnPid(rest, q)
  {
    hide StepLawful, Step, Demux.ClassOf;
    var rest := Trace(Step(st, ticks[0], {}), ticks[1..], {});
    HeadTail(ArrivalOf(st, ticks[0]), rest);
    forall q | q != pid ensures Demux.OnPid(Trace(st, ticks, {}), q) == Demux.OnPid(rest, q) {
      assert [] + Demux.OnPid(rest, q) == Demux.OnPid(rest, q);
    }
  }

  lemma {:induction false} SectionRun(st: State, pid: nat, cc: nat, s: seq<byte>, junk: seq<byte>)
    requires Formed(st, {}) && IsPsiPid(st, pid) && |junk| == 5 && Sections.IsSection(s)
    requires Deliverable(st, Demux.Delivery(pid, s), junk)
    ensures var ticks := TicksOf(Demux.FragmentAll(pid, cc, [s]), junk);
            && Lawful(st, ticks, {})
            && Demux.Sends(Demux.OnPid(Trace(st, ticks, {}), pid), pid, [s])
            && forall q :: q != pid ==> Demux.OnPid(Trace(st, ticks, {}), q) == []
  {
    hide Demux.PlainPackets, Demux.OnPid, Demux.Sends, Demux.FragmentAll, Sections.Payloads, Sections.Feed, Plain, Lawful,
      Trace, Run, TicksOf, Deliverable, Sections.IsSection;
    var ps := Sections.Payloads(s);
    OneFlight(pid, cc, s);
    Sections.SectionDelivered(st.sec[pid], s);
    FragmentsRun(st, pid, cc, ps, s, junk);
    Demux.FragmentsAreSent(pid, cc, [s]);
  }

  lemma {:induction false} OneFlight(pid: nat, cc: nat, s: seq<byte>)
    requires pid < Demux.NUM_PIDS && Sections.IsSection(s)
    ensures Demux.FragmentAll(pid, cc, [s]) == Demux.PlainPackets(pid, cc, Sections.Payloads(s))
    ensures Sections.Payloads(s) != [] && Plain(Sections.Payloads(s))
  {
    var ps := Sections.Payloads(s);
    var fs := Sections.Fragmented([s]);
    assert fs == [Sections.Flight(s, ps)] && fs[1..] == [] && ps + [] == ps;
    assert Sections.AllPayloads(fs) == ps + Sections.AllPayloads(fs[1..]) == ps;
    Demux.PayloadsNonEmpty(s);
    forall i | 0 <= i < |ps| ensures Sections.InBounds(ps[i]) && Sections.Whole(ps[i]) && ps[i].data != [] {
      assert ps[i] in ps;
    }
  }

  /** The stream that `emit_section` makes of a PAT and then of a PMT on a PID
      that the PAT registers is one of those that `StartUp` speaks of. */
  lemma {:induction false} PatThenPmt(st: State, p: Source, cc: nat, m: Program, q: nat, cc': nat, junk: seq<byte>)
    requires Formed(st, {}) && Initial(st) && GoodSource(p) && p.version < 30 && GoodProgram(m) && |junk| == 5
    requires q in NewPids({}, p.entries) && q < Demux.NUM_PIDS && q != Demux.NULL_PID && q != PAT_PID
    ensures var a := TicksOf(Demux.FragmentAll(PAT_PID, cc, [BuildPat(p)]), junk);
            var b := TicksOf(Demux.FragmentAll(q, cc', [BuildPmt(m)]), junk);
            && Lawful(st, a, {}) && Lawful(Run(st, a, {}), b, {})
            && Shows(Run(Run(st, a, {}), b, {}).slots[q], m)
  {
    hide Demux.FragmentAll, Demux.OnPid, Lawful, Trace, Run, BuildPat, Build, Pat.WellFormed, SingleSection, TicksOf,
      Pmt.Parse, NewPids;
    var a := TicksOf(Demux.FragmentAll(PAT_PID, cc, [BuildPat(p)]), junk);
    var b := TicksOf(Demux.FragmentAll(q, cc', [BuildPmt(m)]), junk);
    OnlyPat(p);
    SectionRun(st, PAT_PID, cc, BuildPat(p), junk);
    AllPats([p]);
    PatsTaken(st, a, {}, [p], [BuildPat(p)]);
    SlotKept(st, a, {}, q);
    var mid := Run(st, a, {});
    BuiltPmt(m);
    Pmt.SectionRoundTrip(mid.slots[q], m.number, m.version, m.current, m.pcrPid, m.info, m.streams, junk);
    SectionRun(mid, q, cc', BuildPmt(m), junk);
    assert [BuildPmt(m)] + [] == [BuildPmt(m)];
    WithIdCons(BuildPmt(m), [], PMT_TID);
    StartUp(st, a, b, {}, [p], [BuildPat(p)], q, m, [BuildPmt(m)], []);
  }

  lemma {:induction false} OnlyPat(p: Source)
    requires GoodSource(p) && p.version < 30
    ensures Pat.WellFormed(BuildPat(p)) && Sections.IsSection(BuildPat(p)) && BuildPat(p)[0] == PAT_TID
    ensures BuildAll([p]) == [BuildPat(p)] && NoticedOf(31, [p]) == [p]
    ensures PidsOf([p]) == NewPids({}, p.entries)
  {
    BuiltPat(p);
    BuildIsLong(0x00, p.ext, p.version, p.current, 0, 0, EncodeEntries(p.entries));
    assert [p][1..] == [];
  }
}
