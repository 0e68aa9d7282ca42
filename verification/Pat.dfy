/** The program association table: `parse_pat` of src/table.c (section 2.4.4.3
    of ISO/IEC 13818-1). */
module Pat {
  import opened Options
  import opened Bytes
  import opened Sequences
  import opened PsiSection

  const TERMINATOR := 0xFFFF
  const NO_VERSION := 31

  datatype Entry = Entry(number: nat, pid: nat)

  /** The fields of `pat_t`: `bitmap` holds the program numbers seen, `programs`
      is the list of nodes. */
  datatype Table = Table(header: Header, bitmap: set<nat>, programs: seq<Entry>)

  // ----- the body -----

  /** The entries of `n` bytes up to a terminator. */
  function Entries(data: seq<byte>, n: int): seq<Entry>
    requires |data| >= n && n % 4 == 0
    decreases n
  {
    if n <= 0 then []
    else
      var number := Read16(data, 0);
      if number == TERMINATOR then []
      else [Entry(number, Read16(data, 2) % 8192)] + Entries(data[4..], n - 4)
  }

  /** What follows the `n` bytes plays no part. */
  lemma {:induction false} EntriesPrefix(data: seq<byte>, more: seq<byte>)
    requires |data| % 4 == 0
    ensures Entries(data + more, |data|) == Entries(data, |data|)
    decreases |data|
  {
    if data != [] {
      assert (data + more)[4..] == data[4..] + more;
      EntriesPrefix(data[4..], more);
    }
  }

  /** Every node of that program gets the new PID. */
  function Repoint(programs: seq<Entry>, e: Entry): (r: seq<Entry>)
    ensures |r| == |programs|
    ensures forall i :: 0 <= i < |r| ==> r[i] == if programs[i].number == e.number then e else programs[i]
  {
    if programs == [] then []
    else [if programs[0].number == e.number then e else programs[0]] + Repoint(programs[1..], e)
  }

  function AddEntry(t: Table, e: Entry): Table {
    if e.number in t.bitmap then t.(programs := Repoint(t.programs, e))
    else t.(bitmap := t.bitmap + {e.number}, programs := t.programs + [e])
  }

  function AddAll(t: Table, es: seq<Entry>): Table
    decreases |es|
  {
    if es == [] then t else AddAll(AddEntry(t, es[0]), es[1..])
  }

  method RepointNodes(programs: seq<Entry>, e: Entry) returns (r: seq<Entry>)
    ensures r == Repoint(programs, e)
  {
    r := programs;
    var i := 0;
    while i < |r|
      invariant 0 <= i <= |r| == |programs|
      invariant forall k :: 0 <= k < i ==> r[k] == if programs[k].number == e.number then e else programs[k]
      invariant forall k :: i <= k < |r| ==> r[k] == programs[k]
    {
      if r[i].number == e.number {
        r := r[i := r[i].(pid := e.pid)];
      }
      i := i + 1;
    }
  }

  /** The loop over the program entries. */
  method ParseEntries(t: Table, data: seq<byte>, sectionLength: nat) returns (r: Table)
    requires 9 <= sectionLength <= |data| + 9 && (sectionLength - 9) % 4 == 0
    ensures r == AddAll(t, Entries(data, sectionLength - 9))
  {
    r := t;
    var left: int, ptr: seq<byte> := sectionLength - 9, data;
    while left > 0
      invariant left % 4 == 0 && 0 <= left <= |ptr|
      invariant AddAll(r, Entries(ptr, left)) == AddAll(t, Entries(data, sectionLength - 9))
      decreases left
    {
      var number := Read16(ptr, 0);
      var pid := Read16(ptr, 2) % 8192;
      if number == TERMINATOR {
        break;
      }
      HeadTail(Entry(number, pid), Entries(ptr[4..], left - 4));
      left, ptr := left - 4, ptr[4..];
      if number in r.bitmap {
        var nodes := RepointNodes(r.programs, Entry(number, pid));
        r := r.(programs := nodes);
      } else {
        r := r.(bitmap := r.bitmap + {number}, programs := r.programs + [Entry(number, pid)]);
      }
    }
  }

  // ----- what the list holds -----

  predicate Lists(es: seq<Entry>, number: nat) {
    exists i :: 0 <= i < |es| && es[i].number == number
  }

  /** Where a program first appears. */
  function First(es: seq<Entry>, number: nat): (i: nat)
    ensures i <= |es|
    ensures i < |es| <==> Lists(es, number)
    ensures i < |es| ==> es[i].number == number
    ensures forall j :: 0 <= j < i ==> es[j].number != number
  {
    if es == [] then 0
    else if es[0].number == number then 0
    else
      var i := First(es[1..], number);
      assert forall j :: 1 <= j < |es| ==> es[j] == es[1..][j - 1];
      1 + i
  }

  /** The PID of the latest entry of a program. */
  function LatestPid(es: seq<Entry>, number: nat): nat
    requires Lists(es, number)
    decreases |es|
  {
    var n := |es| - 1;
    if es[n].number == number then es[n].pid
    else
      assert Lists(es[..n], number) by {
        var i :| 0 <= i < |es| && es[i].number == number;
        assert es[..n][i] == es[i];
      }
      LatestPid(es[..n], number)
  }

  /** A program's bit is set exactly when an entry lists it. */
  ghost predicate BitsMatch(t: Table, es: seq<Entry>) {
    forall n :: n in t.bitmap <==> Lists(es, n)
  }

  /** Every listed program has a node, and every node its own program. */
  ghost predicate NodesMatch(t: Table) {
    && (forall i :: 0 <= i < |t.programs| ==> t.programs[i].number in t.bitmap)
    && (forall n :: n in t.bitmap ==> Lists(t.programs, n))
  }

  /** The nodes stand in the order of first appearance, so none is double. */
  ghost predicate OrderMatches(t: Table, es: seq<Entry>) {
    forall i, j :: 0 <= i < j < |t.programs| ==>
      First(es, t.programs[i].number) < First(es, t.programs[j].number)
  }

  ghost predicate PidsMatch(t: Table, es: seq<Entry>) {
    forall i :: 0 <= i < |t.programs| ==>
      Lists(es, t.programs[i].number) && t.programs[i].pid == LatestPid(es, t.programs[i].number)
  }

  ghost predicate Describes(t: Table, es: seq<Entry>) {
    BitsMatch(t, es) && NodesMatch(t) && OrderMatches(t, es) && PidsMatch(t, es)
  }

  lemma {:induction false} ListsMore(es: seq<Entry>, e: Entry, n: nat)
    ensures Lists(es + [e], n) <==> Lists(es, n) || n == e.number
  {
    var more := es + [e];
    assert more[|es|] == e;
    if Lists(es, n) {
      var i :| 0 <= i < |es| && es[i].number == n;
      assert more[i] == es[i];
    }
  }

  lemma {:induction false} FirstMore(es: seq<Entry>, e: Entry, n: nat)
    ensures Lists(es, n) ==> First(es + [e], n) == First(es, n)
    ensures !Lists(es, n) ==> First(es + [e], n) >= |es|
  {
    var more := es + [e];
    ListsMore(es, e, n);
    assert forall j :: 0 <= j < |es| ==> more[j] == es[j];
  }

  lemma {:induction false} LatestMore(es: seq<Entry>, e: Entry, n: nat)
    requires Lists(es, n) || n == e.number
    ensures Lists(es + [e], n)
    ensures LatestPid(es + [e], n) == if n == e.number then e.pid else LatestPid(es, n)
  {
    ListsMore(es, e, n);
    SetLast(es, e, e);
  }

  lemma {:induction false} BitsKept(t: Table, es: seq<Entry>, e: Entry)
    requires BitsMatch(t, es)
    ensures BitsMatch(AddEntry(t, e), es + [e])
  {
    forall n ensures Lists(es + [e], n) <==> Lists(es, n) || n == e.number {
      ListsMore(es, e, n);
    }
  }

  lemma {:induction false} NodesKept(t: Table, e: Entry)
    requires NodesMatch(t)
    ensures NodesMatch(AddEntry(t, e))
  {
    var u := AddEntry(t, e);
    forall n | n in u.bitmap ensures Lists(u.programs, n) {
      if e.number in t.bitmap {
        var i :| 0 <= i < |t.programs| && t.programs[i].number == n;
        assert u.programs[i].number == n;
      } else {
        ListsMore(t.programs, e, n);
      }
    }
  }

  lemma {:induction false} OrderKept(t: Table, es: seq<Entry>, e: Entry)
    requires BitsMatch(t, es) && NodesMatch(t) && OrderMatches(t, es)
    ensures OrderMatches(AddEntry(t, e), es + [e])
  {
    var u := AddEntry(t, e);
    forall i | 0 <= i < |t.programs|
      ensures u.programs[i].number == t.programs[i].number
      ensures First(es + [e], u.programs[i].number) == First(es, t.programs[i].number) < |es|
    {
      FirstMore(es, e, t.programs[i].number);
    }
    FirstMore(es, e, e.number);
  }

  lemma {:induction false} PidsKept(t: Table, es: seq<Entry>, e: Entry)
    requires BitsMatch(t, es) && NodesMatch(t) && PidsMatch(t, es)
    ensures PidsMatch(AddEntry(t, e), es + [e])
  {
    forall i | 0 <= i < |t.programs| ensures Lists(es, t.programs[i].number) {
    }
    forall i | 0 <= i < |AddEntry(t, e).programs|
      ensures var p := AddEntry(t, e).programs[i];
              Lists(es + [e], p.number) && p.pid == LatestPid(es + [e], p.number)
    {
      LatestMore(es, e, if i < |t.programs| then t.programs[i].number else e.number);
    }
  }

  lemma {:induction false} AllDescribed(t: Table, done: seq<Entry>, es: seq<Entry>)
    requires Describes(t, done)
    ensures Describes(AddAll(t, es), done + es)
    decreases |es|
  {
    if es == [] {
      assert done + es == done;
    } else {
      BitsKept(t, done, es[0]);
      NodesKept(t, es[0]);
      OrderKept(t, done, es[0]);
      PidsKept(t, done, es[0]);
      AllDescribed(AddEntry(t, es[0]), done + [es[0]], es[1..]);
      assert done + [es[0]] + es[1..] == done + es;
    }
  }

  /** After any entries, from an empty list: bits, nodes, order and PIDs. */
  lemma {:induction false} ListIsRight(h: Header, es: seq<Entry>)
    ensures Describes(AddAll(Table(h, {}, []), es), es)
  {
    AllDescribed(Table(h, {}, []), [], es);
    assert [] + es == es;
  }

  // ----- versions -----

  /** A long section whose body is whole 4-byte entries. */
  predicate WellFormed(s: seq<byte>) {
    && SingleSection(s) && IsLong(s)
    && var len := Read16(s, 1) % 4096;
       9 <= len <= MAX_LONG && (len - 9) % 4 == 0
  }

  /** The entries between the header and the CRC of a section. */
  function EntriesOf(s: seq<byte>): seq<Entry>
    requires WellFormed(s)
  {
    Entries(s[8..|s| - 4], |s| - 12)
  }

  datatype Result = Parsed | Skipped | Refused(code: Code)

  /** `psi.pat_list`, and `psi.pat` as an index into it. */
  datatype State = State(list: seq<Table>, active: Option<nat>)

  predicate Linked(p: State) {
    p.active.Some? ==> p.active.value < |p.list|
  }

  function ActiveVersion(p: State): nat
    requires Linked(p)
  {
    if p.active.None? then NO_VERSION else p.list[p.active.value].header.version
  }

  /** A freshly allocated table. */
  const EMPTY := Table(Header(0, false, false, 0, 0, NO_VERSION, false, 0, {}, None), {}, [])

  /** The state before the first section. */
  const FRESH := State([], None)

  /** `parse_pat`. Without a table to go to, the header reader refuses the
      section, and nothing changes. */
  function Parse(p: State, s: seq<byte>, junk: seq<byte>): (r: (State, Result))
    requires Linked(p) && WellFormed(s) && |junk| == 5
    ensures Linked(r.0)
  {
    var check := CheckVersion(s, ActiveVersion(p));
    if check == Older then (p, Skipped)
    else
      var q := if check == Newer then State(p.list + [EMPTY], Some(|p.list|)) else p;
      if q.active.None? then (q, Refused(NullPointer))
      else
        var n := q.active.value;
        var (h, code) := ParseHeader(q.list[n].header, s, junk);
        var t := q.list[n].(header := h);
        if code != Done then (q.(list := q.list[n := t]), Refused(code))
        else
          DataLength(q.list[n].header, s, junk);
          (q.(list := q.list[n := AddAll(t, Entries(h.data.value, h.sectionLength - 9))]), Parsed)
  }

  lemma {:induction false} DataLength(h: Header, s: seq<byte>, junk: seq<byte>)
    requires WellFormed(s) && |junk| == 5 && ParseHeader(h, s, junk).1 == Done
    ensures var r := ParseHeader(h, s, junk).0;
            r.data.Some? && |r.data.value| == r.sectionLength && 9 <= r.sectionLength && (r.sectionLength - 9) % 4 == 0
  {
  }

  class Psi {
    var patList: seq<Table>
    var pat: Option<nat>

    ghost function View(): State
      reads this
    {
      State(patList, pat)
    }

    constructor ()
      ensures View() == FRESH
    {
      patList, pat := [], None;
    }

    method ParsePat(s: seq<byte>, junk: seq<byte>) returns (r: Result)
      requires Linked(View()) && WellFormed(s) && |junk| == 5
      modifies this
      ensures (View(), r) == Parse(old(View()), s, junk)
    {
      var curVersion := if pat.None? then NO_VERSION else patList[pat.value].header.version;
      var check := CheckVersion(s, curVersion);
      if check == Newer {
        pat := Some(|patList|);
        patList := patList + [EMPTY];
      } else if check != Same {
        return Skipped;
      }
      if pat.None? {
        return Refused(NullPointer);
      }
      var n := pat.value;
      var t := patList[n];
      var (h, code) := ParseHeader(t.header, s, junk);
      t := t.(header := h);
      if code != Done {
        patList := patList[n := t];
        return Refused(code);
      }
      DataLength(patList[n].header, s, junk);
      t := ParseEntries(t, h.data.value, h.sectionLength);
      patList := patList[n := t];
      return Parsed;
    }
  }

  /** Consecutive versions rise, except after version 31. */
  predicate Rising(list: seq<Table>) {
    forall i, j :: 0 <= i && j == i + 1 < |list| ==>
      list[i].header.version < list[j].header.version || list[i].header.version == NO_VERSION
  }

  /** The table has taken its section. */
  predicate Taken(t: Table) {
    0 in t.header.seen && t.header.version < 32
  }

  /** The active table is the last one listed, versions rise, and every table
      has taken its section. */
  predicate Sound(p: State) {
    && p.active == (if p.list == [] then None else Some(|p.list| - 1))
    && Rising(p.list)
    && forall i :: 0 <= i < |p.list| ==> Taken(p.list[i])
  }

  /** Same programs in the same order, same version. */
  predicate Kept(t: Table, u: Table) {
    u.programs == t.programs && u.bitmap == t.bitmap && u.header.version == t.header.version
  }

  /** The table holds exactly what its section listed. */
  ghost predicate Holds(t: Table, s: seq<byte>)
    requires WellFormed(s)
  {
    Describes(t, EntriesOf(s)) && t.header.version == VersionField(s[5])
  }

  lemma {:induction false} KeptHolds(t: Table, u: Table, s: seq<byte>)
    requires WellFormed(s) && Holds(t, s) && Kept(t, u)
    ensures Holds(u, s)
  {
  }

  /** A section of the active or of an older version changes no program list
      and adds no table. */
  lemma {:induction false} OldVersionsAreIgnored(p: State, s: seq<byte>, junk: seq<byte>)
    requires Sound(p) && WellFormed(s) && |junk| == 5
    requires CheckVersion(s, ActiveVersion(p)) != Newer
    ensures var (r, result) := Parse(p, s, junk);
            && result != Parsed && |r.list| == |p.list| && Sound(r) && ActiveVersion(r) == ActiveVersion(p)
            && forall i :: 0 <= i < |p.list| ==> Kept(p.list[i], r.list[i])
  {
    if p.list != [] {
      assert Taken(p.list[|p.list| - 1]);
    }
  }

  /** A newer section becomes the active table, with exactly its entries. */
  lemma {:induction false} NewVersionsAreListed(p: State, s: seq<byte>, junk: seq<byte>)
    requires Sound(p) && WellFormed(s) && |junk| == 5
    requires CheckVersion(s, ActiveVersion(p)) == Newer
    ensures var (r, result) := Parse(p, s, junk);
            && result == Parsed && Sound(r) && |r.list| == |p.list| + 1 && r.list[..|p.list|] == p.list
            && ActiveVersion(r) == VersionField(s[5]) && Holds(r.list[|p.list|], s)
  {
    var h := ParseHeader(EMPTY.header, s, junk).0;
    DataLength(EMPTY.header, s, junk);
    BodyEntries(s, junk);
    var t := AddAll(EMPTY.(header := h), EntriesOf(s));
    ListIsRight(h, EntriesOf(s));
    AddAllHeader(EMPTY.(header := h), EntriesOf(s));
    SetLast(p.list, EMPTY, t);
    SoundMore(p, t);
  }

  /** Neither the CRC nor the bytes behind it count as entries. */
  lemma {:induction false} BodyEntries(s: seq<byte>, junk: seq<byte>)
    requires WellFormed(s)
    ensures Entries(s[8..] + junk, |s| - 12) == EntriesOf(s)
  {
    var (body, more) := (s[8..|s| - 4], s[|s| - 4..] + junk);
    assert s[8..] + junk == body + more;
    EntriesPrefix(body, more);
  }

  lemma {:induction false} SoundMore(p: State, t: Table)
    requires Sound(p) && Taken(t) && (ActiveVersion(p) < t.header.version || ActiveVersion(p) == NO_VERSION)
    ensures Sound(State(p.list + [t], Some(|p.list|))) && (p.list + [t])[..|p.list|] == p.list
  {
    var more := p.list + [t];
    assert forall i :: 0 <= i < |p.list| ==> more[i] == p.list[i];
    assert more[|p.list|] == t;
  }

  lemma {:induction false} AddAllHeader(t: Table, es: seq<Entry>)
    ensures AddAll(t, es).header == t.header
    decreases |es|
  {
    if es != [] {
      AddAllHeader(AddEntry(t, es[0]), es[1..]);
    }
  }

  /** Sending a section again changes nothing at all. */
  lemma {:induction false} RetransmissionIsIdempotent(p: State, s: seq<byte>, junk: seq<byte>, junk': seq<byte>)
    requires Sound(p) && WellFormed(s) && |junk| == |junk'| == 5
    ensures var once := Parse(p, s, junk).0;
            Parse(once, s, junk').0 == once
  {
    var once := Parse(p, s, junk).0;
    if CheckVersion(s, ActiveVersion(p)) == Newer {
      NewVersionsAreListed(p, s, junk);
      var h := ParseHeader(EMPTY.header, s, junk).0;
      DataLength(EMPTY.header, s, junk);
      AddAllHeader(EMPTY.(header := h), Entries(h.data.value, h.sectionLength - 9));
      HeaderAgain(EMPTY.header, s, junk, junk');
    } else {
      OldVersionsAreIgnored(p, s, junk);
      if CheckVersion(s, ActiveVersion(p)) == Same && p.list != [] {
        HeaderAgain(p.list[|p.list| - 1].header, s, junk, junk');
      }
    }
  }

  lemma {:induction false} HeaderAgain(h: Header, s: seq<byte>, junk: seq<byte>, junk': seq<byte>)
    requires WellFormed(s) && |junk| == |junk'| == 5
    ensures var h1 := ParseHeader(h, s, junk).0;
            ParseHeader(h1, s, junk') == (h1, Duplicate)
  {
  }

  // ----- runs -----

  predicate GoodInputs(ins: seq<Input>) {
    forall i :: 0 <= i < |ins| ==> WellFormed(ins[i].section) && |ins[i].junk| == 5
  }

  function ParseAll(p: State, ins: seq<Input>): (r: State)
    requires Linked(p) && GoodInputs(ins)
    ensures Linked(r)
    decreases |ins|
  {
    if ins == [] then p else ParseAll(Parse(p, ins[0].section, ins[0].junk).0, ins[1..])
  }

  /** The sections that count as new, told from the version fields alone. */
  function Accepted(active: nat, ins: seq<Input>): (r: seq<seq<byte>>)
    requires GoodInputs(ins)
    ensures forall i :: 0 <= i < |r| ==> WellFormed(r[i])
    decreases |ins|
  {
    if ins == [] then []
    else
      var s := ins[0].section;
      if CheckVersion(s, active) == Newer then [s] + Accepted(VersionField(s[5]), ins[1..])
      else Accepted(active, ins[1..])
  }

  /** From the tables of `before` to those of `after`: the old ones are kept,
      and the new ones hold the accepted sections, one each, in order. */
  ghost predicate Extends(before: seq<Table>, after: seq<Table>, accepted: seq<seq<byte>>)
    requires forall i :: 0 <= i < |accepted| ==> WellFormed(accepted[i])
  {
    && |after| == |before| + |accepted|
    && (forall i :: 0 <= i < |before| ==> Kept(before[i], after[i]))
    && forall i :: 0 <= i < |accepted| ==> Holds(after[|before| + i], accepted[i])
  }

  /** On every run: the active table is the last one, versions rise, old tables
      keep their lists, and the new tables hold the accepted sections. */
  lemma {:induction false} RunsAreSound(p: State, ins: seq<Input>)
    requires Sound(p) && GoodInputs(ins)
    ensures Sound(ParseAll(p, ins))
    ensures Extends(p.list, ParseAll(p, ins).list, Accepted(ActiveVersion(p), ins))
    decreases |ins|
  {
    if ins != [] {
      hide Parse, CheckVersion, Holds, Kept, Describes;
      var (s, junk, rest) := (ins[0].section, ins[0].junk, ins[1..]);
      var q := Parse(p, s, junk).0;
      if CheckVersion(s, ActiveVersion(p)) == Newer {
        NewVersionsAreListed(p, s, junk);
        RunsAreSound(q, rest);
        ExtendsNew(p.list, q.list, ParseAll(q, rest).list, s, Accepted(VersionField(s[5]), rest));
      } else {
        OldVersionsAreIgnored(p, s, junk);
        RunsAreSound(q, rest);
        ExtendsOld(p.list, q.list, ParseAll(q, rest).list, Accepted(ActiveVersion(p), rest));
      }
    }
  }

  lemma {:induction false} ExtendsOld(before: seq<Table>, mid: seq<Table>, after: seq<Table>,
                                      accepted: seq<seq<byte>>)
    requires forall i :: 0 <= i < |accepted| ==> WellFormed(accepted[i])
    requires |mid| == |before| && forall i :: 0 <= i < |before| ==> Kept(before[i], mid[i])
    requires Extends(mid, after, accepted)
    ensures Extends(before, after, accepted)
  {
    forall i | 0 <= i < |before| ensures Kept(before[i], after[i]) {
      assert Kept(before[i], mid[i]) && Kept(mid[i], after[i]);
    }
  }

  lemma {:induction false} ExtendsNew(before: seq<Table>, mid: seq<Table>, after: seq<Table>, s: seq<byte>,
                                      accepted: seq<seq<byte>>)
    requires WellFormed(s) && forall i :: 0 <= i < |accepted| ==> WellFormed(accepted[i])
    requires |mid| == |before| + 1 && mid[..|before|] == before && Holds(mid[|before|], s)
    requires Extends(mid, after, accepted)
    ensures Extends(before, after, [s] + accepted)
  {
    forall i | 0 <= i < |before| ensures Kept(before[i], after[i]) {
      assert before[i] == mid[i];
    }
    KeptHolds(mid[|before|], after[|before|], s);
    var all := [s] + accepted;
    forall i | 0 <= i < |all| ensures Holds(after[|before| + i], all[i]) {
      if i > 0 {
        assert all[i] == accepted[i - 1] && after[|before| + i] == after[|mid| + (i - 1)];
      }
    }
  }
}
