/** SCTE 35 splice commands: splice_time(), splice_insert() and
    splice_schedule(), sections 9.7.2 and 9.7.3 of SCTE 35 2022, and the cursor
    and 16-bit length counter of src/scte.c that read them. */
module Scte {
  import opened Options
  import opened Bytes
  import opened Sequences

  // ----- the commands -----

  /** A 33-bit time arrives as a high bit and 32 low bits.  The reader stores
      the last bit of the first byte even when no time is specified. */
  datatype Time = Unspecified(reserved: bool) | Specified(high: bool, low: nat)

  /** `Now` is the splice_immediate_flag case, in which no time is sent. */
  datatype When = Utc(seconds: nat) | Pts(time: Time) | Now

  datatype Component = Component(tag: nat, when: When)

  datatype Target = Program(when: When) | Components(parts: seq<Component>)

  datatype Duration = Duration(autoReturn: bool, high: bool, low: nat)

  datatype Event =
    | Cancelled(id: nat)
    | Planned(id: nat, out: bool, immediate: bool, target: Target, duration: Option<Duration>,
              programId: nat, availNum: nat, availsExpected: nat)

  /** Which command an event is in. */
  datatype Command = Schedule | Insert

  predicate Is32(v: nat) { v < 0x1_0000_0000 }

  predicate GoodTime(t: Time) {
    t.Specified? ==> Is32(t.low)
  }

  predicate GoodWhen(w: When, c: Command, immediate: bool) {
    match w
    case Utc(seconds) => c.Schedule? && Is32(seconds)
    case Pts(time) => c.Insert? && !immediate && GoodTime(time)
    case Now => c.Insert? && immediate
  }

  predicate GoodParts(parts: seq<Component>, c: Command, immediate: bool) {
    forall i :: 0 <= i < |parts| ==> parts[i].tag < 256 && GoodWhen(parts[i].when, c, immediate)
  }

  predicate GoodTarget(t: Target, c: Command, immediate: bool) {
    match t
    case Program(w) => GoodWhen(w, c, immediate)
    case Components(parts) => |parts| < 256 && GoodParts(parts, c, immediate)
  }

  predicate GoodEvent(e: Event, c: Command) {
    && Is32(e.id)
    && (e.Planned? ==>
          && (c.Schedule? ==> !e.immediate)
          && GoodTarget(e.target, c, e.immediate)
          && (e.duration.Some? ==> Is32(e.duration.value.low))
          && e.programId < 65536 && e.availNum < 256 && e.availsExpected < 256)
  }

  predicate GoodEvents(events: seq<Event>) {
    forall i :: 0 <= i < |events| ==> GoodEvent(events[i], Schedule)
  }

  // ----- the encoding; reserved bits are ones -----

  function Bit(b: bool, weight: nat): nat { if b then weight else 0 }

  function Write32(v: nat): (s: seq<byte>)
    requires Is32(v)
    ensures |s| == 4
  {
    Write16(v / 65536) + Write16(v % 65536)
  }

  function EncodeTime(t: Time): seq<byte>
    requires GoodTime(t)
  {
    match t
    case Unspecified(reserved) => [0x7E + Bit(reserved, 1)]
    case Specified(high, low) => [0xFE + Bit(high, 1)] + Write32(low)
  }

  function EncodeWhen(w: When, c: Command, immediate: bool): seq<byte>
    requires GoodWhen(w, c, immediate)
  {
    match w
    case Utc(seconds) => Write32(seconds)
    case Pts(time) => EncodeTime(time)
    case Now => []
  }

  function EncodeParts(parts: seq<Component>, c: Command, immediate: bool): seq<byte>
    requires GoodParts(parts, c, immediate)
  {
    if parts == [] then []
    else [parts[0].tag] + (EncodeWhen(parts[0].when, c, immediate) + EncodeParts(parts[1..], c, immediate))
  }

  function EncodeTarget(t: Target, c: Command, immediate: bool): seq<byte>
    requires GoodTarget(t, c, immediate)
  {
    match t
    case Program(w) => EncodeWhen(w, c, immediate)
    case Components(parts) => [|parts|] + EncodeParts(parts, c, immediate)
  }

  function EncodeDuration(d: Option<Duration>): seq<byte>
    requires d.Some? ==> Is32(d.value.low)
  {
    if d.None? then [] else [0x7E + Bit(d.value.autoReturn, 128) + Bit(d.value.high, 1)] + Write32(d.value.low)
  }

  /** In a schedule the bit of the immediate flag is reserved. */
  function FlagByte(e: Event, c: Command): byte
    requires e.Planned?
  {
    0x0F + Bit(e.out, 128) + Bit(e.target.Program?, 64) + Bit(e.duration.Some?, 32)
      + Bit(e.immediate || c.Schedule?, 16)
  }

  /** What follows the cancel indicator: flags, target, duration, identifiers. */
  function EncodePlan(e: Event, c: Command): seq<byte>
    requires e.Planned? && GoodEvent(e, c)
  {
    [FlagByte(e, c)]
      + (EncodeTarget(e.target, c, e.immediate) + (EncodeDuration(e.duration) + EncodeIds(e, c)))
  }

  function EncodeIds(e: Event, c: Command): seq<byte>
    requires e.Planned? && GoodEvent(e, c)
  {
    Write16(e.programId) + [e.availNum, e.availsExpected]
  }

  function EncodeEvent(e: Event, c: Command): seq<byte>
    requires GoodEvent(e, c)
  {
    Write32(e.id) + (if e.Cancelled? then [0xFF] else [0x7F] + EncodePlan(e, c))
  }

  function EncodeEvents(events: seq<Event>): seq<byte>
    requires GoodEvents(events)
  {
    if events == [] then [] else EncodeEvent(events[0], Schedule) + EncodeEvents(events[1..])
  }

  function EncodeSchedule(events: seq<Event>): seq<byte>
    requires GoodEvents(events) && |events| < 256
  {
    [|events|] + EncodeEvents(events)
  }

  // ----- what the reader sees from a position on; None: past the buffer -----

  /** A value read from a position, and the position after it. */
  datatype Found<+T> = Found(value: T, next: nat)

  predicate Flag(b: byte, weight: nat)
    requires weight > 0
  {
    b / weight % 2 == 1
  }

  function Read32(s: seq<byte>, p: nat): (v: nat)
    requires p + 3 < |s|
    ensures Is32(v)
  {
    Read16(s, p) * 65536 + Read16(s, p + 2)
  }

  function TimeAt(s: seq<byte>, p: nat): Option<Found<Time>> {
    if p >= |s| then None
    else if !Flag(s[p], 128) then Some(Found(Unspecified(Flag(s[p], 1)), p + 1))
    else if p + 5 > |s| then None
    else Some(Found(Specified(Flag(s[p], 1), Read32(s, p + 1)), p + 5))
  }

  function WhenAt(s: seq<byte>, p: nat, c: Command, immediate: bool): Option<Found<When>> {
    if c.Schedule? then
      if p + 4 > |s| then None else Some(Found(Utc(Read32(s, p)), p + 4))
    else if immediate then Some(Found(Now, p))
    else
      var t := TimeAt(s, p);
      if t.None? then None else Some(Found(Pts(t.value.value), t.value.next))
  }

  function PartsAt(s: seq<byte>, p: nat, n: nat, c: Command, immediate: bool): Option<Found<seq<Component>>>
    decreases n
  {
    if n == 0 then Some(Found([], p))
    else if p >= |s| then None
    else
      var w := WhenAt(s, p + 1, c, immediate);
      if w.None? then None else
      var rest := PartsAt(s, w.value.next, n - 1, c, immediate);
      if rest.None? then None
      else Some(Found([Component(s[p], w.value.value)] + rest.value.value, rest.value.next))
  }

  function TargetAt(s: seq<byte>, p: nat, program: bool, c: Command, immediate: bool): Option<Found<Target>> {
    if program then
      var w := WhenAt(s, p, c, immediate);
      if w.None? then None else Some(Found(Program(w.value.value), w.value.next))
    else if p >= |s| then None
    else
      var parts := PartsAt(s, p + 1, s[p], c, immediate);
      if parts.None? then None else Some(Found(Components(parts.value.value), parts.value.next))
  }

  function DurationAt(s: seq<byte>, p: nat, present: bool): Option<Found<Option<Duration>>> {
    if !present then Some(Found(None, p))
    else if p + 5 > |s| then None
    else Some(Found(Some(Duration(Flag(s[p], 128), Flag(s[p], 1), Read32(s, p + 1))), p + 5))
  }

  function PlanAt(s: seq<byte>, p: nat, id: nat, c: Command): Option<Found<Event>> {
    if p >= |s| then None else
    var flags := s[p];
    var immediate := c.Insert? && Flag(flags, 16);
    var t := TargetAt(s, p + 1, Flag(flags, 64), c, immediate);
    if t.None? then None else
    var d := DurationAt(s, t.value.next, Flag(flags, 32));
    if d.None? then None else
    var q := d.value.next;
    if q + 4 > |s| then None
    else Some(Found(Planned(id, Flag(flags, 128), immediate, t.value.value, d.value.value,
                            Read16(s, q), s[q + 2], s[q + 3]), q + 4))
  }

  function EventAt(s: seq<byte>, p: nat, c: Command): Option<Found<Event>> {
    if p + 5 > |s| then None
    else if Flag(s[p + 4], 128) then Some(Found(Cancelled(Read32(s, p)), p + 5))
    else PlanAt(s, p + 5, Read32(s, p), c)
  }

  function EventsAt(s: seq<byte>, p: nat, n: nat): Option<Found<seq<Event>>>
    decreases n
  {
    if n == 0 then Some(Found([], p))
    else
      var e := EventAt(s, p, Schedule);
      if e.None? then None else
      var rest := EventsAt(s, e.value.next, n - 1);
      if rest.None? then None else Some(Found([e.value.value] + rest.value.value, rest.value.next))
  }

  function ScheduleAt(s: seq<byte>): Option<Found<seq<Event>>> {
    if s == [] then None else EventsAt(s, 1, s[0])
  }

  // ----- decoding what was encoded -----

  /** `part` stands in `s` at position `p`. */
  predicate At(s: seq<byte>, p: nat, part: seq<byte>) {
    p + |part| <= |s| && s[p..p + |part|] == part
  }

  lemma AtSplit(s: seq<byte>, p: nat, a: seq<byte>, b: seq<byte>)
    requires At(s, p, a + b)
    ensures At(s, p, a) && At(s, p + |a|, b)
  {
    assert s[p..p + |a|] == (a + b)[..|a|] == a;
    assert s[p + |a|..p + |a| + |b|] == (a + b)[|a|..] == b;
  }

  lemma AtIndex(s: seq<byte>, p: nat, part: seq<byte>, i: nat)
    requires At(s, p, part) && i < |part|
    ensures p + i < |s| && s[p + i] == part[i]
  {
    assert s[p..p + |part|][i] == s[p + i];
  }

  lemma Word(s: seq<byte>, p: nat, v: nat)
    requires Is32(v) && At(s, p, Write32(v))
    ensures p + 4 <= |s| && Read32(s, p) == v
  {
    AtSplit(s, p, Write16(v / 65536), Write16(v % 65536));
    Read16Written(s, p, v / 65536);
    Read16Written(s, p + 2, v % 65536);
  }

  lemma TimeRoundTrip(s: seq<byte>, p: nat, t: Time)
    requires GoodTime(t) && At(s, p, EncodeTime(t))
    ensures TimeAt(s, p) == Some(Found(t, p + |EncodeTime(t)|))
  {
    AtIndex(s, p, EncodeTime(t), 0);
    if t.Specified? {
      AtSplit(s, p, [0xFE + Bit(t.high, 1)], Write32(t.low));
      Word(s, p + 1, t.low);
    }
  }

  lemma WhenRoundTrip(s: seq<byte>, p: nat, w: When, c: Command, immediate: bool)
    requires GoodWhen(w, c, immediate) && At(s, p, EncodeWhen(w, c, immediate))
    ensures WhenAt(s, p, c, immediate) == Some(Found(w, p + |EncodeWhen(w, c, immediate)|))
  {
    match w
    case Utc(seconds) => Word(s, p, seconds);
    case Pts(time) => TimeRoundTrip(s, p, time);
    case Now =>
  }

  lemma PartsStep(s: seq<byte>, p: nat, x: Component, rest: seq<Component>, c: Command, immediate: bool, q: nat, end: nat)
    requires p < |s| && s[p] == x.tag && WhenAt(s, p + 1, c, immediate) == Some(Found(x.when, q))
    requires PartsAt(s, q, |rest|, c, immediate) == Some(Found(rest, end))
    ensures PartsAt(s, p, 1 + |rest|, c, immediate) == Some(Found([x] + rest, end))
  {
  }

  lemma {:induction false} PartsRoundTrip(s: seq<byte>, p: nat, parts: seq<Component>, c: Command, immediate: bool)
    requires GoodParts(parts, c, immediate) && At(s, p, EncodeParts(parts, c, immediate))
    ensures PartsAt(s, p, |parts|, c, immediate)
         == Some(Found(parts, p + |EncodeParts(parts, c, immediate)|))
    decreases |parts|
  {
    hide At, WhenAt, EncodeWhen, GoodWhen;
    if parts != [] {
      var w := EncodeWhen(parts[0].when, c, immediate);
      var rest := EncodeParts(parts[1..], c, immediate);
      AtSplit(s, p, [parts[0].tag], w + rest);
      AtIndex(s, p, [parts[0].tag], 0);
      AtSplit(s, p + 1, w, rest);
      WhenRoundTrip(s, p + 1, parts[0].when, c, immediate);
      PartsRoundTrip(s, p + 1 + |w|, parts[1..], c, immediate);
      PartsStep(s, p, parts[0], parts[1..], c, immediate, p + 1 + |w|, p + 1 + |w| + |rest|);
      assert parts == [parts[0]] + parts[1..];
    }
  }

  lemma TargetRoundTrip(s: seq<byte>, p: nat, t: Target, c: Command, immediate: bool)
    requires GoodTarget(t, c, immediate) && At(s, p, EncodeTarget(t, c, immediate))
    ensures TargetAt(s, p, t.Program?, c, immediate)
         == Some(Found(t, p + |EncodeTarget(t, c, immediate)|))
  {
    hide At, WhenAt, EncodeWhen, GoodWhen, GoodParts, EncodeParts, PartsAt;
    match t
    case Program(w) => WhenRoundTrip(s, p, w, c, immediate);
    case Components(parts) =>
      AtSplit(s, p, [|parts|], EncodeParts(parts, c, immediate));
      AtIndex(s, p, [|parts|], 0);
      PartsRoundTrip(s, p + 1, parts, c, immediate);
  }

  lemma DurationRoundTrip(s: seq<byte>, p: nat, d: Option<Duration>)
    requires (d.Some? ==> Is32(d.value.low)) && At(s, p, EncodeDuration(d))
    ensures DurationAt(s, p, d.Some?) == Some(Found(d, p + |EncodeDuration(d)|))
  {
    if d.Some? {
      AtSplit(s, p, [0x7E + Bit(d.value.autoReturn, 128) + Bit(d.value.high, 1)], Write32(d.value.low));
      AtIndex(s, p, [0x7E + Bit(d.value.autoReturn, 128) + Bit(d.value.high, 1)], 0);
      Word(s, p + 1, d.value.low);
    }
  }

  lemma FlagsRead(e: Event, c: Command)
    requires e.Planned?
    ensures Flag(FlagByte(e, c), 128) == e.out && Flag(FlagByte(e, c), 64) == e.target.Program?
    ensures Flag(FlagByte(e, c), 32) == e.duration.Some? && Flag(FlagByte(e, c), 16) == (e.immediate || c.Schedule?)
  {
  }

  lemma IdsRead(s: seq<byte>, q: nat, e: Event, c: Command)
    requires e.Planned? && GoodEvent(e, c) && At(s, q, EncodeIds(e, c))
    ensures q + 4 <= |s| && Read16(s, q) == e.programId
    ensures s[q + 2] == e.availNum && s[q + 3] == e.availsExpected
  {
    AtSplit(s, q, Write16(e.programId), [e.availNum, e.availsExpected]);
    Read16Written(s, q, e.programId);
    AtIndex(s, q + 2, [e.availNum, e.availsExpected], 0);
    AtIndex(s, q + 2, [e.availNum, e.availsExpected], 1);
  }

  lemma AtSplit4(s: seq<byte>, p: nat, a: seq<byte>, b: seq<byte>, c: seq<byte>, d: seq<byte>)
    requires At(s, p, a + (b + (c + d)))
    ensures At(s, p, a) && At(s, p + |a|, b) && At(s, p + |a| + |b|, c) && At(s, p + |a| + |b| + |c|, d)
  {
    AtSplit(s, p, a, b + (c + d));
    AtSplit(s, p + |a|, b, c + d);
    AtSplit(s, p + |a| + |b|, c, d);
  }

  lemma PlanStep(s: seq<byte>, p: nat, e: Event, c: Command, afterTarget: nat, q: nat)
    requires e.Planned? && p < |s| && s[p] == FlagByte(e, c) && (c.Schedule? ==> !e.immediate)
    requires TargetAt(s, p + 1, e.target.Program?, c, e.immediate) == Some(Found(e.target, afterTarget))
    requires DurationAt(s, afterTarget, e.duration.Some?) == Some(Found(e.duration, q))
    requires q + 4 <= |s| && Read16(s, q) == e.programId
    requires s[q + 2] == e.availNum && s[q + 3] == e.availsExpected
    ensures PlanAt(s, p, e.id, c) == Some(Found(e, q + 4))
  {
    FlagsRead(e, c);
  }

  lemma PlanRoundTrip(s: seq<byte>, p: nat, e: Event, c: Command)
    requires e.Planned? && GoodEvent(e, c) && At(s, p, EncodePlan(e, c))
    ensures PlanAt(s, p, e.id, c) == Some(Found(e, p + |EncodePlan(e, c)|))
  {
    hide TargetAt, EncodeTarget, DurationAt, EncodeDuration, At, PlanAt, GoodTarget, FlagByte;
    var target := EncodeTarget(e.target, c, e.immediate);
    var duration := EncodeDuration(e.duration);
    var q := p + 1 + |target| + |duration|;
    AtSplit4(s, p, [FlagByte(e, c)], target, duration, EncodeIds(e, c));
    AtIndex(s, p, [FlagByte(e, c)], 0);
    TargetRoundTrip(s, p + 1, e.target, c, e.immediate);
    DurationRoundTrip(s, p + 1 + |target|, e.duration);
    IdsRead(s, q, e, c);
    PlanStep(s, p, e, c, p + 1 + |target|, q);
  }

  lemma EventRoundTrip(s: seq<byte>, p: nat, e: Event, c: Command)
    requires GoodEvent(e, c) && At(s, p, EncodeEvent(e, c))
    ensures EventAt(s, p, c) == Some(Found(e, p + |EncodeEvent(e, c)|))
  {
    hide At, Write32, PlanAt, EncodePlan;
    if e.Cancelled? {
      AtSplit(s, p, Write32(e.id), [0xFF]);
      Word(s, p, e.id);
      AtIndex(s, p + 4, [0xFF], 0);
    } else {
      AtSplit(s, p, Write32(e.id), [0x7F] + EncodePlan(e, c));
      Word(s, p, e.id);
      AtSplit(s, p + 4, [0x7F], EncodePlan(e, c));
      AtIndex(s, p + 4, [0x7F], 0);
      PlanRoundTrip(s, p + 5, e, c);
    }
  }

  lemma EventsStep(s: seq<byte>, p: nat, e: Event, rest: seq<Event>, q: nat, end: nat)
    requires EventAt(s, p, Schedule) == Some(Found(e, q)) && EventsAt(s, q, |rest|) == Some(Found(rest, end))
    ensures EventsAt(s, p, 1 + |rest|) == Some(Found([e] + rest, end))
  {
  }

  lemma {:induction false} EventsRoundTrip(s: seq<byte>, p: nat, events: seq<Event>)
    requires GoodEvents(events) && At(s, p, EncodeEvents(events))
    ensures EventsAt(s, p, |events|) == Some(Found(events, p + |EncodeEvents(events)|))
    decreases |events|
  {
    hide At, EventAt, EncodeEvent, GoodEvent;
    if events != [] {
      var first := EncodeEvent(events[0], Schedule);
      var rest := EncodeEvents(events[1..]);
      AtSplit(s, p, first, rest);
      EventRoundTrip(s, p, events[0], Schedule);
      EventsRoundTrip(s, p + |first|, events[1..]);
      EventsStep(s, p, events[0], events[1..], p + |first|, p + |first| + |rest|);
      assert events == [events[0]] + events[1..];
    }
  }

  lemma AtFront(part: seq<byte>, rest: seq<byte>)
    ensures At(part + rest, 0, part)
  {
  }

  /** Every splice_insert() comes back from its encoding, whatever follows it. */
  lemma InsertRoundTrip(e: Event, rest: seq<byte>)
    requires GoodEvent(e, Insert)
    ensures EventAt(EncodeEvent(e, Insert) + rest, 0, Insert) == Some(Found(e, |EncodeEvent(e, Insert)|))
  {
    hide EventAt, EncodeEvent, GoodEvent;
    AtFront(EncodeEvent(e, Insert), rest);
    EventRoundTrip(EncodeEvent(e, Insert) + rest, 0, e, Insert);
  }

  /** Every splice_schedule() comes back from its encoding, whatever follows it. */
  lemma ScheduleRoundTrip(events: seq<Event>, rest: seq<byte>)
    requires GoodEvents(events) && |events| < 256
    ensures ScheduleAt(EncodeSchedule(events) + rest) == Some(Found(events, |EncodeSchedule(events)|))
  {
    hide At, GoodEvents, EncodeEvents, EventsAt;
    var s := EncodeSchedule(events) + rest;
    AtFront(EncodeSchedule(events), rest);
    AtSplit(s, 0, [|events|], EncodeEvents(events));
    AtIndex(s, 0, [|events|], 0);
    EventsRoundTrip(s, 1, events);
  }

  // ----- how far the cursor gets -----

  lemma {:induction false} PartsSpan(s: seq<byte>, p: nat, n: nat, c: Command, immediate: bool)
    requires PartsAt(s, p, n, c, immediate).Some?
    ensures p <= PartsAt(s, p, n, c, immediate).value.next <= p + 6 * n
    decreases n
  {
    if n > 0 {
      PartsSpan(s, WhenAt(s, p + 1, c, immediate).value.next, n - 1, c, immediate);
    }
  }

  /** An event takes at most 1546 bytes, so its length never overflows. */
  lemma EventSpan(s: seq<byte>, p: nat, c: Command)
    requires EventAt(s, p, c).Some?
    ensures p <= EventAt(s, p, c).value.next <= p + 1546
  {
    if !Flag(s[p + 4], 128) && !Flag(s[p + 5], 64) {
      PartsSpan(s, p + 7, s[p + 6], c, c.Insert? && Flag(s[p + 5], 16));
    }
  }

  lemma {:induction false} EventsSpan(s: seq<byte>, p: nat, n: nat)
    requires p <= |s| && EventsAt(s, p, n).Some?
    ensures EventsAt(s, p, n).value.next <= |s|
    decreases n
  {
    if n > 0 {
      EventsSpan(s, EventAt(s, p, Schedule).value.next, n - 1);
    }
  }

  // ----- the cursor and the counter -----

  /** The counter after `k` more bytes. */
  function Add16(len: nat, k: nat): nat { (len + k) % 65536 }

  lemma Counted(p: nat, len: nat, k: nat)
    requires len == p % 65536
    ensures Add16(len, k) == (p + k) % 65536
  {
  }

  lemma PartsNext(s: seq<byte>, p: nat, n: nat, c: Command, immediate: bool)
    requires n > 0 && PartsAt(s, p, n, c, immediate).Some?
    ensures p < |s| && WhenAt(s, p + 1, c, immediate).Some?
    ensures var w := WhenAt(s, p + 1, c, immediate).value;
            var rest := PartsAt(s, w.next, n - 1, c, immediate);
            && rest.Some?
            && PartsAt(s, p, n, c, immediate)
               == Some(Found([Component(s[p], w.value)] + rest.value.value, rest.value.next))
  {
  }

  /** `parse_splice_time`. */
  method ParseTime(s: seq<byte>, p: nat) returns (t: Time, len: nat)
    requires TimeAt(s, p).Some?
    ensures TimeAt(s, p) == Some(Found(t, p + len))
  {
    var high := Flag(s[p], 1);
    len := 1;
    t := Unspecified(high);
    if Flag(s[p], 128) {
      t := Specified(high, Read32(s, p + 1));
      len := len + 4;
    }
  }

  /** One time, as the command at hand carries it. */
  method ParseWhen(s: seq<byte>, start: nat, c: Command, immediate: bool, before: nat)
    returns (w: When, p: nat, len: nat)
    requires WhenAt(s, start, c, immediate).Some? && before == start % 65536
    ensures WhenAt(s, start, c, immediate) == Some(Found(w, p))
    ensures len == p % 65536
  {
    p, len := start, before;
    if c.Schedule? {
      w := Utc(Read32(s, p));
      p, len := p + 4, Add16(len, 4);
    } else if immediate {
      w := Now;
    } else {
      var t, ret := ParseTime(s, p);
      w := Pts(t);
      p, len := p + ret, Add16(len, ret);
    }
  }

  /** The component loop. */
  method ParseComponents(s: seq<byte>, start: nat, n: nat, c: Command, immediate: bool, before: nat)
    returns (parts: seq<Component>, p: nat, len: nat)
    requires PartsAt(s, start, n, c, immediate).Some? && before == start % 65536
    ensures PartsAt(s, start, n, c, immediate) == Some(Found(parts, p))
    ensures len == p % 65536
  {
    hide WhenAt, Add16;
    parts, p, len := [], start, before;
    ghost var all := PartsAt(s, start, n, c, immediate).value;
    assert [] + all.value == all.value;
    for i := 0 to n
      invariant len == p % 65536
      invariant PartsAt(s, p, n - i, c, immediate).Some?
      invariant parts + PartsAt(s, p, n - i, c, immediate).value.value == all.value
      invariant PartsAt(s, p, n - i, c, immediate).value.next == all.next
    {
      PartsNext(s, p, n - i, c, immediate);
      Counted(p, len, 1);
      var tag := s[p];
      var w;
      w, p, len := ParseWhen(s, p + 1, c, immediate, Add16(len, 1));
      Assoc(parts, [Component(tag, w)], PartsAt(s, p, n - i - 1, c, immediate).value.value);
      parts := parts + [Component(tag, w)];
    }
    assert parts + [] == parts;
  }

  method ParseTarget(s: seq<byte>, start: nat, program: bool, c: Command, immediate: bool, before: nat)
    returns (t: Target, p: nat, len: nat)
    requires TargetAt(s, start, program, c, immediate).Some? && before == start % 65536
    ensures TargetAt(s, start, program, c, immediate) == Some(Found(t, p))
    ensures len == p % 65536
  {
    hide WhenAt;
    if program {
      var w;
      w, p, len := ParseWhen(s, start, c, immediate, before);
      t := Program(w);
    } else {
      var parts;
      parts, p, len := ParseComponents(s, start + 1, s[start], c, immediate, Add16(before, 1));
      t := Components(parts);
    }
  }

  method ParseDuration(s: seq<byte>, start: nat, present: bool, before: nat)
    returns (d: Option<Duration>, p: nat, len: nat)
    requires DurationAt(s, start, present).Some? && before == start % 65536
    ensures DurationAt(s, start, present) == Some(Found(d, p))
    ensures len == p % 65536
  {
    d, p, len := None, start, before;
    if present {
      d := Some(Duration(Flag(s[p], 128), Flag(s[p], 1), Read32(s, p + 1)));
      p, len := p + 5, Add16(len, 5);
    }
  }

  /** What follows the cancel indicator. */
  method ParsePlan(s: seq<byte>, start: nat, id: nat, c: Command, before: nat)
    returns (e: Event, p: nat, len: nat)
    requires PlanAt(s, start, id, c).Some? && before == start % 65536
    ensures PlanAt(s, start, id, c) == Some(Found(e, p))
    ensures len == p % 65536
  {
    hide TargetAt, DurationAt, Flag;
    var flags := s[start];
    var immediate := c.Insert? && Flag(flags, 16);
    var target, duration;
    target, p, len := ParseTarget(s, start + 1, Flag(flags, 64), c, immediate, Add16(before, 1));
    duration, p, len := ParseDuration(s, p, Flag(flags, 32), len);
    e := Planned(id, Flag(flags, 128), immediate, target, duration, Read16(s, p), s[p + 2], s[p + 3]);
    p, len := p + 4, Add16(len, 4);
  }

  method ParseEvent(s: seq<byte>, start: nat, c: Command, before: nat)
    returns (e: Event, p: nat, len: nat)
    requires EventAt(s, start, c).Some? && before == start % 65536
    ensures EventAt(s, start, c) == Some(Found(e, p))
    ensures len == p % 65536
  {
    hide PlanAt, Flag;
    var id := Read32(s, start);
    p, len := start + 5, Add16(before, 5);
    if Flag(s[start + 4], 128) {
      e := Cancelled(id);
    } else {
      e, p, len := ParsePlan(s, p, id, c, len);
    }
  }

  /** `parse_splice_insert`: the length returned is the number of bytes read. */
  method ParseInsert(s: seq<byte>) returns (e: Event, len: nat)
    requires EventAt(s, 0, Insert).Some?
    ensures EventAt(s, 0, Insert) == Some(Found(e, len))
  {
    var p;
    EventSpan(s, 0, Insert);
    e, p, len := ParseEvent(s, 0, Insert, 0);
  }

  /** `parse_splice_schedule`: the length returned is the number of bytes read
      exactly when that number fits the 16-bit counter, as it does for every
      section, of which a command is a part. */
  method ParseSchedule(s: seq<byte>) returns (events: seq<Event>, len: nat)
    requires ScheduleAt(s).Some?
    ensures events == ScheduleAt(s).value.value
    ensures len == ScheduleAt(s).value.next % 65536
    ensures len == ScheduleAt(s).value.next <==> ScheduleAt(s).value.next < 65536
    ensures |s| < 65536 ==> len == ScheduleAt(s).value.next
  {
    hide EventAt;
    var n: nat, p: nat := s[0], 1;
    ghost var all := EventsAt(s, 1, n).value;
    events, len := [], 1;
    assert [] + all.value == all.value;
    for i := 0 to n
      invariant len == p % 65536
      invariant EventsAt(s, p, n - i).Some?
      invariant events + EventsAt(s, p, n - i).value.value == all.value
      invariant EventsAt(s, p, n - i).value.next == all.next
    {
      ghost var rest := EventsAt(s, p, n - i).value.value;
      var e;
      e, p, len := ParseEvent(s, p, Schedule, len);
      assert rest == [e] + rest[1..];
      events := events + [e];
    }
    assert events + [] == events;
    EventsSpan(s, 1, s[0]);
  }
}
