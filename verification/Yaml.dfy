/** The YAML writer of src/result.c as a step function, and the block text of
    the tree that its calls denote. */
module Yaml {
  import opened Options
  import opened ResultTree
  import E = Emitter

  type Event = E.Event

  // ----- duplicate mapping keys -----

  /** A key seen in a mapping and how often. */
  datatype KeyRec = KeyRec(key: string, count: nat)

  function Decimal(n: nat): (s: string)
    ensures s != ""
  {
    var digit := ['0' + (n % 10) as char];
    if n < 10 then digit else Decimal(n / 10) + digit
  }

  /** The suffixed key goes through a buffer of 64 bytes; a character of a
      string stands for one byte. */
  const KEY_BUFFER := 64

  function Fit(s: string): string {
    if |s| < KEY_BUFFER then s else s[..KEY_BUFFER - 1]
  }

  function Suffixed(key: string, n: nat): string { key + " #" + Decimal(n) }

  /** Where `key` is recorded, or the number of records. */
  function Find(recs: seq<KeyRec>, key: string): (i: nat)
    ensures i <= |recs|
    ensures i < |recs| ==> recs[i].key == key
    ensures forall j :: 0 <= j < i ==> recs[j].key != key
  {
    if recs == [] || recs[0].key == key then 0 else 1 + Find(recs[1..], key)
  }

  /** `y_dedup_key`: the key that is written, and the records afterwards. */
  function EmittedKey(recs: seq<KeyRec>, key: string): string {
    var i := Find(recs, key);
    if i < |recs| then Fit(Suffixed(key, recs[i].count + 1)) else key
  }

  function Record(recs: seq<KeyRec>, key: string): seq<KeyRec> {
    var i := Find(recs, key);
    if i < |recs| then recs[i := KeyRec(key, recs[i].count + 1)] else recs + [KeyRec(key, 1)]
  }

  function Records(raw: seq<string>): seq<KeyRec> {
    if raw == [] then [] else Record(Records(raw[..|raw| - 1]), raw[|raw| - 1])
  }

  // ----- the writer -----

  datatype Mapping = Mapping(lv: int, childLv: int, close: Option<Bracket>, keys: seq<KeyRec>)

  datatype State = State(stack: seq<Mapping>, first: bool, out: string)

  function Top(s: State): Mapping
    requires s.stack != []
  {
    s.stack[|s.stack| - 1]
  }

  function WithTop(s: State, m: Mapping): State
    requires s.stack != []
  {
    s.(stack := s.stack[|s.stack| - 1 := m])
  }

  function Seal(s: State, minClose: int): (r: State)
    ensures s.stack != [] ==> r.stack != []
    decreases |s.stack|
  {
    if |s.stack| > 1 && Top(s).lv >= minClose then Seal(s.(stack := s.stack[..|s.stack| - 1]), minClose) else s
  }

  /** The line break, left out before the first line, and the indentation. */
  function Line(s: State): State
    requires s.stack != []
  {
    s.(first := false, out := s.out + (if s.first then "" else "\n") + Spaces(2 * (|s.stack| - 1)))
  }

  /** The dash of a list item; a keyed item is a mapping of its own. */
  function Dash(s: State, e: Event): (r: State)
    requires s.stack != []
    ensures r.stack != []
  {
    var wrap := e.key.Some? && Top(s).close == Some(Square);
    var t := if wrap || e.key.None? then s.(out := s.out + "- ") else s;
    if wrap then t.(stack := s.stack + [Mapping(e.lv, e.lv, Some(Curly), [])]) else t
  }

  function Resolve(s: State, e: Event): (r: State)
    requires s.stack != []
    ensures |r.stack| == |s.stack|
  {
    if |s.stack| > 1 && Top(s).childLv < 0 then
      WithTop(s, Top(s).(childLv := e.lv, close := Some(if e.key.None? then Square else Curly)))
    else s
  }

  function WriteKey(s: State, e: Event): (r: State)
    requires s.stack != []
    ensures |r.stack| == |s.stack|
  {
    if e.key.None? then s
    else
      var m := Top(s);
      WithTop(s, m.(keys := Record(m.keys, e.key.value)))
        .(out := s.out + Quoted(EmittedKey(m.keys, e.key.value)) + ":")
  }

  function Payload(s: State, e: Event): (r: State)
    requires s.stack != []
    ensures r.stack != []
  {
    if e.val.Some? then s.(out := s.out + (if e.key.Some? then " " else "") + Quoted(e.val.value))
    else if e.key.Some? then s.(stack := s.stack + [Mapping(e.lv, -1, None, [])])
    else s
  }

  /** All that `y_emit` does after the indentation. */
  function Write(s: State, e: Event): (r: State)
    requires s.stack != []
    ensures r.stack != []
  {
    Payload(WriteKey(Resolve(Dash(s, e), e), e), e)
  }

  /** One call of `y_emit`. */
  function Emit(s: State, e: Event): (r: State)
    requires s.stack != []
    ensures r.stack != []
  {
    Write(Line(Seal(s, E.MinClose(e))), e)
  }

  function Run(s: State, evs: seq<Event>): (r: State)
    requires s.stack != []
    ensures r.stack != []
    decreases |evs|
  {
    if evs == [] then s else Run(Emit(s, evs[0]), evs[1..])
  }

  /** `res_open`; `hier_close` writes nothing in YAML. */
  function Start(): State {
    State([Mapping(-1, 0, Some(Curly), [])], true, "")
  }

  // ----- the text of a tree -----

  function KeyOf(m: Member): seq<string> {
    if m.key.Some? then [m.key.value] else []
  }

  function KeysOf(kids: seq<Member>): seq<string> {
    if kids == [] then [] else KeyOf(kids[0]) + KeysOf(kids[1..])
  }

  /** One child in the container with stack index `d` whose earlier keys are
      `raw`, from its dash or key on. */
  function RenderItem(m: Member, d: nat, raw: seq<string>): string
    decreases m, 0
  {
    match m
    case Member(None, v) => "- " + RenderEntry(v, d)
    case Member(Some(k), v) =>
      Quoted(EmittedKey(Records(raw), k)) + ":" + RenderValue(v, d)
  }

  /** What follows a dash: a string, or the members of a mapping, the first of
      them on the line of the dash. */
  function RenderEntry(v: Tree, d: nat): string
    decreases v, 1
  {
    match v
    case Text(s) => Quoted(s)
    case Node(_, kids) => RenderHead(kids, d + 1, [])
  }

  function RenderValue(v: Tree, d: nat): string
    decreases v, 1
  {
    match v
    case Text(s) => " " + Quoted(s)
    case Node(_, kids) => RenderLines(kids, d + 1, [])
  }

  function RenderHead(kids: seq<Member>, d: nat, raw: seq<string>): string
    decreases kids, 0
  {
    if kids == [] then ""
    else RenderItem(kids[0], d, raw) + RenderLines(kids[1..], d, raw + KeyOf(kids[0]))
  }

  function RenderLines(kids: seq<Member>, d: nat, raw: seq<string>): string
    decreases kids, 1
  {
    if kids == [] then "" else "\n" + Spaces(2 * d) + RenderHead(kids, d, raw)
  }
}
