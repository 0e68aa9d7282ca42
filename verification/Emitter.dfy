/** The streaming writer of src/result.c as a step function on its container
    stack and output, and the tree that a sequence of calls denotes. */
module Emitter {
  import opened Options
  import opened ResultTree

  /** One `res_put` call: level, optional key, optional formatted value. */
  datatype Event = Event(lv: int, key: Option<string>, val: Option<string>)

  /** An open container. `childLv < 0` and no bracket: not decided yet. */
  datatype Container = Container(lv: int, childLv: int, close: Option<Bracket>, hasChild: bool)

  datatype State = State(stack: seq<Container>, out: string)

  /** A call that opens a container, writes a field or writes an element. */
  predicate IsChild(e: Event) {
    e.lv >= 0 && (e.key.Some? || e.val.Some?)
  }

  /** Containers opened at this level or deeper are closed before the call. */
  function MinClose(e: Event): int {
    if e.key.None? then e.lv + 1 else e.lv
  }

  // ----- the writer -----

  function Top(s: State): Container
    requires s.stack != []
  {
    s.stack[|s.stack| - 1]
  }

  function WithTop(s: State, c: Container): State
    requires s.stack != []
  {
    s.(stack := s.stack[|s.stack| - 1 := c])
  }

  function CloseText(c: Container, d: nat): string {
    Pad(d) + (if c.childLv < 0 then "[]" else if c.close == Some(Square) then "]" else "}")
  }

  function Pop(s: State): State
    requires s.stack != []
  {
    State(s.stack[..|s.stack| - 1], s.out + CloseText(Top(s), |s.stack| - 1))
  }

  /** Step 1 of `j_prelude`: close what the call has ascended out of. */
  function Seal(s: State, minClose: int): (r: State)
    ensures |r.stack| <= |s.stack|
    ensures s.stack != [] ==> r.stack != []
    decreases |s.stack|
  {
    if |s.stack| > 1 && Top(s).lv >= minClose then Seal(Pop(s), minClose) else s
  }

  function Comma(c: Container): string { if c.hasChild then "," else "" }

  /** Step 1b: a keyed member of an array gets an object of its own. */
  function Wrap(s: State, e: Event): (r: State)
    requires s.stack != []
    ensures r.stack != []
  {
    if e.key.Some? && Top(s).close == Some(Square) then
      var arr := Top(s);
      State(s.stack[..|s.stack| - 1] + [arr.(hasChild := true), Container(e.lv, e.lv, Some(Curly), false)],
            s.out + Comma(arr) + Pad(|s.stack| - 1) + "{")
    else s
  }

  /** Step 2: the first child decides between array and object. */
  function Resolve(s: State, e: Event): (r: State)
    requires s.stack != []
    ensures r.stack != []
  {
    if |s.stack| > 1 && Top(s).childLv < 0 then
      var kind := if e.key.None? then Square else Curly;
      WithTop(s, Top(s).(childLv := e.lv, close := Some(kind), hasChild := false))
        .(out := s.out + [Opening(kind)])
    else s
  }

  /** Step 3: separator and indentation. */
  function Lead(s: State): (r: State)
    requires s.stack != []
    ensures r.stack != []
  {
    WithTop(s, Top(s).(hasChild := true)).(out := s.out + Comma(Top(s)) + Pad(|s.stack| - 1))
  }

  /** `j_emit` after the prelude. */
  function Payload(s: State, e: Event): State {
    var keyed := s.(out := s.out + KeyText(e.key));
    if e.val.None? then keyed.(stack := s.stack + [Container(e.lv, -1, None, false)])
    else keyed.(out := keyed.out + Quoted(e.val.value))
  }

  function Place(s: State, e: Event): (r: State)
    requires s.stack != []
    ensures r.stack != []
  {
    Payload(Lead(Resolve(Wrap(s, e), e)), e)
  }

  /** One call of `j_emit`; a call with neither key nor value does nothing. */
  function Emit(s: State, e: Event): (r: State)
    requires s.stack != []
    ensures r.stack != []
  {
    if e.key.None? && e.val.None? then s else Place(Seal(s, MinClose(e)), e)
  }

  function Run(s: State, evs: seq<Event>): (r: State)
    requires s.stack != []
    ensures r.stack != []
    decreases |evs|
  {
    if evs == [] then s else Run(Emit(s, evs[0]), evs[1..])
  }

  /** Close containers until `k` are left. */
  function CloseTo(s: State, k: nat): State
    decreases |s.stack|
  {
    if |s.stack| > k then CloseTo(Pop(s), k) else s
  }

  /** `res_open`: the root container, an object for JSON, an array for HTML. */
  function Start(kind: Bracket): State {
    State([Container(-1, 0, Some(kind), false)], [Opening(kind)])
  }

  /** `hier_close`: pop everything, then the root bracket and a line break. */
  function Finish(s: State, kind: Bracket): string {
    CloseTo(s, 1).out + "\n" + [Closing(kind)] + "\n"
  }

  function Document(kind: Bracket, evs: seq<Event>): string {
    Finish(Run(Start(kind), evs), kind)
  }

  // ----- the tree that the calls denote -----

  /** How many of the calls stay inside a container opened at `lv`. */
  function Span(evs: seq<Event>, lv: int): (n: nat)
    ensures n <= |evs|
    ensures forall i :: 0 <= i < n ==> MinClose(evs[i]) > lv
    ensures n < |evs| ==> MinClose(evs[n]) <= lv
  {
    if evs == [] || MinClose(evs[0]) <= lv then 0 else 1 + Span(evs[1..], lv)
  }

  /** A field, an element, or the empty list item that a call with neither key
      nor value stands for in YAML. */
  predicate IsLeaf(e: Event) {
    e.val.Some? || e.key.None?
  }

  function LeafValue(e: Event): Tree
    requires IsLeaf(e)
  {
    if e.val.Some? then Text(e.val.value) else Node(Square, [])
  }

  /** The children that a run of calls gives to one container. */
  function Kids(evs: seq<Event>, kind: Bracket): seq<Member>
    decreases |evs|, if kind == Square then 1 else 0
  {
    if evs == [] then []
    else
      var (e, rest) := (evs[0], evs[1..]);
      var n := Span(rest, e.lv);
      if kind == Square && e.key.Some? then
        [Member(None, Node(Curly, Kids(evs[..n + 1], Curly)))] + Kids(rest[n..], kind)
      else if IsLeaf(e) then
        [Member(e.key, LeafValue(e))] + Kids(rest, kind)
      else
        [Member(e.key, Content(rest[..n]))] + Kids(rest[n..], kind)
  }

  /** A container is an array when it is empty or its first child is bare. */
  function Content(evs: seq<Event>): Tree
    decreases |evs|, 2
  {
    if evs == [] then Node(Square, [])
    else if evs[0].key.None? then Node(Square, Kids(evs, Square))
    else Node(Curly, Kids(evs, Curly))
  }

  function Build(kind: Bracket, evs: seq<Event>): Tree {
    Node(kind, Kids(evs, kind))
  }
}
