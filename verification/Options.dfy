/** Results that may be missing. */
module Options {
  import opened Sequences

  datatype Option<+T> = None | Some(value: T)

  /** `list` in front of what the rest of a loop yields, if it yields anything. */
  function Prepend<T>(list: seq<T>, r: Option<seq<T>>): Option<seq<T>> {
    if r.None? then None else Some(list + r.value)
  }

  lemma {:induction false} PrependNothing<T>(r: Option<seq<T>>)
    ensures Prepend([], r) == r
  {
    if r.Some? {
      assert [] + r.value == r.value;
    }
  }

  lemma {:induction false} PrependTwice<T>(a: seq<T>, b: seq<T>, r: Option<seq<T>>)
    ensures Prepend(a, Prepend(b, r)) == Prepend(a + b, r)
  {
    if r.Some? {
      Assoc(a, b, r.value);
    }
  }
}
