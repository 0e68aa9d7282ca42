/** When the keys written into one YAML mapping are pairwise distinct, as
    section 3.2.1.1 of YAML 1.2 demands. */
module YamlKeys {
  import opened Yaml

  /** The keys written for the raw keys of one mapping, in order. */
  function Emitted(raw: seq<string>): (r: seq<string>)
    ensures |r| == |raw|
  {
    if raw == [] then []
    else
      var n := |raw| - 1;
      Emitted(raw[..n]) + [EmittedKey(Records(raw[..n]), raw[n])]
  }

  predicate Distinct(s: seq<string>) {
    forall i, j :: 0 <= i < j < |s| ==> s[i] != s[j]
  }

  function Count(raw: seq<string>, key: string): nat {
    if raw == [] then 0
    else Count(raw[..|raw| - 1], key) + (if raw[|raw| - 1] == key then 1 else 0)
  }

  /** The `i`-th key has occurred before. */
  predicate Repeat(raw: seq<string>, i: nat)
    requires i < |raw|
  {
    raw[i] in raw[..i]
  }

  /** What a repeat is renamed to, before the buffer cuts it. */
  function Renamed(raw: seq<string>, i: nat): string
    requires i < |raw|
  {
    Suffixed(raw[i], Count(raw[..i + 1], raw[i]))
  }

  /** What is written for a repeat: the new name, cut to the buffer. */
  function Cut(raw: seq<string>, i: nat): string
    requires i < |raw|
  {
    Fit(Renamed(raw, i))
  }

  /** Some repeat is written under a key that the mapping uses itself, or under
      the cut name of an earlier repeat. */
  predicate Clash(raw: seq<string>) {
    exists j :: 0 <= j < |raw| && Clashes(raw, j)
  }

  predicate Clashes(raw: seq<string>, j: nat)
    requires j < |raw|
  {
    Repeat(raw, j) && (Cut(raw, j) in raw || exists i :: 0 <= i < j && Repeat(raw, i) && Cut(raw, i) == Cut(raw, j))
  }

  /** No name is cut. */
  predicate Fits(raw: seq<string>) {
    forall i :: 0 <= i < |raw| && Repeat(raw, i) ==> |Renamed(raw, i)| < KEY_BUFFER
  }

  // ----- what the records hold -----

  predicate KeysUnique(recs: seq<KeyRec>) {
    forall i, j :: 0 <= i < j < |recs| ==> recs[i].key != recs[j].key
  }

  lemma {:induction false} RecordKeeps(recs: seq<KeyRec>, key: string, other: string)
    requires KeysUnique(recs)
    ensures var r := Record(recs, key);
            && KeysUnique(r)
            && Find(r, key) < |r|
            && r[Find(r, key)].count == (if Find(recs, key) < |recs| then recs[Find(recs, key)].count + 1 else 1)
            && (other != key ==>
                  && (Find(r, other) < |r| <==> Find(recs, other) < |recs|)
                  && (Find(recs, other) < |recs| ==> r[Find(r, other)] == recs[Find(recs, other)]))
  {
    var (r, i) := (Record(recs, key), Find(recs, key));
    assert r[i].key == key && (forall j :: 0 <= j < |recs| && j != i ==> r[j] == recs[j]);
    FindIs(r, key, i);
    if other != key {
      var o := Find(recs, other);
      if o < |recs| {
        assert r[o] == recs[o];
        FindIs(r, other, o);
      }
    }
  }

  lemma {:induction false} FindIs(recs: seq<KeyRec>, key: string, i: nat)
    requires KeysUnique(recs) && i < |recs| && recs[i].key == key
    ensures Find(recs, key) == i
  {
  }

  lemma {:induction false} RecordsCount(raw: seq<string>, key: string)
    ensures var r := Records(raw);
            && KeysUnique(r)
            && (Find(r, key) < |r| <==> key in raw)
            && (key in raw ==> r[Find(r, key)].count == Count(raw, key))
            && (key in raw <==> Count(raw, key) > 0)
  {
    if raw != [] {
      var n := |raw| - 1;
      RecordsCount(raw[..n], key);
      RecordsCount(raw[..n], raw[n]);
      RecordKeeps(Records(raw[..n]), raw[n], key);
      assert raw == raw[..n] + [raw[n]];
    }
  }

  /** Every first occurrence keeps its key, every repeat is renamed. */
  lemma {:induction false} EmittedAt(raw: seq<string>, i: nat)
    requires i < |raw|
    ensures Emitted(raw)[i] == if Repeat(raw, i) then Fit(Renamed(raw, i)) else raw[i]
  {
    var n := |raw| - 1;
    if i == n {
      RecordsCount(raw[..n], raw[n]);
      assert raw[..n + 1] == raw;
    } else {
      EmittedAt(raw[..n], i);
      assert raw[..n][..i] == raw[..i] && raw[..n][..i + 1] == raw[..i + 1];
    }
  }

  lemma {:induction false} CountGrows(raw: seq<string>, i: nat, j: nat, key: string)
    requires i <= j <= |raw|
    ensures Count(raw[..i], key) <= Count(raw[..j], key)
    decreases j
  {
    if i < j {
      CountGrows(raw, i, j - 1, key);
      assert raw[..j][..j - 1] == raw[..j - 1];
    }
  }

  // ----- renaming is injective -----

  predicate Digits(s: string) {
    forall i :: 0 <= i < |s| ==> '0' <= s[i] <= '9'
  }

  lemma {:induction false} DecimalDigits(n: nat)
    ensures Digits(Decimal(n))
  {
    if n >= 10 {
      DecimalDigits(n / 10);
    }
  }

  lemma {:induction false} DecimalInjective(a: nat, b: nat)
    requires Decimal(a) == Decimal(b)
    ensures a == b
  {
    var (x, y) := (Decimal(a), Decimal(b));
    assert x[|x| - 1] == '0' + (a % 10) as char && y[|y| - 1] == '0' + (b % 10) as char;
    assert a % 10 == b % 10;
    if a >= 10 && b >= 10 {
      assert Decimal(a / 10) == x[..|x| - 1] && Decimal(b / 10) == y[..|y| - 1];
      DecimalInjective(a / 10, b / 10);
    }
  }

  lemma {:induction false} SuffixShape(k: string, m: nat)
    ensures var s := Suffixed(k, m);
            && |s| >= |k| + 2 && s[|k| + 1] == '#'
            && forall i :: |k| + 2 <= i < |s| ==> '0' <= s[i] <= '9'
  {
    DecimalDigits(m);
    var s := Suffixed(k, m);
    assert s[|k| + 2..] == Decimal(m);
    assert forall i :: |k| + 2 <= i < |s| ==> s[i] == Decimal(m)[i - |k| - 2];
  }

  lemma {:induction false} SuffixInjective(k: string, m: nat, l: string, n: nat)
    requires Suffixed(k, m) == Suffixed(l, n)
    ensures k == l && m == n
  {
    SuffixShape(k, m);
    SuffixShape(l, n);
    var s := Suffixed(k, m);
    assert k == s[..|k|] && l == s[..|l|];
    assert Decimal(m) == s[|k| + 2..] && Decimal(n) == s[|l| + 2..];
    DecimalInjective(m, n);
  }

  // ----- the result -----

  lemma {:induction false} FirstOccurrence(raw: seq<string>, key: string) returns (i: nat)
    requires key in raw
    ensures i < |raw| && raw[i] == key && !Repeat(raw, i)
  {
    var n := |raw| - 1;
    if key in raw[..n] {
      i := FirstOccurrence(raw[..n], key);
      assert raw[..n][..i] == raw[..i];
    } else {
      i := n;
    }
  }

  /** The written keys of a mapping are pairwise distinct exactly when no
      repeat clashes. */
  lemma {:induction false} KeysDistinct(raw: seq<string>)
    ensures Distinct(Emitted(raw)) <==> !Clash(raw)
  {
    if Clash(raw) {
      var j :| 0 <= j < |raw| && Clashes(raw, j);
      ClashRepeats(raw, j);
    } else if !Distinct(Emitted(raw)) {
      var i, j :| 0 <= i < j < |raw| && Emitted(raw)[i] == Emitted(raw)[j];
      SameEmitted(raw, i, j);
    }
  }

  lemma {:induction false} ClashRepeats(raw: seq<string>, j: nat)
    requires j < |raw| && Clashes(raw, j)
    ensures !Distinct(Emitted(raw))
  {
    hide Emitted, Fit, Renamed;
    EmittedAt(raw, j);
    var i: nat;
    if Cut(raw, j) in raw {
      i := FirstOccurrence(raw, Cut(raw, j));
    } else {
      i :| 0 <= i < j && Repeat(raw, i) && Cut(raw, i) == Cut(raw, j);
    }
    EmittedAt(raw, i);
    assert i != j && Emitted(raw)[i] == Emitted(raw)[j];
  }

  lemma {:induction false} SameEmitted(raw: seq<string>, i: nat, j: nat)
    requires i < j < |raw| && Emitted(raw)[i] == Emitted(raw)[j]
    ensures Clash(raw)
  {
    EmittedAt(raw, i);
    EmittedAt(raw, j);
    assert raw[i] == raw[..j][i];
    if Repeat(raw, j) {
      assert Clashes(raw, j);
    } else {
      assert Repeat(raw, i) && Clashes(raw, i);
    }
  }

  /** Where no name is cut, only keys of the mapping itself can clash. */
  lemma {:induction false} FittingClash(raw: seq<string>)
    requires Fits(raw)
    ensures Clash(raw) <==> exists j :: 0 <= j < |raw| && Repeat(raw, j) && Renamed(raw, j) in raw
  {
    if Clash(raw) {
      var j :| 0 <= j < |raw| && Clashes(raw, j);
      if Cut(raw, j) !in raw {
        var i :| 0 <= i < j && Repeat(raw, i) && Cut(raw, i) == Cut(raw, j);
        RepeatsDiffer(raw, i, j);
      }
    } else {
      forall j | 0 <= j < |raw| && Repeat(raw, j) ensures Renamed(raw, j) !in raw {
        assert !Clashes(raw, j);
      }
    }
  }

  /** Uncut, the names of two repeats differ. */
  lemma {:induction false} RepeatsDiffer(raw: seq<string>, i: nat, j: nat)
    requires i < j < |raw|
    ensures Renamed(raw, i) != Renamed(raw, j)
  {
    assert raw[..j + 1][..j] == raw[..j];
    CountGrows(raw, i + 1, j, raw[j]);
    if Renamed(raw, i) == Renamed(raw, j) {
      SuffixInjective(raw[i], Count(raw[..i + 1], raw[i]), raw[j], Count(raw[..j + 1], raw[j]));
    }
  }

  /** The buffer matters: a key of 63 characters clashes when it is used twice,
      and one of 61 or more when it is used three times, whatever else the
      mapping holds. */
  lemma {:induction false} LongKeysClash(raw: seq<string>, i: nat, j: nat, k: nat)
    requires i < j <= k < |raw| && raw[i] == raw[j] == raw[k]
    requires if j == k then |raw[i]| == KEY_BUFFER - 1 else |raw[i]| >= KEY_BUFFER - 3
    ensures Clash(raw)
  {
    var key := raw[i];
    assert raw[..j][i] == key && raw[..k][i] == key;
    LongCut(key, Count(raw[..j + 1], key));
    LongCut(key, Count(raw[..k + 1], key));
    if j == k {
      assert (key + " #")[..KEY_BUFFER - 1] == key;
    } else {
      assert Repeat(raw, j) && Cut(raw, j) == Cut(raw, k);
    }
    assert Clashes(raw, k);
  }

  lemma {:induction false} LongCut(key: string, n: nat)
    requires |key| >= KEY_BUFFER - 3
    ensures Fit(Suffixed(key, n)) == (key + " #")[..KEY_BUFFER - 1]
  {
    var s := Suffixed(key, n);
    assert s[..|key| + 2] == key + " #";
    assert s[..KEY_BUFFER - 1] == s[..|key| + 2][..KEY_BUFFER - 1];
  }

  // ----- what the suffix says -----

  /** The value of a decimal numeral, by Horner's rule. */
  function Horner(s: string): nat
    requires Digits(s)
  {
    if s == "" then 0 else 10 * Horner(s[..|s| - 1]) + (s[|s| - 1] as int - '0' as int)
  }

  /** A numeral of `n` without leading zeros. */
  predicate IsNumeral(s: string, n: nat) {
    s != "" && Digits(s) && (|s| > 1 ==> s[0] != '0') && Horner(s) == n
  }

  lemma {:induction false} DecimalValue(n: nat)
    ensures IsNumeral(Decimal(n), n) && (n > 0 ==> Decimal(n)[0] != '0')
  {
    DecimalDigits(n);
    var s := Decimal(n);
    if n < 10 {
      assert s[..0] == "";
    } else {
      DecimalValue(n / 10);
      assert s[..|s| - 1] == Decimal(n / 10);
    }
  }

  /** How many positions hold the key. */
  function Positions(raw: seq<string>, key: string): set<nat> {
    set j: nat | j < |raw| && raw[j] == key
  }

  lemma {:induction false} CountIsPositions(raw: seq<string>, key: string)
    ensures Count(raw, key) == |Positions(raw, key)|
  {
    if raw != [] {
      var n := |raw| - 1;
      CountIsPositions(raw[..n], key);
      assert Positions(raw, key) == Positions(raw[..n], key) + if raw[n] == key then {n} else {};
    }
  }

  /** The key, a number sign and the numeral of `n`, as far as the buffer holds
      it. */
  ghost predicate Numbered(key: string, n: nat, written: string) {
    exists digits :: IsNumeral(digits, n) &&
      written == var full := key + " #" + digits; if |full| < 64 then full else full[..63]
  }

  /** What has to be written for a key after those of `raw` in the same mapping:
      the key itself the first time, and later the key with the number of this
      occurrence. */
  ghost predicate WrittenFor(raw: seq<string>, key: string, written: string) {
    var earlier := Positions(raw, key);
    if earlier == {} then written == key else Numbered(key, |earlier| + 1, written)
  }

  lemma {:induction false} DedupedKey(raw: seq<string>, key: string)
    ensures WrittenFor(raw, key, EmittedKey(Records(raw), key))
  {
    RecordsCount(raw, key);
    CountIsPositions(raw, key);
    if key in raw {
      var j :| 0 <= j < |raw| && raw[j] == key;
      assert j in Positions(raw, key);
      DecimalValue(Count(raw, key) + 1);
    }
  }

  /** Every key is written as it stands the first time it is used in a mapping;
      the `n`-th time it is followed by a number sign and `n` in decimal. */
  lemma {:induction false} EmittedIs(raw: seq<string>, i: nat)
    requires i < |raw|
    ensures WrittenFor(raw[..i], raw[i], Emitted(raw)[i])
    decreases |raw|
  {
    var n := |raw| - 1;
    if i == n {
      DedupedKey(raw[..n], raw[n]);
    } else {
      EmittedIs(raw[..n], i);
      assert raw[..n][..i] == raw[..i];
    }
  }
}
