/** Decoded JSON as the Python sanitisers see it, and the text helpers they share. */
module PyJson {

  /** A float that may not be finite: such values pass type tests and fail range tests. */
  datatype Number = Finite(r: real) | NotANumber | Infinite(negative: bool)

  /** Keys are a parameter: each record names its own keys. */
  datatype Value<K> =
    | Null
    | Bool(b: bool)
    | Int(n: int)
    | Float(x: Number)
    | Str(s: string)
    | List(items: seq<Value<K>>)
    | Dict(fields: map<K, Value<K>>)

  datatype Option<T> = None | Some(value: T)

  /** dict.get: a missing key reads as None. */
  function Get<K>(d: map<K, Value<K>>, key: K): Value<K> {
    if key in d then d[key] else Null
  }

  /** The dict behind a value, or an empty one. */
  function AsDict<K>(v: Value<K>): map<K, Value<K>> {
    if v.Dict? then v.fields else map[]
  }

  /** A list or a dict raises TypeError when Python looks it up in a set. */
  predicate Hashable<K>(v: Value<K>) {
    !v.List? && !v.Dict?
  }

  predicate IntIn<K>(v: Value<K>, low: int, high: int) {
    v.Int? && low <= v.n <= high
  }

  /** An int or a finite float within the bounds; a bool is neither. */
  predicate NumberIn<K>(v: Value<K>, low: int, high: int) {
    match v
    case Int(n) => low <= n <= high
    case Float(Finite(r)) => low as real <= r <= high as real
    case _ => false
  }

  predicate AllChars(s: string, low: nat, high: nat, ok: char -> bool) {
    low <= |s| <= high && forall i | 0 <= i < |s| :: ok(s[i])
  }

  predicate IsDigit(c: char) { '0' <= c <= '9' }
  predicate IsLower(c: char) { 'a' <= c <= 'z' }
  predicate IsUpper(c: char) { 'A' <= c <= 'Z' }
  predicate IsAlnum(c: char) { IsDigit(c) || IsLower(c) || IsUpper(c) }
  /** The characters str.strip removes. */
  predicate IsSpace(c: char) {
    || c == ' ' || '\t' <= c <= '\r' || '\U{1c}' <= c <= '\U{1f}' || c == '\U{85}' || c == '\U{a0}' || c == '\U{1680}'
    || '\U{2000}' <= c <= '\U{200a}' || c == '\U{2028}' || c == '\U{2029}' || c == '\U{202f}' || c == '\U{205f}' || c == '\U{3000}'
  }

  function StripLeft(s: string): string { if s != "" && IsSpace(s[0]) then StripLeft(s[1..]) else s }

  function StripRight(s: string): string { if s != "" && IsSpace(s[|s| - 1]) then StripRight(s[..|s| - 1]) else s }

  lemma {:induction false} StripLeftIs(s: string)
    ensures var r := StripLeft(s);
            && (r == "" || !IsSpace(r[0])) && |r| <= |s| && r == s[|s| - |r|..]
            && forall i | 0 <= i < |s| - |r| :: IsSpace(s[i])
  {
    if s != "" && IsSpace(s[0]) {
      StripLeftIs(s[1..]);
      assert forall i | 0 < i < |s| :: s[i] == s[1..][i - 1];
    }
  }

  lemma {:induction false} StripRightIs(s: string)
    ensures var r := StripRight(s);
            && (r == "" || !IsSpace(r[|r| - 1])) && |r| <= |s| && r == s[..|r|]
            && forall i | |r| <= i < |s| :: IsSpace(s[i])
  {
    if s != "" && IsSpace(s[|s| - 1]) {
      StripRightIs(s[..|s| - 1]);
    }
  }

  function Strip(s: string): string { StripRight(StripLeft(s)) }

  lemma StripIdempotent(s: string)
    ensures Strip(Strip(s)) == Strip(s)
  {
    var r := Strip(s);
    StripLeftIs(s);
    StripRightIs(StripLeft(s));
    if r != "" {
      assert r[0] == StripLeft(s)[0];
      assert StripLeft(r) == r;
    }
  }

  ghost predicate SpacesOutside(s: string, a: nat, b: nat) {
    && a <= b <= |s|
    && (forall i | 0 <= i < a :: IsSpace(s[i])) && (forall i | b <= i < |s| :: IsSpace(s[i]))
  }

  lemma CutBoth(s: string, left: string, mid: string, space: char -> bool)
    requires |left| <= |s| && left == s[|s| - |left|..] && forall i | 0 <= i < |s| - |left| :: space(s[i])
    requires |mid| <= |left| && mid == left[..|mid|] && forall i | |mid| <= i < |left| :: space(left[i])
    ensures var a := |s| - |left|;
            && mid == s[a..a + |mid|] && (forall i | 0 <= i < a :: space(s[i])) && (forall i | a + |mid| <= i < |s| :: space(s[i]))
  {
    var a := |s| - |left|;
    forall i | a + |mid| <= i < |s| ensures space(s[i]) {
      assert s[i] == left[i - a];
    }
  }

  /** Stripping cuts off a prefix and a suffix of space. */
  lemma StripSlice(s: string) returns (a: nat, b: nat)
    ensures SpacesOutside(s, a, b) && Strip(s) == s[a..b]
  {
    var left, mid := StripLeft(s), Strip(s);
    StripLeftIs(s);
    StripRightIs(left);
    a := |s| - |left|;
    b := a + |mid|;
    CutBoth(s, left, mid, IsSpace);
  }

  function SplitOn(s: string, sep: char): (r: seq<string>)
    ensures |r| > 0
  {
    if s == "" then [""]
    else
      var rest := SplitOn(s[1..], sep);
      if s[0] == sep then [""] + rest else [[s[0]] + rest[0]] + rest[1..]
  }

  lemma {:induction false} SplitWhole(s: string, sep: char)
    requires sep !in s
    ensures SplitOn(s, sep) == [s]
  {
    if s != "" {
      SplitWhole(s[1..], sep);
      assert [s[0]] + s[1..] == s;
    }
  }

  predicate OccursAt(s: string, part: string, i: nat) {
    i + |part| <= |s| && s[i..i + |part|] == part
  }

  predicate Contains(s: string, part: string) {
    exists i | 0 <= i <= |s| :: OccursAt(s, part, i)
  }

  predicate EndsWith(s: string, tail: string) {
    |tail| <= |s| && s[|s| - |tail|..] == tail
  }

  /** The value of a run of decimal digits. */
  function Decimal(s: string): int {
    if s == "" then 0 else Decimal(s[..|s| - 1]) * 10 + (s[|s| - 1] as int - '0' as int)
  }

  // ----- sanitising a dict key by key -----

  /** The entries a per-key rule accepts. */
  function Filter<K, V>(item: map<K, V>, ok: (K, V) -> bool): map<K, V> {
    map k | k in item && ok(k, item[k]) :: item[k]
  }

  /** Filling a dict one key at a time, in any order, gives the filtered dict. */
  method FilterLoop<K(==), V>(item: map<K, V>, ok: (K, V) -> bool) returns (kept: map<K, V>)
    ensures kept == Filter(item, ok)
  {
    kept := map[];
    var todo := item.Keys;
    while todo != {}
      invariant todo <= item.Keys
      invariant kept == map k | k in item && k !in todo && ok(k, item[k]) :: item[k]
    {
      var k :| k in todo;
      if ok(k, item[k]) {
        kept := kept[k := item[k]];
      }
      todo := todo - {k};
    }
  }

  ghost predicate Distinct<N(!new), K>(names: set<N>, key: N -> K) {
    forall m, n | m in names && n in names && key(m) == key(n) :: m == n
  }

  /** One entry per name. */
  function Entries<N(!new), K, V>(names: set<N>, key: N -> K, val: N -> V): map<K, V>
    requires Distinct(names, key)
  {
    map n | n in names :: key(n) := val(n)
  }

  lemma EntrySource<N(!new), K, V>(names: set<N>, key: N -> K, val: N -> V, k: K) returns (n: N)
    requires Distinct(names, key) && k in Entries(names, key, val)
    ensures n in names && key(n) == k && Entries(names, key, val)[k] == val(n)
  {
    n :| n in names && key(n) == k;
  }

  lemma EntryOf<N(!new), K, V>(names: set<N>, key: N -> K, val: N -> V, n: N)
    requires Distinct(names, key) && n in names
    ensures key(n) in Entries(names, key, val) && Entries(names, key, val)[key(n)] == val(n)
  {
  }

  /** Setting the entries one name at a time, in any order, gives them all. */
  method EntriesLoop<N(==,!new), K(==), V>(start: map<K, V>, names: set<N>, key: N -> K, val: N -> V) returns (r: map<K, V>)
    requires Distinct(names, key)
    ensures r == start + Entries(names, key, val)
  {
    r := start;
    var todo := names;
    while todo != {}
      invariant todo <= names
      invariant r == start + Entries(names - todo, key, val)
    {
      var n :| n in todo;
      r := r[key(n) := val(n)];
      todo := todo - {n};
    }
    assert names - todo == names;
  }

  /** Keys the rule accepts under no value. */
  ghost predicate NeverAccepted<K(!new), V(!new)>(ok: (K, V) -> bool, keys: set<K>) {
    forall k, v | k in keys :: !ok(k, v)
  }

  /**
   Filtering is a projection even after keys of its own were added: `added` and any other
   never accepted key do not survive a second pass, everything else does.
   */
  lemma FilterAgain<K(!new), V(!new)>(item: map<K, V>, ok: (K, V) -> bool, added: map<K, V>, others: set<K>)
    requires NeverAccepted(ok, added.Keys + others)
    ensures Filter(Filter(item, ok) + added, ok) == Filter(item, ok)
    ensures forall k | k in others && k !in added :: k !in Filter(item, ok) + added
  {
    var once := Filter(item, ok);
    var stored := once + added;
    var twice := Filter(stored, ok);
    forall k ensures k in twice <==> k in once {
      if k in once {
        assert ok(k, item[k]);
        assert k !in added.Keys;
        assert stored[k] == item[k];
      }
      if k in twice {
        assert ok(k, stored[k]);
        assert k !in added.Keys;
      }
    }
    forall k | k in once ensures twice[k] == once[k] {
      assert ok(k, item[k]);
      assert k !in added.Keys;
    }
  }

  /** Reading one key of a filtered dict with keys added. */
  lemma FilterReads<K>(item: map<K, Value<K>>, ok: (K, Value<K>) -> bool, added: map<K, Value<K>>, k: K)
    requires !ok(k, Null)
    ensures k in added ==> Get(Filter(item, ok) + added, k) == added[k]
    ensures k !in added ==>
              Get(Filter(item, ok) + added, k) == if ok(k, Get(item, k)) then Get(item, k) else Null
  {
  }

  // ----- sanitising a list entry by entry -----

  /** The entries a rule keeps, rewritten; the others are dropped. */
  function KeepSome<T, U>(xs: seq<T>, f: T -> Option<U>): seq<U> {
    if xs == [] then []
    else if f(xs[0]).Some? then [f(xs[0]).value] + KeepSome(xs[1..], f)
    else KeepSome(xs[1..], f)
  }

  /** Nothing is dropped exactly when the rule keeps every entry, and then entry for entry. */
  lemma {:induction false} KeepSomeAll<T, U>(xs: seq<T>, f: T -> Option<U>)
    ensures |KeepSome(xs, f)| <= |xs|
    ensures |KeepSome(xs, f)| == |xs| <==> forall i | 0 <= i < |xs| :: f(xs[i]).Some?
    ensures |KeepSome(xs, f)| == |xs| ==> forall i | 0 <= i < |xs| :: KeepSome(xs, f)[i] == f(xs[i]).value
  {
    if xs != [] {
      var rest := xs[1..];
      KeepSomeAll(rest, f);
      assert forall i | 0 < i < |xs| :: xs[i] == rest[i - 1];
      if forall i | 0 <= i < |xs| :: f(xs[i]).Some? {
        assert forall i | 0 <= i < |rest| :: rest[i] == xs[i + 1];
      }
    }
  }

  lemma {:induction false} KeepSomeImage<T, U>(xs: seq<T>, f: T -> Option<U>, y: U)
    requires y in KeepSome(xs, f)
    ensures exists x :: x in xs && f(x) == Some(y)
  {
    if f(xs[0]) != Some(y) {
      KeepSomeImage(xs[1..], f, y);
      var x :| x in xs[1..] && f(x) == Some(y);
      assert x in xs;
    }
  }

  /** A rule that keeps its own results as they are drops nothing the second time. */
  lemma KeepSomeAgain<T>(xs: seq<T>, f: T -> Option<T>)
    requires forall x | x in xs && f(x).Some? :: f(f(x).value) == f(x)
    ensures KeepSome(KeepSome(xs, f), f) == KeepSome(xs, f)
  {
    var once := KeepSome(xs, f);
    forall i | 0 <= i < |once| ensures f(once[i]) == Some(once[i]) {
      KeepSomeImage(xs, f, once[i]);
    }
    KeepSomeAll(once, f);
  }

  function Image<T(==), U>(xs: seq<T>, f: T -> U): set<U> { set x | x in xs :: f(x) }

  lemma ImageIff<T, U>(xs: seq<T>, f: T -> U, y: U)
    ensures y in Image(xs, f) <==> exists i | 0 <= i < |xs| :: f(xs[i]) == y
  {
    if y in Image(xs, f) {
      var x :| x in xs && f(x) == y;
      var i :| 0 <= i < |xs| && xs[i] == x;
    }
  }
}
