/**
 The canonical JSON printer of the evidence contract.

 A Python dict keeps insertion order, so an object is a sequence of fields with
 distinct keys, and two objects are the same value when they map the same keys to
 the same values in whatever order (`Same`). The main result is that two values
 print to the same text if and only if they are the same value.
 */
module Canonical {
  import J = PyJson

  datatype Field = Field(key: string, value: Value)

  datatype Value =
    | Null
    | Bool(b: bool)
    | Int(n: int)
    | Str(s: string)
    | List(items: seq<Value>)
    | Dict(fields: seq<Field>)
    | Unsupported

  datatype Outcome = Text(text: string) | TypeError

  // ----- values -----

  /** The keys of a Python dict are distinct, at every depth. */
  ghost predicate Valid(v: Value) {
    match v
    case List(items) => forall i | 0 <= i < |items| :: Valid(items[i])
    case Dict(fields) =>
      && (forall i, j | 0 <= i < j < |fields| :: fields[i].key != fields[j].key)
      && (forall i | 0 <= i < |fields| :: Valid(fields[i].value))
    case _ => true
  }

  predicate Supported(v: Value) {
    match v
    case Unsupported => false
    case List(items) => forall i | 0 <= i < |items| :: Supported(items[i])
    case Dict(fields) => forall i | 0 <= i < |fields| :: Supported(fields[i].value)
    case _ => true
  }

  ghost function Get(fields: seq<Field>, key: string): (r: J.Option<Value>)
    ensures r.None? <==> forall i | 0 <= i < |fields| :: fields[i].key != key
    ensures r.Some? ==> exists i | 0 <= i < |fields| :: fields[i] == Field(key, r.value)
  {
    if fields == [] then J.None
    else if fields[0].key == key then assert fields[0] == Field(key, fields[0].value); J.Some(fields[0].value)
    else Get(fields[1..], key)
  }

  /** Equality of the two values as data: a dict is an unordered mapping. */
  ghost predicate Same(a: Value, b: Value) {
    match (a, b)
    case (List(x), List(y)) => |x| == |y| && forall i | 0 <= i < |x| :: Same(x[i], y[i])
    case (Dict(f), Dict(g)) =>
      && (forall i | 0 <= i < |f| ::
            var other := Get(g, f[i].key);
            other.Some? && Same(f[i].value, other.value))
      && (forall j | 0 <= j < |g| :: Get(f, g[j].key).Some?)
    case _ => a == b
  }

  // ----- printing -----

  function HexDigit(d: nat): char
    requires d < 16
  {
    (if d < 10 then '0' as int + d else 'a' as int + d - 10) as char
  }

  /** What the printer writes for one character inside a string. */
  function Escape(ch: char): (r: string)
    ensures |r| > 0 && r[0] != '\"'
  {
    var code := ch as int;
    if code == 0x22 then ['\\', '\"']
    else if code == 0x5C then ['\\', '\\']
    else if code == 0x08 then ['\\', 'b']
    else if code == 0x09 then ['\\', 't']
    else if code == 0x0A then ['\\', 'n']
    else if code == 0x0C then ['\\', 'f']
    else if code == 0x0D then ['\\', 'r']
    else if code < 0x20 then ['\\', 'u', '0', '0', HexDigit(code / 16), HexDigit(code % 16)]
    else [ch]
  }

  function EscapeAll(text: string): string {
    if text == "" then "" else Escape(text[0]) + EscapeAll(text[1..])
  }

  function Quoted(text: string): string {
    ['\"'] + EscapeAll(text) + ['\"']
  }

  lemma EscapeAllCons(ch: char, rest: string)
    ensures EscapeAll([ch] + rest) == Escape(ch) + EscapeAll(rest)
  {
    assert ([ch] + rest)[1..] == rest;
  }

  lemma {:induction false} EscapeAllAppend(text: string, ch: char)
    ensures EscapeAll(text + [ch]) == EscapeAll(text) + Escape(ch)
  {
    if text == "" {
      assert text + [ch] == [ch] + "";
      EscapeAllCons(ch, "");
    } else {
      var head, rest := text[0], text[1..];
      assert text == [head] + rest && text + [ch] == [head] + (rest + [ch]);
      EscapeAllCons(head, rest);
      EscapeAllCons(head, rest + [ch]);
      EscapeAllAppend(rest, ch);
      Associates(Escape(head), EscapeAll(rest), Escape(ch));
    }
  }

  lemma Associates(x: string, y: string, z: string)
    ensures x + (y + z) == x + y + z
  {
  }

  /** The character loop of the source: `out` grows by one escape per character. */
  method Quote(text: string) returns (r: string)
    ensures r == Quoted(text)
  {
    var out := ['\"'];
    for k := 0 to |text|
      invariant out == ['\"'] + EscapeAll(text[..k])
    {
      EscapeAllAppend(text[..k], text[k]);
      assert text[..k + 1] == text[..k] + [text[k]];
      out := out + Escape(text[k]);
    }
    assert text[..|text|] == text;
    r := out + ['\"'];
  }

  function Digit(d: nat): char
    requires d < 10
  {
    ('0' as int + d) as char
  }

  function NatText(n: nat): (r: string)
    ensures |r| > 0
  {
    if n < 10 then [Digit(n)] else NatText(n / 10) + [Digit(n % 10)]
  }

  function IntText(n: int): string {
    if n < 0 then "-" + NatText(-n) else NatText(n)
  }

  function Join(texts: seq<string>): string {
    if texts == [] then ""
    else if |texts| == 1 then texts[0]
    else texts[0] + "," + Join(texts[1..])
  }

  predicate Less(a: string, b: string) {
    b != "" && (a == "" || a[0] < b[0] || (a[0] == b[0] && Less(a[1..], b[1..])))
  }

  datatype Entry = Entry(key: string, text: string)

  function Insert(e: Entry, sorted: seq<Entry>): seq<Entry> {
    if sorted == [] || Less(e.key, sorted[0].key) then [e] + sorted
    else [sorted[0]] + Insert(e, sorted[1..])
  }

  function SortByKey(entries: seq<Entry>): seq<Entry> {
    if entries == [] then [] else Insert(entries[0], SortByKey(entries[1..]))
  }

  function FieldTexts(entries: seq<Entry>): (r: seq<string>)
    ensures |r| == |entries|
    ensures forall i | 0 <= i < |r| :: r[i] == Quoted(entries[i].key) + ":" + entries[i].text
  {
    seq(|entries|, i requires 0 <= i < |entries| => Quoted(entries[i].key) + ":" + entries[i].text)
  }

  function Print(v: Value): string
    decreases v, 1
  {
    match v
    case Null => "null"
    case Bool(b) => if b then "true" else "false"
    case Int(n) => IntText(n)
    case Str(s) => Quoted(s)
    case List(items) => "[" + Join(PrintItems(items)) + "]"
    case Dict(fields) => "{" + Join(FieldTexts(SortByKey(PrintFields(fields)))) + "}"
    case Unsupported => ""
  }

  function PrintItems(items: seq<Value>): (r: seq<string>)
    ensures |r| == |items|
    ensures forall i | 0 <= i < |r| :: r[i] == Print(items[i])
    decreases items, 0
  {
    if items == [] then [] else [Print(items[0])] + PrintItems(items[1..])
  }

  function PrintFields(fields: seq<Field>): (r: seq<Entry>)
    ensures |r| == |fields|
    ensures forall i | 0 <= i < |r| :: r[i] == Entry(fields[i].key, Print(fields[i].value))
    decreases fields, 0
  {
    if fields == [] then []
    else [Entry(fields[0].key, Print(fields[0].value))] + PrintFields(fields[1..])
  }

  function CanonicalJson(v: Value): Outcome {
    if Supported(v) then Text(Print(v)) else TypeError
  }

  // ----- the order on keys -----

  lemma {:induction false} LessTotal(a: string, b: string)
    ensures Less(a, b) || Less(b, a) || a == b
    ensures !(Less(a, b) && Less(b, a))
    ensures Less(a, b) ==> a != b
  {
    if a != "" && b != "" && a[0] == b[0] {
      LessTotal(a[1..], b[1..]);
      assert a == [a[0]] + a[1..] && b == [b[0]] + b[1..];
    }
  }

  lemma {:induction false} LessTransitive(a: string, b: string, c: string)
    requires Less(a, b) && Less(b, c)
    ensures Less(a, c)
  {
    if a != "" && a[0] == b[0] && b[0] == c[0] {
      LessTransitive(a[1..], b[1..], c[1..]);
    }
  }

  ghost predicate Sorted(es: seq<Entry>) {
    forall i, j | 0 <= i < j < |es| :: Less(es[i].key, es[j].key)
  }

  ghost predicate DistinctKeys(es: seq<Entry>) {
    forall i, j | 0 <= i < j < |es| :: es[i].key != es[j].key
  }

  lemma {:induction false} InsertSorted(e: Entry, es: seq<Entry>)
    requires Sorted(es) && forall i | 0 <= i < |es| :: es[i].key != e.key
    ensures Sorted(Insert(e, es))
    ensures forall x :: x in Insert(e, es) <==> x == e || x in es
  {
    if es != [] {
      LessTotal(e.key, es[0].key);
      if Less(e.key, es[0].key) {
        forall j | 0 < j < |es| ensures Less(e.key, es[j].key) {
          LessTransitive(e.key, es[0].key, es[j].key);
        }
      } else {
        InsertSorted(e, es[1..]);
        var rest := Insert(e, es[1..]);
        forall j | 0 <= j < |rest| ensures Less(es[0].key, rest[j].key) {
          assert rest[j] in rest;
        }
      }
    }
  }

  /** Sorting keeps exactly the entries and puts distinct keys in code-point order. */
  lemma {:induction false} SortByKeySorts(es: seq<Entry>)
    requires DistinctKeys(es)
    ensures Sorted(SortByKey(es))
    ensures forall x :: x in SortByKey(es) <==> x in es
  {
    if es != [] {
      SortByKeySorts(es[1..]);
      var rest := SortByKey(es[1..]);
      forall i | 0 <= i < |rest| ensures rest[i].key != es[0].key {
        assert rest[i] in es[1..];
      }
      InsertSorted(es[0], rest);
    }
  }

  lemma {:induction false} SortKeepsMembers(es: seq<Entry>)
    ensures forall x :: x in SortByKey(es) <==> x in es
  {
    if es != [] {
      SortKeepsMembers(es[1..]);
      InsertKeepsMembers(es[0], SortByKey(es[1..]));
    }
  }

  lemma {:induction false} InsertKeepsMembers(e: Entry, es: seq<Entry>)
    ensures forall x :: x in Insert(e, es) <==> x == e || x in es
  {
    if es != [] && !Less(e.key, es[0].key) {
      InsertKeepsMembers(e, es[1..]);
    }
  }

  /** A set of entries with distinct keys has one sorted listing. */
  lemma {:induction false} SortedUnique(a: seq<Entry>, b: seq<Entry>)
    requires Sorted(a) && Sorted(b)
    requires forall x :: x in a <==> x in b
    ensures a == b
  {
    assert b != [] ==> b[0] in b;
    if a != [] {
      assert a[0] in b;
      assert b[0] in a;
      var i :| 0 <= i < |b| && b[i] == a[0];
      var j :| 0 <= j < |a| && a[j] == b[0];
      assert i > 0 ==> Less(b[0].key, a[0].key);
      assert j > 0 ==> Less(a[0].key, b[0].key);
      LessTotal(a[0].key, b[0].key);
      forall x ensures x in a[1..] <==> x in b[1..] {
        HeadNotInTail(a);
        HeadNotInTail(b);
        assert x in a <==> x == a[0] || x in a[1..];
        assert x in b <==> x == b[0] || x in b[1..];
      }
      SortedUnique(a[1..], b[1..]);
    }
  }

  lemma HeadNotInTail(a: seq<Entry>)
    requires Sorted(a) && a != []
    ensures a[0] !in a[1..]
  {
    LessTotal(a[0].key, a[0].key);
  }

  // ----- texts that can be told apart when a delimiter follows -----

  /** What can follow a value in printed text: nothing, a comma or a closing bracket. */
  predicate Ends(r: string) {
    r == "" || r[0] == ',' || r[0] == ']' || r[0] == '}'
  }

  /** No two continuations make the texts `x` and `y` collide unless they are equal. */
  ghost predicate Separable(x: string, y: string) {
    forall r: string, s: string {:trigger x + r, y + s} ::
      Ends(r) && Ends(s) && x + r == y + s ==> x == y && r == s
  }

  predicate Starts(t: string) {
    t != "" && !Ends(t)
  }

  ghost predicate AllSeparable(xs: seq<string>, ys: seq<string>) {
    && (forall i | 0 <= i < |xs| :: Starts(xs[i]))
    && (forall j | 0 <= j < |ys| :: Starts(ys[j]))
    && (forall i, j | 0 <= i < |xs| && 0 <= j < |ys| :: Separable(xs[i], ys[j]))
  }

  function Rest(texts: seq<string>, close: char, after: string): string
    requires texts != []
  {
    if |texts| == 1 then [close] + after else "," + (Join(texts[1..]) + ([close] + after))
  }

  lemma JoinSplits(texts: seq<string>, close: char, after: string)
    requires texts != []
    ensures Join(texts) + ([close] + after) == texts[0] + Rest(texts, close, after)
  {
    if |texts| > 1 {
      assert Join(texts) == texts[0] + "," + Join(texts[1..]);
    }
  }

  lemma JoinHead(texts: seq<string>, close: char, after: string)
    requires forall i | 0 <= i < |texts| :: Starts(texts[i])
    ensures texts == [] ==> (Join(texts) + ([close] + after))[0] == close
    ensures texts != [] ==> Starts(texts[0]) && (Join(texts) + ([close] + after))[0] == texts[0][0]
  {
    if texts != [] {
      JoinSplits(texts, close, after);
    }
  }

  /** Comma-joined lists of separable texts are equal as lists when their closed texts agree. */
  lemma {:induction false} JoinInjective(xs: seq<string>, ys: seq<string>, close: char, r: string, s: string)
    requires close == ']' || close == '}'
    requires AllSeparable(xs, ys)
    requires Join(xs) + ([close] + r) == Join(ys) + ([close] + s)
    ensures xs == ys && r == s
    decreases |xs|
  {
    JoinHead(xs, close, r);
    JoinHead(ys, close, s);
    if xs == [] && ys == [] {
      assert r == ([close] + r)[1..] && s == ([close] + s)[1..];
      assert Join(xs) + ([close] + r) == [close] + r;
      assert Join(ys) + ([close] + s) == [close] + s;
    } else {
      JoinSplits(xs, close, r);
      JoinSplits(ys, close, s);
      var u, w := Rest(xs, close, r), Rest(ys, close, s);
      assert Separable(xs[0], ys[0]);
      assert xs[0] + u == ys[0] + w;
      assert xs[0] == ys[0] && u == w;
      if |xs| == 1 || |ys| == 1 {
        assert u[0] == w[0];
        assert |xs| == 1 && |ys| == 1;
        assert r == u[1..] && s == w[1..];
      } else {
        assert u[1..] == Join(xs[1..]) + ([close] + r);
        assert w[1..] == Join(ys[1..]) + ([close] + s);
        JoinInjective(xs[1..], ys[1..], close, r, s);
        assert xs == [xs[0]] + xs[1..] && ys == [ys[0]] + ys[1..];
      }
    }
  }

  lemma Regroup(x: string, y: string, z: string)
    requires x != ""
    ensures (x + y) + z == x + (y + z)
    ensures ((x + y) + z)[0] == x[0]
    ensures (x + y)[0] == x[0]
  {
  }

  lemma Behead(c: char, x: string, r: string)
    ensures (([c] + x) + r)[1..] == x + r
    ensures (([c] + x) + r)[0] == c
  {
  }

  // ----- integers -----

  lemma {:induction false} DecimalRoundTrip(n: nat)
    ensures forall i | 0 <= i < |NatText(n)| :: J.IsDigit(NatText(n)[i])
    ensures J.Decimal(NatText(n)) == n
  {
    if n >= 10 {
      DecimalRoundTrip(n / 10);
      var t := NatText(n);
      assert t[..|t| - 1] == NatText(n / 10);
    } else {
      assert J.Decimal([Digit(n)][..0]) == 0;
    }
  }

  /** The number of digits a text starts with. */
  function RunLength(t: string): nat {
    if t != "" && J.IsDigit(t[0]) then 1 + RunLength(t[1..]) else 0
  }

  lemma {:induction false} RunStops(x: string, r: string)
    requires forall i | 0 <= i < |x| :: J.IsDigit(x[i])
    requires Ends(r)
    ensures RunLength(x + r) == |x|
  {
    if x == "" {
      assert x + r == r;
    } else {
      RunStops(x[1..], r);
      assert (x + r)[1..] == x[1..] + r;
    }
  }

  lemma DecimalSplits(a: nat, b: nat, r: string, s: string)
    requires Ends(r) && Ends(s) && NatText(a) + r == NatText(b) + s
    ensures a == b && r == s
  {
    var x, y := NatText(a), NatText(b);
    DecimalRoundTrip(a);
    DecimalRoundTrip(b);
    RunStops(x, r);
    RunStops(y, s);
    assert x == (x + r)[..|x|] && r == (x + r)[|x|..];
    assert y == (y + s)[..|y|] && s == (y + s)[|y|..];
  }

  lemma IntSplits(m: int, n: int, r: string, s: string)
    requires Ends(r) && Ends(s) && IntText(m) + r == IntText(n) + s
    ensures m == n && r == s
  {
    IntHead(m);
    IntHead(n);
    Regroup(IntText(m), r, "");
    Regroup(IntText(n), s, "");
    if m < 0 {
      Behead('-', NatText(-m), r);
      Behead('-', NatText(-n), s);
      DecimalSplits(-m, -n, r, s);
    } else {
      DecimalSplits(m, n, r, s);
    }
  }

  lemma IntHead(n: int)
    ensures IntText(n) != ""
    ensures n < 0 <==> IntText(n)[0] == '-'
    ensures n >= 0 <==> J.IsDigit(IntText(n)[0])
  {
    DecimalRoundTrip(if n < 0 then -n else n);
  }

  lemma IntSeparable(m: int, n: int)
    ensures Separable(IntText(m), IntText(n))
    ensures IntText(m) == IntText(n) ==> m == n
  {
    forall r: string, s: string | Ends(r) && Ends(s) && IntText(m) + r == IntText(n) + s
      ensures m == n && r == s
    {
      IntSplits(m, n, r, s);
    }
    assert IntText(m) + "" == IntText(m) && IntText(n) + "" == IntText(n);
    assert IntText(m) == IntText(n) ==> IntText(m) + "" == IntText(n) + "";
  }

  // ----- strings -----

  lemma HexInjective(a: nat, b: nat)
    requires a < 32 && b < 32
    requires HexDigit(a / 16) == HexDigit(b / 16) && HexDigit(a % 16) == HexDigit(b % 16)
    ensures a == b
  {
    assert a / 16 == b / 16;
    assert a % 16 == b % 16;
  }

  /** No escape is a prefix of another: the escape of a character names it. */
  lemma EscapePrefixFree(a: char, b: char, r: string, s: string)
    requires Escape(a) + r == Escape(b) + s
    ensures a == b && r == s
  {
    var x, y := Escape(a) + r, Escape(b) + s;
    var ea, eb := Escape(a), Escape(b);
    assert x[0] == ea[0] && y[0] == eb[0];
    if |ea| > 1 && |eb| > 1 {
      assert x[1] == ea[1] && y[1] == eb[1];
      if |ea| == 6 && |eb| == 6 {
        assert x[4] == ea[4] && y[4] == eb[4] && x[5] == ea[5] && y[5] == eb[5];
        HexInjective(a as int, b as int);
      }
    }
    assert a == b;
    assert r == x[|ea|..] && s == y[|eb|..];
  }

  lemma EscapeHead(text: string, tail: string)
    requires tail != "" && tail[0] == '\"'
    ensures |EscapeAll(text) + tail| > 0
    ensures (EscapeAll(text) + tail)[0] == '\"' <==> text == ""
    ensures text != "" ==> EscapeAll(text) + tail == Escape(text[0]) + (EscapeAll(text[1..]) + tail)
  {
    if text == "" {
      assert EscapeAll(text) + tail == tail;
    } else {
      Regroup(Escape(text[0]), EscapeAll(text[1..]), tail);
    }
  }

  /** The closing quote of a string is found at the same place whatever follows it. */
  lemma {:induction false} QuoteInjective(a: string, b: string, r: string, s: string)
    requires EscapeAll(a) + (['\"'] + r) == EscapeAll(b) + (['\"'] + s)
    ensures a == b && r == s
    decreases |a|
  {
    var u, w := ['\"'] + r, ['\"'] + s;
    EscapeHead(a, u);
    EscapeHead(b, w);
    if a == "" {
      assert EscapeAll(a) + u == u && EscapeAll(b) + w == w;
      assert r == u[1..] && s == w[1..];
    } else {
      EscapePrefixFree(a[0], b[0], EscapeAll(a[1..]) + u, EscapeAll(b[1..]) + w);
      QuoteInjective(a[1..], b[1..], r, s);
      assert a == [a[0]] + a[1..] && b == [b[0]] + b[1..];
    }
  }

  lemma QuotedTail(a: string, r: string)
    ensures (Quoted(a) + r)[1..] == EscapeAll(a) + (['\"'] + r)
  {
    var x := EscapeAll(a);
    assert ['\"'] + x + ['\"'] == ['\"'] + (x + ['\"']);
    Behead('\"', x + ['\"'], r);
    assert (x + ['\"']) + r == x + (['\"'] + r);
  }

  lemma QuotedSplits(a: string, b: string, r: string, s: string)
    requires Quoted(a) + r == Quoted(b) + s
    ensures a == b && r == s
  {
    QuotedTail(a, r);
    QuotedTail(b, s);
    QuoteInjective(a, b, r, s);
  }

  lemma QuotedSeparable(a: string, b: string)
    ensures Separable(Quoted(a), Quoted(b)) && Starts(Quoted(a))
  {
    forall r: string, s: string | Ends(r) && Ends(s) && Quoted(a) + r == Quoted(b) + s
      ensures Quoted(a) == Quoted(b) && r == s
    {
      QuotedSplits(a, b, r, s);
    }
  }

  /** Where a JSON reader that has consumed an opening quote stops: a backslash hides one character. */
  function ClosingQuote(t: string): (r: int)
    ensures -1 <= r < |t|
  {
    if t == "" then -1
    else if t[0] == '\"' then 0
    else
      var skip := if t[0] == '\\' then 2 else 1;
      if |t| < skip then -1
      else
        var rest := ClosingQuote(t[skip..]);
        if rest < 0 then -1 else rest + skip
  }

  lemma ClosingQuoteSkipsOne(c: char, more: string)
    requires c != '\"' && c != '\\' && ClosingQuote(more) >= 0
    ensures ClosingQuote([c] + more) == ClosingQuote(more) + 1
  {
    assert ([c] + more)[1..] == more;
  }

  lemma ClosingQuoteSkipsTwo(c: char, d: char, more: string)
    requires c != '\"' && c != '\\' && d != '\"' && d != '\\' && ClosingQuote(more) >= 0
    ensures ClosingQuote([c, d] + more) == ClosingQuote(more) + 2
  {
    ClosingQuoteSkipsOne(d, more);
    ClosingQuoteSkipsOne(c, [d] + more);
    assert [c] + ([d] + more) == [c, d] + more;
  }

  lemma ClosingQuoteSkipsPair(c: char, more: string)
    requires ClosingQuote(more) >= 0
    ensures ClosingQuote(['\\', c] + more) == ClosingQuote(more) + 2
  {
    assert (['\\', c] + more)[2..] == more;
  }

  lemma ClosingQuoteSkipsHex(h: char, l: char, more: string)
    requires h != '\"' && h != '\\' && l != '\"' && l != '\\' && ClosingQuote(more) >= 0
    ensures ClosingQuote(['\\', 'u', '0', '0', h, l] + more) == ClosingQuote(more) + 6
  {
    ClosingQuoteSkipsTwo(h, l, more);
    ClosingQuoteSkipsTwo('0', '0', [h, l] + more);
    ClosingQuoteSkipsPair('u', ['0', '0'] + ([h, l] + more));
    Regroup(['0', '0'], [h, l], more);
    Regroup(['\\', 'u'], ['0', '0', h, l], more);
    assert ['\\', 'u'] + ['0', '0', h, l] == ['\\', 'u', '0', '0', h, l];
    assert ['0', '0'] + [h, l] == ['0', '0', h, l];
  }

  lemma ClosingQuoteSkipsEscape(ch: char, more: string)
    requires ClosingQuote(more) >= 0
    ensures ClosingQuote(Escape(ch) + more) == ClosingQuote(more) + |Escape(ch)|
  {
    var e := Escape(ch);
    if |e| == 1 {
      ClosingQuoteSkipsOne(ch, more);
    } else if |e| == 2 {
      ClosingQuoteSkipsPair(e[1], more);
      assert e == ['\\', e[1]];
    } else {
      ClosingQuoteSkipsHex(e[4], e[5], more);
    }
  }

  lemma EscapePrintable(ch: char)
    ensures forall i | 0 <= i < |Escape(ch)| :: Escape(ch)[i] as int >= 0x20
  {
  }

  /**
   Quoting is safe inside larger text: there is no raw control character, and a
   reader finds the closing quote exactly where the printer put it.
   */
  lemma {:induction false} QuotedIsSafe(text: string, after: string)
    ensures forall i | 0 <= i < |EscapeAll(text)| :: EscapeAll(text)[i] as int >= 0x20
    ensures ClosingQuote(EscapeAll(text) + (['\"'] + after)) == |EscapeAll(text)|
  {
    var tail := ['\"'] + after;
    EscapeHead(text, tail);
    if text == "" {
      assert EscapeAll(text) + tail == tail;
    } else {
      QuotedIsSafe(text[1..], after);
      EscapePrintable(text[0]);
      ClosingQuoteSkipsEscape(text[0], EscapeAll(text[1..]) + tail);
    }
  }

  // ----- the printer -----

  lemma EntrySeparable(a: Entry, b: Entry)
    requires Separable(a.text, b.text)
    ensures Separable(Quoted(a.key) + ":" + a.text, Quoted(b.key) + ":" + b.text)
    ensures Quoted(a.key) + ":" + a.text == Quoted(b.key) + ":" + b.text ==> a == b
  {
    var x, y := Quoted(a.key) + ":" + a.text, Quoted(b.key) + ":" + b.text;
    forall r: string, s: string | Ends(r) && Ends(s) && x + r == y + s
      ensures a == b && r == s
    {
      assert x + r == Quoted(a.key) + (":" + (a.text + r));
      assert y + s == Quoted(b.key) + (":" + (b.text + s));
      QuotedSplits(a.key, b.key, ":" + (a.text + r), ":" + (b.text + s));
      assert (":" + (a.text + r))[1..] == a.text + r;
      assert (":" + (b.text + s))[1..] == b.text + s;
    }
    if x == y {
      assert x + "" == y + "";
    }
  }

  lemma FirstChar(v: Value)
    requires Supported(v)
    ensures Starts(Print(v))
    ensures v.Null? <==> Print(v)[0] == 'n'
    ensures v.Bool? <==> Print(v)[0] == 't' || Print(v)[0] == 'f'
    ensures v.Int? <==> Print(v)[0] == '-' || J.IsDigit(Print(v)[0])
    ensures v.Str? <==> Print(v)[0] == '\"'
    ensures v.List? <==> Print(v)[0] == '['
    ensures v.Dict? <==> Print(v)[0] == '{'
  {
    match v
    case Int(n) => IntHead(n);
    case _ =>
  }

  lemma {:induction false} PrintedFields(f: seq<Field>, e: Entry) returns (i: nat)
    requires e in SortByKey(PrintFields(f))
    ensures i < |f| && e == Entry(f[i].key, Print(f[i].value))
  {
    SortKeepsMembers(PrintFields(f));
    i :| 0 <= i < |f| && PrintFields(f)[i] == e;
  }

  lemma BracketSeparable(xs: seq<string>, ys: seq<string>, open: char, close: char)
    requires close == ']' || close == '}'
    requires AllSeparable(xs, ys)
    ensures Separable([open] + Join(xs) + [close], [open] + Join(ys) + [close])
    ensures [open] + Join(xs) + [close] == [open] + Join(ys) + [close] ==> xs == ys
  {
    var x, y := [open] + Join(xs) + [close], [open] + Join(ys) + [close];
    forall r: string, s: string | Ends(r) && Ends(s) && x + r == y + s
      ensures xs == ys && r == s
    {
      assert (x + r)[1..] == Join(xs) + ([close] + r);
      assert (y + s)[1..] == Join(ys) + ([close] + s);
      JoinInjective(xs, ys, close, r, s);
    }
    if x == y {
      assert x + "" == y + "";
    }
  }

  lemma {:induction false} ItemsSeparable(x: seq<Value>, y: seq<Value>)
    requires forall i | 0 <= i < |x| :: Supported(x[i])
    requires forall i | 0 <= i < |y| :: Supported(y[i])
    ensures AllSeparable(PrintItems(x), PrintItems(y))
    decreases x, 0
  {
    forall i | 0 <= i < |x| ensures Starts(PrintItems(x)[i]) { FirstChar(x[i]); }
    forall j | 0 <= j < |y| ensures Starts(PrintItems(y)[j]) { FirstChar(y[j]); }
    forall i, j | 0 <= i < |x| && 0 <= j < |y| ensures Separable(PrintItems(x)[i], PrintItems(y)[j]) {
      PrintSeparable(x[i], y[j]);
    }
  }

  lemma {:induction false} FieldsSeparable(f: seq<Field>, g: seq<Field>)
    requires forall i | 0 <= i < |f| :: Supported(f[i].value)
    requires forall i | 0 <= i < |g| :: Supported(g[i].value)
    ensures AllSeparable(FieldTexts(SortByKey(PrintFields(f))), FieldTexts(SortByKey(PrintFields(g))))
    decreases f, 0
  {
    var x, y := SortByKey(PrintFields(f)), SortByKey(PrintFields(g));
    forall i, j | 0 <= i < |x| && 0 <= j < |y| ensures Separable(FieldTexts(x)[i], FieldTexts(y)[j]) {
      var k := PrintedFields(f, x[i]);
      var l := PrintedFields(g, y[j]);
      PrintSeparable(f[k].value, g[l].value);
      EntrySeparable(x[i], y[j]);
    }
  }

  /** Printed values can be told apart in any context that follows them with a delimiter. */
  lemma {:induction false} PrintSeparable(a: Value, b: Value)
    requires Supported(a) && Supported(b)
    ensures Separable(Print(a), Print(b))
    decreases a, 1
  {
    FirstChar(a);
    FirstChar(b);
    match (a, b) {
      case (Int(m), Int(n)) => IntSeparable(m, n);
      case (Str(s), Str(t)) => QuotedSeparable(s, t);
      case (List(x), List(y)) =>
        ItemsSeparable(x, y);
        BracketSeparable(PrintItems(x), PrintItems(y), '[', ']');
      case (Dict(f), Dict(g)) =>
        FieldsSeparable(f, g);
        BracketSeparable(FieldTexts(SortByKey(PrintFields(f))), FieldTexts(SortByKey(PrintFields(g))), '{', '}');
      case _ => ConstantSeparable(a, b);
    }
  }

  lemma ConstantSeparable(a: Value, b: Value)
    requires Supported(a) && Supported(b)
    requires a.Null? || a.Bool? || (a.Int? != b.Int?) || (a.Str? != b.Str?) || (a.List? != b.List?) || (a.Dict? != b.Dict?)
    ensures Separable(Print(a), Print(b))
  {
    FirstChar(a);
    FirstChar(b);
    var x, y := Print(a), Print(b);
    forall r: string, s: string | Ends(r) && Ends(s) && x + r == y + s
      ensures x == y && r == s
    {
      assert x[0] == (x + r)[0] && y[0] == (y + s)[0];
      assert x == y;
      assert r == (x + r)[|x|..] && s == (y + s)[|y|..];
    }
  }

  lemma SeparableEntries(x: seq<Entry>, y: seq<Entry>)
    requires FieldTexts(x) == FieldTexts(y)
    requires forall i, j | 0 <= i < |x| && 0 <= j < |y| :: Separable(x[i].text, y[j].text)
    ensures x == y
  {
    forall i | 0 <= i < |x| ensures x[i] == y[i] {
      assert FieldTexts(x)[i] == FieldTexts(y)[i];
      EntrySeparable(x[i], y[i]);
    }
  }

  lemma DictTextsAgree(f: seq<Field>, g: seq<Field>)
    requires Supported(Dict(f)) && Supported(Dict(g))
    requires Print(Dict(f)) == Print(Dict(g))
    ensures SortByKey(PrintFields(f)) == SortByKey(PrintFields(g))
  {
    var x, y := SortByKey(PrintFields(f)), SortByKey(PrintFields(g));
    FieldsSeparable(f, g);
    BracketSeparable(FieldTexts(x), FieldTexts(y), '{', '}');
    forall i, j | 0 <= i < |x| && 0 <= j < |y| ensures Separable(x[i].text, y[j].text) {
      var k := PrintedFields(f, x[i]);
      var l := PrintedFields(g, y[j]);
      PrintSeparable(f[k].value, g[l].value);
    }
    SeparableEntries(x, y);
  }

  /** The printed text identifies the value. */
  lemma {:induction false} PrintInjective(a: Value, b: Value)
    requires Valid(a) && Valid(b) && Supported(a) && Supported(b)
    requires Print(a) == Print(b)
    ensures Same(a, b)
    decreases a
  {
    FirstChar(a);
    FirstChar(b);
    match (a, b) {
      case (Int(m), Int(n)) => IntSeparable(m, n);
      case (Str(s), Str(t)) => QuotedSplits(s, t, "", "");
      case (List(x), List(y)) =>
        ItemsSeparable(x, y);
        BracketSeparable(PrintItems(x), PrintItems(y), '[', ']');
        forall i | 0 <= i < |x| ensures Same(x[i], y[i]) {
          assert PrintItems(x)[i] == PrintItems(y)[i];
          PrintInjective(x[i], y[i]);
        }
      case (Dict(f), Dict(g)) =>
        DictTextsAgree(f, g);
        forall i | 0 <= i < |f|
          ensures Get(g, f[i].key).Some? && Same(f[i].value, Get(g, f[i].key).value)
        {
          var j := Partner(f, g, i);
          GetFinds(g, j);
          PrintInjective(f[i].value, g[j].value);
        }
        forall j | 0 <= j < |g| ensures Get(f, g[j].key).Some? {
          var i := Partner(g, f, j);
        }
      case _ =>
    }
  }

  lemma Partner(f: seq<Field>, g: seq<Field>, i: nat) returns (j: nat)
    requires i < |f|
    requires SortByKey(PrintFields(f)) == SortByKey(PrintFields(g))
    ensures j < |g| && g[j].key == f[i].key && Print(g[j].value) == Print(f[i].value)
  {
    SortKeepsMembers(PrintFields(f));
    assert PrintFields(f)[i] in PrintFields(f);
    j := PrintedFields(g, PrintFields(f)[i]);
  }

  lemma GetFinds(g: seq<Field>, j: nat)
    requires j < |g| && Valid(Dict(g))
    ensures Get(g, g[j].key) == J.Some(g[j].value)
  {
    var r := Get(g, g[j].key);
    assert r.Some?;
    var i :| 0 <= i < |g| && g[i] == Field(g[j].key, r.value);
  }

  lemma SortedEntriesAgree(f: seq<Field>, g: seq<Field>)
    requires Valid(Dict(f)) && Valid(Dict(g))
    requires forall e :: e in PrintFields(f) <==> e in PrintFields(g)
    ensures Print(Dict(f)) == Print(Dict(g))
  {
    SortByKeySorts(PrintFields(f));
    SortByKeySorts(PrintFields(g));
    SortedUnique(SortByKey(PrintFields(f)), SortByKey(PrintFields(g)));
  }

  /** The same value always prints to the same text, whatever the order of insertion. */
  lemma {:induction false} SamePrints(a: Value, b: Value)
    requires Valid(a) && Valid(b) && Same(a, b)
    ensures Print(a) == Print(b)
    decreases a
  {
    match (a, b) {
      case (List(x), List(y)) =>
        forall i | 0 <= i < |x| ensures PrintItems(x)[i] == PrintItems(y)[i] {
          SamePrints(x[i], y[i]);
        }
        assert PrintItems(x) == PrintItems(y);
      case (Dict(f), Dict(g)) =>
        forall e | e in PrintFields(f) ensures e in PrintFields(g) {
          var i :| 0 <= i < |f| && PrintFields(f)[i] == e;
          var other := Get(g, f[i].key).value;
          var j :| 0 <= j < |g| && g[j] == Field(f[i].key, other);
          SamePrints(f[i].value, other);
          assert PrintFields(g)[j] == e;
        }
        forall e | e in PrintFields(g) ensures e in PrintFields(f) {
          var j :| 0 <= j < |g| && PrintFields(g)[j] == e;
          var mine := Get(f, g[j].key).value;
          var i :| 0 <= i < |f| && f[i] == Field(g[j].key, mine);
          GetFinds(g, j);
          SamePrints(f[i].value, g[j].value);
          assert PrintFields(f)[i] == e;
        }
        SortedEntriesAgree(f, g);
      case _ =>
    }
  }

  /** Evidence text identifies its value: equal texts exactly for equal values. */
  lemma CanonicalTextIdentifiesValue(a: Value, b: Value)
    requires Valid(a) && Valid(b) && CanonicalJson(a).Text? && CanonicalJson(b).Text?
    ensures CanonicalJson(a) == CanonicalJson(b) <==> Same(a, b)
  {
    if Print(a) == Print(b) {
      PrintInjective(a, b);
    }
    if Same(a, b) {
      SamePrints(a, b);
    }
  }

  /** A dict printed after its fields were inserted in another order gives the same text. */
  lemma InsertionOrderIrrelevant(f: seq<Field>, g: seq<Field>)
    requires Valid(Dict(f)) && Valid(Dict(g))
    requires multiset(f) == multiset(g)
    ensures Print(Dict(f)) == Print(Dict(g))
  {
    forall e ensures e in PrintFields(f) <==> e in PrintFields(g) {
      if e in PrintFields(f) {
        var i :| 0 <= i < |f| && PrintFields(f)[i] == e;
        assert f[i] in multiset(g);
        var j :| 0 <= j < |g| && g[j] == f[i];
        assert PrintFields(g)[j] == e;
      }
      if e in PrintFields(g) {
        var j :| 0 <= j < |g| && PrintFields(g)[j] == e;
        assert g[j] in multiset(f);
        var i :| 0 <= i < |f| && f[i] == g[j];
        assert PrintFields(f)[i] == e;
      }
    }
    SortedEntriesAgree(f, g);
  }

}
