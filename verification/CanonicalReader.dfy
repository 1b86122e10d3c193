/**
 What canonical text means: a reader of JSON without white space, written from RFC 8259 and
 apart from the printer, gives back the value that was printed.
 */
module CanonicalReader {
  import J = PyJson
  import opened Canonical

  // ----- the reader -----

  /** What was read at the start of a text, and what is left of it. */
  datatype Read<T> = Got(value: T, rest: string) | Bad

  function HexValue(c: char): J.Option<nat> {
    if '0' <= c <= '9' then J.Some(c as nat - '0' as nat)
    else if 'a' <= c <= 'f' then J.Some(c as nat - 'a' as nat + 10)
    else if 'A' <= c <= 'F' then J.Some(c as nat - 'A' as nat + 10)
    else J.None
  }

  /** Four hexadecimal digits as a character; half a surrogate pair is none. */
  function HexChar(t: string): Read<char> {
    if |t| < 4 then Bad
    else
      var a, b, c, d := HexValue(t[0]), HexValue(t[1]), HexValue(t[2]), HexValue(t[3]);
      if a.None? || b.None? || c.None? || d.None? then Bad
      else
        var code := ((a.value * 16 + b.value) * 16 + c.value) * 16 + d.value;
        if 0xD800 <= code < 0xE000 || code > 0xFFFF then Bad else Got(code as char, t[4..])
  }

  /** The two-character escapes of section 7 of RFC 8259. */
  function ShortEscape(c: char): J.Option<char> {
    if c == '\"' || c == '\\' || c == '/' then J.Some(c)
    else if c == 'b' then J.Some('\U{0008}')
    else if c == 'f' then J.Some('\U{000C}')
    else if c == 'n' then J.Some('\U{000A}')
    else if c == 'r' then J.Some('\U{000D}')
    else if c == 't' then J.Some('\U{0009}')
    else J.None
  }

  /** One character inside a string. */
  function ReadChar(t: string): (r: Read<char>)
    ensures r.Got? ==> |r.rest| < |t|
  {
    if t == "" || t[0] == '\"' || t[0] < '\U{0020}' then Bad
    else if t[0] != '\\' then Got(t[0], t[1..])
    else if |t| == 1 then Bad
    else if t[1] == 'u' then HexChar(t[2..])
    else if ShortEscape(t[1]).Some? then Got(ShortEscape(t[1]).value, t[2..])
    else Bad
  }

  /** The characters up to the closing quote. */
  function ReadChars(t: string): (r: Read<string>)
    ensures r.Got? ==> |r.rest| < |t|
    decreases |t|
  {
    if t != "" && t[0] == '\"' then Got("", t[1..])
    else
      var first := ReadChar(t);
      if first.Bad? then Bad
      else
        var more := ReadChars(first.rest);
        if more.Bad? then Bad else Got([first.value] + more.value, more.rest)
  }

  function ReadString(t: string): (r: Read<string>)
    ensures r.Got? ==> |r.rest| < |t|
  {
    if t == "" || t[0] != '\"' then Bad else ReadChars(t[1..])
  }

  /** More digits of a number whose digits so far have this value. */
  function ReadDigits(t: string, soFar: nat): (r: (nat, string))
    ensures |r.1| <= |t|
    decreases |t|
  {
    if t == "" || !('0' <= t[0] <= '9') then (soFar, t)
    else ReadDigits(t[1..], soFar * 10 + (t[0] as nat - '0' as nat))
  }

  /** A natural number; nothing may follow a leading zero. */
  function ReadNat(t: string): (r: Read<nat>)
    ensures r.Got? ==> |r.rest| < |t|
  {
    if t == "" || !('0' <= t[0] <= '9') then Bad
    else
      var (n, rest) := ReadDigits(t[1..], t[0] as nat - '0' as nat);
      if t[0] == '0' && |rest| < |t| - 1 then Bad else Got(n, rest)
  }

  function ReadInt(t: string): (r: Read<int>)
    ensures r.Got? ==> |r.rest| < |t|
  {
    if t != "" && t[0] == '-' then
      var n := ReadNat(t[1..]);
      if n.Bad? then Bad else var m: int := n.value; Got(-m, n.rest)
    else
      var n := ReadNat(t);
      if n.Bad? then Bad else var m: int := n.value; Got(m, n.rest)
  }

  /** One JSON value. An object is read as its members in the order of the text. */
  function ReadValue(t: string): (r: Read<Value>)
    ensures r.Got? ==> |r.rest| < |t|
    decreases |t|, 0
  {
    if "null" <= t then Got(Null, t[4..])
    else if "true" <= t then Got(Bool(true), t[4..])
    else if "false" <= t then Got(Bool(false), t[5..])
    else if t == "" then Bad
    else if t[0] == '\"' then
      var s := ReadString(t);
      if s.Bad? then Bad else Got(Str(s.value), s.rest)
    else if t[0] == '[' then
      if |t| > 1 && t[1] == ']' then Got(List([]), t[2..])
      else
        var items := ReadItems(t[1..]);
        if items.Bad? then Bad else Got(List(items.value), items.rest)
    else if t[0] == '{' then
      if |t| > 1 && t[1] == '}' then Got(Dict([]), t[2..])
      else
        var fields := ReadFields(t[1..]);
        if fields.Bad? then Bad else Got(Dict(fields.value), fields.rest)
    else
      var n := ReadInt(t);
      if n.Bad? then Bad else Got(Int(n.value), n.rest)
  }

  /** The elements of an array up to its closing bracket. */
  function ReadItems(t: string): (r: Read<seq<Value>>)
    ensures r.Got? ==> |r.rest| < |t|
    decreases |t|, 1
  {
    var first := ReadValue(t);
    if first.Bad? || first.rest == "" then Bad
    else if first.rest[0] == ']' then Got([first.value], first.rest[1..])
    else if first.rest[0] != ',' then Bad
    else
      var more := ReadItems(first.rest[1..]);
      if more.Bad? then Bad else Got([first.value] + more.value, more.rest)
  }

  function ReadField(t: string): (r: Read<Field>)
    ensures r.Got? ==> |r.rest| < |t|
    decreases |t|, 1
  {
    var key := ReadString(t);
    if key.Bad? || key.rest == "" || key.rest[0] != ':' then Bad
    else
      var v := ReadValue(key.rest[1..]);
      if v.Bad? then Bad else Got(Field(key.value, v.value), v.rest)
  }

  /** The members of an object up to its closing brace. */
  function ReadFields(t: string): (r: Read<seq<Field>>)
    ensures r.Got? ==> |r.rest| < |t|
    decreases |t|, 2
  {
    var first := ReadField(t);
    if first.Bad? || first.rest == "" then Bad
    else if first.rest[0] == '}' then Got([first.value], first.rest[1..])
    else if first.rest[0] != ',' then Bad
    else
      var more := ReadFields(first.rest[1..]);
      if more.Bad? then Bad else Got([first.value] + more.value, more.rest)
  }

  /** A whole text as one value. */
  function ReadJson(t: string): J.Option<Value> {
    var r := ReadValue(t);
    if r.Got? && r.rest == "" then J.Some(r.value) else J.None
  }

  // ----- strings -----

  lemma EscapeReads(ch: char, more: string)
    ensures ReadChar(Escape(ch) + more) == Got(ch, more)
  {
    var e := Escape(ch);
    var t := e + more;
    assert t[|e|..] == more;
    assert forall i | 0 <= i < |e| :: t[i] == e[i];
    if |e| == 6 {
      assert t[2..][4..] == more;
      HexReads(ch as nat / 16, ch as nat % 16, t[2..]);
    }
  }

  lemma HexReads(high: nat, low: nat, t: string)
    requires high < 2 && low < 16 && |t| >= 4 && t[..4] == ['0', '0', HexDigit(high), HexDigit(low)]
    ensures HexChar(t) == Got((high * 16 + low) as char, t[4..])
  {
    assert t[0] == '0' && t[1] == '0' && t[2] == t[..4][2] && t[3] == t[..4][3];
    assert HexValue(HexDigit(high)) == J.Some(high) && HexValue(HexDigit(low)) == J.Some(low);
  }

  lemma {:induction false} CharsRead(text: string, after: string)
    ensures ReadChars(EscapeAll(text) + (['\"'] + after)) == Got(text, after)
  {
    var tail := ['\"'] + after;
    EscapeHead(text, tail);
    if text == "" {
      assert EscapeAll(text) + tail == tail;
      assert tail[1..] == after;
    } else {
      var more := EscapeAll(text[1..]) + tail;
      CharsRead(text[1..], after);
      EscapeReads(text[0], more);
      assert [text[0]] + text[1..] == text;
    }
  }

  lemma StringReads(text: string, after: string)
    ensures ReadString(Quoted(text) + after) == Got(text, after)
  {
    QuotedTail(text, after);
    CharsRead(text, after);
  }

  // ----- integers -----

  lemma {:induction false} DigitsRead(n: nat, more: string)
    ensures ReadDigits(NatText(n) + more, 0) == ReadDigits(more, n)
    ensures NatText(n)[0] == '0' ==> n == 0
    ensures '0' <= NatText(n)[0] <= '9'
  {
    if n < 10 {
      assert ([Digit(n)] + more)[1..] == more;
    } else {
      var d := [Digit(n % 10)];
      DigitsRead(n / 10, d + more);
      assert NatText(n) + more == NatText(n / 10) + (d + more);
      assert (d + more)[1..] == more;
    }
  }

  lemma NatReads(n: nat, r: string)
    requires Ends(r)
    ensures ReadNat(NatText(n) + r) == Got(n, r)
  {
    var t := NatText(n) + r;
    DigitsRead(n, r);
    assert t[0] == NatText(n)[0];
    assert ReadDigits(r, n) == (n, r);
    assert ReadDigits(t, 0) == ReadDigits(t[1..], t[0] as nat - '0' as nat);
  }

  lemma IntReads(n: int, r: string)
    requires Ends(r)
    ensures ReadInt(IntText(n) + r) == Got(n, r)
    ensures IntText(n)[0] == '-' || '0' <= IntText(n)[0] <= '9'
  {
    if n < 0 {
      assert (IntText(n) + r)[1..] == NatText(-n) + r;
      NatReads(-n, r);
    } else {
      NatReads(n, r);
      DigitsRead(n, r);
      assert (IntText(n) + r)[0] == NatText(n)[0];
    }
  }

  // ----- lists and objects -----

  /** Wherever `text` stands in front of a delimiter, it is read as `v`. */
  ghost predicate Reads(text: string, v: Value) {
    Starts(text) && forall r: string {:trigger ReadValue(text + r)} :: Ends(r) ==> ReadValue(text + r) == Got(v, r)
  }

  ghost predicate AllRead(texts: seq<string>, vs: seq<Value>) {
    |texts| == |vs| && forall i | 0 <= i < |texts| :: Reads(texts[i], vs[i])
  }

  lemma LastItem(t: string, v: Value, after: string)
    requires ReadValue(t) == Got(v, after) && after != "" && after[0] == ']'
    ensures ReadItems(t) == Got([v], after[1..])
  {
  }

  lemma OneMoreItem(t: string, v: Value, after: string, vs: seq<Value>, r: string)
    requires ReadValue(t) == Got(v, after) && after != "" && after[0] == ',' && ReadItems(after[1..]) == Got(vs, r)
    ensures ReadItems(t) == Got([v] + vs, r)
  {
  }

  lemma ReadsAt(text: string, v: Value, r: string)
    requires Reads(text, v) && Ends(r)
    ensures ReadValue(text + r) == Got(v, r)
  {
  }

  /** What follows the first text of a list: the end of it, or a comma and the others. */
  lemma RestIs(texts: seq<string>, close: char, r: string)
    requires texts != [] && (close == ']' || close == '}')
    ensures var after := Rest(texts, close, r);
            && Ends(after) && after != ""
            && (|texts| == 1 ==> after[0] == close && after[1..] == r)
            && (|texts| > 1 ==> after[0] == ',' && after[1..] == Join(texts[1..]) + ([close] + r))
  {
  }

  lemma AllTail(texts: seq<string>, vs: seq<Value>)
    requires AllRead(texts, vs) && texts != []
    ensures Reads(texts[0], vs[0]) && AllRead(texts[1..], vs[1..]) && vs == [vs[0]] + vs[1..]
  {
  }

  lemma {:induction false} ItemsRead(texts: seq<string>, vs: seq<Value>, r: string)
    requires AllRead(texts, vs) && texts != []
    ensures ReadItems(Join(texts) + ([']'] + r)) == Got(vs, r)
  {
    var t, after := Join(texts) + ([']'] + r), Rest(texts, ']', r);
    JoinSplits(texts, ']', r);
    RestIs(texts, ']', r);
    AllTail(texts, vs);
    ReadsAt(texts[0], vs[0], after);
    if |texts| == 1 {
      LastItem(t, vs[0], after);
      assert vs == [vs[0]];
    } else {
      ItemsRead(texts[1..], vs[1..], r);
      OneMoreItem(t, vs[0], after, vs[1..], r);
    }
  }

  /** Members with these keys and values, in this order. */
  function Members(es: seq<Entry>, vs: seq<Value>): (r: seq<Field>)
    requires |es| == |vs|
    ensures |r| == |es| && forall i | 0 <= i < |r| :: r[i] == Field(es[i].key, vs[i])
  {
    seq(|es|, i requires 0 <= i < |es| => Field(es[i].key, vs[i]))
  }

  ghost predicate EntriesRead(es: seq<Entry>, vs: seq<Value>) {
    |es| == |vs| && forall i | 0 <= i < |es| :: Reads(es[i].text, vs[i])
  }

  lemma OneField(t: string, key: string, after: string, v: Value, r: string)
    requires ReadString(t) == Got(key, after) && after != "" && after[0] == ':' && ReadValue(after[1..]) == Got(v, r)
    ensures ReadField(t) == Got(Field(key, v), r)
  {
  }

  lemma FieldReads(e: Entry, v: Value, r: string)
    requires Reads(e.text, v) && Ends(r)
    ensures ReadField(Quoted(e.key) + ":" + e.text + r) == Got(Field(e.key, v), r)
  {
    var after := ":" + (e.text + r);
    assert Quoted(e.key) + ":" + e.text + r == Quoted(e.key) + after;
    StringReads(e.key, after);
    assert after[1..] == e.text + r;
    OneField(Quoted(e.key) + ":" + e.text + r, e.key, after, v, r);
  }

  lemma LastField(t: string, f: Field, after: string)
    requires ReadField(t) == Got(f, after) && after != "" && after[0] == '}'
    ensures ReadFields(t) == Got([f], after[1..])
  {
  }

  lemma OneMoreField(t: string, f: Field, after: string, fs: seq<Field>, r: string)
    requires ReadField(t) == Got(f, after) && after != "" && after[0] == ',' && ReadFields(after[1..]) == Got(fs, r)
    ensures ReadFields(t) == Got([f] + fs, r)
  {
  }

  lemma EntriesTail(es: seq<Entry>, vs: seq<Value>)
    requires EntriesRead(es, vs) && es != []
    ensures Reads(es[0].text, vs[0]) && EntriesRead(es[1..], vs[1..])
    ensures FieldTexts(es)[1..] == FieldTexts(es[1..])
    ensures Members(es, vs) == [Field(es[0].key, vs[0])] + Members(es[1..], vs[1..])
  {
  }

  lemma {:induction false} FieldsRead(es: seq<Entry>, vs: seq<Value>, r: string)
    requires EntriesRead(es, vs) && es != []
    ensures ReadFields(Join(FieldTexts(es)) + (['}'] + r)) == Got(Members(es, vs), r)
  {
    var texts := FieldTexts(es);
    var t, after, first := Join(texts) + (['}'] + r), Rest(texts, '}', r), Field(es[0].key, vs[0]);
    JoinSplits(texts, '}', r);
    EntriesTail(es, vs);
    RestIs(texts, '}', r);
    FieldReads(es[0], vs[0], after);
    if |es| == 1 {
      LastField(t, first, after);
      assert Members(es, vs) == [first];
    } else {
      FieldsRead(es[1..], vs[1..], r);
      OneMoreField(t, first, after, Members(es[1..], vs[1..]), r);
    }
  }

  lemma ListReads(texts: seq<string>, vs: seq<Value>)
    requires AllRead(texts, vs)
    ensures Reads("[" + Join(texts) + "]", List(vs))
  {
    var text := "[" + Join(texts) + "]";
    forall r: string | Ends(r) ensures ReadValue(text + r) == Got(List(vs), r) {
      var t := text + r;
      assert t[1..] == Join(texts) + ([']'] + r);
      JoinHead(texts, ']', r);
      if texts == [] {
        assert t[2..] == r;
      } else {
        assert t[1] == t[1..][0];
        ItemsRead(texts, vs, r);
      }
    }
  }

  lemma DictReads(es: seq<Entry>, vs: seq<Value>)
    requires EntriesRead(es, vs)
    ensures Reads("{" + Join(FieldTexts(es)) + "}", Dict(Members(es, vs)))
  {
    var texts := FieldTexts(es);
    var text := "{" + Join(texts) + "}";
    forall r: string | Ends(r) ensures ReadValue(text + r) == Got(Dict(Members(es, vs)), r) {
      var t := text + r;
      assert t[1..] == Join(texts) + (['}'] + r);
      JoinHead(texts, '}', r);
      if es == [] {
        assert t[2..] == r;
      } else {
        assert t[1] == t[1..][0];
        FieldsRead(es, vs, r);
      }
    }
  }

  // ----- the order of members -----

  /** The first difference decides, by code point; a text comes before any longer one that it starts. */
  ghost predicate Before(a: string, b: string) {
    exists k: nat :: DiffersAt(a, b, k)
  }

  ghost predicate DiffersAt(a: string, b: string, k: nat) {
    k <= |a| && k < |b| && (forall i | 0 <= i < k :: a[i] == b[i]) && (k < |a| ==> a[k] < b[k])
  }

  lemma {:induction false} LessIsBefore(a: string, b: string)
    ensures Less(a, b) <==> Before(a, b)
  {
    if b != "" && a != "" && a[0] == b[0] {
      LessIsBefore(a[1..], b[1..]);
      if k: nat :| DiffersAt(a, b, k) {
        assert k > 0;
        assert DiffersAt(a[1..], b[1..], k - 1);
      }
      if k: nat :| DiffersAt(a[1..], b[1..], k) {
        forall i | 0 <= i < k + 1 ensures a[i] == b[i] {
          assert i > 0 ==> a[1..][i - 1] == b[1..][i - 1];
        }
        assert k < |a[1..]| ==> a[1..][k] < b[1..][k];
        assert DiffersAt(a, b, k + 1);
      }
    } else if Less(a, b) {
      assert DiffersAt(a, b, 0);
    }
  }

  /** At every depth the members of an object stand in the order of their keys. */
  ghost predicate InOrder(v: Value) {
    match v
    case List(items) => forall i | 0 <= i < |items| :: InOrder(items[i])
    case Dict(fields) =>
      && (forall i, j | 0 <= i < j < |fields| :: Before(fields[i].key, fields[j].key))
      && forall i | 0 <= i < |fields| :: InOrder(fields[i].value)
    case _ => true
  }

  // ----- the printer is read back -----

  lemma ConstantReads(v: Value)
    requires v.Null? || v.Bool? || v.Int? || v.Str?
    ensures Reads(Print(v), v)
  {
    FirstChar(v);
    forall r: string | Ends(r) ensures ReadValue(Print(v) + r) == Got(v, r) {
      var t := Print(v) + r;
      assert t[0] == Print(v)[0] && t[|Print(v)|..] == r;
      match v {
        case Int(n) => IntReads(n, r);
        case Str(s) => StringReads(s, r);
        case _ =>
      }
    }
  }

  /** Every list of printed values is read back, element by element. */
  lemma {:induction false} ItemsReadBack(items: seq<Value>) returns (vs: seq<Value>)
    requires forall i | 0 <= i < |items| :: Valid(items[i]) && Supported(items[i])
    ensures AllRead(PrintItems(items), vs)
    ensures forall i | 0 <= i < |items| :: Valid(vs[i]) && InOrder(vs[i]) && Same(vs[i], items[i])
    decreases items, 0
  {
    if items == [] {
      vs := [];
    } else {
      var first := ReadBack(items[0]);
      var rest := ItemsReadBack(items[1..]);
      vs := [first] + rest;
      assert PrintItems(items) == [Print(items[0])] + PrintItems(items[1..]);
      assert forall i | 0 < i < |items| :: items[i] == items[1..][i - 1];
    }
  }

  /** `v` is read from the entry `e` and is the same as the field of `f` that `e` was printed from. */
  ghost predicate From(f: seq<Field>, e: Entry, v: Value) {
    Valid(v) && InOrder(v) && Reads(e.text, v) && exists k | 0 <= k < |f| :: f[k].key == e.key && Same(v, f[k].value)
  }

  lemma {:induction false} EntryReadBack(f: seq<Field>, e: Entry) returns (v: Value)
    requires forall i | 0 <= i < |f| :: Valid(f[i].value) && Supported(f[i].value)
    requires e in SortByKey(PrintFields(f))
    ensures From(f, e, v)
    decreases f, 0, 0
  {
    var k := PrintedFields(f, e);
    v := ReadBack(f[k].value);
  }

  lemma {:induction false} EntriesReadBack(f: seq<Field>, es: seq<Entry>) returns (vs: seq<Value>)
    requires forall i | 0 <= i < |f| :: Valid(f[i].value) && Supported(f[i].value)
    requires forall e | e in es :: e in SortByKey(PrintFields(f))
    ensures |vs| == |es| && forall i | 0 <= i < |es| :: From(f, es[i], vs[i])
    decreases f, 1, |es|
  {
    vs := [];
    if es != [] {
      assert es[0] in es;
      var first := EntryReadBack(f, es[0]);
      var rest := EntriesReadBack(f, es[1..]);
      vs := [first] + rest;
    }
  }

  /** A printed value is read back as the same value, whatever delimiter follows it. */
  lemma {:induction false} ReadBack(v: Value) returns (w: Value)
    requires Valid(v) && Supported(v)
    ensures Reads(Print(v), w) && Same(w, v) && Valid(w) && InOrder(w)
    decreases v, 1
  {
    match v {
      case List(items) =>
        var vs := ItemsReadBack(items);
        ListReads(PrintItems(items), vs);
        w := List(vs);
      case Dict(f) =>
        var es := SortByKey(PrintFields(f));
        var vs := EntriesReadBack(f, es);
        DictReads(es, vs);
        w := Dict(Members(es, vs));
        MembersSame(f, es, vs);
      case _ =>
        ConstantReads(v);
        w := v;
    }
  }

  lemma MembersSame(f: seq<Field>, es: seq<Entry>, vs: seq<Value>)
    requires Valid(Dict(f)) && es == SortByKey(PrintFields(f))
    requires |vs| == |es| && forall i | 0 <= i < |es| :: From(f, es[i], vs[i])
    ensures Same(Dict(Members(es, vs)), Dict(f)) && Valid(Dict(Members(es, vs))) && InOrder(Dict(Members(es, vs)))
  {
    var g := Members(es, vs);
    SortByKeySorts(PrintFields(f));
    forall i | 0 <= i < |g| ensures Get(f, g[i].key).Some? && Same(g[i].value, Get(f, g[i].key).value) {
      assert From(f, es[i], vs[i]);
      var k :| 0 <= k < |f| && f[k].key == es[i].key && Same(vs[i], f[k].value);
      GetFinds(f, k);
    }
    forall j | 0 <= j < |f| ensures Get(g, f[j].key).Some? {
      assert PrintFields(f)[j] in SortByKey(PrintFields(f));
      var i :| 0 <= i < |es| && es[i] == PrintFields(f)[j];
      assert g[i].key == f[j].key;
    }
    forall i, j | 0 <= i < j < |g| ensures g[i].key != g[j].key && Before(g[i].key, g[j].key) {
      LessTotal(es[i].key, es[j].key);
      LessIsBefore(es[i].key, es[j].key);
    }
    forall i | 0 <= i < |g| ensures Valid(g[i].value) && InOrder(g[i].value) {
      assert From(f, es[i], vs[i]);
    }
  }

  /**
   What canonical text means: reading it gives back the value that was printed, and its
   members stand in code point order.
   */
  lemma CanonicalTextReadsBack(v: Value)
    requires Valid(v) && CanonicalJson(v).Text?
    ensures var r := ReadJson(CanonicalJson(v).text);
            r.Some? && Same(r.value, v) && Valid(r.value) && InOrder(r.value)
  {
    var w := ReadBack(v);
    assert Print(v) + "" == Print(v);
    assert ReadValue(Print(v) + "") == Got(w, "");
  }

  // ----- the shortest text of a character -----

  /** Of all the texts a reader takes for the character, the printer writes one of the shortest, in lower case. */
  lemma EscapeIsShortest(ch: char, t: string)
    requires ReadChar(t) == Got(ch, "")
    ensures |Escape(ch)| <= |t|
    ensures |Escape(ch)| > 1 ==> forall c | c in Escape(ch) :: !('A' <= c <= 'Z')
  {
    var e := Escape(ch);
    if t[0] != '\\' {
      assert |t| == 1;
    } else if t[1] == 'u' {
      assert |t| == 6;
    } else {
      assert |t| == 2;
    }
  }

  // ----- what cannot be printed -----

  /** `x` is the value or stands somewhere inside it. */
  ghost predicate Inside(v: Value, x: Value) {
    || v == x
    || match v
       case List(items) => exists i | 0 <= i < |items| :: Inside(items[i], x)
       case Dict(fields) => exists i | 0 <= i < |fields| :: Inside(fields[i].value, x)
       case _ => false
  }

  /** The printer raises exactly when something inside the value is of no JSON type. */
  lemma {:induction false} RaisesIff(v: Value)
    ensures CanonicalJson(v).TypeError? <==> Inside(v, Unsupported)
    decreases v
  {
    match v {
      case List(items) =>
        forall i | 0 <= i < |items| ensures Supported(items[i]) <==> !Inside(items[i], Unsupported) {
          RaisesIff(items[i]);
        }
      case Dict(fields) =>
        forall i | 0 <= i < |fields| ensures Supported(fields[i].value) <==> !Inside(fields[i].value, Unsupported) {
          RaisesIff(fields[i].value);
        }
      case _ =>
    }
  }
}
