/**
 What a RECORDED row says about the host: for every check, the condition on the answer under
 which the row is recorded, written without the producer's own steps.
 */
module HostcheckGates {
  import opened PyJson
  import opened Hostcheck

  // ----- the container line -----

  /** The line is a container name, an image and a status, one space between each. */
  ghost predicate ContainerLine(line: string, name: string, image: string, status: string) {
    line == name + " " + image + " " + status && ' ' !in name && ' ' !in image
  }

  lemma {:induction false} SplitFirst(s: string, a: string, b: string)
    requires s == a + " " + b && ' ' !in a
    ensures SplitOn(s, ' ') == [a] + SplitOn(b, ' ')
  {
    if a == "" {
      assert s[1..] == b;
    } else {
      assert s[0] == a[0] && s[0] in a;
      assert s[1..] == a[1..] + " " + b;
      SplitFirst(s[1..], a[1..], b);
      assert [s[0]] + a[1..] == a && s[0] != ' ';
    }
  }

  lemma {:induction false} SplitReads(s: string) returns (a: string, rest: string)
    ensures SplitOn(s, ' ')[0] == a && ' ' !in a
    ensures |SplitOn(s, ' ')| > 1 ==> s == a + " " + rest && SplitOn(s, ' ')[1..] == SplitOn(rest, ' ')
    ensures |SplitOn(s, ' ')| == 1 ==> s == a
  {
    if s == "" {
      a, rest := "", "";
    } else if s[0] == ' ' {
      a, rest := "", s[1..];
      assert s == a + " " + rest;
    } else {
      var more;
      more, rest := SplitReads(s[1..]);
      a := [s[0]] + more;
      assert |SplitOn(s, ' ')| > 1 ==> s == [s[0]] + s[1..] == a + " " + rest;
    }
  }

  /** The three parts are found exactly when the line has that form, and then they are those. */
  lemma PartsAreTheLine(line: string)
    ensures Parts(line).Some? ==> var p := Parts(line).value; ContainerLine(line, p.0, p.1, p.2)
    ensures forall a, b, c | ContainerLine(line, a, b, c) :: Parts(line) == Some((a, b, c))
  {
    if Parts(line).Some? {
      var a, rest := SplitReads(line);
      var b, last := SplitReads(rest);
      assert SplitOn(line, ' ')[1] == SplitOn(rest, ' ')[0] == b;
      assert |SplitOn(rest, ' ')| > 1;
      assert line == a + " " + b + " " + last;
      assert line[|a| + |b| + 2..] == last;
    }
    forall a, b, c | ContainerLine(line, a, b, c) ensures Parts(line) == Some((a, b, c)) {
      assert line == a + " " + (b + " " + c);
      SplitFirst(line, a, b + " " + c);
      SplitFirst(b + " " + c, b, c);
      var words := SplitOn(line, ' ');
      assert words == [a] + ([b] + SplitOn(c, ' '));
      assert |words| >= 3 && words[0] == a && words[1] == b;
      assert line[|a| + |b| + 2..] == c;
    }
  }

  // ----- the unit's properties -----

  predicate KnownLine(line: UnitLine) { line.key.Some? && line.value in UnitValues(line.key.value) }

  ghost predicate FreshLines(facts: Fields, lines: seq<UnitLine>) {
    && (forall i | 0 <= i < |lines| :: KnownLine(lines[i]) && Unit(lines[i].key.value) !in facts)
    && (forall i, j | 0 <= i < j < |lines| :: lines[i].key != lines[j].key)
  }

  lemma FitsIsKnown(facts: Fields, line: UnitLine)
    ensures UnitLineFits(facts, line) <==> KnownLine(line) && Unit(line.key.value) !in facts
    ensures UnitLineFits(facts, line) ==> AddUnitLine(facts, line) == facts[Unit(line.key.value) := Str(line.value)]
  {
  }

  lemma FreshStep(facts: Fields, lines: seq<UnitLine>)
    requires lines != []
    ensures FreshLines(facts, lines) <==>
            && KnownLine(lines[0]) && Unit(lines[0].key.value) !in facts
            && FreshLines(facts[Unit(lines[0].key.value) := Str(lines[0].value)], lines[1..])
  {
    var rest := lines[1..];
    if KnownLine(lines[0]) && Unit(lines[0].key.value) !in facts {
      var more := facts[Unit(lines[0].key.value) := Str(lines[0].value)];
      if FreshLines(facts, lines) {
        assert forall i | 0 <= i < |rest| :: rest[i] == lines[i + 1];
      }
      if FreshLines(more, rest) {
        assert forall i | 0 < i < |lines| :: lines[i] == rest[i - 1];
      }
    }
  }

  ghost predicate HasKey(lines: seq<UnitLine>, k: UnitKey) {
    exists i | 0 <= i < |lines| :: lines[i].key == Some(k)
  }

  lemma HasKeyStep(lines: seq<UnitLine>, k: UnitKey)
    requires lines != []
    ensures HasKey(lines, k) <==> lines[0].key == Some(k) || HasKey(lines[1..], k)
  {
    var rest := lines[1..];
    if HasKey(rest, k) {
      var i :| 0 <= i < |rest| && rest[i].key == Some(k);
      assert lines[i + 1] == rest[i];
    }
    if HasKey(lines, k) && lines[0].key != Some(k) {
      var i :| 0 <= i < |lines| && lines[i].key == Some(k);
      assert rest[i - 1] == lines[i];
    }
  }

  /** The scan succeeds exactly on known lines with no key twice. */
  lemma {:induction false} ScanIff(facts: Fields, lines: seq<UnitLine>)
    ensures ScanUnit(facts, lines).1 <==> FreshLines(facts, lines)
    decreases lines
  {
    if lines != [] {
      FreshStep(facts, lines);
      FitsIsKnown(facts, lines[0]);
      ScanIff(AddUnitLine(facts, lines[0]), lines[1..]);
    }
  }

  /** And then it has read exactly the keys of the lines. */
  lemma {:induction false} ScanKeys(facts: Fields, lines: seq<UnitLine>, k: UnitKey)
    requires FreshLines(facts, lines)
    ensures Unit(k) in ScanUnit(facts, lines).0 <==> Unit(k) in facts || HasKey(lines, k)
    decreases lines
  {
    if lines != [] {
      FreshStep(facts, lines);
      FitsIsKnown(facts, lines[0]);
      HasKeyStep(lines, k);
      ScanKeys(AddUnitLine(facts, lines[0]), lines[1..], k);
    }
  }

  lemma {:induction false} ScanKeeps(facts: Fields, lines: seq<UnitLine>, key: Key)
    requires FreshLines(facts, lines) && key in facts
    ensures Get(ScanUnit(facts, lines).0, key) == facts[key]
    decreases lines
  {
    if lines != [] {
      FreshStep(facts, lines);
      FitsIsKnown(facts, lines[0]);
      ScanKeeps(AddUnitLine(facts, lines[0]), lines[1..], key);
    }
  }

  /** Each value is read where it stands. */
  lemma {:induction false} ScanReads(facts: Fields, lines: seq<UnitLine>, i: nat)
    requires FreshLines(facts, lines) && i < |lines|
    ensures Get(ScanUnit(facts, lines).0, Unit(lines[i].key.value)) == Str(lines[i].value)
    decreases lines
  {
    FreshStep(facts, lines);
    FitsIsKnown(facts, lines[0]);
    var more, rest := AddUnitLine(facts, lines[0]), lines[1..];
    if i == 0 {
      ScanKeeps(more, rest, Unit(lines[0].key.value));
    } else {
      ScanReads(more, rest, i - 1);
    }
  }

  /** All five properties, each once and with a known value; the unit is not active or failed and its result is success. */
  ghost predicate FreshUnit(lines: seq<UnitLine>) {
    && FreshLines(map[], lines) && (forall k: UnitKey :: HasKey(lines, k))
    && (forall i | 0 <= i < |lines| && lines[i].key == Some(ActiveState) :: lines[i].value != "active" && lines[i].value != "failed")
    && (forall i | 0 <= i < |lines| && lines[i].key == Some(UnitResult) :: lines[i].value == "success")
  }

  lemma OnlyPlace(lines: seq<UnitLine>, k: UnitKey) returns (i: nat)
    requires FreshLines(map[], lines) && HasKey(lines, k)
    ensures i < |lines| && lines[i].key == Some(k)
    ensures forall j | 0 <= j < |lines| && lines[j].key == Some(k) :: j == i
    ensures Get(ScanUnit(map[], lines).0, Unit(k)) == Str(lines[i].value)
  {
    i :| 0 <= i < |lines| && lines[i].key == Some(k);
    ScanReads(map[], lines, i);
  }

  lemma UnitRecordedIff(r: Reply, lines: seq<UnitLine>)
    requires lines == r.unitLines
    ensures UnitStep(r, ScanUnit(map[], lines).0, ScanUnit(map[], lines).1).outcome == Recorded <==> r.rc == Some(0) && FreshUnit(lines)
  {
    ScanIff(map[], lines);
    if FreshLines(map[], lines) {
      var facts := ScanUnit(map[], lines).0;
      forall k ensures Unit(k) in facts <==> HasKey(lines, k) {
        ScanKeys(map[], lines, k);
      }
      if UnitComplete(facts) {
        assert Unit(ActiveState) in facts && Unit(UnitResult) in facts;
        var i := OnlyPlace(lines, ActiveState);
        var j := OnlyPlace(lines, UnitResult);
      }
    }
  }

  // ----- words of the boot-hold files -----

  lemma {:induction false} OneWord(s: string)
    requires forall i | 0 <= i < |s| :: IsLetter(s[i])
    ensures Words(s) == [s]
  {
    if s != "" {
      OneWord(s[1..]);
      assert [s[0]] + s[1..] == s;
    }
  }

  lemma {:induction false} TwoWords(s: string, a: string, b: string)
    requires s == a + "_" + b && forall i | 0 <= i < |a| :: IsLetter(a[i])
    ensures Words(s) == [a] + Words(b)
  {
    if a == "" {
      assert s[1..] == b;
    } else {
      assert s[1..] == a[1..] + "_" + b && s[0] == a[0];
      TwoWords(s[1..], a[1..], b);
      assert [s[0]] + a[1..] == a;
    }
  }

  predicate LetterWord(s: string) { AllChars(s, 1, 32, IsLetter) }

  lemma PairIsWord(s: string, a: string, b: string)
    requires s == a + "_" + b && LetterWord(a) && LetterWord(b)
    ensures IsJsonWord(s)
  {
    TwoWords(s, a, b);
    OneWord(b);
  }

  lemma OptedOutIsWord()
    ensures IsJsonWord("OPTED_OUT")
  {
    var a, b := "OPTED", "OUT";
    assert LetterWord(a) && LetterWord(b);
    PairIsWord("OPTED_OUT", a, b);
  }

  lemma HoldOffIsWord()
    ensures IsJsonWord("HOLD_OFF")
  {
    var a, b := "HOLD", "OFF";
    assert LetterWord(a) && LetterWord(b);
    PairIsWord("HOLD_OFF", a, b);
  }

  predicate FactOf(key: Key, k: JsonKey) { key == BoolOf(k) || key == HasOf(k) || key == WordOf(k) }

  lemma NoCount(id: RowId, doc: Doc, k: JsonKey, key: Key)
    requires FactOf(key, k)
    ensures key !in CountFacts(id, doc)
  {
  }

  lemma NamesItsKey(doc: Doc, n: JsonKey)
    ensures FactOf(FactKeyIn(doc)(n), n)
    ensures Listed(n) in doc ==> FactKeyIn(doc)(n) == JsonFactKey(n, doc[Listed(n)]) && FactValIn(doc)(n) == JsonFactVal(n, doc[Listed(n)])
  {
  }

  lemma JoinedReads(counts: Fields, listed: Fields, key: Key)
    requires key !in counts
    ensures key in counts + listed <==> key in listed
    ensures key in listed ==> (counts + listed)[key] == listed[key]
  {
  }

  lemma NamesIff(id: RowId, doc: Doc, k: JsonKey)
    requires k in JsonKeys(id)
    ensures k in ListedNames(id, doc) <==> Listed(k) in doc
  {
  }

  lemma JoinedFact(counts: Fields, names: set<JsonKey>, doc: Doc, k: JsonKey, key: Key)
    requires key !in counts && FactOf(key, k) && Distinct(names, FactKeyIn(doc)) && forall n | n in names :: Listed(n) in doc
    ensures var facts := counts + Entries(names, FactKeyIn(doc), FactValIn(doc));
            && (key in facts <==> k in names && key == JsonFactKey(k, doc[Listed(k)]))
            && (key in facts ==> facts[key] == JsonFactVal(k, doc[Listed(k)]))
  {
    JoinedReads(counts, Entries(names, FactKeyIn(doc), FactValIn(doc)), key);
    ListedFact(names, doc, k, key);
  }

  /** A listed key leaves exactly one fact, under the name its value calls for. */
  lemma OneFact(id: RowId, doc: Doc, k: JsonKey, key: Key)
    requires FactOf(key, k) && (k in ListedNames(id, doc) <==> Listed(k) in doc)
    ensures key in JsonFacts(id, doc) <==> Listed(k) in doc && key == JsonFactKey(k, doc[Listed(k)])
    ensures key in JsonFacts(id, doc) ==> JsonFacts(id, doc)[key] == JsonFactVal(k, doc[Listed(k)])
  {
    FactKeysDistinct(id, doc);
    NoCount(id, doc, k, key);
    JoinedFact(CountFacts(id, doc), ListedNames(id, doc), doc, k, key);
  }

  lemma ListedFact(names: set<JsonKey>, doc: Doc, k: JsonKey, key: Key)
    requires FactOf(key, k) && Distinct(names, FactKeyIn(doc)) && forall n | n in names :: Listed(n) in doc
    ensures var listed := Entries(names, FactKeyIn(doc), FactValIn(doc));
            && (key in listed <==> k in names && key == JsonFactKey(k, doc[Listed(k)]))
            && (key in listed ==> listed[key] == JsonFactVal(k, doc[Listed(k)]))
  {
    NamesItsKey(doc, k);
    if key in Entries(names, FactKeyIn(doc), FactValIn(doc)) {
      var n := EntrySource(names, FactKeyIn(doc), FactValIn(doc), key);
      NamesItsKey(doc, n);
    }
    if k in names {
      EntryOf(names, FactKeyIn(doc), FactValIn(doc), k);
    }
  }

  lemma BoolKeyIff(k: JsonKey, v: JsonVal)
    ensures JsonFactKey(k, v) == BoolOf(k) <==> v.JBool?
    ensures v.JBool? ==> JsonFactVal(k, v) == Bool(v.b)
  {
  }

  lemma WordKeyIff(k: JsonKey, v: JsonVal, s: string)
    requires k in JSON_WORD_KEYS && IsJsonWord(s)
    ensures JsonFactKey(k, v) == WordOf(k) && JsonFactVal(k, v) == Str(s) <==> v == JText(s)
  {
  }

  lemma TrueFact(id: RowId, doc: Doc, k: JsonKey)
    requires k in ListedNames(id, doc) <==> Listed(k) in doc
    ensures Get(JsonFacts(id, doc), BoolOf(k)) == Bool(true) <==> Listed(k) in doc && doc[Listed(k)] == JBool(true)
  {
    OneFact(id, doc, k, BoolOf(k));
    if Listed(k) in doc {
      BoolKeyIff(k, doc[Listed(k)]);
    }
  }

  lemma WordFact(id: RowId, doc: Doc, k: JsonKey, s: string)
    requires k in ListedNames(id, doc) <==> Listed(k) in doc
    requires k in JSON_WORD_KEYS && IsJsonWord(s)
    ensures Get(JsonFacts(id, doc), WordOf(k)) == Str(s) <==> Listed(k) in doc && doc[Listed(k)] == JText(s)
  {
    OneFact(id, doc, k, WordOf(k));
    if Listed(k) in doc {
      WordKeyIff(k, doc[Listed(k)], s);
    }
  }

  // ----- every check -----

  /** One of the lines reads like this once stripped. */
  ghost predicate Reads(lines: seq<string>, text: string) { exists i | 0 <= i < |lines| :: Strip(lines[i]) == text }

  ghost predicate Ends(lines: seq<string>, tail: string) { exists i | 0 <= i < |lines| :: EndsWith(lines[i], tail) }

  /** The rule that holds traffic is among the lines. */
  ghost predicate HoldRule(id: RowId, lines: seq<string>) {
    if id == E54 || id == E57 then Reads(lines, "-A VANTIO_BOOT_HOLD -j DROP") else Ends(lines, "-j VANTIO_BOOT_HOLD")
  }

  ghost predicate Says(doc: Doc, k: JsonKey, v: JsonVal) { Listed(k) in doc && doc[Listed(k)] == v }

  /** What the answer to a check must show, beyond return code 0. */
  ghost predicate Gate(id: RowId, r: Reply, who: Expected) {
    match id
    case S0a | S0c | S0d | S0e | E513 => true
    case S0b => ExactName(who, PrintedLine(r.out)) || FullName(who, PrintedLine(r.out))
    case E41 =>
      |r.lines| == 1 && exists name, image, status :: ContainerLine(r.lines[0], name, image, status) && IsPeName(name) && "Up" <= status
    case E42 =>
      && (forall i | 0 <= i < |r.lines| :: IsEnvName(Strip(r.lines[i])))
      && Reads(r.lines, "VANTIO_TELEMETRY_DISABLED") && Reads(r.lines, "DO_NOT_TRACK")
    case E43 => r.checkinCount == 0
    case E51 => AllFiles(r.listed)
    case E52 => AllUnits(r.listed)
    case E53 => FreshUnit(r.unitLines)
    case E54 | E55 | E56 | E57 | E58 | E59 => HoldRule(id, r.lines)
    case E510 => r.body.Some? && !Says(r.body.value, Released, JBool(true))
    case E511 => r.body.Some? && !Says(r.body.value, State, JText("OPTED_OUT")) && !Says(r.body.value, State, JText("HOLD_OFF"))
    case E512 => r.body.Some?
  }

  ghost predicate RecordedExactly(id: RowId, r: Reply, who: Expected) {
    Decide(id, r, who, Some(0)).outcome == Recorded <==> r.rc == Some(0) && Gate(id, r, who)
  }

  lemma NameRow(r: Reply, who: Expected)
    ensures RecordedExactly(S0b, r, who)
  {
    var facts := HostNameFacts(who, r.out);
    assert Get(facts, HostNameMatch) == Bool(ExactName(who, PrintedLine(r.out)) || FullName(who, PrintedLine(r.out)));
    assert Get(facts, ExpectedNameValid) == Bool(NameValid(who));
  }

  lemma ContainerRow(r: Reply, who: Expected)
    ensures RecordedExactly(E41, r, who)
  {
    if |r.lines| == 1 {
      var line := r.lines[0];
      PartsAreTheLine(line);
      if exists name, image, status :: ContainerLine(line, name, image, status) && IsPeName(name) && "Up" <= status {
        var name, image, status :| ContainerLine(line, name, image, status) && IsPeName(name) && "Up" <= status;
        assert Parts(line) == Some((name, image, status));
      }
    }
  }

  lemma NameAmong(r: Reply, name: string)
    ensures name in EnvNames(r) <==> Reads(r.lines, name)
  {
    ImageIff(r.lines, Strip, name);
  }

  lemma EnvRow(r: Reply, who: Expected)
    ensures RecordedExactly(E42, r, who)
  {
    NameAmong(r, "VANTIO_TELEMETRY_DISABLED");
    NameAmong(r, "DO_NOT_TRACK");
  }

  lemma RuleHolds(id: RowId, lines: seq<string>)
    ensures Holds(id, RuleFacts(id, lines)) <==> HoldRule(id, lines)
  {
    if IsChainRow(id) {
      assert Get(ChainFacts(lines), DropRulePresent) == Bool(exists i | 0 <= i < |lines| :: Strip(lines[i]) == "-A VANTIO_BOOT_HOLD -j DROP");
    } else {
      assert Get(JumpFacts(lines), JumpToBootHold) == Bool(exists i | 0 <= i < |lines| :: EndsWith(lines[i], "-j VANTIO_BOOT_HOLD"));
    }
  }

  lemma RuleRow(id: RowId, r: Reply, who: Expected)
    requires id == E54 || id == E55 || id == E56 || id == E57 || id == E58 || id == E59
    ensures RecordedExactly(id, r, who)
  {
    if id == E54 || id == E55 || id == E56 {
      Ipv4Row(id, r, who);
    } else {
      Ipv6Row(id, r, who);
    }
  }

  lemma Ipv4Row(id: RowId, r: Reply, who: Expected)
    requires id == E54 || id == E55 || id == E56
    ensures RecordedExactly(id, r, who)
  {
    RuleHolds(id, r.lines);
    assert Decide(id, r, who, Some(0)) == RulesStep(id, r);
  }

  lemma Ipv6Row(id: RowId, r: Reply, who: Expected)
    requires id == E57 || id == E58 || id == E59
    ensures RecordedExactly(id, r, who)
  {
    RuleHolds(id, r.lines);
    assert Decide(id, r, who, Some(0)) == Ipv6Step(id, r, Some(0));
  }

  lemma ReleasedFact(doc: Doc)
    ensures Get(JsonFacts(E510, doc), BoolOf(Released)) == Bool(true) <==> Says(doc, Released, JBool(true))
  {
    NamesIff(E510, doc, Released);
    TrueFact(E510, doc, Released);
  }

  lemma StateFact(doc: Doc, s: string)
    requires IsJsonWord(s)
    ensures Get(JsonFacts(E511, doc), WordOf(State)) == Str(s) <==> Says(doc, State, JText(s))
  {
    NamesIff(E511, doc, State);
    WordFact(E511, doc, State, s);
  }

  lemma ReleasedRow(r: Reply, who: Expected)
    ensures RecordedExactly(E510, r, who)
  {
    if r.body.Some? {
      ReleasedFact(r.body.value);
    }
  }

  lemma StateFacts(doc: Doc)
    ensures Get(JsonFacts(E511, doc), WordOf(State)) == Str("OPTED_OUT") <==> Says(doc, State, JText("OPTED_OUT"))
    ensures Get(JsonFacts(E511, doc), WordOf(State)) == Str("HOLD_OFF") <==> Says(doc, State, JText("HOLD_OFF"))
  {
    OptedOutIsWord();
    HoldOffIsWord();
    StateFact(doc, "OPTED_OUT");
    StateFact(doc, "HOLD_OFF");
  }

  lemma StateStep(facts: Fields, out: bool, off: bool)
    requires Get(facts, WordOf(State)) == Str("OPTED_OUT") <==> out
    requires Get(facts, WordOf(State)) == Str("HOLD_OFF") <==> off
    ensures FileStep(E511, facts).outcome == Recorded <==> !out && !off
  {
  }

  lemma StateRow(r: Reply, who: Expected)
    ensures RecordedExactly(E511, r, who)
  {
    if r.body.Some? {
      var doc := r.body.value;
      StateFacts(doc);
      StateStep(JsonFacts(E511, doc), Says(doc, State, JText("OPTED_OUT")), Says(doc, State, JText("HOLD_OFF")));
    }
  }

  /** A row is recorded exactly when its command succeeded and its answer shows what the check asks for. */
  lemma RecordedIff(id: RowId, r: Reply, who: Expected)
    ensures RecordedExactly(id, r, who)
  {
    match id {
      case S0b => NameRow(r, who);
      case E41 => ContainerRow(r, who);
      case E42 => EnvRow(r, who);
      case E53 => UnitRecordedIff(r, r.unitLines);
      case E54 | E55 | E56 | E57 | E58 | E59 => RuleRow(id, r, who);
      case E510 => ReleasedRow(r, who);
      case E511 => StateRow(r, who);
      case _ => PlainRow(id, r, who);
    }
  }

  lemma PlainRow(id: RowId, r: Reply, who: Expected)
    requires id == S0a || id == S0c || id == S0d || id == S0e || id == E43 || id == E51 || id == E52 || id == E512 || id == E513
    ensures RecordedExactly(id, r, who)
  {
    match id {
      case S0a => ExitRow(r, who);
      case S0c => ReadyRow(r, who);
      case S0d => BackendRow(r, who);
      case S0e => Backend6Row(r, who);
      case E43 => CountRow(r, who);
      case E51 => FilesRow(r, who);
      case E52 => UnitFilesRow(r, who);
      case E512 => JsonRow(r, who);
      case E513 => AuditRow(r, who);
    }
  }

  lemma ExitRow(r: Reply, who: Expected)
    ensures RecordedExactly(S0a, r, who)
  {
  }

  lemma ReadyRow(r: Reply, who: Expected)
    ensures RecordedExactly(S0c, r, who)
  {
  }

  lemma BackendRow(r: Reply, who: Expected)
    ensures RecordedExactly(S0d, r, who)
  {
  }

  lemma Backend6Row(r: Reply, who: Expected)
    ensures RecordedExactly(S0e, r, who)
  {
  }

  lemma CountRow(r: Reply, who: Expected)
    ensures RecordedExactly(E43, r, who)
  {
  }

  lemma FilesRow(r: Reply, who: Expected)
    ensures RecordedExactly(E51, r, who)
  {
  }

  lemma UnitFilesRow(r: Reply, who: Expected)
    ensures RecordedExactly(E52, r, who)
  {
  }

  lemma JsonRow(r: Reply, who: Expected)
    ensures RecordedExactly(E512, r, who)
  {
  }

  lemma AuditRow(r: Reply, who: Expected)
    ensures RecordedExactly(E513, r, who)
  {
  }

  /** So a report for grading means that every check's own answer showed what it asks for. */
  lemma GradingMeansAllGates(rows: seq<Row>, oracle: (seq<Call>, Call) -> Reply, from: nat, calls: seq<Call>, who: Expected, k: nat) returns (j: nat)
    requires Matches(oracle, from, calls, rows, who) && k < |rows| && rows[k].outcome == Recorded
    ensures from <= j < |calls| && calls[j].id == rows[k].id
    ensures var r := oracle(calls[..j], calls[j]); r.rc == Some(0) && Gate(rows[k].id, r, who)
  {
    assert Answered(oracle, from, calls, rows[k], who);
    j :| from <= j && AnsweredAt(oracle, calls, rows[k], who, j);
    RecordedIff(rows[k].id, oracle(calls[..j], calls[j]), who);
  }
}
