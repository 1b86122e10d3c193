/**
 The result of every check, reason and facts included, said of its answer in literal words.
 */
module HostcheckResults {
  import opened PyJson
  import opened Texts
  import opened Hostcheck
  import opened HostcheckMeaning
  import Gates = HostcheckGates

  // ----- any letter case -----

  /** `c` is the lower-case `w`, or its upper-case form. */
  ghost predicate SameLetter(c: char, w: char) { c == w || exists i | 0 <= i < 26 :: UPPER[i] == c && LOWER[i] == w }

  lemma LowerIs(c: char, w: char)
    requires !IsUpper(w)
    ensures Lower(c) == w <==> SameLetter(c, w)
  {
    UpperIff(c);
    UpperIff(w);
    if IsUpper(c) {
      var i := c as int - 'A' as int;
      assert UPPER[i] == c && LOWER[i] == Lower(c);
      assert forall j | 0 <= j < 26 && UPPER[j] == c :: j == i;
    }
  }

  ghost predicate SaysAt(s: string, word: string, a: string, mid: string, b: string) {
    s == a + mid + b && |mid| == |word| && forall j | 0 <= j < |word| :: SameLetter(mid[j], word[j])
  }

  /** The word stands somewhere in the text, in any letter case. */
  ghost predicate Says(s: string, word: string) { exists a: string, mid: string, b: string :: SaysAt(s, word, a, mid, b) }

  predicate NoUpper(word: string) { forall j | 0 <= j < |word| :: !IsUpper(word[j]) }

  lemma WordAtIff(s: string, word: string, i: nat)
    requires NoUpper(word) && i + |word| <= |s|
    ensures WordAt(s, word, i) <==> SaysAt(s, word, s[..i], s[i..i + |word|], s[i + |word|..])
  {
    forall j | 0 <= j < |word| ensures Lower(s[i + j]) == word[j] <==> SameLetter(s[i..i + |word|][j], word[j]) {
      LowerIs(s[i + j], word[j]);
    }
  }

  lemma HasWordIff(s: string, word: string)
    requires NoUpper(word)
    ensures HasWord(s, word) <==> Says(s, word)
  {
    if HasWord(s, word) {
      var i :| 0 <= i <= |s| && WordAt(s, word, i);
      WordAtIff(s, word, i);
    }
    if a: string, mid: string, b: string :| SaysAt(s, word, a, mid, b) {
      assert s[..|a|] == a && s[|a|..|a| + |word|] == mid && s[|a| + |word|..] == b;
      WordAtIff(s, word, |a|);
    }
  }

  // ----- no IPv6 on the host -----

  ghost predicate Absent(s: string) {
    || Says(s, "address family not supported") || Says(s, "can't initialise ip6tables table")
    || Says(s, "can't initialize ip6tables table")
  }

  lemma FamilyIff(s: string)
    ensures HasWord(s, NO_FAMILY) <==> Says(s, "address family not supported")
  {
    assert NoUpper("address family not supported");
    HasWordIff(s, "address family not supported");
  }

  lemma TableIff(s: string)
    ensures HasWord(s, NO_TABLE_S) <==> Says(s, "can't initialise ip6tables table")
  {
    assert NoUpper("can't initialise ip6tables table");
    HasWordIff(s, "can't initialise ip6tables table");
  }

  lemma TableZIff(s: string)
    ensures HasWord(s, NO_TABLE_Z) <==> Says(s, "can't initialize ip6tables table")
  {
    assert NoUpper("can't initialize ip6tables table");
    HasWordIff(s, "can't initialize ip6tables table");
  }

  lemma AbsentIff(s: string)
    ensures SaysAbsent(s) <==> Absent(s)
  {
    FamilyIff(s);
    TableIff(s);
    TableZIff(s);
  }

  /** The first error line that says so. */
  ghost predicate FirstAbsent(lines: seq<string>, i: nat) {
    i < |lines| && Absent(lines[i]) && forall j | 0 <= j < i :: !Absent(lines[j])
  }

  lemma {:induction false} AbsentLineIs(lines: seq<string>)
    ensures forall i: nat | FirstAbsent(lines, i) :: Core(lines[i], AbsentLine(lines))
    ensures (forall i | 0 <= i < |lines| :: !Absent(lines[i])) ==> AbsentLine(lines) == ""
  {
    if lines != [] {
      AbsentIff(lines[0]);
      StripIff(lines[0], Strip(lines[0]));
      AbsentLineIs(lines[1..]);
      forall i: nat | FirstAbsent(lines, i) ensures Core(lines[i], AbsentLine(lines)) {
        if i > 0 {
          assert FirstAbsent(lines[1..], i - 1);
        }
      }
    }
  }

  ghost predicate PrintableLine(s: string) { 1 <= |s| <= 300 && forall c | c in s :: ' ' <= c <= '~' }

  /** `text` is the first error line that says the host has no IPv6, without space around it, and it can be printed. */
  ghost predicate Ipv6AbsentAs(lines: seq<string>, text: string) {
    (exists i: nat :: FirstAbsent(lines, i) && Core(lines[i], text)) && PrintableLine(text)
  }

  lemma SomeFirst(lines: seq<string>)
    ensures (forall i | 0 <= i < |lines| :: !Absent(lines[i])) || exists i: nat :: FirstAbsent(lines, i)
  {
    if i: nat :| i < |lines| && Absent(lines[i]) {
      FirstUpTo(lines, i);
    }
  }

  lemma {:induction false} FirstUpTo(lines: seq<string>, i: nat)
    requires i < |lines| && Absent(lines[i])
    ensures exists k: nat :: FirstAbsent(lines, k)
  {
    if j: nat :| j < i && Absent(lines[j]) {
      FirstUpTo(lines, j);
    } else {
      assert FirstAbsent(lines, i);
    }
  }

  lemma PrintableIff(s: string)
    ensures IsPrintable(s) <==> PrintableLine(s)
  {
    assert forall i | 0 <= i < |s| :: s[i] in s;
  }

  lemma AbsentAsIff(lines: seq<string>, text: string)
    ensures AbsentLine(lines) == text && IsPrintable(text) <==> Ipv6AbsentAs(lines, text)
  {
    PrintableIff(text);
    AbsentLineIs(lines);
    SomeFirst(lines);
    if i: nat :| FirstAbsent(lines, i) {
      assert forall k: nat | FirstAbsent(lines, k) :: k == i;
      if Core(lines[i], text) {
        CoreUnique(lines[i], text, AbsentLine(lines));
      }
    }
  }

  /** What an ip6tables read means. */
  lemma ClassifyIs(versionRc: Option<int>, rc: Option<int>, errLines: seq<string>)
    ensures var got := ClassifyIpv6(versionRc, rc, errLines);
            && (versionRc != Some(0) ==> got == (Ip6tablesMissing, ""))
            && (versionRc == Some(0) && rc == Some(0) ==> got == (Recorded, ""))
            && (versionRc == Some(0) && rc != Some(0) ==>
                  && (forall text | rc != None && Ipv6AbsentAs(errLines, text) :: got == (Ipv6NotPresent, text))
                  && ((rc == None || !exists text :: Ipv6AbsentAs(errLines, text)) ==> got == (Ipv6OtherError, "")))
  {
    var line := AbsentLine(errLines);
    AbsentAsIff(errLines, line);
    forall text | Ipv6AbsentAs(errLines, text) ensures text == line {
      AbsentAsIff(errLines, text);
    }
  }

  // ----- words of the boot-hold files -----

  ghost predicate Letters(s: string) { Of(s, 1, 32, LETTERS) }

  /** At most `n` words of letters, joined by - or _. */
  ghost predicate Joined(s: string, n: nat)
    decreases n
  {
    n > 0
    && (Letters(s) || exists a: string, sep: char, b: string :: Links(s, a, sep, b) && Joined(b, n - 1))
  }

  ghost predicate Links(s: string, a: string, sep: char, b: string) { s == a + [sep] + b && Letters(a) && (sep == '-' || sep == '_') }

  predicate IsSep(c: char) { c == '-' || c == '_' }

  predicate NoSep(s: string) { forall i | 0 <= i < |s| :: !IsSep(s[i]) }

  lemma LettersIff(s: string)
    ensures AllChars(s, 1, 32, IsLetter) <==> Letters(s)
    ensures Letters(s) ==> NoSep(s)
  {
    forall i | 0 <= i < |s| ensures IsLetter(s[i]) <==> s[i] in LETTERS {
      LowerIff(s[i]);
      UpperIff(s[i]);
    }
  }

  lemma {:induction false} FirstWord(s: string)
    ensures var p := Words(s)[0];
            && |p| <= |s| && s[..|p|] == p && NoSep(p) && (|p| == |s| || IsSep(s[|p|]))
            && Words(s)[1..] == if |p| == |s| then [] else Words(s[|p| + 1..])
  {
    if s != "" {
      FirstWord(s[1..]);
      var rest := Words(s[1..]);
      if IsSep(s[0]) {
        assert Words(s) == [""] + rest;
      } else {
        assert Words(s)[0] == [s[0]] + rest[0];
        assert |rest[0]| < |s[1..]| ==> s[1..][|rest[0]| + 1..] == s[|rest[0]| + 2..];
      }
    }
  }

  lemma WordsOf(s: string, p: string)
    requires |p| <= |s| && s[..|p|] == p && NoSep(p) && (|p| == |s| || IsSep(s[|p|]))
    ensures Words(s)[0] == p
  {
    FirstWord(s);
    var q := Words(s)[0];
    assert forall i | 0 <= i < |p| :: s[i] == p[i] && !IsSep(p[i]);
    assert forall i | 0 <= i < |q| :: s[i] == q[i] && !IsSep(q[i]);
  }

  predicate WordsFit(s: string, n: nat) {
    |Words(s)| <= n && AllWords(Words(s))
  }

  predicate AllWords(words: seq<string>) { forall i | 0 <= i < |words| :: AllChars(words[i], 1, 32, IsLetter) }

  lemma AllStep(words: seq<string>, p: string, more: seq<string>)
    requires words == [p] + more
    ensures AllWords(words) <==> AllChars(p, 1, 32, IsLetter) && AllWords(more)
  {
    assert words[0] == p;
    assert forall i | 0 <= i < |more| :: words[i + 1] == more[i];
    assert forall i | 0 < i < |words| :: words[i] == more[i - 1];
  }

  lemma FitStep(s: string, n: nat)
    requires n > 0
    ensures var p := Words(s)[0];
            && |p| <= |s|
            && (WordsFit(s, n) <==> AllChars(p, 1, 32, IsLetter) && (|p| == |s| || WordsFit(s[|p| + 1..], n - 1)))
  {
    FirstWord(s);
    var words, p := Words(s), Words(s)[0];
    AllStep(words, p, words[1..]);
  }

  lemma {:induction false} JoinedIff(s: string, n: nat)
    ensures WordsFit(s, n) <==> Joined(s, n)
    decreases n
  {
    if n > 0 {
      FitStep(s, n);
      FirstWord(s);
      var p := Words(s)[0];
      LettersIff(p);
      if |p| < |s| {
        var b := s[|p| + 1..];
        JoinedIff(b, n - 1);
        assert s == p + [s[|p|]] + b;
        if WordsFit(s, n) {
          assert Links(s, p, s[|p|], b);
        }
        LettersIff(s);
      } else {
        assert s == p;
      }
      if Joined(s, n) {
        JoinedFits(s, n);
      }
    }
  }

  lemma {:induction false} JoinedFits(s: string, n: nat)
    requires Joined(s, n)
    ensures WordsFit(s, n)
    decreases n
  {
    FitStep(s, n);
    if Letters(s) {
      LettersIff(s);
      assert s[..|s|] == s;
      WordsOf(s, s);
    } else {
      var a: string, sep: char, b: string :| Links(s, a, sep, b) && Joined(b, n - 1);
      LettersIff(a);
      assert s[..|a|] == a && s[|a|] == sep && s[|a| + 1..] == b;
      WordsOf(s, a);
      JoinedFits(b, n - 1);
    }
  }

  /** One to four words of letters joined by - or _. */
  lemma JsonWordIff(s: string)
    ensures IsJsonWord(s) <==> Joined(s, 4)
  {
    JoinedIff(s, 4);
    assert IsJsonWord(s) <==> WordsFit(s, 4);
  }

  ghost predicate TellsWord(k: JsonKey) { k == Command || k == FileProfile || k == Health || k == LastReason || k == State }

  ghost predicate StateKey(k: JsonKey) { k == FileProfile || k == LastReason || k == NetworkHold || k == Released }

  ghost predicate HealthKey(k: JsonKey) {
    || k == Command || k == EnrolledSlice || k == FileProfile || k == Health || k == HostWideHold || k == Message
    || k == ProofCeiling || k == ProofState || k == Ready || k == RebootRow || k == State
  }

  ghost predicate PolicyKey(k: JsonKey) {
    k == CgroupSlice || k == DenyProbe || k == Enabled || k == SubnetV4 || k == SubnetV6 || k == Hold || k == Ordering
  }

  /** The keys each boot-hold file may carry. */
  ghost predicate Carries(id: RowId, k: JsonKey) {
    (id == E510 && StateKey(k)) || (id == E511 && HealthKey(k)) || (id == E512 && PolicyKey(k))
  }

  lemma StateKeyIff(k: JsonKey)
    ensures k in JsonKeys(E510) <==> StateKey(k)
  {
  }

  lemma HealthKeyIff(k: JsonKey)
    ensures k in JsonKeys(E511) <==> HealthKey(k)
  {
  }

  lemma PolicyKeyIff(k: JsonKey)
    ensures k in JsonKeys(E512) <==> PolicyKey(k)
  {
  }

  lemma CarriesIff(id: RowId, k: JsonKey)
    ensures k in JsonKeys(id) <==> Carries(id, k)
  {
    StateKeyIff(k);
    HealthKeyIff(k);
    PolicyKeyIff(k);
    assert id != E510 && id != E511 && id != E512 ==> JsonKeys(id) == {};
  }

  lemma TellsWordIff(k: JsonKey)
    ensures k in JSON_WORD_KEYS <==> TellsWord(k)
  {
  }

  lemma FactKeyIs(k: JsonKey, v: JsonVal)
    ensures JsonFactKey(k, v) ==
            if v.JBool? then BoolOf(k) else if TellsWord(k) && v.JText? && Joined(v.s, 4) then WordOf(k) else HasOf(k)
    ensures v.JBool? ==> JsonFactVal(k, v) == Bool(v.b)
    ensures v.JText? && TellsWord(k) && Joined(v.s, 4) ==> JsonFactVal(k, v) == Str(v.s)
    ensures JsonFactKey(k, v) == HasOf(k) ==> JsonFactVal(k, v) == Bool(true)
  {
    TellsWordIff(k);
    if v.JText? {
      JsonWordIff(v.s);
    }
  }

  /** What a file leaves of one key: its truth value, its word, or only that it is there. */
  lemma JsonFactIs(id: RowId, doc: Doc, k: JsonKey)
    ensures var facts, here := JsonFacts(id, doc), Carries(id, k) && Listed(k) in doc;
            && (forall b :: here && doc[Listed(k)] == JBool(b) ==> Get(facts, BoolOf(k)) == Bool(b))
            && (forall s :: here && doc[Listed(k)] == JText(s) && TellsWord(k) && Joined(s, 4) ==> Get(facts, WordOf(k)) == Str(s))
            && (BoolOf(k) in facts <==> here && doc[Listed(k)].JBool?)
            && (WordOf(k) in facts <==> here && doc[Listed(k)].JText? && TellsWord(k) && Joined(doc[Listed(k)].s, 4))
            && (HasOf(k) in facts <==> here && BoolOf(k) !in facts && WordOf(k) !in facts)
            && (HasOf(k) in facts ==> facts[HasOf(k)] == Bool(true))
  {
    CarriesIff(id, k);
    if k in JsonKeys(id) {
      Gates.NamesIff(id, doc, k);
      Gates.OneFact(id, doc, k, BoolOf(k));
      Gates.OneFact(id, doc, k, WordOf(k));
      Gates.OneFact(id, doc, k, HasOf(k));
      if Listed(k) in doc {
        FactKeyIs(k, doc[Listed(k)]);
      }
    } else {
      NotCarried(id, doc, k, BoolOf(k));
      NotCarried(id, doc, k, WordOf(k));
      NotCarried(id, doc, k, HasOf(k));
    }
  }

  lemma NotCarried(id: RowId, doc: Doc, k: JsonKey, key: Key)
    requires k !in JsonKeys(id) && Gates.FactOf(key, k)
    ensures key !in JsonFacts(id, doc)
  {
    FactKeysDistinct(id, doc);
    Gates.NoCount(id, doc, k, key);
    Gates.JoinedFact(CountFacts(id, doc), ListedNames(id, doc), doc, k, key);
  }

  ghost predicate SignatureNamed(doc: Doc) { exists text :: OtherName(text) in doc && Says(text, "signature") }

  ghost predicate Unlisted(id: RowId, n: JsonName) { n.OtherName? || !Carries(id, n.key) }

  lemma SignatureIff(doc: Doc)
    ensures (exists n :: n in doc && HasSignature(n)) <==> SignatureNamed(doc)
  {
    assert NoUpper("signature");
    forall text ensures HasSignature(OtherName(text)) <==> Says(text, "signature") {
      HasWordIff(text, "signature");
    }
    if n :| n in doc && HasSignature(n) {
      assert n == OtherName(n.text);
    }
  }

  lemma UnlistedIff(id: RowId, doc: Doc)
    ensures (set n | n in doc && !IsListed(id, n)) == set n | n in doc && Unlisted(id, n)
  {
    forall n ensures !IsListed(id, n) <==> Unlisted(id, n) {
      if n.Listed? {
        CarriesIff(id, n.key);
      }
    }
  }

  lemma CountsAre(id: RowId, doc: Doc)
    ensures Get(CountFacts(id, doc), KeyCount) == Int(|doc|)
    ensures Get(CountFacts(id, doc), SignatureFieldPresent) == Bool(SignatureNamed(doc))
    ensures Get(CountFacts(id, doc), UnlistedKeyCount) == Int(|set n | n in doc && Unlisted(id, n)|)
  {
    SignatureIff(doc);
    UnlistedIff(id, doc);
  }

  // ----- the result of each check -----

  ghost predicate Ended(s: Step, outcome: Outcome, reason: Reason) { s.outcome == outcome && s.reason == reason }

  lemma ExitResult(id: RowId, r: Reply, who: Expected, versionRc: Option<int>)
    requires id == S0a || id == S0c
    ensures Decide(id, r, who, versionRc) == if r.rc == Some(0) then Step(Recorded, map[], NoReason) else Step(Stop, map[], NonzeroRc)
  {
  }

  lemma BackendResult(r: Reply, who: Expected, versionRc: Option<int>)
    ensures var facts := map[Backend := Str(BackendOf(r.out))];
            && Decide(S0d, r, who, versionRc)
               == (if r.rc == Some(0) then Step(Recorded, facts, NoReason) else Step(Stop, map[], IptablesMissing))
            && Decide(S0e, r, who, versionRc)
               == (if r.rc == Some(0) then Step(Recorded, facts, NoReason) else Step(Ip6tablesMissing, map[], Ip6tablesAbsent))
  {
  }

  /** The printed answer without its last newline. */
  ghost predicate LineOf(printed: string, line: string) {
    printed == line + "\n" || (printed == line && (line == "" || line[|line| - 1] != '\n'))
  }

  lemma LineIff(printed: string, line: string)
    ensures PrintedLine(printed) == line <==> LineOf(printed, line)
  {
    if printed == line + "\n" {
      assert printed[..|printed| - 1] == line;
    }
    if printed != "" && printed[|printed| - 1] == '\n' {
      assert printed == printed[..|printed| - 1] + "\n";
    }
  }

  ghost predicate ShortName(who: Expected, line: string) { exists host :: Named(who, host) && line == host }

  /** The host answered with its own name, short or long. */
  ghost predicate IsHost(who: Expected, printed: string) {
    exists line :: LineOf(printed, line) && (ShortName(who, line) || LongName(who, line))
  }

  lemma IsHostIff(who: Expected, printed: string)
    ensures ExactName(who, PrintedLine(printed)) || FullName(who, PrintedLine(printed)) <==> IsHost(who, printed)
  {
    var line := PrintedLine(printed);
    WhoMeans(who);
    FullNameIff(who, line);
    LineIff(printed, line);
    assert ExactName(who, line) <==> ShortName(who, line);
    forall other | LineOf(printed, other) ensures other == line {
      LineIff(printed, other);
    }
  }

  lemma HostNameResult(r: Reply, who: Expected)
    ensures var s := HostNameStep(who, r);
            && s.facts == HostNameFacts(who, if r.rc == Some(0) then r.out else "")
            && (if r.rc != Some(0) then Ended(s, Stop, NonzeroRc)
                else if IsHost(who, r.out) then Ended(s, Recorded, NoReason) else Ended(s, Stop, NotALabHostName))
  {
    IsHostIff(who, r.out);
    NameFacts(who, r.out);
  }

  ghost predicate UpContainer(line: string) {
    exists name, image, more: string :: Gates.ContainerLine(line, name, image, "Up" + more) && PeName(name)
  }

  lemma UpIff(line: string)
    ensures Parts(line).Some? && "Up" <= Parts(line).value.2 && IsPeName(Parts(line).value.0) <==> UpContainer(line)
  {
    Gates.PartsAreTheLine(line);
    if Parts(line).Some? && "Up" <= Parts(line).value.2 && IsPeName(Parts(line).value.0) {
      var p := Parts(line).value;
      PeNameIff(p.0);
      assert p.2 == "Up" + p.2[2..];
    }
    if name, image, more: string :| Gates.ContainerLine(line, name, image, "Up" + more) && PeName(name) {
      PeNameIff(name);
      assert Parts(line) == Some((name, image, "Up" + more));
      assert "Up" <= "Up" + more;
    }
  }

  lemma ContainerResult(r: Reply, who: Expected, versionRc: Option<int>)
    ensures Decide(E41, r, who, versionRc)
            == if r.rc == Some(0) && |r.lines| == 1 && UpContainer(r.lines[0]) then Step(Recorded, PsFacts(r), NoReason)
               else Step(Stop, PsFacts(r), E41Gate)
  {
    if |r.lines| == 1 {
      UpIff(r.lines[0]);
    }
  }

  ghost predicate NameLine(line: string) { exists name :: Core(line, name) && EnvName(name) }

  lemma NameLineIff(line: string)
    ensures IsEnvName(Strip(line)) <==> NameLine(line)
  {
    EnvNameIff(Strip(line));
    StripIff(line, Strip(line));
    if name :| Core(line, name) && EnvName(name) {
      StripIff(line, name);
    }
  }

  lemma NameLinesIff(lines: seq<string>)
    ensures (exists i | 0 <= i < |lines| :: !IsEnvName(Strip(lines[i]))) <==> exists line :: line in lines && !NameLine(line)
  {
    forall i | 0 <= i < |lines| ensures IsEnvName(Strip(lines[i])) <==> NameLine(lines[i]) {
      NameLineIff(lines[i]);
    }
    if line :| line in lines && !NameLine(line) {
      var i :| 0 <= i < |lines| && lines[i] == line;
    }
  }

  lemma EnvResult(r: Reply)
    ensures EnvStep(r)
            == if r.rc != Some(0) then Step(Stop, map[], NonzeroRcOrSplitReject)
               else if exists line :: line in r.lines && !NameLine(line) then Step(Stop, map[], NonNameLine)
               else if Prints(r.lines, "VANTIO_TELEMETRY_DISABLED") && Prints(r.lines, "DO_NOT_TRACK")
               then Step(Recorded, EnvFacts(EnvNames(r)), NoReason)
               else Step(Stop, EnvFacts(EnvNames(r)), E42RequiredNameMissing)
  {
    NameLinesIff(r.lines);
    PrintsIff(r, "VANTIO_TELEMETRY_DISABLED");
    PrintsIff(r, "DO_NOT_TRACK");
  }

  lemma CountResult(r: Reply)
    ensures CountStep(r)
            == if r.rc != Some(0) then Step(Stop, map[], NonzeroRc)
               else if r.checkinCount == 0 then Step(Recorded, map[CheckinNonemptyCount := Int(0)], NoReason)
               else Step(Stop, map[CheckinNonemptyCount := Int(r.checkinCount)], E43CountNotZero)
  {
  }

  ghost predicate FilesThere(listed: map<string, bool>) {
    && "/etc/systemd/system/vantio-boot-hold.service" in listed
    && "/etc/systemd/system/sysinit.target.wants/vantio-boot-hold.service" in listed
    && "/usr/local/bin/vantio-boot-hold" in listed && "/etc/vantio/boot-hold.json" in listed
  }

  ghost predicate UnitsThere(listed: map<string, bool>) {
    "vantio-pe-loader.service" in listed && "vantio-pe-enforce-ready.service" in listed && "vantio-enrolled-network.service" in listed
  }

  lemma FilesResult(r: Reply, who: Expected, versionRc: Option<int>)
    ensures Decide(E51, r, who, versionRc)
            == if r.rc == Some(0) && FilesThere(r.listed) then Step(Recorded, FileFacts(r.listed), NoReason)
               else Step(Stop, FileFacts(r.listed), E51NotAllPresent)
    ensures Decide(E52, r, who, versionRc)
            == if r.rc == Some(0) && UnitsThere(r.listed) then Step(Recorded, UnitFileFacts(r.listed), NoReason)
               else Step(Stop, UnitFileFacts(r.listed), E52NotAllPresent)
  {
    FileFactsAre(r.listed);
    UnitFilesAre(r.listed);
  }

  ghost predicate AllKeys(lines: seq<UnitLine>) { forall k: UnitKey :: Gates.HasKey(lines, k) }

  lemma UnitResultIs(r: Reply, lines: seq<UnitLine>)
    requires lines == r.unitLines
    ensures var facts := ScanUnit(map[], lines).0;
            UnitStep(r, facts, ScanUnit(map[], lines).1)
            == if r.rc != Some(0) || !Gates.FreshLines(map[], lines) then Step(Stop, map[], E53UnexpectedLine)
               else if !AllKeys(lines) then Step(Stop, map[], E53KeysMissing)
               else if Gates.FreshUnit(lines) then Step(Recorded, facts, NoReason) else Step(Stop, facts, E53NotFreshOrFailed)
  {
    Gates.ScanIff(map[], lines);
    Gates.UnitRecordedIff(r, lines);
    if Gates.FreshLines(map[], lines) {
      var facts := ScanUnit(map[], lines).0;
      forall k ensures Unit(k) in facts <==> Gates.HasKey(lines, k) {
        Gates.ScanKeys(map[], lines, k);
      }
      assert UnitComplete(facts) <==> AllKeys(lines);
    }
  }

  /** The rule that holds traffic is among the lines. */
  ghost predicate HoldsBack(id: RowId, lines: seq<string>) {
    if id == E54 || id == E57 then Prints(lines, "-A VANTIO_BOOT_HOLD -j DROP") else EndsIn(lines, "-j VANTIO_BOOT_HOLD")
  }

  lemma HoldsIff(id: RowId, lines: seq<string>)
    ensures Holds(id, RuleFacts(id, lines)) <==> HoldsBack(id, lines)
  {
    RuleFactsAre(id, lines);
  }

  lemma RulesResult(id: RowId, r: Reply)
    ensures RulesStep(id, r)
            == if r.rc != Some(0) then Step(Stop, map[], Ipv4HoldWrong)
               else if HoldsBack(id, r.lines) then Step(Recorded, RuleFacts(id, r.lines), NoReason)
               else Step(Stop, RuleFacts(id, r.lines), Ipv4HoldWrong)
  {
    HoldsIff(id, r.lines);
  }

  lemma Ipv6Result(id: RowId, r: Reply)
    ensures var s := Ipv6Step(id, r, Some(0));
            && (r.rc == Some(0) ==>
                  s == if HoldsBack(id, r.lines) then Step(Recorded, RuleFacts(id, r.lines), NoReason)
                       else Step(Stop, RuleFacts(id, r.lines), Ipv6HoldWrong))
            && (forall text | r.rc.Some? && r.rc != Some(0) && id == E57 && Ipv6AbsentAs(r.errLines, text) ::
                  s == Step(Ipv6NotPresent, map[Ipv6ErrorVerbatim := Str(text)], RecordAndContinue))
            && (r.rc != Some(0) && (r.rc == None || id != E57 || !exists text :: Ipv6AbsentAs(r.errLines, text)) ==>
                  s == Step(Ipv6OtherError, map[], StopWord))
  {
    HoldsIff(id, r.lines);
    ClassifyIs(Some(0), r.rc, r.errLines);
  }

  ghost predicate Holding(doc: Doc, k: JsonKey, v: JsonVal) { Listed(k) in doc && doc[Listed(k)] == v }

  lemma NoFile(id: RowId, r: Reply, who: Expected, versionRc: Option<int>)
    requires (id == E510 || id == E511 || id == E512) && (r.rc != Some(0) || r.body.None?)
    ensures Decide(id, r, who, versionRc) == Step(Stop, map[], NotJsonOrNonzeroRc)
  {
  }

  lemma StateStep(facts: Fields, released: bool)
    requires Get(facts, BoolOf(Released)) == Bool(true) <==> released
    ensures FileStep(E510, facts) == if released then Step(Stop, facts, E510AlreadyReleased) else Step(Recorded, facts, NoReason)
  {
  }

  lemma HealthStep(facts: Fields, out: bool, off: bool)
    requires Get(facts, WordOf(State)) == Str("OPTED_OUT") <==> out
    requires Get(facts, WordOf(State)) == Str("HOLD_OFF") <==> off
    ensures FileStep(E511, facts) == if out || off then Step(Stop, facts, E511HoldOffByPolicy) else Step(Recorded, facts, NoReason)
  {
  }

  lemma StateFileResult(doc: Doc)
    ensures FileStep(E510, JsonFacts(E510, doc))
            == if Holding(doc, Released, JBool(true)) then Step(Stop, JsonFacts(E510, doc), E510AlreadyReleased)
               else Step(Recorded, JsonFacts(E510, doc), NoReason)
  {
    Gates.ReleasedFact(doc);
    StateStep(JsonFacts(E510, doc), Holding(doc, Released, JBool(true)));
  }

  lemma HealthFileResult(doc: Doc)
    ensures FileStep(E511, JsonFacts(E511, doc))
            == if Holding(doc, State, JText("OPTED_OUT")) || Holding(doc, State, JText("HOLD_OFF"))
               then Step(Stop, JsonFacts(E511, doc), E511HoldOffByPolicy)
               else Step(Recorded, JsonFacts(E511, doc), NoReason)
  {
    Gates.StateFacts(doc);
    HealthStep(JsonFacts(E511, doc), Holding(doc, State, JText("OPTED_OUT")), Holding(doc, State, JText("HOLD_OFF")));
  }

  lemma FileRow(id: RowId, r: Reply, who: Expected, versionRc: Option<int>)
    requires (id == E510 || id == E511 || id == E512) && r.rc == Some(0) && r.body.Some?
    ensures Decide(id, r, who, versionRc) == FileStep(id, JsonFacts(id, r.body.value))
  {
  }

  lemma PolicyFileResult(facts: Fields)
    ensures FileStep(E512, facts) == Step(Recorded, facts, NoReason)
  {
  }

  // ----- what a recorded row shows -----

  /** What the answer to a check shows, beyond return code 0, for its row to be recorded. */
  ghost predicate Shows(id: RowId, r: Reply, who: Expected) {
    match id
    case S0a | S0c | S0d | S0e | E513 => true
    case S0b => IsHost(who, r.out)
    case E41 => |r.lines| == 1 && UpContainer(r.lines[0])
    case E42 =>
      && (forall line | line in r.lines :: NameLine(line))
      && Prints(r.lines, "VANTIO_TELEMETRY_DISABLED") && Prints(r.lines, "DO_NOT_TRACK")
    case E43 => r.checkinCount == 0
    case E51 => FilesThere(r.listed)
    case E52 => UnitsThere(r.listed)
    case E53 => Gates.FreshUnit(r.unitLines)
    case E54 | E57 => Prints(r.lines, "-A VANTIO_BOOT_HOLD -j DROP")
    case E55 | E56 | E58 | E59 => EndsIn(r.lines, "-j VANTIO_BOOT_HOLD")
    case E510 => r.body.Some? && !Holding(r.body.value, Released, JBool(true))
    case E511 => r.body.Some? && !Holding(r.body.value, State, JText("OPTED_OUT")) && !Holding(r.body.value, State, JText("HOLD_OFF"))
    case E512 => r.body.Some?
  }

  lemma ShowsIff(id: RowId, r: Reply, who: Expected)
    ensures Gates.Gate(id, r, who) <==> Shows(id, r, who)
  {
    match id {
      case S0b => IsHostIff(who, r.out);
      case E41 => ContainerShown(r, who);
      case E42 => EnvShown(r, who);
      case E51 => FileFactsAre(r.listed);
      case E52 => UnitFilesAre(r.listed);
      case E54 | E55 | E56 | E57 | E58 | E59 => RuleShown(id, r, who);
      case _ =>
    }
  }

  lemma ContainerShown(r: Reply, who: Expected)
    ensures Gates.Gate(E41, r, who) <==> Shows(E41, r, who)
  {
    Gates.ContainerRow(r, who);
    ContainerResult(r, who, Some(0));
    Gates.ContainerRow(r.(rc := Some(0)), who);
    ContainerResult(r.(rc := Some(0)), who, Some(0));
  }

  lemma ReadsIff(lines: seq<string>, text: string)
    ensures Gates.Reads(lines, text) <==> Prints(lines, text)
  {
    CoreLines(lines, text);
  }

  lemma AllNameLines(lines: seq<string>)
    ensures (forall i | 0 <= i < |lines| :: IsEnvName(Strip(lines[i]))) <==> forall line | line in lines :: NameLine(line)
  {
    NameLinesIff(lines);
  }

  lemma EnvShown(r: Reply, who: Expected)
    ensures Gates.Gate(E42, r, who) <==> Shows(E42, r, who)
  {
    AllNameLines(r.lines);
    ReadsIff(r.lines, "VANTIO_TELEMETRY_DISABLED");
    ReadsIff(r.lines, "DO_NOT_TRACK");
  }

  lemma RuleShown(id: RowId, r: Reply, who: Expected)
    requires id == E54 || id == E55 || id == E56 || id == E57 || id == E58 || id == E59
    ensures Gates.Gate(id, r, who) <==> Shows(id, r, who)
  {
    Gates.RuleHolds(id, r.lines);
    HoldsIff(id, r.lines);
  }

  /** A row is recorded exactly when its command succeeded and its answer shows what the check asks for. */
  lemma RecordedExactly(id: RowId, r: Reply, who: Expected)
    ensures Decide(id, r, who, Some(0)).outcome == Recorded <==> r.rc == Some(0) && Shows(id, r, who)
  {
    Gates.RecordedIff(id, r, who);
    ShowsIff(id, r, who);
  }

  /** A row recorded in a run comes from an answer of its own command that showed this. */
  lemma RecordedShows(rows: seq<Row>, oracle: (seq<Call>, Call) -> Reply, from: nat, calls: seq<Call>, who: Expected, k: nat) returns (j: nat)
    requires Matches(oracle, from, calls, rows, who) && k < |rows| && rows[k].outcome == Recorded
    ensures from <= j < |calls| && calls[j].id == rows[k].id
    ensures var r := oracle(calls[..j], calls[j]); r.rc == Some(0) && Shows(rows[k].id, r, who)
  {
    j := Gates.GradingMeansAllGates(rows, oracle, from, calls, who, k);
    ShowsIff(rows[k].id, oracle(calls[..j], calls[j]), who);
  }

  /** The container the environment checks look into is the one the container check showed running. */
  lemma GivenNameWasShown(oracle: (seq<Call>, Call) -> Reply, from: nat, calls: seq<Call>, rows: seq<Row>, who: Expected, j: nat) returns (i: nat)
    requires Matches(oracle, from, calls, rows, who) && from <= j < |calls|
    ensures calls[j].peName.Some? <==> calls[j].id == E42 || calls[j].id == E43
    ensures calls[j].peName.Some? ==>
              && from <= i < j && calls[i].id == E41
              && var lines := oracle(calls[..i], calls[i]).lines;
                 |lines| == 1 && exists image, status :: Gates.ContainerLine(lines[0], calls[j].peName.value, image, status)
  {
    i := 0;
    assert NameGiven(oracle, from, calls[..j], calls[j]);
    if calls[j].peName.Some? {
      i :| from <= i && ShownAt(oracle, calls[..j], i, calls[j].peName.value);
      assert calls[..j][..i] == calls[..i];
      Gates.PartsAreTheLine(oracle(calls[..i], calls[i]).lines[0]);
    }
  }
}
