/**
 What the host checks look for, in literal names, paths and lines, and why a check stops.
 */
module HostcheckMeaning {
  import opened PyJson
  import opened Texts
  import opened Hostcheck

  const LETTERS: string := LOWER + UPPER

  ghost predicate Of(s: string, least: int, most: int, chars: string) { least <= |s| <= most && forall c | c in s :: c in chars }

  // ----- names -----

  ghost predicate PeName(s: string) { exists tail: string :: s == "vantio-pe-" + tail && Of(tail, 1, 64, LETTERS + DIGITS) }

  ghost predicate LabHost(s: string) { exists tail: string :: s == "vantio-gcp-lab-" + tail && Of(tail, 1, 20, DIGITS) }

  ghost predicate Project(s: string) {
    exists head: char, tail: string :: s == "vantio-lab-" + [head] + tail && head in LOWER && Of(tail, 2, 18, LOWER + DIGITS + "-")
  }

  /** Like europe-west1-b. */
  ghost predicate Zone(s: string) {
    exists a: string, b: string, n: string, c: char :: ZoneOf(s, a, b, n, c)
  }

  ghost predicate ZoneOf(s: string, a: string, b: string, n: string, c: char) {
    s == a + "-" + (b + n) + "-" + [c] && Of(a, 2, 12, LOWER) && Of(b, 2, 12, LOWER) && Of(n, 1, 2, DIGITS) && c in LOWER
  }

  ghost predicate EnvName(s: string) {
    s != "" && s[0] in LETTERS + "_" && |s| <= 128 && forall c | c in s :: c in LETTERS + DIGITS + "_"
  }

  lemma AlnumsAre(s: string, low: nat, high: nat)
    ensures AllChars(s, low, high, IsAlnum) <==> Of(s, low, high, LETTERS + DIGITS)
  {
    forall i | 0 <= i < |s| ensures IsAlnum(s[i]) <==> s[i] in LETTERS + DIGITS {
      AlnumIff(s[i]);
    }
  }

  lemma DigitsAre(s: string, low: nat, high: nat)
    ensures AllChars(s, low, high, IsDigit) <==> Of(s, low, high, DIGITS)
  {
    forall i | 0 <= i < |s| ensures IsDigit(s[i]) <==> s[i] in DIGITS {
      DigitIff(s[i]);
    }
  }

  lemma LowersAre(s: string, low: nat, high: nat)
    ensures AllChars(s, low, high, IsLower) <==> Of(s, low, high, LOWER)
  {
    forall i | 0 <= i < |s| ensures IsLower(s[i]) <==> s[i] in LOWER {
      LowerIff(s[i]);
    }
  }

  lemma PeNameIff(s: string)
    ensures IsPeName(s) <==> PeName(s)
  {
    if "vantio-pe-" <= s {
      var tail := s[10..];
      assert s == "vantio-pe-" + tail;
      AlnumsAre(tail, 1, 64);
    }
    if tail: string :| s == "vantio-pe-" + tail && Of(tail, 1, 64, LETTERS + DIGITS) {
      assert s[10..] == tail;
    }
  }

  lemma LabHostIff(s: string)
    ensures IsLabHost(s) <==> LabHost(s)
  {
    assert |LAB_PREFIX| == 15;
    if "vantio-gcp-lab-" <= s {
      var tail := s[15..];
      assert s == "vantio-gcp-lab-" + tail;
      DigitsAre(tail, 1, 20);
    }
    if tail: string :| s == "vantio-gcp-lab-" + tail && Of(tail, 1, 20, DIGITS) {
      assert s[15..] == tail;
    }
  }

  lemma ProjectTail(s: string)
    ensures AllChars(s, 2, 18, c => IsLower(c) || IsDigit(c) || c == '-') <==> Of(s, 2, 18, LOWER + DIGITS + "-")
  {
    forall i | 0 <= i < |s| ensures IsLower(s[i]) || IsDigit(s[i]) || s[i] == '-' <==> s[i] in LOWER + DIGITS + "-" {
      LowerIff(s[i]);
      DigitIff(s[i]);
    }
  }

  lemma ProjectIff(s: string)
    ensures IsProject(s) <==> Project(s)
  {
    assert |PROJECT_PREFIX| == 11;
    if "vantio-lab-" <= s && |s| > 11 {
      var head, tail := s[11], s[12..];
      assert s == "vantio-lab-" + [head] + tail && s[11..] == [head] + tail && s[11..][1..] == tail;
      LowerIff(head);
      ProjectTail(tail);
    }
    if head: char, tail: string :| s == "vantio-lab-" + [head] + tail && head in LOWER && Of(tail, 2, 18, LOWER + DIGITS + "-") {
      assert s[11..] == [head] + tail && s[11..][1..] == tail;
      LowerIff(head);
      ProjectTail(tail);
    }
  }

  lemma EnvTail(s: string, low: nat, high: nat)
    ensures AllChars(s, low, high, c => IsAlnum(c) || c == '_') <==> Of(s, low, high, LETTERS + DIGITS + "_")
  {
    forall i | 0 <= i < |s| ensures IsAlnum(s[i]) || s[i] == '_' <==> s[i] in LETTERS + DIGITS + "_" {
      AlnumIff(s[i]);
    }
  }

  lemma EnvHead(c: char)
    ensures IsLower(c) || IsUpper(c) || c == '_' <==> c in LETTERS + "_"
    ensures c in LETTERS + "_" ==> c in LETTERS + DIGITS + "_"
  {
    LowerIff(c);
    UpperIff(c);
  }

  lemma HeadAndTail(s: string, chars: string)
    requires s != "" && s[0] in chars
    ensures (forall c | c in s :: c in chars) <==> forall c | c in s[1..] :: c in chars
  {
    assert s == [s[0]] + s[1..];
  }

  lemma EnvNameIff(s: string)
    ensures IsEnvName(s) <==> EnvName(s)
  {
    if s != "" {
      EnvHead(s[0]);
      EnvTail(s[1..], 0, 127);
      if s[0] in LETTERS + "_" {
        HeadAndTail(s, LETTERS + DIGITS + "_");
      }
    }
  }

  lemma {:induction false} SplitFirst(s: string, sep: char, a: string, b: string)
    requires s == a + [sep] + b && sep !in a
    ensures SplitOn(s, sep) == [a] + SplitOn(b, sep)
  {
    if a == "" {
      assert s[1..] == b;
    } else {
      assert s[0] == a[0] && s[0] in a;
      assert s[1..] == a[1..] + [sep] + b;
      SplitFirst(s[1..], sep, a[1..], b);
      assert [s[0]] + a[1..] == a && s[0] != sep;
    }
  }

  lemma ZoneIff(s: string)
    ensures IsZone(s) <==> Zone(s)
  {
    if IsZone(s) {
      ZoneRead(s);
    }
    if a: string, b: string, n: string, c: char :| ZoneOf(s, a, b, n, c) {
      ZoneWritten(s, a, b, n, c);
    }
  }

  lemma ZoneWritten(s: string, a: string, b: string, n: string, c: char)
    requires ZoneOf(s, a, b, n, c)
    ensures IsZone(s)
  {
    var middle, last := b + n, [c];
    NoDash(a);
    NoDash(middle);
    NoDash(last);
    assert s == a + ['-'] + (middle + ['-'] + last);
    SplitFirst(s, '-', a, middle + ['-'] + last);
    SplitFirst(middle + ['-'] + last, '-', middle, last);
    SplitWhole(last, '-');
    assert SplitOn(s, '-') == [a, middle, last];
    LowersAre(a, 2, 12);
    LowersAre(b, 2, 12);
    DigitsAre(n, 1, 2);
    LowerIff(c);
    assert middle[..|b|] == b && middle[|b|..] == n;
    ZoneByParts(s, a, middle, last, |b|);
  }

  lemma ZoneByParts(s: string, a: string, middle: string, last: string, k: nat)
    requires SplitOn(s, '-') == [a, middle, last] && AllChars(a, 2, 12, IsLower) && |last| == 1 && IsLower(last[0])
    requires k <= |middle| && AllChars(middle[..k], 2, 12, IsLower) && AllChars(middle[k..], 1, 2, IsDigit)
    ensures IsZone(s)
  {
    var parts := SplitOn(s, '-');
    assert AllChars(parts[1][..k], 2, 12, IsLower) && AllChars(parts[1][k..], 1, 2, IsDigit);
  }

  lemma NoDash(s: string)
    ensures (forall c | c in s :: c in LOWER || c in DIGITS) ==> '-' !in s
  {
    LowerIff('-');
    DigitIff('-');
  }

  lemma TwoPieces(s: string, sep: char)
    requires |SplitOn(s, sep)| > 1
    ensures var p, n := SplitOn(s, sep)[0], |SplitOn(s, sep)[0]|;
            n < |s| && s == p + [sep] + s[n + 1..] && SplitOn(s, sep)[1..] == SplitOn(s[n + 1..], sep)
  {
    FirstPiece(s, sep);
  }

  lemma ThreePieces(s: string, sep: char)
    requires |SplitOn(s, sep)| == 3
    ensures var parts := SplitOn(s, sep); s == parts[0] + [sep] + parts[1] + [sep] + parts[2]
  {
    TwoPieces(s, sep);
    var rest := s[|SplitOn(s, sep)[0]| + 1..];
    TwoPieces(rest, sep);
    var last := rest[|SplitOn(rest, sep)[0]| + 1..];
    LastPiece(last, sep);
    JoinThree(s, SplitOn(s, sep)[0], rest, SplitOn(rest, sep)[0], last, sep);
    ThirdIs(SplitOn(s, sep), SplitOn(rest, sep), SplitOn(last, sep));
  }

  lemma JoinThree(s: string, a: string, rest: string, b: string, c: string, sep: char)
    requires s == a + [sep] + rest && rest == b + [sep] + c
    ensures s == a + [sep] + b + [sep] + c
  {
  }

  lemma ThirdIs(x: seq<string>, y: seq<string>, z: seq<string>)
    requires |x| == 3 && x[1..] == y && y[1..] == z
    ensures |z| == 1 && x[1] == y[0] && x[2] == z[0]
  {
  }

  lemma LastPiece(s: string, sep: char)
    requires |SplitOn(s, sep)| == 1
    ensures SplitOn(s, sep)[0] == s
  {
    FirstPiece(s, sep);
  }

  lemma MiddlePart(b: string, k: nat)
    requires k <= |b| && AllChars(b[..k], 2, 12, IsLower) && AllChars(b[k..], 1, 2, IsDigit)
    ensures b == b[..k] + b[k..] && Of(b[..k], 2, 12, LOWER) && Of(b[k..], 1, 2, DIGITS)
  {
    LowersAre(b[..k], 2, 12);
    DigitsAre(b[k..], 1, 2);
  }

  lemma ZoneRead(s: string)
    requires IsZone(s)
    ensures Zone(s)
  {
    var parts := SplitOn(s, '-');
    ThreePieces(s, '-');
    var b := parts[1];
    var k :| 0 <= k <= |b| && AllChars(b[..k], 2, 12, IsLower) && AllChars(b[k..], 1, 2, IsDigit);
    MiddlePart(b, k);
    LowersAre(parts[0], 2, 12);
    LowerIff(parts[2][0]);
    assert parts[2] == [parts[2][0]];
    assert ZoneOf(s, parts[0], b[..k], b[k..], parts[2][0]);
  }

  // ----- the host name -----

  /** Who the host has to be: a lab host, in a project and a zone for its longer names. */
  ghost predicate Named(who: Expected, host: string) { who.host == Some(host) && LabHost(host) }

  ghost predicate Placed(who: Expected, project: string, zone: string) {
    who.project == Some(project) && who.zone == Some(zone) && Project(project) && Zone(zone)
  }

  ghost predicate LongName(who: Expected, line: string) {
    exists host: string, project: string, zone: string ::
      Named(who, host) && Placed(who, project, zone)
      && (line == host + "." + zone + ".c." + project + ".internal" || line == host + ".c." + project + ".internal")
  }

  /** The answer without its final newline is the host's name, short or long. */
  lemma HostNameIs(who: Expected, printed: string)
    ensures var facts, line := HostNameFacts(who, printed), PrintedLine(printed);
            && (line == printed || printed == line + "\n") && (printed == "" || line != printed || printed[|printed| - 1] != '\n')
            && Get(facts, ExpectedNameValid) == Bool(exists host :: Named(who, host))
            && Get(facts, ExpectedDomainValid) == Bool(exists project, zone :: Placed(who, project, zone))
            && Get(facts, HostNameMatch) == Bool((exists host :: Named(who, host) && line == host) || LongName(who, line))
            && Get(facts, FqdnForm) == Bool(LongName(who, line))
  {
    WhoMeans(who);
    FullNameIff(who, PrintedLine(printed));
    NameFacts(who, printed);
    var line := PrintedLine(printed);
    assert ExactName(who, line) <==> exists host :: Named(who, host) && line == host;
  }

  lemma NameFacts(who: Expected, printed: string)
    ensures var facts, line := HostNameFacts(who, printed), PrintedLine(printed);
            && Get(facts, ExpectedNameValid) == Bool(NameValid(who)) && Get(facts, ExpectedDomainValid) == Bool(DomainValid(who))
            && Get(facts, HostNameMatch) == Bool(ExactName(who, line) || FullName(who, line)) && Get(facts, FqdnForm) == Bool(FullName(who, line))
  {
  }

  lemma WhoMeans(who: Expected)
    ensures NameValid(who) <==> exists host :: Named(who, host)
    ensures DomainValid(who) <==> exists project, zone :: Placed(who, project, zone)
    ensures who.host.Some? ==> (NameValid(who) <==> Named(who, who.host.value))
    ensures who.project.Some? && who.zone.Some? ==> (DomainValid(who) <==> Placed(who, who.project.value, who.zone.value))
  {
    if who.host.Some? {
      LabHostIff(who.host.value);
      assert NameValid(who) <==> Named(who, who.host.value);
    }
    if who.project.Some? && who.zone.Some? {
      ProjectIff(who.project.value);
      ZoneIff(who.zone.value);
      assert DomainValid(who) <==> Placed(who, who.project.value, who.zone.value);
    }
  }

  lemma FullNameIff(who: Expected, line: string)
    ensures FullName(who, line) <==> LongName(who, line)
  {
    WhoMeans(who);
    if FullName(who, line) {
      assert Named(who, who.host.value) && Placed(who, who.project.value, who.zone.value);
    }
  }

  // ----- the facts of each check -----

  lemma BackendIs(out: string)
    ensures BackendOf(out) ==
            if exists a: string, b: string :: out == a + "(nf_tables)" + b then "nf_tables"
            else if exists a: string, b: string :: out == a + "(legacy)" + b then "legacy" else "unknown"
  {
    ContainsIff(out, "(nf_tables)");
    ContainsIff(out, "(legacy)");
  }

  lemma FileFactsAre(listed: map<string, bool>)
    ensures var facts := FileFacts(listed);
            && Get(facts, UnitPresent) == Bool("/etc/systemd/system/vantio-boot-hold.service" in listed)
            && Get(facts, WantsPresent) == Bool("/etc/systemd/system/sysinit.target.wants/vantio-boot-hold.service" in listed)
            && Get(facts, WrapperPresent) == Bool("/usr/local/bin/vantio-boot-hold" in listed)
            && Get(facts, PolicyPresent) == Bool("/etc/vantio/boot-hold.json" in listed)
            && Get(facts, WantsIsSymlink) ==
               Bool("/etc/systemd/system/sysinit.target.wants/vantio-boot-hold.service" in listed
                    && listed["/etc/systemd/system/sysinit.target.wants/vantio-boot-hold.service"])
    ensures AllFiles(listed) <==>
            && "/etc/systemd/system/vantio-boot-hold.service" in listed
            && "/etc/systemd/system/sysinit.target.wants/vantio-boot-hold.service" in listed
            && "/usr/local/bin/vantio-boot-hold" in listed && "/etc/vantio/boot-hold.json" in listed
  {
  }

  lemma UnitFilesAre(listed: map<string, bool>)
    ensures var facts := UnitFileFacts(listed);
            && Get(facts, LoaderUnitPresent) == Bool("vantio-pe-loader.service" in listed)
            && Get(facts, EnforceReadyUnitPresent) == Bool("vantio-pe-enforce-ready.service" in listed)
            && Get(facts, EnrolledNetworkUnitPresent) == Bool("vantio-enrolled-network.service" in listed)
    ensures AllUnits(listed) <==>
            "vantio-pe-loader.service" in listed && "vantio-pe-enforce-ready.service" in listed && "vantio-enrolled-network.service" in listed
  {
  }

  /** A name is printed if some line is that name with white space around it. */
  ghost predicate Prints(lines: seq<string>, name: string) { exists i | 0 <= i < |lines| :: Core(lines[i], name) }

  lemma PrintsIff(r: Reply, name: string)
    ensures name in EnvNames(r) <==> Prints(r.lines, name)
  {
    ImageIff(r.lines, Strip, name);
    forall i | 0 <= i < |r.lines| ensures Strip(r.lines[i]) == name <==> Core(r.lines[i], name) {
      StripIff(r.lines[i], name);
    }
  }

  lemma EnvFactsAre(r: Reply)
    ensures var facts := EnvFacts(EnvNames(r));
            && Get(facts, NameCount) == Int(|EnvNames(r)|)
            && Get(facts, TelemetryDisabledName) == Bool(Prints(r.lines, "VANTIO_TELEMETRY_DISABLED"))
            && Get(facts, DoNotTrackName) == Bool(Prints(r.lines, "DO_NOT_TRACK"))
            && Get(facts, IngestUrlName) == Bool(Prints(r.lines, "VANTIO_CLOUD_INGEST_URL"))
            && Get(facts, ApiKeyName) == Bool(Prints(r.lines, "VANTIO_API_KEY"))
    ensures RequiredNames(EnvNames(r)) <==> Prints(r.lines, "VANTIO_TELEMETRY_DISABLED") && Prints(r.lines, "DO_NOT_TRACK")
  {
    PrintsIff(r, "VANTIO_TELEMETRY_DISABLED");
    PrintsIff(r, "DO_NOT_TRACK");
    PrintsIff(r, "VANTIO_CLOUD_INGEST_URL");
    PrintsIff(r, "VANTIO_API_KEY");
  }

  ghost predicate EndsIn(lines: seq<string>, tail: string) {
    exists i, before: string :: 0 <= i < |lines| && lines[i] == before + tail
  }

  lemma EndsInIff(lines: seq<string>, tail: string)
    ensures (exists i | 0 <= i < |lines| :: EndsWith(lines[i], tail)) <==> EndsIn(lines, tail)
  {
    forall i | 0 <= i < |lines| ensures EndsWith(lines[i], tail) <==> exists before: string :: lines[i] == before + tail {
      EndsWithIff(lines[i], tail);
    }
  }

  lemma CoreLines(lines: seq<string>, text: string)
    ensures (exists i | 0 <= i < |lines| :: Strip(lines[i]) == text) <==> Prints(lines, text)
  {
    forall i | 0 <= i < |lines| ensures Strip(lines[i]) == text <==> Core(lines[i], text) {
      StripIff(lines[i], text);
    }
  }

  lemma ChainFactsAre(lines: seq<string>)
    ensures Get(ChainFacts(lines), RuleLines) == Int(|lines|)
    ensures Get(ChainFacts(lines), ChainPresent) == Bool(Prints(lines, "-N VANTIO_BOOT_HOLD"))
    ensures Get(ChainFacts(lines), DropRulePresent) == Bool(Prints(lines, "-A VANTIO_BOOT_HOLD -j DROP"))
  {
    CoreLines(lines, "-N VANTIO_BOOT_HOLD");
    CoreLines(lines, "-A VANTIO_BOOT_HOLD -j DROP");
  }

  lemma JumpFactsAre(lines: seq<string>)
    ensures Get(JumpFacts(lines), RuleLines) == Int(|lines|)
    ensures Get(JumpFacts(lines), JumpToBootHold) == Bool(EndsIn(lines, "-j VANTIO_BOOT_HOLD"))
  {
    EndsInIff(lines, "-j VANTIO_BOOT_HOLD");
  }

  /** A rule row keeps how many lines there are and whether the hold rule is among them. */
  lemma RuleFactsAre(id: RowId, lines: seq<string>)
    ensures Get(RuleFacts(id, lines), RuleLines) == Int(|lines|)
    ensures id == E54 || id == E57 ==>
              && Get(RuleFacts(id, lines), ChainPresent) == Bool(Prints(lines, "-N VANTIO_BOOT_HOLD"))
              && Get(RuleFacts(id, lines), DropRulePresent) == Bool(Prints(lines, "-A VANTIO_BOOT_HOLD -j DROP"))
    ensures id != E54 && id != E57 ==> Get(RuleFacts(id, lines), JumpToBootHold) == Bool(EndsIn(lines, "-j VANTIO_BOOT_HOLD"))
  {
    ChainFactsAre(lines);
    JumpFactsAre(lines);
  }

  ghost predicate Mentions(line: string, part: string) { exists a: string, b: string :: line == a + part + b }

  lemma AuditIs(r: Reply)
    ensures var step := AuditStep(r);
            && Get(step.facts, LineCount) == Int(|r.lines|)
            && Get(step.facts, ApplyBootHeldSeen) ==
               Bool(exists line :: line in r.lines && Mentions(line, "apply-boot") && Mentions(line, "HELD"))
            && Get(step.facts, ApplyBootFailedSeen) ==
               Bool(exists line :: line in r.lines && Mentions(line, "apply-boot") && Mentions(line, "FAILED"))
            && (step.outcome == Recorded <==> r.rc == Some(0)) && step.reason == (if r.rc == Some(0) then NoReason else NonzeroRc)
  {
    BothIn(r.lines, "apply-boot", "HELD");
    BothIn(r.lines, "apply-boot", "FAILED");
  }

  lemma BothIn(lines: seq<string>, p: string, q: string)
    ensures (exists i | 0 <= i < |lines| :: Contains(lines[i], p) && Contains(lines[i], q)) <==>
            exists line :: line in lines && Mentions(line, p) && Mentions(line, q)
  {
    forall i | 0 <= i < |lines| ensures Contains(lines[i], p) && Contains(lines[i], q) <==> Mentions(lines[i], p) && Mentions(lines[i], q) {
      ContainsIff(lines[i], p);
      ContainsIff(lines[i], q);
    }
    if line :| line in lines && Mentions(line, p) && Mentions(line, q) {
      var i :| 0 <= i < |lines| && lines[i] == line;
    }
  }

  /** The container line's facts: how many lines, whether it is up, whether its name is the right kind. */
  lemma PsFactsAre(r: Reply)
    ensures var facts := PsFacts(r);
            && Get(facts, LineCount) == Int(|r.lines|) && Get(facts, StatusUp) == Bool(PsUp(r)) && Get(facts, NamePattern) == Bool(PsNamed(r))
    ensures PsUp(r) <==> |r.lines| == 1 && Parts(r.lines[0]).Some? && exists more: string :: Parts(r.lines[0]).value.2 == "Up" + more
    ensures PsNamed(r) <==> |r.lines| == 1 && Parts(r.lines[0]).Some? && PeName(Parts(r.lines[0]).value.0)
  {
    if PsParts(r).Some? {
      PeNameIff(PsParts(r).value.0);
      var status := PsParts(r).value.2;
      assert "Up" <= status ==> status == "Up" + status[2..];
    }
  }
}
