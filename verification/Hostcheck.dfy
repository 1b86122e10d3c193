/**
 The read-only host checks: 21 fixed commands in a fixed order with stop gates.

 The runner is an adversary that may answer anything. Whatever it answers, the report has
 one row per check in order, and no command runs after the first stop.
 */
module Hostcheck {
  import opened PyJson

  datatype RowId =
    | S0a | S0b | S0c | S0d | S0e | E41 | E42 | E43
    | E51 | E52 | E53 | E54 | E55 | E56 | E57 | E58 | E59 | E510 | E511 | E512 | E513

  const ROW_IDS: seq<RowId> :=
    [S0a, S0b, S0c, S0d, S0e, E41, E42, E43, E51, E52, E53, E54, E55, E56, E57, E58, E59, E510, E511, E512, E513]

  function Index(id: RowId): (i: nat)
    ensures i < |ROW_IDS| && ROW_IDS[i] == id
  {
    match id
    case S0a => 0 case S0b => 1 case S0c => 2 case S0d => 3 case S0e => 4
    case E41 => 5 case E42 => 6 case E43 => 7
    case E51 => 8 case E52 => 9 case E53 => 10 case E54 => 11 case E55 => 12 case E56 => 13
    case E57 => 14 case E58 => 15 case E59 => 16 case E510 => 17 case E511 => 18 case E512 => 19 case E513 => 20
  }

  datatype UnitKey = LoadState | UnitFileState | ActiveState | SubState | UnitResult

  /** The key names the boot-hold files may carry. */
  datatype JsonKey =
    | FileProfile | LastReason | NetworkHold | Released
    | Command | EnrolledSlice | Health | HostWideHold | Message | ProofCeiling | ProofState | Ready | RebootRow | State
    | CgroupSlice | DenyProbe | Enabled | SubnetV4 | SubnetV6 | Hold | Ordering

  /** Keys of the report, of its rows and of their facts; any other key is `Other`. */
  datatype Key =
    | ExpectedNameValid | ExpectedDomainValid | HostNameMatch | FqdnForm
    | Backend | LineCount | StatusUp | NamePattern
    | NameCount | TelemetryDisabledName | DoNotTrackName | IngestUrlName | ApiKeyName | CheckinNonemptyCount
    | UnitPresent | WantsPresent | WantsIsSymlink | WrapperPresent | PolicyPresent
    | LoaderUnitPresent | EnforceReadyUnitPresent | EnrolledNetworkUnitPresent
    | Unit(unit: UnitKey)
    | ChainPresent | DropRulePresent | RuleLines | JumpToBootHold | Ipv6ErrorVerbatim
    | ApplyBootHeldSeen | ApplyBootFailedSeen
    | KeyCount | SignatureFieldPresent | UnlistedKeyCount
    | BoolOf(json: JsonKey) | HasOf(json: JsonKey) | WordOf(json: JsonKey)
    | Rows | Summary | ReportProofState | RowKey | OutcomeKey | RcKey | ReasonKey | FactsKey
    | ArgvSha256 | E5dOutcome | Ipv6Key | StoppedAtKey | E5dNote
    | Other(name: string)

  type Val = Value<Key>
  type Fields = map<Key, Val>

  datatype Outcome = Recorded | NotRun | Stop | Ipv6NotPresent | Ip6tablesMissing | Ipv6OtherError

  datatype Reason =
    | NoReason | NonzeroRc | NotALabHostName | IptablesMissing | Ip6tablesAbsent | E41Gate
    | NonzeroRcOrSplitReject | NonNameLine | E42RequiredNameMissing | E43CountNotZero
    | E51NotAllPresent | E52NotAllPresent | E53UnexpectedLine | E53KeysMissing | E53NotFreshOrFailed
    | Ipv4HoldWrong | Ipv6HoldWrong | RecordAndContinue | StopWord | NotJsonOrNonzeroRc
    | E510AlreadyReleased | E511HoldOffByPolicy | Ipv6Absent
    | StoppedAt(id: RowId)

  datatype Row = Row(id: RowId, outcome: Outcome, rc: Option<int>, facts: Fields, reason: Reason)

  // ----- what a command can answer -----

  datatype JsonName = Listed(key: JsonKey) | OtherName(text: string)
  datatype JsonVal = JBool(b: bool) | JText(s: string) | JElse
  type Doc = map<JsonName, JsonVal>

  /** A `systemctl show` line split at its first equals sign; `key` is None for any other name. */
  datatype UnitLine = UnitLine(key: Option<UnitKey>, value: string)

  /** rc None is a command that could not run or timed out. The text comes already split and decoded. */
  datatype Reply = Reply(
    rc: Option<int>, out: string, lines: seq<string>, errLines: seq<string>, unitLines: seq<UnitLine>,
    listed: map<string, bool>, checkinCount: nat, body: Option<Doc>)

  datatype Call = Call(id: RowId, peName: Option<string>)

  class Runner {
    const oracle: (seq<Call>, Call) -> Reply
    var calls: seq<Call>

    constructor (oracle: (seq<Call>, Call) -> Reply)
      ensures this.oracle == oracle && calls == []
    {
      this.oracle := oracle;
      calls := [];
    }

    method Run(c: Call) returns (r: Reply)
      modifies this
      ensures r == oracle(old(calls), c) && calls == old(calls) + [c]
    {
      r := oracle(calls, c);
      calls := calls + [c];
    }
  }

  // ----- facts of each check -----

  const PE_PREFIX: string := "vantio-pe-"
  const LAB_PREFIX: string := "vantio-gcp-lab-"
  const PROJECT_PREFIX: string := "vantio-lab-"

  predicate IsPeName(s: string) {
    PE_PREFIX <= s && AllChars(s[|PE_PREFIX|..], 1, 64, IsAlnum)
  }

  predicate IsLabHost(s: string) {
    LAB_PREFIX <= s && AllChars(s[|LAB_PREFIX|..], 1, 20, IsDigit)
  }

  predicate IsProject(s: string) {
    && PROJECT_PREFIX <= s
    && var tail := s[|PROJECT_PREFIX|..];
       tail != "" && IsLower(tail[0]) && AllChars(tail[1..], 2, 18, c => IsLower(c) || IsDigit(c) || c == '-')
  }

  /** Two lower-case words, the second with one or two digits after it, then one letter. */
  predicate IsZone(s: string) {
    var parts := SplitOn(s, '-');
    && |parts| == 3 && AllChars(parts[0], 2, 12, IsLower) && |parts[2]| == 1 && IsLower(parts[2][0])
    && exists k | 0 <= k <= |parts[1]| ::
         AllChars(parts[1][..k], 2, 12, IsLower) && AllChars(parts[1][k..], 1, 2, IsDigit)
  }

  /** What the host should be; None stands for a value that is not text. */
  datatype Expected = Expected(host: Option<string>, project: Option<string>, zone: Option<string>)

  predicate NameValid(who: Expected) { who.host.Some? && IsLabHost(who.host.value) }

  predicate DomainValid(who: Expected) {
    who.project.Some? && IsProject(who.project.value) && who.zone.Some? && IsZone(who.zone.value)
  }

  function PrintedLine(printed: string): string {
    if printed != "" && printed[|printed| - 1] == '\n' then printed[..|printed| - 1] else printed
  }

  predicate ExactName(who: Expected, line: string) { NameValid(who) && line == who.host.value }

  predicate FullName(who: Expected, line: string) {
    && NameValid(who) && DomainValid(who)
    && (|| line == who.host.value + "." + who.zone.value + ".c." + who.project.value + ".internal"
        || line == who.host.value + ".c." + who.project.value + ".internal")
  }

  function HostNameFacts(who: Expected, printed: string): Fields {
    var line := PrintedLine(printed);
    map[ExpectedNameValid := Bool(NameValid(who)),
        ExpectedDomainValid := Bool(DomainValid(who)),
        HostNameMatch := Bool(ExactName(who, line) || FullName(who, line)),
        FqdnForm := Bool(FullName(who, line))]
  }

  function BackendOf(out: string): string {
    if Contains(out, "(nf_tables)") then "nf_tables" else if Contains(out, "(legacy)") then "legacy" else "unknown"
  }

  /** The three space-separated parts of a container line, the last one with its spaces. */
  function Parts(line: string): Option<(string, string, string)> {
    var words := SplitOn(line, ' ');
    if |words| < 3 then None
    else if |words[0]| + |words[1]| + 2 > |line| then None
    else Some((words[0], words[1], line[|words[0]| + |words[1]| + 2..]))
  }

  function PsParts(r: Reply): Option<(string, string, string)> {
    if |r.lines| == 1 then Parts(r.lines[0]) else None
  }

  predicate PsUp(r: Reply) { PsParts(r).Some? && "Up" <= PsParts(r).value.2 }

  predicate PsNamed(r: Reply) { PsParts(r).Some? && IsPeName(PsParts(r).value.0) }

  predicate PsPasses(r: Reply) { r.rc == Some(0) && |r.lines| == 1 && PsUp(r) && PsNamed(r) }

  function PsFacts(r: Reply): Fields {
    map[LineCount := Int(|r.lines|), StatusUp := Bool(PsUp(r)), NamePattern := Bool(PsNamed(r))]
  }

  predicate IsEnvName(s: string) {
    && s != "" && (IsLower(s[0]) || IsUpper(s[0]) || s[0] == '_')
    && AllChars(s[1..], 0, 127, c => IsAlnum(c) || c == '_')
  }

  function EnvNames(r: Reply): set<string> { Image(r.lines, Strip) }

  function EnvFacts(names: set<string>): Fields {
    map[NameCount := Int(|names|),
        TelemetryDisabledName := Bool("VANTIO_TELEMETRY_DISABLED" in names),
        DoNotTrackName := Bool("DO_NOT_TRACK" in names),
        IngestUrlName := Bool("VANTIO_CLOUD_INGEST_URL" in names),
        ApiKeyName := Bool("VANTIO_API_KEY" in names)]
  }

  predicate RequiredNames(names: set<string>) {
    "VANTIO_TELEMETRY_DISABLED" in names && "DO_NOT_TRACK" in names
  }

  const UNIT_PATH: string := "/etc/systemd/system/vantio-boot-hold.service"
  const WANTS_PATH: string := "/etc/systemd/system/sysinit.target.wants/vantio-boot-hold.service"
  const WRAPPER_PATH: string := "/usr/local/bin/vantio-boot-hold"
  const POLICY_PATH: string := "/etc/vantio/boot-hold.json"

  function FileFacts(listed: map<string, bool>): Fields {
    map[UnitPresent := Bool(UNIT_PATH in listed),
        WantsPresent := Bool(WANTS_PATH in listed),
        WrapperPresent := Bool(WRAPPER_PATH in listed),
        PolicyPresent := Bool(POLICY_PATH in listed),
        WantsIsSymlink := Bool(WANTS_PATH in listed && listed[WANTS_PATH])]
  }

  predicate AllFiles(listed: map<string, bool>) {
    UNIT_PATH in listed && WANTS_PATH in listed && WRAPPER_PATH in listed && POLICY_PATH in listed
  }

  const LOADER_UNIT: string := "vantio-pe-loader.service"
  const READY_UNIT: string := "vantio-pe-enforce-ready.service"
  const NETWORK_UNIT: string := "vantio-enrolled-network.service"

  function UnitFileFacts(listed: map<string, bool>): Fields {
    map[LoaderUnitPresent := Bool(LOADER_UNIT in listed),
        EnforceReadyUnitPresent := Bool(READY_UNIT in listed),
        EnrolledNetworkUnitPresent := Bool(NETWORK_UNIT in listed)]
  }

  predicate AllUnits(listed: map<string, bool>) {
    LOADER_UNIT in listed && READY_UNIT in listed && NETWORK_UNIT in listed
  }

  function UnitValues(k: UnitKey): set<string> {
    match k
    case LoadState => {"loaded", "not-found", "bad-setting", "error", "masked", "stub", "merged"}
    case UnitFileState =>
      {"enabled", "enabled-runtime", "linked", "linked-runtime", "alias", "masked", "masked-runtime",
       "static", "disabled", "indirect", "generated", "transient", "bad", ""}
    case ActiveState => {"active", "reloading", "inactive", "failed", "activating", "deactivating", "maintenance", "refreshing"}
    case SubState =>
      {"dead", "condition", "start-pre", "start", "start-post", "running", "exited", "reload", "stop",
       "stop-watchdog", "stop-sigterm", "stop-sigkill", "stop-post", "final-watchdog", "final-sigterm",
       "final-sigkill", "failed", "auto-restart", "cleaning"}
    case UnitResult =>
      {"success", "protocol", "timeout", "exit-code", "signal", "core-dump", "watchdog",
       "start-limit-hit", "resources", "oom-kill", "exec-condition", "condition", ""}
  }

  predicate UnitLineFits(facts: Fields, line: UnitLine) {
    line.key.Some? && line.value in UnitValues(line.key.value) && Unit(line.key.value) !in facts
  }

  function AddUnitLine(facts: Fields, line: UnitLine): Fields {
    if UnitLineFits(facts, line) then facts[Unit(line.key.value) := Str(line.value)] else facts
  }

  /** The facts after the lines, and whether each of them was a new fact. */
  function ScanUnit(facts: Fields, lines: seq<UnitLine>): (Fields, bool)
    decreases lines
  {
    if lines == [] then (facts, true)
    else
      var rest := ScanUnit(AddUnitLine(facts, lines[0]), lines[1..]);
      (rest.0, UnitLineFits(facts, lines[0]) && rest.1)
  }

  /** The unit lines in one pass: facts are added as they come, and anything else spoils the row. */
  method ReadUnit(lines: seq<UnitLine>) returns (facts: Fields, bad: bool)
    ensures (facts, !bad) == ScanUnit(map[], lines)
  {
    facts, bad := map[], false;
    var i := 0;
    while i < |lines|
      invariant 0 <= i <= |lines|
      invariant var rest := ScanUnit(facts, lines[i..]); ScanUnit(map[], lines) == (rest.0, !bad && rest.1)
    {
      assert lines[i..][1..] == lines[i + 1..];
      if UnitLineFits(facts, lines[i]) {
        facts := AddUnitLine(facts, lines[i]);
      } else {
        bad := true;
      }
      i := i + 1;
    }
  }

  predicate UnitComplete(facts: Fields) {
    forall k: UnitKey :: Unit(k) in facts
  }

  predicate UnitStale(facts: Fields) {
    || Get(facts, Unit(ActiveState)) == Str("active") || Get(facts, Unit(ActiveState)) == Str("failed")
    || Get(facts, Unit(UnitResult)) != Str("success")
  }

  function ChainFacts(lines: seq<string>): Fields {
    map[ChainPresent := Bool(exists i | 0 <= i < |lines| :: Strip(lines[i]) == "-N VANTIO_BOOT_HOLD"),
        DropRulePresent := Bool(exists i | 0 <= i < |lines| :: Strip(lines[i]) == "-A VANTIO_BOOT_HOLD -j DROP"),
        RuleLines := Int(|lines|)]
  }

  function JumpFacts(lines: seq<string>): Fields {
    map[JumpToBootHold := Bool(exists i | 0 <= i < |lines| :: EndsWith(lines[i], "-j VANTIO_BOOT_HOLD")),
        RuleLines := Int(|lines|)]
  }

  predicate IsChainRow(id: RowId) { id == E54 || id == E57 }

  function RuleFacts(id: RowId, lines: seq<string>): Fields {
    if IsChainRow(id) then ChainFacts(lines) else JumpFacts(lines)
  }

  /** The hold rule this row looks for is there. */
  predicate Holds(id: RowId, facts: Fields) {
    Get(facts, if IsChainRow(id) then DropRulePresent else JumpToBootHold) == Bool(true)
  }

  // ----- the IPv6 reads -----

  function Lower(c: char): char { if IsUpper(c) then (c as int + 32) as char else c }

  predicate WordAt(s: string, word: string, i: nat) {
    i + |word| <= |s| && forall j | 0 <= j < |word| :: Lower(s[i + j]) == word[j]
  }

  predicate HasWord(s: string, word: string) {
    exists i | 0 <= i <= |s| :: WordAt(s, word, i)
  }

  const NO_FAMILY: string := "address family not supported"
  const NO_TABLE_S: string := "can't initialise ip6tables table"
  const NO_TABLE_Z: string := "can't initialize ip6tables table"

  /** The error lines that mean the host has no IPv6. */
  predicate SaysAbsent(s: string) {
    HasWord(s, NO_FAMILY) || HasWord(s, NO_TABLE_S) || HasWord(s, NO_TABLE_Z)
  }

  predicate IsPrintable(s: string) { AllChars(s, 1, 300, c => ' ' <= c <= '~') }

  /** The first line that says so, stripped. */
  function AbsentLine(lines: seq<string>): string {
    if lines == [] then "" else if SaysAbsent(lines[0]) then Strip(lines[0]) else AbsentLine(lines[1..])
  }

  function ClassifyIpv6(versionRc: Option<int>, rc: Option<int>, errLines: seq<string>): (Outcome, string) {
    var line := AbsentLine(errLines);
    if versionRc != Some(0) then (Ip6tablesMissing, "")
    else if rc == Some(0) then (Recorded, "")
    else if rc.Some? && line != "" && IsPrintable(line) then (Ipv6NotPresent, line)
    else (Ipv6OtherError, "")
  }

  // ----- the boot-hold files -----

  function JsonKeys(id: RowId): set<JsonKey> {
    match id
    case E510 => {FileProfile, LastReason, NetworkHold, Released}
    case E511 =>
      {Command, EnrolledSlice, FileProfile, Health, HostWideHold, Message, ProofCeiling, ProofState, Ready, RebootRow, State}
    case E512 => {CgroupSlice, DenyProbe, Enabled, SubnetV4, SubnetV6, Hold, Ordering}
    case _ => {}
  }

  const JSON_WORD_KEYS: set<JsonKey> := {Command, FileProfile, Health, LastReason, State}

  predicate IsLetter(c: char) { IsLower(c) || IsUpper(c) }

  function Words(s: string): (r: seq<string>)
    ensures |r| > 0
  {
    if s == "" then [""]
    else
      var rest := Words(s[1..]);
      if s[0] == '-' || s[0] == '_' then [""] + rest else [[s[0]] + rest[0]] + rest[1..]
  }

  /** One to four words of letters joined by - or _. */
  predicate IsJsonWord(s: string) {
    |Words(s)| <= 4 && forall i | 0 <= i < |Words(s)| :: AllChars(Words(s)[i], 1, 32, IsLetter)
  }

  predicate IsListed(id: RowId, n: JsonName) { n.Listed? && n.key in JsonKeys(id) }

  predicate HasSignature(n: JsonName) { n.OtherName? && HasWord(n.text, "signature") }

  function JsonFactKey(k: JsonKey, v: JsonVal): Key {
    if v.JBool? then BoolOf(k)
    else if k in JSON_WORD_KEYS && v.JText? && IsJsonWord(v.s) then WordOf(k)
    else HasOf(k)
  }

  function JsonFactVal(k: JsonKey, v: JsonVal): Val {
    match JsonFactKey(k, v)
    case BoolOf(_) => Bool(v.JBool? && v.b)
    case WordOf(_) => Str(if v.JText? then v.s else "")
    case _ => Bool(true)
  }

  function ListedNames(id: RowId, doc: Doc): set<JsonKey> {
    set k | k in JsonKeys(id) && Listed(k) in doc
  }

  lemma FactKeysDistinct(id: RowId, doc: Doc)
    ensures Distinct(ListedNames(id, doc), FactKeyIn(doc))
  {
  }

  function FactKeyIn(doc: Doc): JsonKey -> Key {
    k => if Listed(k) in doc then JsonFactKey(k, doc[Listed(k)]) else HasOf(k)
  }

  function FactValIn(doc: Doc): JsonKey -> Val {
    k => if Listed(k) in doc then JsonFactVal(k, doc[Listed(k)]) else Null
  }

  /** One fact per listed key of the file. */
  function ListedFacts(id: RowId, doc: Doc): Fields {
    FactKeysDistinct(id, doc);
    Entries(ListedNames(id, doc), FactKeyIn(doc), FactValIn(doc))
  }

  function CountFacts(id: RowId, doc: Doc): Fields {
    map[KeyCount := Int(|doc|),
        SignatureFieldPresent := Bool(exists n :: n in doc && HasSignature(n)),
        UnlistedKeyCount := Int(|set n | n in doc && !IsListed(id, n)|)]
  }

  function JsonFacts(id: RowId, doc: Doc): Fields {
    CountFacts(id, doc) + ListedFacts(id, doc)
  }

  /** The listed keys in any order: each becomes its one fact. */
  method ReadJson(id: RowId, doc: Doc) returns (facts: Fields)
    ensures facts == JsonFacts(id, doc)
  {
    FactKeysDistinct(id, doc);
    facts := EntriesLoop(CountFacts(id, doc), ListedNames(id, doc), FactKeyIn(doc), FactValIn(doc));
  }

  // ----- one row -----

  /** What one answer makes of a row. */
  datatype Step = Step(outcome: Outcome, facts: Fields, reason: Reason)

  function Stops(facts: Fields, reason: Reason): Step { Step(Stop, facts, reason) }

  function Records(facts: Fields): Step { Step(Recorded, facts, NoReason) }

  function RulesStep(id: RowId, r: Reply): Step {
    var facts := if r.rc == Some(0) then RuleFacts(id, r.lines) else map[];
    if r.rc != Some(0) || !Holds(id, facts) then Stops(facts, Ipv4HoldWrong) else Records(facts)
  }

  function Ipv6Step(id: RowId, r: Reply, versionRc: Option<int>): Step {
    var (outcome, line) := ClassifyIpv6(versionRc, r.rc, r.errLines);
    if outcome == Recorded then
      if Holds(id, RuleFacts(id, r.lines)) then Records(RuleFacts(id, r.lines))
      else Stops(RuleFacts(id, r.lines), Ipv6HoldWrong)
    else if outcome == Ipv6NotPresent && id == E57 then
      Step(Ipv6NotPresent, map[Ipv6ErrorVerbatim := Str(line)], RecordAndContinue)
    else Step(if outcome == Ipv6NotPresent then Ipv6OtherError else outcome, map[], StopWord)
  }

  function EnvStep(r: Reply): Step {
    if r.rc != Some(0) then Stops(map[], NonzeroRcOrSplitReject)
    else if exists i | 0 <= i < |r.lines| :: !IsEnvName(Strip(r.lines[i])) then Stops(map[], NonNameLine)
    else if !RequiredNames(EnvNames(r)) then Stops(EnvFacts(EnvNames(r)), E42RequiredNameMissing)
    else Records(EnvFacts(EnvNames(r)))
  }

  function UnitStep(r: Reply, facts: Fields, good: bool): Step {
    if r.rc != Some(0) || !good then Stops(map[], E53UnexpectedLine)
    else if !UnitComplete(facts) then Stops(map[], E53KeysMissing)
    else if UnitStale(facts) then Stops(facts, E53NotFreshOrFailed)
    else Records(facts)
  }

  function FileStep(id: RowId, facts: Fields): Step {
    if id == E510 && Get(facts, BoolOf(Released)) == Bool(true) then Stops(facts, E510AlreadyReleased)
    else if id == E511 && (Get(facts, WordOf(State)) == Str("OPTED_OUT") || Get(facts, WordOf(State)) == Str("HOLD_OFF"))
    then Stops(facts, E511HoldOffByPolicy)
    else Records(facts)
  }

  function HostNameStep(who: Expected, r: Reply): Step {
    var facts := HostNameFacts(who, if r.rc == Some(0) then r.out else "");
    if r.rc != Some(0) then Stops(facts, NonzeroRc)
    else if Get(facts, ExpectedNameValid) != Bool(true) || Get(facts, HostNameMatch) != Bool(true)
    then Stops(facts, NotALabHostName)
    else Records(facts)
  }

  function AuditStep(r: Reply): Step {
    var facts := map[
      LineCount := Int(|r.lines|),
      ApplyBootHeldSeen := Bool(exists i | 0 <= i < |r.lines| :: Contains(r.lines[i], "apply-boot") && Contains(r.lines[i], "HELD")),
      ApplyBootFailedSeen := Bool(exists i | 0 <= i < |r.lines| :: Contains(r.lines[i], "apply-boot") && Contains(r.lines[i], "FAILED"))];
    if r.rc != Some(0) then Stops(facts, NonzeroRc) else Records(facts)
  }

  function CountStep(r: Reply): Step {
    if r.rc != Some(0) then Stops(map[], NonzeroRc)
    else if r.checkinCount != 0 then Stops(map[CheckinNonemptyCount := Int(r.checkinCount)], E43CountNotZero)
    else Records(map[CheckinNonemptyCount := Int(0)])
  }

  function Decide(id: RowId, r: Reply, who: Expected, versionRc: Option<int>): Step {
    match id
    case S0a | S0c => if r.rc != Some(0) then Stops(map[], NonzeroRc) else Records(map[])
    case S0b => HostNameStep(who, r)
    case S0d => if r.rc != Some(0) then Stops(map[], IptablesMissing) else Records(map[Backend := Str(BackendOf(r.out))])
    case S0e =>
      if r.rc != Some(0) then Step(Ip6tablesMissing, map[], Ip6tablesAbsent)
      else Records(map[Backend := Str(BackendOf(r.out))])
    case E41 => if PsPasses(r) then Records(PsFacts(r)) else Stops(PsFacts(r), E41Gate)
    case E42 => EnvStep(r)
    case E43 => CountStep(r)
    case E51 =>
      if r.rc != Some(0) || !AllFiles(r.listed) then Stops(FileFacts(r.listed), E51NotAllPresent) else Records(FileFacts(r.listed))
    case E52 =>
      if r.rc != Some(0) || !AllUnits(r.listed) then Stops(UnitFileFacts(r.listed), E52NotAllPresent)
      else Records(UnitFileFacts(r.listed))
    case E53 => UnitStep(r, ScanUnit(map[], r.unitLines).0, ScanUnit(map[], r.unitLines).1)
    case E54 | E55 | E56 => RulesStep(id, r)
    case E57 | E58 | E59 => Ipv6Step(id, r, versionRc)
    case E510 | E511 | E512 =>
      if r.rc == Some(0) && r.body.Some? then FileStep(id, JsonFacts(id, r.body.value)) else Stops(map[], NotJsonOrNonzeroRc)
    case E513 => AuditStep(r)
  }

  /** The branch of one row as it is run: the loops over lines and keys happen here. */
  method DecideRow(id: RowId, r: Reply, who: Expected, versionRc: Option<int>) returns (s: Step)
    ensures s == Decide(id, r, who, versionRc)
  {
    match id {
      case E53 =>
        var facts, bad := ReadUnit(r.unitLines);
        s := UnitStep(r, facts, !bad);
      case E510 | E511 | E512 =>
        if r.rc == Some(0) && r.body.Some? {
          var facts := ReadJson(id, r.body.value);
          s := FileStep(id, facts);
        } else {
          s := Stops(map[], NotJsonOrNonzeroRc);
        }
      case _ =>
        s := Decide(id, r, who, versionRc);
    }
  }

  /** A row that ends the run. */
  predicate EndsRun(o: Outcome) { o == Stop || o == Ip6tablesMissing || o == Ipv6OtherError }

  /** Most rows either stop or record, and record only what came with return code 0. */
  predicate StopOrRecord(s: Step, r: Reply) {
    s.outcome == Stop || (s.outcome == Recorded && s.reason == NoReason && r.rc == Some(0))
  }

  lemma GateOutcomes(r: Reply, who: Expected)
    ensures StopOrRecord(HostNameStep(who, r), r) && StopOrRecord(EnvStep(r), r) && StopOrRecord(CountStep(r), r)
    ensures StopOrRecord(AuditStep(r), r)
  {
  }

  lemma HoldOutcomes(id: RowId, r: Reply, facts: Fields, good: bool)
    ensures StopOrRecord(UnitStep(r, facts, good), r) && StopOrRecord(RulesStep(id, r), r)
    ensures r.rc == Some(0) ==> StopOrRecord(FileStep(id, facts), r)
  {
  }

  lemma Ipv6Outcomes(id: RowId, r: Reply)
    ensures var s := Ipv6Step(id, r, Some(0));
            StopOrRecord(s, r) || s.outcome == Ipv6OtherError || (s.outcome == Ipv6NotPresent && id == E57 && r.rc.Some?)
  {
  }

  /** The outcomes a check can have. */
  ghost predicate Possible(id: RowId, s: Step, r: Reply) {
    || StopOrRecord(s, r)
    || (s.outcome == Ip6tablesMissing && id == S0e)
    || (s.outcome == Ipv6NotPresent && id == E57 && r.rc.Some?)
    || (s.outcome == Ipv6OtherError && (id == E57 || id == E58 || id == E59))
  }

  lemma HoldRowOutcomes(id: RowId, r: Reply, who: Expected)
    requires id == E53 || id == E54 || id == E55 || id == E56 || id == E57 || id == E58 || id == E59
    ensures Possible(id, Decide(id, r, who, Some(0)), r)
  {
    match id {
      case E53 => HoldOutcomes(id, r, ScanUnit(map[], r.unitLines).0, ScanUnit(map[], r.unitLines).1);
      case E57 | E58 | E59 => Ipv6Outcomes(id, r);
      case _ => HoldOutcomes(id, r, map[], true);
    }
  }

  lemma FileRowOutcomes(id: RowId, r: Reply, who: Expected)
    requires id == E510 || id == E511 || id == E512
    ensures Possible(id, Decide(id, r, who, Some(0)), r)
  {
    if r.body.Some? {
      HoldOutcomes(id, r, JsonFacts(id, r.body.value), true);
    }
  }

  lemma GateRowOutcomes(id: RowId, r: Reply, who: Expected, versionRc: Option<int>)
    requires id == S0a || id == S0b || id == S0c || id == S0d || id == S0e || id == E41 || id == E42 || id == E43 || id == E51 || id == E52 || id == E513
    ensures Possible(id, Decide(id, r, who, versionRc), r)
  {
    GateOutcomes(r, who);
  }

  lemma DecideOutcomes(id: RowId, r: Reply, who: Expected, versionRc: Option<int>)
    requires versionRc == Some(0) || Index(id) <= Index(S0e)
    ensures Possible(id, Decide(id, r, who, versionRc), r)
    ensures id == E41 && Decide(id, r, who, versionRc).outcome == Recorded ==> PsPasses(r)
  {
    match id {
      case E53 | E54 | E55 | E56 | E57 | E58 | E59 => HoldRowOutcomes(id, r, who);
      case E510 | E511 | E512 => FileRowOutcomes(id, r, who);
      case _ => GateRowOutcomes(id, r, who, versionRc);
    }
  }

  // ----- the run -----

  datatype Ipv6State = NotRead | Read | NotPresent

  datatype Verdict = NotPassIpv6 | Stopped | RecordedForGrading

  datatype Report = Report(rows: seq<Row>, verdict: Verdict, ipv6: Ipv6State, stoppedAt: Option<RowId>, ipv6Error: string)

  datatype Result = Reported(report: Report) | ValueError

  /** What the loop carries from row to row. */
  datatype Progress = Progress(
    rows: seq<Row>, stoppedAt: Option<RowId>, peName: Option<string>, versionRc: Option<int>, ipv6: Ipv6State, ipv6Error: string)

  predicate NeedsName(id: RowId) { id == E42 || id == E43 }

  /** The argv of a row, or None when it needs a container name and there is none. */
  function ArgvFor(id: RowId, peName: Option<string>): Option<Call> {
    if !NeedsName(id) then Some(Call(id, None))
    else if peName.Some? && IsPeName(peName.value) then Some(Call(id, peName))
    else None
  }

  predicate SkipsIpv6(id: RowId, ipv6: Ipv6State) { (id == E58 || id == E59) && ipv6 == NotPresent }

  function AfterStep(st: Progress, id: RowId, r: Reply, s: Step): Progress {
    st.(rows := st.rows + [Row(id, s.outcome, r.rc, s.facts, s.reason)],
        stoppedAt := if EndsRun(s.outcome) then Some(id) else st.stoppedAt,
        peName := if id == E41 && PsPasses(r) then Some(PsParts(r).value.0) else st.peName,
        versionRc := if id == S0e then r.rc else st.versionRc,
        ipv6 := if id != E57 && id != E58 && id != E59 then st.ipv6
                else if s.outcome == Recorded then Read else if s.outcome == Ipv6NotPresent then NotPresent else st.ipv6,
        ipv6Error := if s.outcome == Ipv6NotPresent && Get(s.facts, Ipv6ErrorVerbatim).Str? then s.facts[Ipv6ErrorVerbatim].s
                     else st.ipv6Error)
  }

  function SkippedRow(id: RowId, reason: Reason): Row { Row(id, NotRun, None, map[], reason) }

  /** The rows of a run so far: in order, and gated by the first row that ends the run. */
  ghost predicate Ordered(rows: seq<Row>) {
    |rows| <= |ROW_IDS| && forall i | 0 <= i < |rows| :: rows[i].id == ROW_IDS[i]
  }

  ghost predicate StopsAt(rows: seq<Row>, s: nat) {
    && s < |rows| && EndsRun(rows[s].outcome)
    && forall k | s < k < |rows| :: rows[k] == SkippedRow(rows[k].id, StoppedAt(rows[s].id))
  }

  /** Row `k` of a run that has not stopped before it. */
  ghost predicate Plain(rows: seq<Row>, k: nat)
    requires k < |rows|
  {
    && (rows[k].outcome == NotRun <==> (k == 15 || k == 16) && rows[14].outcome == Ipv6NotPresent)
    && (rows[k].outcome == NotRun ==> rows[k] == SkippedRow(rows[k].id, Ipv6Absent))
    && (rows[k].outcome == Ipv6NotPresent ==> k == 14)
    && (rows[k].outcome == Ip6tablesMissing ==> k == 4)
    && (rows[k].outcome == Ipv6OtherError ==> 14 <= k <= 16)
  }

  /** The whole report as a reader sees it: rows in order; one stop at most, and then only skipped rows. */
  ghost predicate Tidy(rows: seq<Row>, stoppedAt: Option<RowId>) {
    && Ordered(rows)
    && (stoppedAt.None? ==> forall k | 0 <= k < |rows| :: !EndsRun(rows[k].outcome) && Plain(rows, k))
    && (stoppedAt.Some? ==>
          && var s := Index(stoppedAt.value);
             && StopsAt(rows, s)
             && (forall k | 0 <= k < s :: !EndsRun(rows[k].outcome))
             && (forall k | 0 <= k <= s :: Plain(rows, k)))
  }

  /** What the carried variables say about the rows. */
  ghost predicate Carried(st: Progress) {
    && (st.ipv6 == NotPresent <==> |st.rows| > 14 && st.rows[14].outcome == Ipv6NotPresent)
    && (st.ipv6 == Read <==> |st.rows| > 14 && st.rows[14].outcome == Recorded)
    && (st.ipv6 == NotPresent ==>
          Get(st.rows[14].facts, Ipv6ErrorVerbatim) == Str(st.ipv6Error) && st.ipv6Error != "")
    && (st.stoppedAt.None? && |st.rows| > 4 ==> st.versionRc == Some(0))
    && (st.stoppedAt.None? && |st.rows| > 5 ==> st.peName.Some? && IsPeName(st.peName.value))
  }

  /** The commands that ran, in order. */
  function Ran(rows: seq<Row>): seq<RowId> {
    if rows == [] then []
    else
      var last := rows[|rows| - 1];
      Ran(rows[..|rows| - 1]) + if last.outcome == NotRun then [] else [last.id]
  }

  function Ids(calls: seq<Call>): seq<RowId> { seq(|calls|, i requires 0 <= i < |calls| => calls[i].id) }

  lemma RanStep(rows: seq<Row>, row: Row)
    ensures Ran(rows + [row]) == Ran(rows) + if row.outcome == NotRun then [] else [row.id]
  {
    assert (rows + [row])[..|rows|] == rows;
  }

  lemma PlainKept(rows: seq<Row>, row: Row, k: nat)
    requires k < |rows| && Plain(rows, k)
    ensures Plain(rows + [row], k)
  {
    if k == 15 || k == 16 {
      assert (rows + [row])[14] == rows[14];
    }
  }

  lemma TidyAfterStop(rows: seq<Row>, id: RowId, row: Row)
    requires Tidy(rows, Some(id)) && |rows| < |ROW_IDS|
    requires row == SkippedRow(ROW_IDS[|rows|], StoppedAt(id))
    ensures Tidy(rows + [row], Some(id))
  {
    var all, s := rows + [row], Index(id);
    assert all[s] == rows[s] && rows[s].id == ROW_IDS[s] == id;
    forall k | 0 <= k <= s ensures Plain(all, k) {
      PlainKept(rows, row, k);
    }
  }

  lemma TidyAfterRow(rows: seq<Row>, row: Row)
    requires Tidy(rows, None) && |rows| < |ROW_IDS| && row.id == ROW_IDS[|rows|]
    requires Plain(rows + [row], |rows|)
    ensures Tidy(rows + [row], if EndsRun(row.outcome) then Some(row.id) else None)
  {
    var all := rows + [row];
    forall k | 0 <= k < |rows| ensures Plain(all, k) && !EndsRun(all[k].outcome) {
      PlainKept(rows, row, k);
      assert all[k] == rows[k];
    }
    IndexOf(|rows|);
  }

  lemma IndexOf(i: nat)
    requires i < |ROW_IDS|
    ensures Index(ROW_IDS[i]) == i
  {
  }

  lemma IdAt(id: RowId, i: nat)
    requires i < |ROW_IDS| && id == ROW_IDS[i]
    ensures id == S0e <==> i == 4
    ensures id == E41 <==> i == 5
    ensures id == E57 <==> i == 14
    ensures id == E58 <==> i == 15
    ensures id == E59 <==> i == 16
    ensures NeedsName(id) ==> i > 5
    ensures Index(id) == i
  {
    IndexOf(i);
  }

  lemma NotPresentLine(r: Reply, versionRc: Option<int>, id: RowId)
    requires Ipv6Step(id, r, versionRc).outcome == Ipv6NotPresent
    ensures var v := Get(Ipv6Step(id, r, versionRc).facts, Ipv6ErrorVerbatim); v.Str? && v.s != ""
  {
  }

  /** One answered row keeps the report tidy and the carried variables true. */
  lemma StepKeeps(st: Progress, id: RowId, r: Reply, who: Expected)
    requires |st.rows| < |ROW_IDS| && id == ROW_IDS[|st.rows|]
    requires Tidy(st.rows, None) && st.stoppedAt.None? && Carried(st) && !SkipsIpv6(id, st.ipv6)
    ensures var next := AfterStep(st, id, r, Decide(id, r, who, st.versionRc));
            Tidy(next.rows, next.stoppedAt) && Carried(next)
  {
    var n, s := |st.rows|, Decide(id, r, who, st.versionRc);
    IdAt(id, n);
    DecideOutcomes(id, r, who, st.versionRc);
    var row := Row(id, s.outcome, r.rc, s.facts, s.reason);
    var all := st.rows + [row];
    StepPlain(st.rows, row);
    TidyAfterRow(st.rows, row);
    if s.outcome == Ipv6NotPresent {
      NotPresentLine(r, st.versionRc, id);
    }
    CarriedStep(st, id, r, s);
  }

  lemma StepPlain(rows: seq<Row>, row: Row)
    requires Ordered(rows) && |rows| < |ROW_IDS| && row.id == ROW_IDS[|rows|] && row.outcome != NotRun
    requires |rows| == 15 || |rows| == 16 ==> rows[14].outcome != Ipv6NotPresent
    requires row.outcome == Ip6tablesMissing ==> row.id == S0e
    requires row.outcome == Ipv6NotPresent ==> row.id == E57
    requires row.outcome == Ipv6OtherError ==> row.id == E57 || row.id == E58 || row.id == E59
    ensures Plain(rows + [row], |rows|)
  {
    IdAt(row.id, |rows|);
    if |rows| == 15 || |rows| == 16 {
      assert (rows + [row])[14] == rows[14];
    }
  }

  lemma CarriedStep(st: Progress, id: RowId, r: Reply, s: Step)
    requires |st.rows| < |ROW_IDS| && id == ROW_IDS[|st.rows|]
    requires Carried(st) && st.stoppedAt.None? && !SkipsIpv6(id, st.ipv6)
    requires s.outcome != NotRun && (s.outcome == Ipv6NotPresent ==> id == E57)
    requires s.outcome == Ipv6NotPresent ==> Get(s.facts, Ipv6ErrorVerbatim).Str? && Get(s.facts, Ipv6ErrorVerbatim).s != ""
    requires id == S0e && !EndsRun(s.outcome) ==> r.rc == Some(0)
    requires id == E41 && !EndsRun(s.outcome) ==> PsPasses(r)
    requires |st.rows| == 15 || |st.rows| == 16 ==> st.rows[14].outcome == Recorded || st.rows[14].outcome == Ipv6NotPresent
    ensures Carried(AfterStep(st, id, r, s))
  {
    IdAt(id, |st.rows|);
    var next := AfterStep(st, id, r, s);
    assert forall k | 0 <= k < |st.rows| :: next.rows[k] == st.rows[k];
  }

  function RowFrom(id: RowId, r: Reply, who: Expected): Row {
    var s := Decide(id, r, who, Some(0));
    Row(id, s.outcome, r.rc, s.facts, s.reason)
  }

  /** The row is what the answer to its own command makes of it. */
  ghost predicate AnsweredAt(oracle: (seq<Call>, Call) -> Reply, calls: seq<Call>, row: Row, who: Expected, j: nat) {
    j < |calls| && calls[j].id == row.id && row == RowFrom(row.id, oracle(calls[..j], calls[j]), who)
  }

  ghost predicate Answered(oracle: (seq<Call>, Call) -> Reply, from: nat, calls: seq<Call>, row: Row, who: Expected) {
    exists j :: from <= j && AnsweredAt(oracle, calls, row, who, j)
  }

  /** Command `i` was the container check, and its answer showed this name. */
  ghost predicate ShownAt(oracle: (seq<Call>, Call) -> Reply, calls: seq<Call>, i: nat, name: string) {
    && i < |calls| && calls[i].id == E41
    && var r := oracle(calls[..i], calls[i]);
       r.rc == Some(0) && PsParts(r).Some? && PsParts(r).value.0 == name
  }

  ghost predicate Known(oracle: (seq<Call>, Call) -> Reply, from: nat, calls: seq<Call>, peName: Option<string>) {
    peName.Some? ==> exists i :: from <= i && ShownAt(oracle, calls, i, peName.value)
  }

  /** A command that needs a container is given the name shown before it, and any other is given none. */
  ghost predicate NameGiven(oracle: (seq<Call>, Call) -> Reply, from: nat, calls: seq<Call>, c: Call) {
    (c.peName.Some? <==> NeedsName(c.id)) && (c.peName.Some? ==> IsPeName(c.peName.value)) && Known(oracle, from, calls, c.peName)
  }

  /** The commands since `from` are those of the rows that ran, each row made from its own answer. */
  ghost predicate Matches(oracle: (seq<Call>, Call) -> Reply, from: nat, calls: seq<Call>, rows: seq<Row>, who: Expected) {
    && from <= |calls| && Ids(calls[from..]) == Ran(rows)
    && (forall j | from <= j < |calls| :: NameGiven(oracle, from, calls[..j], calls[j]))
    && (forall k | 0 <= k < |rows| && rows[k].outcome != NotRun :: Answered(oracle, from, calls, rows[k], who))
  }

  lemma AnsweredStays(oracle: (seq<Call>, Call) -> Reply, from: nat, calls: seq<Call>, row: Row, who: Expected, c: Call)
    requires Answered(oracle, from, calls, row, who)
    ensures Answered(oracle, from, calls + [c], row, who)
  {
    var j :| from <= j && AnsweredAt(oracle, calls, row, who, j);
    assert (calls + [c])[..j] == calls[..j];
    assert AnsweredAt(oracle, calls + [c], row, who, j);
  }

  lemma MatchesSkip(oracle: (seq<Call>, Call) -> Reply, from: nat, calls: seq<Call>, rows: seq<Row>, who: Expected, row: Row)
    requires Matches(oracle, from, calls, rows, who) && row.outcome == NotRun
    ensures Matches(oracle, from, calls, rows + [row], who)
  {
    RanStep(rows, row);
  }

  lemma MatchesRun(oracle: (seq<Call>, Call) -> Reply, from: nat, calls: seq<Call>, rows: seq<Row>, who: Expected, c: Call, row: Row)
    requires Matches(oracle, from, calls, rows, who) && row.outcome != NotRun && c.id == row.id
    requires NameGiven(oracle, from, calls, c)
    requires row == RowFrom(row.id, oracle(calls, c), who)
    ensures Matches(oracle, from, calls + [c], rows + [row], who)
  {
    var more, all := calls + [c], rows + [row];
    forall j | from <= j < |more| ensures NameGiven(oracle, from, more[..j], more[j]) {
      assert more[..j] == if j < |calls| then calls[..j] else calls;
    }
    RanStep(rows, row);
    assert more[from..] == calls[from..] + [c];
    assert Ids(more[from..]) == Ids(calls[from..]) + [c.id];
    assert more[..|calls|] == calls;
    assert AnsweredAt(oracle, more, row, who, |calls|);
    forall k | 0 <= k < |all| && all[k].outcome != NotRun ensures Answered(oracle, from, more, all[k], who) {
      if k < |rows| {
        AnsweredStays(oracle, from, calls, rows[k], who, c);
      }
    }
  }

  lemma VersionIrrelevant(id: RowId, r: Reply, who: Expected, versionRc: Option<int>)
    requires versionRc == Some(0) || Index(id) <= Index(S0e)
    ensures Decide(id, r, who, versionRc) == Decide(id, r, who, Some(0))
  {
  }

  ghost predicate Going(st: Progress) {
    Tidy(st.rows, st.stoppedAt) && Carried(st)
  }

  /** One turn of the loop. None is the error of a missing container name. */
  method OneRow(runner: Runner, st: Progress, who: Expected, ghost from: nat) returns (next: Option<Progress>)
    requires Going(st) && |st.rows| < |ROW_IDS| && Matches(runner.oracle, from, runner.calls, st.rows, who)
    requires Known(runner.oracle, from, runner.calls, st.peName)
    modifies runner
    ensures next.Some? && Going(next.value) && |next.value.rows| == |st.rows| + 1
    ensures Known(runner.oracle, from, runner.calls, next.value.peName)
    ensures old(runner.calls) <= runner.calls && Matches(runner.oracle, from, runner.calls, next.value.rows, who)
    ensures st.stoppedAt.Some? ==> runner.calls == old(runner.calls)
  {
    var id := ROW_IDS[|st.rows|];
    if st.stoppedAt.Some? || SkipsIpv6(id, st.ipv6) {
      var row := SkippedRow(id, if st.stoppedAt.Some? then StoppedAt(st.stoppedAt.value) else Ipv6Absent);
      SkipKeeps(st, row);
      MatchesSkip(runner.oracle, from, runner.calls, st.rows, who, row);
      return Some(st.(rows := st.rows + [row]));
    }
    IdAt(id, |st.rows|);
    var call := ArgvFor(id, st.peName);
    if call.None? {
      return None;
    }
    ghost var calls := runner.calls;
    var r := runner.Run(call.value);
    var s := DecideRow(id, r, who, st.versionRc);
    StepRan(st, runner.oracle, from, calls, call.value, who);
    return Some(AfterStep(st, id, r, s));
  }

  lemma StepRan(st: Progress, oracle: (seq<Call>, Call) -> Reply, from: nat, calls: seq<Call>, c: Call, who: Expected)
    requires Going(st) && |st.rows| < |ROW_IDS| && Matches(oracle, from, calls, st.rows, who)
    requires st.stoppedAt.None? && c.id == ROW_IDS[|st.rows|] && !SkipsIpv6(c.id, st.ipv6)
    requires c == Call(c.id, if NeedsName(c.id) then st.peName else None) && Known(oracle, from, calls, st.peName)
    ensures var r := oracle(calls, c);
            var next := AfterStep(st, c.id, r, Decide(c.id, r, who, st.versionRc));
            Going(next) && Matches(oracle, from, calls + [c], next.rows, who) && Known(oracle, from, calls + [c], next.peName)
  {
    KnownStep(st, oracle, from, calls, c, who);
    var r := oracle(calls, c);
    IdAt(c.id, |st.rows|);
    StepRow(st, c.id, r, who);
    StepKeeps(st, c.id, r, who);
    MatchesRun(oracle, from, calls, st.rows, who, c, RowFrom(c.id, r, who));
  }

  lemma KnownStep(st: Progress, oracle: (seq<Call>, Call) -> Reply, from: nat, calls: seq<Call>, c: Call, who: Expected)
    requires Known(oracle, from, calls, st.peName) && from <= |calls|
    ensures var r := oracle(calls, c); Known(oracle, from, calls + [c], AfterStep(st, c.id, r, Decide(c.id, r, who, st.versionRc)).peName)
  {
    var r, more := oracle(calls, c), calls + [c];
    if c.id == E41 && PsPasses(r) {
      assert more[..|calls|] == calls;
      assert ShownAt(oracle, more, |calls|, PsParts(r).value.0);
    } else if st.peName.Some? {
      var i :| from <= i && ShownAt(oracle, calls, i, st.peName.value);
      assert more[..i] == calls[..i];
      assert ShownAt(oracle, more, i, st.peName.value);
    }
  }

  /** What a turn adds is the row its answer makes. */
  lemma StepRow(st: Progress, id: RowId, r: Reply, who: Expected)
    requires st.versionRc == Some(0) || Index(id) <= Index(S0e)
    ensures AfterStep(st, id, r, Decide(id, r, who, st.versionRc)).rows == st.rows + [RowFrom(id, r, who)]
    ensures RowFrom(id, r, who).outcome != NotRun && RowFrom(id, r, who).id == id
  {
    DecideOutcomes(id, r, who, st.versionRc);
    VersionIrrelevant(id, r, who, st.versionRc);
  }

  lemma SkipCarries(st: Progress, row: Row)
    requires Carried(st) && row.outcome == NotRun && |st.rows| < |ROW_IDS|
    requires st.stoppedAt.Some? || |st.rows| >= 15
    requires |st.rows| <= 14 ==> st.ipv6 == NotRead
    ensures Carried(st.(rows := st.rows + [row]))
  {
    assert |st.rows| > 14 ==> (st.rows + [row])[14] == st.rows[14];
  }

  lemma SkipKeeps(st: Progress, row: Row)
    requires Going(st) && |st.rows| < |ROW_IDS|
    requires st.stoppedAt.Some? || SkipsIpv6(ROW_IDS[|st.rows|], st.ipv6)
    requires row == SkippedRow(ROW_IDS[|st.rows|], if st.stoppedAt.Some? then StoppedAt(st.stoppedAt.value) else Ipv6Absent)
    ensures Going(st.(rows := st.rows + [row]))
  {
    if st.stoppedAt.Some? {
      TidyAfterStop(st.rows, st.stoppedAt.value, row);
    } else {
      IdAt(row.id, |st.rows|);
      assert (st.rows + [row])[14] == st.rows[14];
      TidyAfterRow(st.rows, row);
    }
    SkipCarries(st, row);
  }

  function VerdictOf(st: Progress): Verdict {
    if st.stoppedAt.Some? then Stopped else if st.ipv6 == NotPresent then NotPassIpv6 else RecordedForGrading
  }

  ghost predicate AllRecorded(rows: seq<Row>) { forall k | 0 <= k < |rows| :: rows[k].outcome == Recorded }

  /** Some row stopped the run: a stop, missing ip6tables, or an IPv6 error of another kind. */
  ghost predicate SomeStop(rows: seq<Row>) {
    exists k | 0 <= k < |rows| :: rows[k].outcome == Stop || rows[k].outcome == Ip6tablesMissing || rows[k].outcome == Ipv6OtherError
  }

  /** The verdict said of the rows alone. */
  lemma VerdictMeans(st: Progress)
    requires Going(st) && |st.rows| == |ROW_IDS|
    ensures VerdictOf(st) == RecordedForGrading <==> AllRecorded(st.rows)
    ensures VerdictOf(st) == Stopped <==> SomeStop(st.rows)
  {
    if st.stoppedAt.Some? {
      assert EndsRun(st.rows[Index(st.stoppedAt.value)].outcome);
    } else if st.ipv6 == NotPresent {
      assert st.rows[14].outcome == Ipv6NotPresent;
    } else {
      assert forall k | 0 <= k < |st.rows| :: Plain(st.rows, k) && !EndsRun(st.rows[k].outcome);
    }
  }

  /**
   The whole run. Whatever the runner answers there is one row per check in order, the commands
   that ran are exactly those of the rows not marked NOT_RUN, nothing runs after the first stop,
   and the container-name error is unreachable.
   */
  method RunHostcheck(runner: Runner, who: Expected) returns (res: Result)
    modifies runner
    ensures res.Reported? && |res.report.rows| == |ROW_IDS| && Tidy(res.report.rows, res.report.stoppedAt)
    ensures Matches(runner.oracle, |old(runner.calls)|, runner.calls, res.report.rows, who)
    ensures old(runner.calls) <= runner.calls
    ensures res.report.verdict == RecordedForGrading <==> AllRecorded(res.report.rows)
    ensures res.report.verdict == Stopped <==> SomeStop(res.report.rows)
    ensures res.report.ipv6 == NotPresent <==> res.report.rows[14].outcome == Ipv6NotPresent
    ensures res.report.ipv6 == Read <==> res.report.rows[14].outcome == Recorded
    ensures res.report.ipv6 == NotPresent ==> Get(res.report.rows[14].facts, Ipv6ErrorVerbatim) == Str(res.report.ipv6Error)
  {
    var st := Progress([], None, None, None, NotRead, "");
    ghost var from := |runner.calls|;
    while |st.rows| < |ROW_IDS|
      invariant |st.rows| <= |ROW_IDS| && Going(st)
      invariant old(runner.calls) <= runner.calls
      invariant Matches(runner.oracle, from, runner.calls, st.rows, who) && Known(runner.oracle, from, runner.calls, st.peName)
      decreases |ROW_IDS| - |st.rows|
    {
      var next := OneRow(runner, st, who, from);
      if next.None? {
        return ValueError;
      }
      st := next.value;
    }
    VerdictMeans(st);
    return Reported(Report(st.rows, VerdictOf(st), st.ipv6, st.stoppedAt, st.ipv6Error));
  }
}
