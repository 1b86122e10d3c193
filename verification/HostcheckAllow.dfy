/**
 The evidence allowlist for the host checks.

 It is written apart from the producer, with its own tables. Two things are proved of it: it is
 a projection on arbitrary input, and it loses nothing of any report the producer can make, as
 long as the counts and return codes are small and the argv digest is the pinned one.
 */
module HostcheckAllow {
  import opened PyJson
  import opened Hostcheck

  // ----- texts -----

  function RowText(id: RowId): string {
    match id
    case S0a => "S0-a" case S0b => "S0-b" case S0c => "S0-c" case S0d => "S0-d" case S0e => "S0-e"
    case E41 => "E4-1" case E42 => "E4-2" case E43 => "E4-3"
    case E51 => "E5-1" case E52 => "E5-2" case E53 => "E5-3" case E54 => "E5-4" case E55 => "E5-5" case E56 => "E5-6"
    case E57 => "E5-7" case E58 => "E5-8" case E59 => "E5-9"
    case E510 => "E5-10" case E511 => "E5-11" case E512 => "E5-12" case E513 => "E5-13"
  }

  function OutcomeText(o: Outcome): string {
    match o
    case Recorded => "RECORDED"
    case NotRun => "NOT_RUN"
    case Stop => "STOP"
    case Ipv6NotPresent => "IPV6_NOT_PRESENT"
    case Ip6tablesMissing => "IP6TABLES_MISSING"
    case Ipv6OtherError => "IPV6_OTHER_ERROR"
  }

  function Underscored(s: string): string { seq(|s|, i requires 0 <= i < |s| => if s[i] == '-' then '_' else s[i]) }

  function ReasonText(r: Reason): string {
    match r
    case NoReason => ""
    case NonzeroRc => "NONZERO_RC"
    case NotALabHostName => "NOT_A_LAB_HOST_NAME"
    case IptablesMissing => "IPTABLES_MISSING"
    case Ip6tablesAbsent => "IP6TABLES_MISSING"
    case E41Gate => "E4_1_GATE"
    case NonzeroRcOrSplitReject => "NONZERO_RC_OR_SPLIT_REJECT"
    case NonNameLine => "NON_NAME_LINE_NOT_COPIED"
    case E42RequiredNameMissing => "E4_2_REQUIRED_NAME_MISSING"
    case E43CountNotZero => "E4_3_COUNT_NOT_ZERO"
    case E51NotAllPresent => "E5_1_NOT_ALL_PRESENT"
    case E52NotAllPresent => "E5_2_NOT_ALL_PRESENT"
    case E53UnexpectedLine => "E5_3_UNEXPECTED_LINE"
    case E53KeysMissing => "E5_3_KEYS_MISSING"
    case E53NotFreshOrFailed => "E5_3_NOT_FRESH_OR_FAILED"
    case Ipv4HoldWrong => "IPV4_HOLD_NOT_AS_EXPECTED"
    case Ipv6HoldWrong => "IPV6_HOLD_NOT_AS_EXPECTED"
    case RecordAndContinue => "RECORD_AND_CONTINUE"
    case StopWord => "STOP"
    case NotJsonOrNonzeroRc => "NOT_JSON_OR_NONZERO_RC"
    case E510AlreadyReleased => "E5_10_ALREADY_RELEASED"
    case E511HoldOffByPolicy => "E5_11_HOLD_OFF_BY_POLICY"
    case Ipv6Absent => "IPV6_NOT_PRESENT"
    case StoppedAt(id) => "STOPPED_AT_" + Underscored(RowText(id))
  }

  function VerdictText(v: Verdict): string {
    match v
    case NotPassIpv6 => "NOT_PASS_IPV6_NOT_PRESENT"
    case Stopped => "STOPPED"
    case RecordedForGrading => "RECORDED_FOR_GRADING"
  }

  function Ipv6Text(s: Ipv6State): string {
    match s
    case NotRead => "NOT_READ"
    case Read => "READ"
    case NotPresent => "NOT_PRESENT"
  }

  const NOTE: string := "IPv6 half not read; E5 (d) cannot be recorded as active"
  const ARGV_SHA: string := "d52b5c4f145742b2f2be509a2176fdd7aacab5f01ac7cecb9300a3cc869cea2e"

  /** Reads a row text back from its characters. */
  function RowNumber(s: string): int {
    if |s| < 4 then -1
    else if s[0] == 'S' then s[3] as int - 'a' as int
    else if s[1] == '4' then 5 + (s[3] as int - '1' as int)
    else if |s| == 4 then 8 + (s[3] as int - '1' as int)
    else 17 + (s[4] as int - '0' as int)
  }

  lemma RowTextDistinct(a: RowId, b: RowId)
    requires RowText(a) == RowText(b)
    ensures a == b
  {
    RowNumberReads(a);
    RowNumberReads(b);
  }

  lemma RowNumberReads(id: RowId)
    ensures RowNumber(RowText(id)) == Index(id)
  {
  }

  const ALLOWED_ROW_IDS: seq<RowId> :=
    [S0a, S0b, S0c, S0d, S0e, E41, E42, E43, E51, E52, E53, E54, E55, E56, E57, E58, E59, E510, E511, E512, E513]

  function FindRow(v: Val, ids: seq<RowId>): (r: Option<RowId>)
    ensures r.Some? ==> v == Str(RowText(r.value))
    ensures r.None? ==> forall id | id in ids :: v != Str(RowText(id))
  {
    if ids == [] then None else if v == Str(RowText(ids[0])) then Some(ids[0]) else FindRow(v, ids[1..])
  }

  function RowOf(v: Val): Option<RowId> { FindRow(v, ALLOWED_ROW_IDS) }

  lemma RowOfText(id: RowId)
    ensures RowOf(Str(RowText(id))) == Some(id)
  {
    assert ALLOWED_ROW_IDS[Index(id)] == id;
    var r := RowOf(Str(RowText(id)));
    RowTextDistinct(id, r.value);
  }

  // ----- the tables -----

  datatype Kind = NoKind | KBool | KTrue | KCount | KWords(words: set<string>) | KJsonWord | KVerbatim

  function AllowedUnitValues(k: UnitKey): set<string> {
    match k
    case LoadState => {"loaded", "not-found", "bad-setting", "error", "masked", "stub", "merged"}
    case UnitFileState =>
      {"enabled", "enabled-runtime", "linked", "linked-runtime", "alias", "masked", "masked-runtime",
       "static", "disabled", "indirect", "generated", "transient", "bad", ""}
    case ActiveState => {"active", "reloading", "inactive", "failed", "activating", "deactivating", "maintenance", "refreshing"}
    case SubState =>
      {"dead", "condition", "start-pre", "start", "start-post", "running", "exited", "reload", "stop",
       "stop-watchdog", "stop-sigterm", "stop-sigkill", "stop-post", "final-watchdog", "final-sigterm",
       "final-sigkill", "failed", "auto-restart", "cleaning"}
    case UnitResult =>
      {"success", "protocol", "timeout", "exit-code", "signal", "core-dump", "watchdog",
       "start-limit-hit", "resources", "oom-kill", "exec-condition", "condition", ""}
  }

  function ChainKind(key: Key): Kind {
    if key == ChainPresent || key == DropRulePresent then KBool else if key == RuleLines then KCount else NoKind
  }

  function JumpKind(key: Key): Kind {
    if key == JumpToBootHold then KBool else if key == RuleLines then KCount else NoKind
  }

  function AllowedJsonKeys(id: RowId): set<JsonKey> {
    match id
    case E510 => {FileProfile, LastReason, NetworkHold, Released}
    case E511 =>
      {Command, EnrolledSlice, FileProfile, Health, HostWideHold, Message, ProofCeiling, ProofState, Ready, RebootRow, State}
    case E512 => {CgroupSlice, DenyProbe, Enabled, SubnetV4, SubnetV6, Hold, Ordering}
    case _ => {}
  }

  const ALLOWED_JSON_WORD_KEYS: set<JsonKey> := {Command, FileProfile, Health, LastReason, State}

  function JsonKind(keys: set<JsonKey>, key: Key): Kind {
    if key == KeyCount || key == UnlistedKeyCount then KCount
    else if key == SignatureFieldPresent then KBool
    else if key.BoolOf? && key.json in keys then KBool
    else if key.HasOf? && key.json in keys then KTrue
    else if key.WordOf? && key.json in keys && key.json in ALLOWED_JSON_WORD_KEYS then KJsonWord
    else NoKind
  }

  const BACKENDS: set<string> := {"nf_tables", "legacy", "unknown"}

  function FlagKind(key: Key, flags: set<Key>): Kind { if key in flags then KBool else NoKind }

  const E42_FLAGS: set<Key> := {TelemetryDisabledName, DoNotTrackName, IngestUrlName, ApiKeyName}
  const E51_FLAGS: set<Key> := {UnitPresent, WantsPresent, WantsIsSymlink, WrapperPresent, PolicyPresent}
  const E52_FLAGS: set<Key> := {LoaderUnitPresent, EnforceReadyUnitPresent, EnrolledNetworkUnitPresent}

  function KindOf(id: RowId, key: Key): Kind {
    match id
    case S0a | S0c => NoKind
    case S0b => FlagKind(key, {ExpectedNameValid, ExpectedDomainValid, HostNameMatch, FqdnForm})
    case S0d | S0e => if key == Backend then KWords(BACKENDS) else NoKind
    case E41 => if key == LineCount then KCount else FlagKind(key, {StatusUp, NamePattern})
    case E42 => if key == NameCount then KCount else FlagKind(key, E42_FLAGS)
    case E43 => if key == CheckinNonemptyCount then KCount else NoKind
    case E51 => FlagKind(key, E51_FLAGS)
    case E52 => FlagKind(key, E52_FLAGS)
    case E53 => if key.Unit? then KWords(AllowedUnitValues(key.unit)) else NoKind
    case E54 => ChainKind(key)
    case E55 | E56 | E58 | E59 => JumpKind(key)
    case E57 => if key == Ipv6ErrorVerbatim then KVerbatim else ChainKind(key)
    case E510 | E511 | E512 => JsonKind(AllowedJsonKeys(id), key)
    case E513 => if key == LineCount then KCount else FlagKind(key, {ApplyBootHeldSeen, ApplyBootFailedSeen})
  }

  predicate IsVerbatim(v: Val) { v.Str? && IsPrintable(v.s) && SaysAbsent(v.s) }

  predicate KindAccepts(kind: Kind, v: Val, notPresent: bool) {
    match kind
    case NoKind => false
    case KVerbatim => notPresent && IsVerbatim(v)
    case KBool => v.Bool?
    case KTrue => v == Bool(true)
    case KCount => IntIn(v, 0, 100000)
    case KJsonWord => v.Str? && IsJsonWord(v.s)
    case KWords(words) => v.Str? && v.s in words
  }

  const NOT_PRESENT_TEXT: string := "IPV6_NOT_PRESENT"

  predicate FactOk(id: RowId, outcome: Val, key: Key, v: Val) {
    KindAccepts(KindOf(id, key), v, outcome == Str(NOT_PRESENT_TEXT))
  }

  const OUTCOME_TEXTS: set<string> :=
    {"RECORDED", "NOT_RUN", "STOP", "IPV6_NOT_PRESENT", "IP6TABLES_MISSING", "IPV6_OTHER_ERROR"}

  predicate IsOutcome(v: Val) { v.Str? && v.s in OUTCOME_TEXTS }

  const REASON_TEXTS: set<string> :=
    {"", "NONZERO_RC", "NOT_A_LAB_HOST_NAME", "IPTABLES_MISSING", "IP6TABLES_MISSING", "E4_1_GATE",
     "NONZERO_RC_OR_SPLIT_REJECT", "NON_NAME_LINE_NOT_COPIED", "E4_2_REQUIRED_NAME_MISSING",
     "E4_3_COUNT_NOT_ZERO", "E5_1_NOT_ALL_PRESENT", "E5_2_NOT_ALL_PRESENT", "E5_3_UNEXPECTED_LINE",
     "E5_3_KEYS_MISSING", "E5_3_NOT_FRESH_OR_FAILED", "IPV4_HOLD_NOT_AS_EXPECTED",
     "IPV6_HOLD_NOT_AS_EXPECTED", "RECORD_AND_CONTINUE", "STOP", "NOT_JSON_OR_NONZERO_RC",
     "E5_10_ALREADY_RELEASED", "E5_11_HOLD_OFF_BY_POLICY", "IPV6_NOT_PRESENT"}

  predicate IsReason(v: Val) {
    v.Str? && (v.s in REASON_TEXTS || exists id | id in ALLOWED_ROW_IDS :: v.s == "STOPPED_AT_" + Underscored(RowText(id)))
  }

  predicate IsRc(v: Val) { v.Null? || IntIn(v, -255, 255) }

  // ----- the sanitiser -----

  function FactRule(id: RowId, outcome: Val): (Key, Val) -> bool { (key, v) => FactOk(id, outcome, key, v) }

  function KeptRow(id: Val, outcome: Val, rc: Val, reason: Val, facts: Fields): Val {
    Dict(map[FactsKey := Dict(facts), OutcomeKey := outcome, RcKey := rc, ReasonKey := reason, RowKey := id])
  }

  datatype Allowed = Dropped | TypeError | Kept(value: Val)

  /** The order matters: an unknown row id is dropped before its outcome is looked up in a set. */
  function AllowRow(v: Val): Allowed {
    if !v.Dict? then Dropped
    else
      var id, outcome, rc, reason := Get(v.fields, RowKey), Get(v.fields, OutcomeKey), Get(v.fields, RcKey), Get(v.fields, ReasonKey);
      if RowOf(id).None? then Dropped
      else if !Hashable(outcome) then TypeError
      else if !IsOutcome(outcome) || !IsRc(rc) || !IsReason(reason) then Dropped
      else Kept(KeptRow(id, outcome, rc, reason, Filter(AsDict(Get(v.fields, FactsKey)), FactRule(RowOf(id).value, outcome))))
  }

  function RowRule(v: Val): Option<Val> {
    if AllowRow(v).Kept? then Some(AllowRow(v).value) else None
  }

  predicate SummaryOk(key: Key, v: Val) {
    match key
    case ArgvSha256 => v == Str(ARGV_SHA)
    case E5dOutcome => v.Str? && v.s in {"NOT_PASS_IPV6_NOT_PRESENT", "STOPPED", "RECORDED_FOR_GRADING"}
    case Ipv6Key => v.Str? && v.s in {"NOT_READ", "READ", "NOT_PRESENT"}
    case StoppedAtKey => IsStoppedAt(v)
    case E5dNote => v == Str(NOTE)
    case Ipv6ErrorVerbatim => IsVerbatim(v)
    case _ => false
  }

  predicate IsStoppedAt(v: Val) {
    v.Str? &&
    (|| v.s in {"", "HOSTCHECK_ABSENT", "HOSTCHECK_ERROR", "INSTALL_NOT_RUN", "NOT_ROOT", "S4_INSTALL_NOT_OBSERVE_HEALTHY"}
     || exists id | id in ALLOWED_ROW_IDS :: v.s == RowText(id))
  }

  function AsList(v: Val): seq<Val> { if v.List? then v.items else [] }

  function KeptReport(rows: seq<Val>, summary: Fields): Val {
    Dict(map[ReportProofState := Str("NOT_PROVED"), Rows := List(rows), Summary := Dict(summary)])
  }

  predicate Raises(items: seq<Val>) {
    exists i | 0 <= i < |items| :: AllowRow(items[i]).TypeError?
  }

  function Allow(v: Val): Allowed {
    if !v.Dict? then Dropped
    else if Raises(AsList(Get(v.fields, Rows))) then TypeError
    else Kept(KeptReport(KeepSome(AsList(Get(v.fields, Rows)), RowRule), Filter(AsDict(Get(v.fields, Summary)), SummaryOk)))
  }

  /** The rows in order until one raises. */
  method AllowRows(items: seq<Val>) returns (rows: Option<seq<Val>>)
    ensures rows.None? <==> Raises(items)
    ensures rows.Some? ==> rows.value == KeepSome(items, RowRule)
  {
    var kept := [];
    var i := 0;
    while i < |items|
      invariant 0 <= i <= |items|
      invariant forall j | 0 <= j < i :: !AllowRow(items[j]).TypeError?
      invariant kept + KeepSome(items[i..], RowRule) == KeepSome(items, RowRule)
    {
      var row := AllowRow(items[i]);
      assert items[i..][1..] == items[i + 1..];
      if row.TypeError? {
        return None;
      }
      if row.Kept? {
        assert RowRule(items[i]) == Some(row.value);
        kept := kept + [row.value];
      }
      i := i + 1;
    }
    assert items[i..] == [];
    return Some(kept);
  }

  /** The sanitiser as written: the rows, then the summary key by key. */
  method AllowHostcheck(v: Val) returns (r: Allowed)
    ensures r == Allow(v)
  {
    if !v.Dict? {
      return Dropped;
    }
    var rows := AllowRows(AsList(Get(v.fields, Rows)));
    if rows.None? {
      return TypeError;
    }
    var summary := FilterLoop(AsDict(Get(v.fields, Summary)), SummaryOk);
    return Kept(KeptReport(rows.value, summary));
  }

  // ----- sanitising is a projection -----

  lemma FilterTwice(item: Fields, ok: (Key, Val) -> bool)
    ensures Filter(Filter(item, ok), ok) == Filter(item, ok)
  {
  }

  lemma KeptRowReads(id: Val, outcome: Val, rc: Val, reason: Val, facts: Fields)
    ensures var f := KeptRow(id, outcome, rc, reason, facts).fields;
            && Get(f, RowKey) == id && Get(f, OutcomeKey) == outcome && Get(f, RcKey) == rc && Get(f, ReasonKey) == reason
            && Get(f, FactsKey) == Dict(facts)
  {
  }

  lemma AllowRowIdempotent(v: Val)
    requires AllowRow(v).Kept?
    ensures AllowRow(AllowRow(v).value) == AllowRow(v)
  {
    var id, outcome := Get(v.fields, RowKey), Get(v.fields, OutcomeKey);
    var rule := FactRule(RowOf(id).value, outcome);
    var facts := AsDict(Get(v.fields, FactsKey));
    FilterTwice(facts, rule);
    KeptRowReads(id, outcome, Get(v.fields, RcKey), Get(v.fields, ReasonKey), Filter(facts, rule));
  }

  lemma KeptReportReads(rows: seq<Val>, summary: Fields)
    ensures var f := KeptReport(rows, summary).fields; Get(f, Rows) == List(rows) && Get(f, Summary) == Dict(summary)
  {
  }

  lemma KeptRowsDoNotRaise(items: seq<Val>)
    ensures !Raises(KeepSome(items, RowRule))
  {
    var rows := KeepSome(items, RowRule);
    forall i | 0 <= i < |rows| ensures !AllowRow(rows[i]).TypeError? {
      KeepSomeImage(items, RowRule, rows[i]);
      var x :| x in items && RowRule(x) == Some(rows[i]);
      AllowRowIdempotent(x);
    }
  }

  /** Any report that was kept is kept as it is the second time. */
  lemma AllowIdempotent(v: Val)
    requires Allow(v).Kept?
    ensures Allow(Allow(v).value) == Allow(v)
  {
    var items := AsList(Get(v.fields, Rows));
    var summary := AsDict(Get(v.fields, Summary));
    forall x | x in items && RowRule(x).Some? ensures RowRule(RowRule(x).value) == RowRule(x) {
      AllowRowIdempotent(x);
    }
    KeepSomeAgain(items, RowRule);
    KeptRowsDoNotRaise(items);
    FilterTwice(summary, SummaryOk);
    KeptReportReads(KeepSome(items, RowRule), Filter(summary, SummaryOk));
  }

  // ----- nothing the producer emits is lost -----

  function EncodeRc(rc: Option<int>): Val { if rc.Some? then Int(rc.value) else Null }

  function EncodeRow(row: Row): Val {
    KeptRow(Str(RowText(row.id)), Str(OutcomeText(row.outcome)), EncodeRc(row.rc), Str(ReasonText(row.reason)), row.facts)
  }

  function EncodeRows(rows: seq<Row>): seq<Val> { seq(|rows|, i requires 0 <= i < |rows| => EncodeRow(rows[i])) }

  function EncodeSummary(r: Report, sha: string): Fields {
    map[ArgvSha256 := Str(sha), E5dOutcome := Str(VerdictText(r.verdict)), Ipv6Key := Str(Ipv6Text(r.ipv6)),
        StoppedAtKey := Str(if r.stoppedAt.Some? then RowText(r.stoppedAt.value) else "")] +
    if r.ipv6 == NotPresent then map[E5dNote := Str(NOTE), Ipv6ErrorVerbatim := Str(r.ipv6Error)] else map[]
  }

  /** The report as the producer writes it out. */
  function EncodeReport(r: Report, sha: string): Val {
    Dict(map[Rows := List(EncodeRows(r.rows)), Summary := Dict(EncodeSummary(r, sha))])
  }

  /** Counts and return codes stay in the range the evidence format has for them. */
  ghost predicate Small(row: Row) {
    && (row.rc.Some? ==> -255 <= row.rc.value <= 255)
    && forall key | key in row.facts && row.facts[key].Int? :: row.facts[key].n <= 100000
  }

  /** Every fact has the kind its row allows; counts are only known not to be negative. */
  ghost predicate FactsFit(id: RowId, outcome: Outcome, facts: Fields) {
    forall key | key in facts :: Fits(KindOf(id, key), facts[key], outcome == Ipv6NotPresent)
  }

  predicate Fits(kind: Kind, v: Val, notPresent: bool) {
    if kind == KCount then v.Int? && v.n >= 0 else KindAccepts(kind, v, notPresent)
  }

  lemma WordInSlice(s: string, word: string, i: nat, a: nat, b: nat)
    requires WordAt(s, word, i) && a <= i && i + |word| <= b <= |s|
    ensures HasWord(s[a..b], word)
  {
    var r, at := s[a..b], i - a;
    forall j | 0 <= j < |word| ensures Lower(r[at + j]) == word[j] {
      assert r[at + j] == s[i + j];
    }
    assert WordAt(r, word, at);
  }

  lemma SpaceStays(c: char, w: char)
    requires Lower(c) == w && !IsSpace(w)
    ensures !IsSpace(c)
  {
  }

  lemma InsideSlice(s: string, a: nat, b: nat, p: nat)
    requires SpacesOutside(s, a, b) && p < |s| && !IsSpace(s[p])
    ensures a <= p < b
  {
  }

  lemma EndsNotSpace(s: string, word: string, i: nat)
    requires WordAt(s, word, i) && word != "" && !IsSpace(word[0]) && !IsSpace(word[|word| - 1])
    ensures !IsSpace(s[i]) && !IsSpace(s[i + |word| - 1])
  {
    var last := |word| - 1;
    assert Lower(s[i + 0]) == word[0] && Lower(s[i + last]) == word[last];
    SpaceStays(s[i], word[0]);
    SpaceStays(s[i + last], word[last]);
  }

  /** A word that neither starts nor ends in space survives stripping. */
  lemma StripKeepsWord(s: string, word: string)
    requires HasWord(s, word) && word != "" && !IsSpace(word[0]) && !IsSpace(word[|word| - 1])
    ensures HasWord(Strip(s), word)
  {
    var a, b := StripSlice(s);
    SliceKeepsWord(s, word, a, b);
  }

  lemma SliceKeepsWord(s: string, word: string, a: nat, b: nat)
    requires HasWord(s, word) && word != "" && !IsSpace(word[0]) && !IsSpace(word[|word| - 1]) && SpacesOutside(s, a, b)
    ensures HasWord(s[a..b], word)
  {
    var i: nat :| 0 <= i <= |s| && WordAt(s, word, i);
    EndsNotSpace(s, word, i);
    InsideSlice(s, a, b, i);
    InsideSlice(s, a, b, i + |word| - 1);
    WordInSlice(s, word, i, a, b);
  }

  lemma StripKeepsAbsent(s: string)
    requires SaysAbsent(s)
    ensures SaysAbsent(Strip(s))
  {
    if HasWord(s, NO_FAMILY) {
      StripKeepsWord(s, NO_FAMILY);
    } else if HasWord(s, NO_TABLE_S) {
      StripKeepsWord(s, NO_TABLE_S);
    } else {
      StripKeepsWord(s, NO_TABLE_Z);
    }
  }

  lemma {:induction false} AbsentLineSays(lines: seq<string>)
    ensures AbsentLine(lines) != "" ==> SaysAbsent(AbsentLine(lines))
  {
    if lines != [] {
      if SaysAbsent(lines[0]) {
        StripKeepsAbsent(lines[0]);
      } else {
        AbsentLineSays(lines[1..]);
      }
    }
  }

  lemma UnitValuesAgree(k: UnitKey)
    ensures UnitValues(k) == AllowedUnitValues(k)
  {
  }

  ghost predicate UnitFactsOnly(facts: Fields) {
    forall key | key in facts :: key.Unit? && facts[key].Str? && facts[key].s in UnitValues(key.unit)
  }

  lemma {:induction false} ScanUnitFits(facts: Fields, lines: seq<UnitLine>)
    requires UnitFactsOnly(facts)
    ensures UnitFactsOnly(ScanUnit(facts, lines).0)
    decreases lines
  {
    if lines != [] {
      ScanUnitFits(AddUnitLine(facts, lines[0]), lines[1..]);
    }
  }

  lemma UnitFits(facts: Fields, outcome: Outcome)
    requires UnitFactsOnly(facts)
    ensures FactsFit(E53, outcome, facts)
  {
    forall key | key in facts ensures Fits(KindOf(E53, key), facts[key], outcome == Ipv6NotPresent) {
      UnitValuesAgree(key.unit);
    }
  }

  lemma JsonKeysAgree(id: RowId)
    ensures JsonKeys(id) == AllowedJsonKeys(id) && JSON_WORD_KEYS == ALLOWED_JSON_WORD_KEYS
  {
  }

  lemma WordFits(keys: set<JsonKey>, k: JsonKey, text: string, words: set<JsonKey>)
    requires k in keys && k in words && words <= ALLOWED_JSON_WORD_KEYS && IsJsonWord(text)
    ensures Fits(JsonKind(keys, WordOf(k)), Str(text), false)
  {
  }

  lemma BoolFits(keys: set<JsonKey>, k: JsonKey, b: bool)
    requires k in keys
    ensures Fits(JsonKind(keys, BoolOf(k)), Bool(b), false)
  {
  }

  lemma HasFits(keys: set<JsonKey>, k: JsonKey)
    requires k in keys
    ensures Fits(JsonKind(keys, HasOf(k)), Bool(true), false)
  {
  }

  lemma JsonFactFits(keys: set<JsonKey>, k: JsonKey, v: JsonVal)
    requires k in keys && JSON_WORD_KEYS <= ALLOWED_JSON_WORD_KEYS
    ensures Fits(JsonKind(keys, JsonFactKey(k, v)), JsonFactVal(k, v), false)
  {
    if JsonFactKey(k, v) == WordOf(k) {
      WordFits(keys, k, v.s, JSON_WORD_KEYS);
    } else if v.JBool? {
      BoolFits(keys, k, v.b);
    } else {
      HasFits(keys, k);
    }
  }

  lemma CountsFit(id: RowId, doc: Doc, keys: set<JsonKey>, key: Key)
    requires key in CountFacts(id, doc)
    ensures Fits(JsonKind(keys, key), CountFacts(id, doc)[key], false)
  {
  }

  lemma JsonFits(id: RowId, doc: Doc, outcome: Outcome)
    requires id == E510 || id == E511 || id == E512
    requires outcome != Ipv6NotPresent
    ensures FactsFit(id, outcome, JsonFacts(id, doc))
  {
    var facts, names, keys := JsonFacts(id, doc), ListedNames(id, doc), AllowedJsonKeys(id);
    FactKeysDistinct(id, doc);
    JsonKeysAgree(id);
    forall key | key in facts ensures Fits(JsonKind(keys, key), facts[key], false) {
      if key in ListedFacts(id, doc) {
        var k := EntrySource(names, FactKeyIn(doc), FactValIn(doc), key);
        JsonFactFits(keys, k, doc[Listed(k)]);
      } else {
        CountsFit(id, doc, keys, key);
      }
    }
  }

  lemma ChainFits(id: RowId, chain: bool, drop: bool, n: nat, o: Outcome)
    requires IsChainRow(id)
    ensures FactsFit(id, o, map[ChainPresent := Bool(chain), DropRulePresent := Bool(drop), RuleLines := Int(n)])
  {
  }

  lemma JumpFits(id: RowId, jump: bool, n: nat, o: Outcome)
    requires id == E55 || id == E56 || id == E58 || id == E59
    ensures FactsFit(id, o, map[JumpToBootHold := Bool(jump), RuleLines := Int(n)])
  {
  }

  lemma RuleFits(id: RowId, lines: seq<string>, o: Outcome)
    requires id == E54 || id == E55 || id == E56 || id == E57 || id == E58 || id == E59
    ensures FactsFit(id, o, RuleFacts(id, lines))
  {
    var facts := RuleFacts(id, lines);
    if IsChainRow(id) {
      ChainFits(id, facts[ChainPresent].b, facts[DropRulePresent].b, |lines|, o);
    } else {
      JumpFits(id, facts[JumpToBootHold].b, |lines|, o);
    }
  }

  lemma VerbatimFits(line: string)
    requires IsVerbatim(Str(line))
    ensures FactsFit(E57, Ipv6NotPresent, map[Ipv6ErrorVerbatim := Str(line)])
  {
  }

  lemma Ipv6Fits(id: RowId, r: Reply)
    requires id == E57 || id == E58 || id == E59
    ensures var s := Ipv6Step(id, r, Some(0)); FactsFit(id, s.outcome, s.facts)
  {
    var s, line := Ipv6Step(id, r, Some(0)), AbsentLine(r.errLines);
    if s.outcome == Ipv6NotPresent {
      AbsentLineSays(r.errLines);
      VerbatimFits(line);
    } else if r.rc == Some(0) {
      RuleFits(id, r.lines, s.outcome);
    } else {
      EmptyFits(id, s.outcome);
    }
  }

  lemma HostFits(a: bool, b: bool, c: bool, d: bool, o: Outcome)
    ensures FactsFit(S0b, o, map[ExpectedNameValid := Bool(a), ExpectedDomainValid := Bool(b), HostNameMatch := Bool(c), FqdnForm := Bool(d)])
  {
  }

  lemma PsFits(n: nat, a: bool, b: bool, o: Outcome)
    ensures FactsFit(E41, o, map[LineCount := Int(n), StatusUp := Bool(a), NamePattern := Bool(b)])
  {
  }

  lemma EnvFits(n: nat, a: bool, b: bool, c: bool, d: bool, o: Outcome)
    ensures FactsFit(E42, o, map[NameCount := Int(n), TelemetryDisabledName := Bool(a), DoNotTrackName := Bool(b),
                                 IngestUrlName := Bool(c), ApiKeyName := Bool(d)])
  {
  }

  lemma CountFits(n: nat, o: Outcome)
    ensures FactsFit(E43, o, map[CheckinNonemptyCount := Int(n)])
  {
  }

  lemma FilesFit(a: bool, b: bool, c: bool, d: bool, e: bool, o: Outcome)
    ensures FactsFit(E51, o, map[UnitPresent := Bool(a), WantsPresent := Bool(b), WrapperPresent := Bool(c),
                                 PolicyPresent := Bool(d), WantsIsSymlink := Bool(e)])
  {
  }

  lemma UnitFilesFit(a: bool, b: bool, c: bool, o: Outcome)
    ensures FactsFit(E52, o, map[LoaderUnitPresent := Bool(a), EnforceReadyUnitPresent := Bool(b), EnrolledNetworkUnitPresent := Bool(c)])
  {
  }

  lemma AuditFits(n: nat, a: bool, b: bool, o: Outcome)
    ensures FactsFit(E513, o, map[LineCount := Int(n), ApplyBootHeldSeen := Bool(a), ApplyBootFailedSeen := Bool(b)])
  {
  }

  lemma BackendFits(r: Reply, o: Outcome)
    ensures FactsFit(S0d, o, map[Backend := Str(BackendOf(r.out))]) && FactsFit(S0e, o, map[Backend := Str(BackendOf(r.out))])
  {
  }

  lemma EmptyFits(id: RowId, o: Outcome)
    ensures FactsFit(id, o, map[])
  {
  }

  /** The row made from this answer carries only facts the allowlist knows. */
  ghost predicate RowFits(id: RowId, r: Reply, who: Expected) {
    var s := Decide(id, r, who, Some(0));
    FactsFit(id, s.outcome, s.facts)
  }

  lemma HostNameRowFits(r: Reply, who: Expected)
    ensures RowFits(S0b, r, who)
  {
    var line := PrintedLine(if r.rc == Some(0) then r.out else "");
    HostFits(NameValid(who), DomainValid(who), ExactName(who, line) || FullName(who, line), FullName(who, line), HostNameStep(who, r).outcome);
  }

  lemma PlainRowFits(id: RowId, r: Reply, who: Expected)
    requires id == S0a || id == S0c || id == S0d || id == S0e || id == E41 || id == E43
    ensures RowFits(id, r, who)
  {
    var s := Decide(id, r, who, Some(0));
    EmptyFits(id, s.outcome);
    if id == E41 {
      PsFits(|r.lines|, PsUp(r), PsNamed(r), s.outcome);
    } else if id == E43 {
      CountFits(r.checkinCount, s.outcome);
    } else {
      BackendFits(r, s.outcome);
    }
  }

  lemma EnvRowFits(r: Reply, who: Expected)
    ensures RowFits(E42, r, who)
  {
    var names, o := EnvNames(r), EnvStep(r).outcome;
    EmptyFits(E42, o);
    EnvFits(|names|, "VANTIO_TELEMETRY_DISABLED" in names, "DO_NOT_TRACK" in names, "VANTIO_CLOUD_INGEST_URL" in names,
            "VANTIO_API_KEY" in names, o);
  }

  lemma FilesRowFits(id: RowId, r: Reply, who: Expected)
    requires id == E51 || id == E52
    ensures RowFits(id, r, who)
  {
    var o := Decide(id, r, who, Some(0)).outcome;
    if id == E51 {
      FilesFit(UNIT_PATH in r.listed, WANTS_PATH in r.listed, WRAPPER_PATH in r.listed, POLICY_PATH in r.listed,
               WANTS_PATH in r.listed && r.listed[WANTS_PATH], o);
    } else {
      UnitFilesFit(LOADER_UNIT in r.listed, READY_UNIT in r.listed, NETWORK_UNIT in r.listed, o);
    }
  }

  lemma UnitRowFits(r: Reply, who: Expected)
    ensures RowFits(E53, r, who)
  {
    var s, facts := Decide(E53, r, who, Some(0)), ScanUnit(map[], r.unitLines).0;
    ScanUnitFits(map[], r.unitLines);
    assert s.facts == facts || s.facts == map[];
    UnitFits(facts, s.outcome);
    EmptyFits(E53, s.outcome);
  }

  lemma RuleRowFits(id: RowId, r: Reply, who: Expected)
    requires id == E54 || id == E55 || id == E56
    ensures RowFits(id, r, who)
  {
    var s := RulesStep(id, r);
    RuleFits(id, r.lines, s.outcome);
    EmptyFits(id, s.outcome);
  }

  lemma JsonRowFits(id: RowId, r: Reply, who: Expected)
    requires id == E510 || id == E511 || id == E512
    ensures RowFits(id, r, who)
  {
    if r.rc == Some(0) && r.body.Some? {
      var facts := JsonFacts(id, r.body.value);
      FileStepFacts(id, facts);
      JsonFits(id, r.body.value, FileStep(id, facts).outcome);
    } else {
      EmptyFits(id, Stops(map[], NotJsonOrNonzeroRc).outcome);
    }
    JsonStep(id, r, who);
  }

  lemma JsonStep(id: RowId, r: Reply, who: Expected)
    requires id == E510 || id == E511 || id == E512
    ensures Decide(id, r, who, Some(0)) ==
            if r.rc == Some(0) && r.body.Some? then FileStep(id, JsonFacts(id, r.body.value)) else Stops(map[], NotJsonOrNonzeroRc)
  {
    match id {
      case E510 =>
      case E511 =>
      case E512 =>
    }
  }

  lemma FileStepFacts(id: RowId, facts: Fields)
    ensures FileStep(id, facts).facts == facts && FileStep(id, facts).outcome != Ipv6NotPresent
  {
  }

  lemma AuditRowFits(r: Reply, who: Expected)
    ensures RowFits(E513, r, who)
  {
    var s := AuditStep(r);
    AuditFits(|r.lines|, s.facts[ApplyBootHeldSeen].b, s.facts[ApplyBootFailedSeen].b, s.outcome);
  }

  lemma Ipv6RowFits(id: RowId, r: Reply, who: Expected)
    requires id == E57 || id == E58 || id == E59
    ensures RowFits(id, r, who)
  {
    Ipv6Fits(id, r);
  }

  /** Whatever the answer, every fact of a row has a kind the allowlist knows. */
  lemma DecideFits(id: RowId, r: Reply, who: Expected)
    ensures RowFits(id, r, who)
  {
    match id {
      case S0b => HostNameRowFits(r, who);
      case E42 => EnvRowFits(r, who);
      case E51 | E52 => FilesRowFits(id, r, who);
      case E53 => UnitRowFits(r, who);
      case E54 | E55 | E56 => RuleRowFits(id, r, who);
      case E57 | E58 | E59 => Ipv6RowFits(id, r, who);
      case E510 | E511 | E512 => JsonRowFits(id, r, who);
      case E513 => AuditRowFits(r, who);
      case _ => PlainRowFits(id, r, who);
    }
  }

  lemma OutcomeAllowed(o: Outcome)
    ensures IsOutcome(Str(OutcomeText(o)))
    ensures OutcomeText(o) == NOT_PRESENT_TEXT <==> o == Ipv6NotPresent
  {
    assert "IPV6_NOT_PRESENT"[5] == 'N' && "IPV6_OTHER_ERROR"[5] == 'O';
  }

  lemma ReasonAllowed(r: Reason)
    ensures IsReason(Str(ReasonText(r)))
  {
    if r.StoppedAt? {
      assert ALLOWED_ROW_IDS[Index(r.id)] == r.id;
    } else {
      assert ReasonText(r) in REASON_TEXTS;
    }
  }

  lemma FactsSurvive(row: Row)
    requires FactsFit(row.id, row.outcome, row.facts) && Small(row)
    ensures Filter(row.facts, FactRule(row.id, Str(OutcomeText(row.outcome)))) == row.facts
  {
    OutcomeAllowed(row.outcome);
    forall key | key in row.facts ensures FactOk(row.id, Str(OutcomeText(row.outcome)), key, row.facts[key]) {
      assert Fits(KindOf(row.id, key), row.facts[key], row.outcome == Ipv6NotPresent);
    }
  }

  /** One emitted row passes unchanged. */
  lemma RowSurvives(row: Row)
    requires FactsFit(row.id, row.outcome, row.facts) && Small(row)
    ensures AllowRow(EncodeRow(row)) == Kept(EncodeRow(row))
  {
    var id, outcome, rc, reason := Str(RowText(row.id)), Str(OutcomeText(row.outcome)), EncodeRc(row.rc), Str(ReasonText(row.reason));
    KeptRowReads(id, outcome, rc, reason, row.facts);
    RowOfText(row.id);
    OutcomeAllowed(row.outcome);
    ReasonAllowed(row.reason);
    FactsSurvive(row);
  }

  lemma RowsSurvive(rows: seq<Row>)
    requires forall k | 0 <= k < |rows| :: FactsFit(rows[k].id, rows[k].outcome, rows[k].facts) && Small(rows[k])
    ensures !Raises(EncodeRows(rows)) && KeepSome(EncodeRows(rows), RowRule) == EncodeRows(rows)
  {
    var items := EncodeRows(rows);
    forall i | 0 <= i < |items| ensures AllowRow(items[i]) == Kept(items[i]) {
      RowSurvives(rows[i]);
    }
    KeepSomeAll(items, RowRule);
  }

  lemma SummarySurvives(r: Report, sha: string)
    requires sha == ARGV_SHA && (r.ipv6 == NotPresent ==> IsVerbatim(Str(r.ipv6Error)))
    ensures Filter(EncodeSummary(r, sha), SummaryOk) == EncodeSummary(r, sha)
  {
    var summary := EncodeSummary(r, sha);
    if r.stoppedAt.Some? {
      assert ALLOWED_ROW_IDS[Index(r.stoppedAt.value)] == r.stoppedAt.value;
    }
    forall key | key in summary ensures SummaryOk(key, summary[key]) {
    }
  }

  ghost predicate Made(row: Row, who: Expected) {
    row.facts == map[] || exists reply :: row == RowFrom(row.id, reply, who)
  }

  lemma AnsweredMade(oracle: (seq<Call>, Call) -> Reply, from: nat, calls: seq<Call>, row: Row, who: Expected)
    requires Answered(oracle, from, calls, row, who)
    ensures Made(row, who)
  {
    var j :| from <= j && AnsweredAt(oracle, calls, row, who, j);
  }

  ghost predicate AllMade(rows: seq<Row>, who: Expected) { forall k | 0 <= k < |rows| :: Made(rows[k], who) }

  ghost predicate ErrorFrom(r: Report, k: nat) {
    && k < |r.rows| && r.rows[k].outcome == Ipv6NotPresent && r.rows[k].id == E57
    && Get(r.rows[k].facts, Ipv6ErrorVerbatim) == Str(r.ipv6Error)
  }

  /** What a report of the producer is made of: skipped rows, answered rows, and an error line taken from its row. */
  ghost predicate Emitted(r: Report, who: Expected) {
    AllMade(r.rows, who) && (r.ipv6 == NotPresent ==> exists k :: ErrorFrom(r, k))
  }

  lemma EmittedFits(row: Row, who: Expected)
    requires Made(row, who)
    ensures FactsFit(row.id, row.outcome, row.facts)
  {
    if row.facts != map[] {
      var reply :| row == RowFrom(row.id, reply, who);
      DecideFits(row.id, reply, who);
    }
  }

  /** Everything the producer can emit survives: each row, each fact and each summary field. */
  lemma AllowLosesNothing(r: Report, who: Expected, sha: string)
    requires Emitted(r, who) && sha == ARGV_SHA && AllSmall(r.rows)
    ensures Allow(EncodeReport(r, sha)) == Kept(KeptReport(EncodeRows(r.rows), EncodeSummary(r, sha)))
  {
    forall k | 0 <= k < |r.rows| ensures FactsFit(r.rows[k].id, r.rows[k].outcome, r.rows[k].facts) {
      EmittedFits(r.rows[k], who);
    }
    RowsSurvive(r.rows);
    if r.ipv6 == NotPresent {
      VerbatimFact(r);
    }
    SummarySurvives(r, sha);
    var f := EncodeReport(r, sha).fields;
    assert Get(f, Rows) == List(EncodeRows(r.rows)) && Get(f, Summary) == Dict(EncodeSummary(r, sha));
  }

  lemma VerbatimKind(v: Val)
    requires Fits(KindOf(E57, Ipv6ErrorVerbatim), v, true)
    ensures IsVerbatim(v)
  {
  }

  lemma VerbatimFact(r: Report)
    requires forall k | 0 <= k < |r.rows| :: FactsFit(r.rows[k].id, r.rows[k].outcome, r.rows[k].facts)
    requires exists k :: ErrorFrom(r, k)
    ensures IsVerbatim(Str(r.ipv6Error))
  {
    var k: nat :| ErrorFrom(r, k);
    var facts := r.rows[k].facts;
    assert Ipv6ErrorVerbatim in facts;
    VerbatimKind(facts[Ipv6ErrorVerbatim]);
  }

  ghost predicate AllSmall(rows: seq<Row>) { forall k | 0 <= k < |rows| :: Small(rows[k]) }

  lemma RunMade(rows: seq<Row>, stoppedAt: Option<RowId>, oracle: (seq<Call>, Call) -> Reply, from: nat, calls: seq<Call>, who: Expected)
    requires Tidy(rows, stoppedAt) && Matches(oracle, from, calls, rows, who)
    ensures AllMade(rows, who)
  {
    forall k | 0 <= k < |rows| ensures Made(rows[k], who) {
      TidyRow(rows, stoppedAt, k);
      if rows[k].outcome != NotRun {
        AnsweredMade(oracle, from, calls, rows[k], who);
      }
    }
  }

  lemma RunEmits(r: Report, oracle: (seq<Call>, Call) -> Reply, from: nat, calls: seq<Call>, who: Expected)
    requires |r.rows| == |ROW_IDS| && Tidy(r.rows, r.stoppedAt) && Matches(oracle, from, calls, r.rows, who)
    requires r.ipv6 == NotPresent ==>
               r.rows[14].outcome == Ipv6NotPresent && Get(r.rows[14].facts, Ipv6ErrorVerbatim) == Str(r.ipv6Error)
    ensures Emitted(r, who)
  {
    RunMade(r.rows, r.stoppedAt, oracle, from, calls, who);
    if r.ipv6 == NotPresent {
      LineFromE57(r);
    }
  }

  lemma LineFromE57(r: Report)
    requires Ordered(r.rows) && |r.rows| == |ROW_IDS|
    requires r.rows[14].outcome == Ipv6NotPresent && Get(r.rows[14].facts, Ipv6ErrorVerbatim) == Str(r.ipv6Error)
    ensures ErrorFrom(r, 14)
  {
    assert r.rows[14].id == ROW_IDS[14] == E57;
  }

  /** Run the checks, then sanitise: with small numbers and the pinned digest the evidence is the report itself. */
  method RunAndAllow(runner: Runner, who: Expected, sha: string) returns (report: Report, kept: Allowed)
    modifies runner
    ensures Emitted(report, who)
    ensures kept == Allow(EncodeReport(report, sha))
    ensures sha == ARGV_SHA && AllSmall(report.rows) ==>
              kept == Kept(KeptReport(EncodeRows(report.rows), EncodeSummary(report, sha)))
  {
    var res := RunHostcheck(runner, who);
    report := res.report;
    RunEmits(report, runner.oracle, |old(runner.calls)|, runner.calls, who);
    kept := AllowHostcheck(EncodeReport(report, sha));
    if sha == ARGV_SHA && AllSmall(report.rows) {
      AllowLosesNothing(report, who, sha);
    }
  }

  lemma TidyRow(rows: seq<Row>, stoppedAt: Option<RowId>, k: nat)
    requires Tidy(rows, stoppedAt) && k < |rows|
    ensures rows[k].outcome == NotRun ==> rows[k].facts == map[]
  {
    if stoppedAt.Some? && k <= Index(stoppedAt.value) {
      assert Plain(rows, k);
    }
  }
}
