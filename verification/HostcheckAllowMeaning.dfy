/**
 Which rows, facts and summary fields the evidence allowlist lets through, said key by key and in
 literal texts, and that its tables are those of the producer.
 */
module HostcheckAllowMeaning {
  import opened PyJson
  import opened Texts
  import opened Hostcheck
  import opened HostcheckAllow
  import R = HostcheckResults

  // ----- one fact -----

  ghost predicate Count(v: Val) { v.Int? && 0 <= v.n <= 100000 }

  ghost predicate RuleRow(id: RowId) { id == E54 || id == E55 || id == E56 || id == E57 || id == E58 || id == E59 }

  ghost predicate FileRow(id: RowId) { id == E510 || id == E511 || id == E512 }

  ghost predicate AbsentError(v: Val) { v.Str? && R.PrintableLine(v.s) && R.Absent(v.s) }

  /** The rows a fact may stand in. */
  ghost predicate Stands(id: RowId, key: Key) {
    match key
    case ExpectedNameValid | ExpectedDomainValid | HostNameMatch | FqdnForm => id == S0b
    case Backend => id == S0d || id == S0e
    case LineCount => id == E41 || id == E513
    case StatusUp | NamePattern => id == E41
    case NameCount | TelemetryDisabledName | DoNotTrackName | IngestUrlName | ApiKeyName => id == E42
    case CheckinNonemptyCount => id == E43
    case UnitPresent | WantsPresent | WantsIsSymlink | WrapperPresent | PolicyPresent => id == E51
    case LoaderUnitPresent | EnforceReadyUnitPresent | EnrolledNetworkUnitPresent => id == E52
    case Unit(_) => id == E53
    case ChainPresent | DropRulePresent => id == E54 || id == E57
    case JumpToBootHold => id == E55 || id == E56 || id == E58 || id == E59
    case RuleLines => RuleRow(id)
    case Ipv6ErrorVerbatim => id == E57
    case ApplyBootHeldSeen | ApplyBootFailedSeen => id == E513
    case KeyCount | UnlistedKeyCount | SignatureFieldPresent => FileRow(id)
    case BoolOf(k) => R.Carries(id, k)
    case HasOf(k) => R.Carries(id, k)
    case WordOf(k) => R.Carries(id, k) && R.TellsWord(k)
    case _ => false
  }

  /** The values it may have: a count, a text or a truth value. */
  ghost predicate MayBe(key: Key, outcome: Val, v: Val) {
    match key
    case LineCount | NameCount | CheckinNonemptyCount | RuleLines | KeyCount | UnlistedKeyCount => Count(v)
    case Backend => v == Str("nf_tables") || v == Str("legacy") || v == Str("unknown")
    case Unit(u) => v.Str? && v.s in UnitValues(u)
    case Ipv6ErrorVerbatim => outcome == Str("IPV6_NOT_PRESENT") && AbsentError(v)
    case HasOf(_) => v == Bool(true)
    case WordOf(_) => v.Str? && R.Joined(v.s, 4)
    case _ => v.Bool?
  }

  /** Where a fact may stand, and with what value. */
  ghost predicate MayStand(id: RowId, outcome: Val, key: Key, v: Val) { Stands(id, key) && MayBe(key, outcome, v) }

  ghost function KindFor(key: Key): Kind {
    match key
    case LineCount | NameCount | CheckinNonemptyCount | RuleLines | KeyCount | UnlistedKeyCount => KCount
    case Backend => KWords(BACKENDS)
    case Unit(u) => KWords(AllowedUnitValues(u))
    case Ipv6ErrorVerbatim => KVerbatim
    case HasOf(_) => KTrue
    case WordOf(_) => KJsonWord
    case _ => KBool
  }

  lemma VerbatimIff(v: Val)
    ensures IsVerbatim(v) <==> AbsentError(v)
  {
    if v.Str? {
      R.PrintableIff(v.s);
      R.AbsentIff(v.s);
    }
  }

  /** What the kinds accept. */
  lemma KindMeans(key: Key, outcome: Val, v: Val)
    ensures KindAccepts(KindFor(key), v, outcome == Str(NOT_PRESENT_TEXT)) <==> MayBe(key, outcome, v)
  {
    VerbatimIff(v);
    if v.Str? {
      R.JsonWordIff(v.s);
    }
    if key.Unit? {
      UnitValuesAgree(key.unit);
    }
  }

  ghost predicate KindIs(id: RowId, key: Key) { KindOf(id, key) == if Stands(id, key) then KindFor(key) else NoKind }

  ghost function Counts(count: bool, flag: bool): Kind { if count then KCount else if flag then KBool else NoKind }

  lemma HostNameKindOf(key: Key)
    ensures KindOf(S0b, key) == Counts(false, key == ExpectedNameValid || key == ExpectedDomainValid || key == HostNameMatch || key == FqdnForm)
  {
  }

  lemma HostNameStand(key: Key)
    ensures Stands(S0b, key) <==> key == ExpectedNameValid || key == ExpectedDomainValid || key == HostNameMatch || key == FqdnForm
  {
  }

  lemma HostNameKinds(key: Key)
    ensures KindIs(S0b, key)
  {
    HostNameKindOf(key);
    HostNameStand(key);
    assert KindFor(key) == KBool || !(key == ExpectedNameValid || key == ExpectedDomainValid || key == HostNameMatch || key == FqdnForm);
  }

  lemma ContainerKindOf(key: Key)
    ensures KindOf(E41, key) == Counts(key == LineCount, key == StatusUp || key == NamePattern)
  {
  }

  lemma ContainerStand(key: Key)
    ensures Stands(E41, key) <==> key == LineCount || key == StatusUp || key == NamePattern
  {
  }

  lemma ContainerKinds(key: Key)
    ensures KindIs(E41, key)
  {
    ContainerKindOf(key);
    ContainerStand(key);
    assert KindFor(key) == KBool || !(key == StatusUp || key == NamePattern);    assert KindFor(key) == KCount || !(key == LineCount);
  }

  lemma NamesKindOf(key: Key)
    ensures KindOf(E42, key) == Counts(key == NameCount, key == TelemetryDisabledName || key == DoNotTrackName || key == IngestUrlName || key == ApiKeyName)
  {
  }

  lemma NamesStand(key: Key)
    ensures Stands(E42, key) <==> key == NameCount || key == TelemetryDisabledName || key == DoNotTrackName || key == IngestUrlName || key == ApiKeyName
  {
  }

  lemma NamesKinds(key: Key)
    ensures KindIs(E42, key)
  {
    NamesKindOf(key);
    NamesStand(key);
    assert KindFor(key) == KBool || !(key == TelemetryDisabledName || key == DoNotTrackName || key == IngestUrlName || key == ApiKeyName);    assert KindFor(key) == KCount || !(key == NameCount);
  }

  lemma CheckinKindOf(key: Key)
    ensures KindOf(E43, key) == Counts(key == CheckinNonemptyCount, false)
  {
  }

  lemma CheckinStand(key: Key)
    ensures Stands(E43, key) <==> key == CheckinNonemptyCount
  {
  }

  lemma CheckinKinds(key: Key)
    ensures KindIs(E43, key)
  {
    CheckinKindOf(key);
    CheckinStand(key);    assert KindFor(key) == KCount || !(key == CheckinNonemptyCount);
  }

  lemma PathsKindOf(key: Key)
    ensures KindOf(E51, key) == Counts(false, key == UnitPresent || key == WantsPresent || key == WantsIsSymlink || key == WrapperPresent || key == PolicyPresent)
  {
  }

  lemma PathsStand(key: Key)
    ensures Stands(E51, key) <==> key == UnitPresent || key == WantsPresent || key == WantsIsSymlink || key == WrapperPresent || key == PolicyPresent
  {
  }

  lemma PathsKinds(key: Key)
    ensures KindIs(E51, key)
  {
    PathsKindOf(key);
    PathsStand(key);
    assert KindFor(key) == KBool || !(key == UnitPresent || key == WantsPresent || key == WantsIsSymlink || key == WrapperPresent || key == PolicyPresent);
  }

  lemma UnitFilesKindOf(key: Key)
    ensures KindOf(E52, key) == Counts(false, key == LoaderUnitPresent || key == EnforceReadyUnitPresent || key == EnrolledNetworkUnitPresent)
  {
  }

  lemma UnitFilesStand(key: Key)
    ensures Stands(E52, key) <==> key == LoaderUnitPresent || key == EnforceReadyUnitPresent || key == EnrolledNetworkUnitPresent
  {
  }

  lemma UnitFilesKinds(key: Key)
    ensures KindIs(E52, key)
  {
    UnitFilesKindOf(key);
    UnitFilesStand(key);
    assert KindFor(key) == KBool || !(key == LoaderUnitPresent || key == EnforceReadyUnitPresent || key == EnrolledNetworkUnitPresent);
  }

  lemma ChainKindOf(key: Key)
    ensures KindOf(E54, key) == Counts(key == RuleLines, key == ChainPresent || key == DropRulePresent)
  {
  }

  lemma ChainStand(key: Key)
    ensures Stands(E54, key) <==> key == RuleLines || key == ChainPresent || key == DropRulePresent
  {
  }

  lemma ChainKinds(key: Key)
    ensures KindIs(E54, key)
  {
    ChainKindOf(key);
    ChainStand(key);
    assert KindFor(key) == KBool || !(key == ChainPresent || key == DropRulePresent);    assert KindFor(key) == KCount || !(key == RuleLines);
  }

  lemma AuditKindOf(key: Key)
    ensures KindOf(E513, key) == Counts(key == LineCount, key == ApplyBootHeldSeen || key == ApplyBootFailedSeen)
  {
  }

  lemma AuditStand(key: Key)
    ensures Stands(E513, key) <==> key == LineCount || key == ApplyBootHeldSeen || key == ApplyBootFailedSeen
  {
  }

  lemma AuditKinds(key: Key)
    ensures KindIs(E513, key)
  {
    AuditKindOf(key);
    AuditStand(key);
    assert KindFor(key) == KBool || !(key == ApplyBootHeldSeen || key == ApplyBootFailedSeen);    assert KindFor(key) == KCount || !(key == LineCount);
  }

  lemma JumpKindOf(id: RowId, key: Key)
    requires id == E55 || id == E56 || id == E58 || id == E59
    ensures KindOf(id, key) == Counts(key == RuleLines, key == JumpToBootHold)
  {
  }

  lemma JumpStand(id: RowId, key: Key)
    requires id == E55 || id == E56 || id == E58 || id == E59
    ensures Stands(id, key) <==> key == RuleLines || key == JumpToBootHold
  {
  }

  lemma JumpKinds(id: RowId, key: Key)
    requires id == E55 || id == E56 || id == E58 || id == E59
    ensures KindIs(id, key)
  {
    JumpKindOf(id, key);
    JumpStand(id, key);
    assert KindFor(RuleLines) == KCount && KindFor(JumpToBootHold) == KBool;
  }

  lemma Ipv6ChainKindOf(key: Key)
    ensures KindOf(E57, key) == if key == Ipv6ErrorVerbatim then KVerbatim else KindOf(E54, key)
  {
  }

  lemma Ipv6ChainStand(key: Key)
    ensures Stands(E57, key) <==> key == Ipv6ErrorVerbatim || key == RuleLines || key == ChainPresent || key == DropRulePresent
  {
  }

  lemma Ipv6ChainKinds(key: Key)
    ensures KindIs(E57, key)
  {
    Ipv6ChainKindOf(key);
    Ipv6ChainStand(key);
    ChainStand(key);
    ChainKinds(key);
    assert KindFor(Ipv6ErrorVerbatim) == KVerbatim;
  }

  lemma NoFacts(key: Key)
    ensures KindIs(S0a, key)
  {
  }

  lemma NoFactsEither(key: Key)
    ensures KindIs(S0c, key)
  {
  }

  lemma BackendKinds(key: Key)
    ensures KindIs(S0d, key)
  {
  }

  lemma Backend6Kinds(key: Key)
    ensures KindIs(S0e, key)
  {
  }

  lemma UnitKinds(key: Key)
    ensures KindIs(E53, key)
  {
  }

  ghost predicate JsonStands(id: RowId, key: Key) {
    || key == KeyCount || key == UnlistedKeyCount || key == SignatureFieldPresent
    || (key.BoolOf? && R.Carries(id, key.json)) || (key.HasOf? && R.Carries(id, key.json))
    || (key.WordOf? && R.Carries(id, key.json) && R.TellsWord(key.json))
  }

  lemma CountsStand(id: RowId, key: Key)
    requires FileRow(id) && (key == KeyCount || key == UnlistedKeyCount || key == SignatureFieldPresent)
    ensures Stands(id, key)
  {
  }

  lemma FactsStand(id: RowId, key: Key)
    requires key.BoolOf? || key.HasOf? || key.WordOf?
    ensures Stands(id, key) <==> R.Carries(id, key.json) && (key.WordOf? ==> R.TellsWord(key.json))
  {
  }

  lemma OthersNot(id: RowId, key: Key)
    requires FileRow(id) && key != KeyCount && key != UnlistedKeyCount && key != SignatureFieldPresent
    requires !key.BoolOf? && !key.HasOf? && !key.WordOf?
    ensures !Stands(id, key)
  {
  }

  lemma JsonStand(id: RowId, key: Key)
    requires FileRow(id)
    ensures Stands(id, key) <==> JsonStands(id, key)
  {
    if key == KeyCount || key == UnlistedKeyCount || key == SignatureFieldPresent {
      CountsStand(id, key);
    } else if key.BoolOf? || key.HasOf? || key.WordOf? {
      FactsStand(id, key);
    } else {
      OthersNot(id, key);
    }
  }

  ghost predicate Truths(key: Key) { key == SignatureFieldPresent || key.BoolOf? }

  lemma JsonFor(key: Key)
    ensures key == KeyCount || key == UnlistedKeyCount ==> KindFor(key) == KCount
    ensures Truths(key) ==> KindFor(key) == KBool
    ensures key.HasOf? ==> KindFor(key) == KTrue
    ensures key.WordOf? ==> KindFor(key) == KJsonWord
  {
  }

  lemma JsonKinds(id: RowId, keys: set<JsonKey>, key: Key)
    requires FileRow(id) && forall k :: k in keys <==> R.Carries(id, k)
    requires forall k :: k in ALLOWED_JSON_WORD_KEYS <==> R.TellsWord(k)
    ensures JsonKind(keys, key) == if Stands(id, key) then KindFor(key) else NoKind
  {
    JsonStand(id, key);
    JsonFor(key);
  }

  lemma FileKinds(id: RowId, key: Key)
    requires FileRow(id)
    ensures KindIs(id, key)
  {
    JsonKeysAgree(id);
    forall k ensures k in AllowedJsonKeys(id) <==> R.Carries(id, k) {
      R.CarriesIff(id, k);
    }
    forall k ensures k in ALLOWED_JSON_WORD_KEYS <==> R.TellsWord(k) {
      R.TellsWordIff(k);
    }
    JsonKinds(id, AllowedJsonKeys(id), key);
  }

  lemma KindOfIs(id: RowId, key: Key)
    ensures KindIs(id, key)
  {
    match id {
      case S0a => NoFacts(key);
      case S0c => NoFactsEither(key);
      case S0b => HostNameKinds(key);
      case S0d => BackendKinds(key);
      case S0e => Backend6Kinds(key);
      case E41 => ContainerKinds(key);
      case E42 => NamesKinds(key);
      case E43 => CheckinKinds(key);
      case E51 => PathsKinds(key);
      case E52 => UnitFilesKinds(key);
      case E53 => UnitKinds(key);
      case E54 => ChainKinds(key);
      case E57 => Ipv6ChainKinds(key);
      case E513 => AuditKinds(key);
      case E55 | E56 | E58 | E59 => JumpKinds(id, key);
      case E510 | E511 | E512 => FileKinds(id, key);
    }
  }

  /** A fact is let through exactly where it may stand, with a value it may have. */
  lemma FactOkIff(id: RowId, outcome: Val, key: Key, v: Val)
    ensures FactOk(id, outcome, key, v) <==> MayStand(id, outcome, key, v)
  {
    KindOfIs(id, key);
    KindMeans(key, outcome, v);
  }

  // ----- texts -----

  lemma OutcomeWords(o: Outcome)
    ensures OutcomeText(o) == "RECORDED" <==> o == Recorded
    ensures OutcomeText(o) == "NOT_RUN" <==> o == NotRun
    ensures OutcomeText(o) == "STOP" <==> o == Stop
    ensures OutcomeText(o) == "IPV6_NOT_PRESENT" <==> o == Ipv6NotPresent
    ensures OutcomeText(o) == "IP6TABLES_MISSING" <==> o == Ip6tablesMissing
    ensures OutcomeText(o) == "IPV6_OTHER_ERROR" <==> o == Ipv6OtherError
  {
    assert "IPV6_NOT_PRESENT"[5] == 'N' && "IPV6_OTHER_ERROR"[5] == 'O';
  }

  lemma VerdictWords(v: Verdict)
    ensures VerdictText(v) == "NOT_PASS_IPV6_NOT_PRESENT" <==> v == NotPassIpv6
    ensures VerdictText(v) == "STOPPED" <==> v == Stopped
    ensures VerdictText(v) == "RECORDED_FOR_GRADING" <==> v == RecordedForGrading
  {
  }

  lemma Ipv6Words(s: Ipv6State)
    ensures Ipv6Text(s) == "NOT_READ" <==> s == NotRead
    ensures Ipv6Text(s) == "READ" <==> s == Read
    ensures Ipv6Text(s) == "NOT_PRESENT" <==> s == NotPresent
  {
  }

  ghost predicate OutcomeGiven(v: Val) { exists o :: v == Str(OutcomeText(o)) }

  /** The outcome texts let through are exactly those the producer writes. */
  lemma OutcomeIff(v: Val)
    ensures IsOutcome(v) <==> OutcomeGiven(v)
  {
    if IsOutcome(v) {
      var o := if v.s == "RECORDED" then Recorded else if v.s == "NOT_RUN" then NotRun else if v.s == "STOP" then Stop
               else if v.s == "IPV6_NOT_PRESENT" then Ipv6NotPresent else if v.s == "IP6TABLES_MISSING" then Ip6tablesMissing
               else Ipv6OtherError;
      assert v == Str(OutcomeText(o));
    }
    if o :| v == Str(OutcomeText(o)) {
      OutcomeAllowed(o);
    }
  }

  ghost predicate ReasonIs(r: Reason, s: string) { ReasonText(r) == s }

  lemma GateWords()
    ensures ReasonIs(NoReason, "")
    ensures ReasonIs(NonzeroRc, "NONZERO_RC")
    ensures ReasonIs(NotALabHostName, "NOT_A_LAB_HOST_NAME")
    ensures ReasonIs(IptablesMissing, "IPTABLES_MISSING")
    ensures ReasonIs(Ip6tablesAbsent, "IP6TABLES_MISSING")
    ensures ReasonIs(E41Gate, "E4_1_GATE")
    ensures ReasonIs(NonzeroRcOrSplitReject, "NONZERO_RC_OR_SPLIT_REJECT")
    ensures ReasonIs(NonNameLine, "NON_NAME_LINE_NOT_COPIED")
  {
  }

  lemma CheckWords()
    ensures ReasonIs(E42RequiredNameMissing, "E4_2_REQUIRED_NAME_MISSING")
    ensures ReasonIs(E43CountNotZero, "E4_3_COUNT_NOT_ZERO")
    ensures ReasonIs(E51NotAllPresent, "E5_1_NOT_ALL_PRESENT")
    ensures ReasonIs(E52NotAllPresent, "E5_2_NOT_ALL_PRESENT")
  {
  }

  lemma UnitWords()
    ensures ReasonIs(E53UnexpectedLine, "E5_3_UNEXPECTED_LINE")
    ensures ReasonIs(E53KeysMissing, "E5_3_KEYS_MISSING")
    ensures ReasonIs(E53NotFreshOrFailed, "E5_3_NOT_FRESH_OR_FAILED")
  {
  }

  lemma HoldWords()
    ensures ReasonIs(Ipv4HoldWrong, "IPV4_HOLD_NOT_AS_EXPECTED")
    ensures ReasonIs(Ipv6HoldWrong, "IPV6_HOLD_NOT_AS_EXPECTED")
    ensures ReasonIs(RecordAndContinue, "RECORD_AND_CONTINUE")
    ensures ReasonIs(StopWord, "STOP")
  {
  }

  lemma FileWords()
    ensures ReasonIs(NotJsonOrNonzeroRc, "NOT_JSON_OR_NONZERO_RC")
    ensures ReasonIs(E510AlreadyReleased, "E5_10_ALREADY_RELEASED")
    ensures ReasonIs(E511HoldOffByPolicy, "E5_11_HOLD_OFF_BY_POLICY")
    ensures ReasonIs(Ipv6Absent, "IPV6_NOT_PRESENT")
  {
  }

  lemma ReasonWords()
    ensures ReasonIs(NoReason, "")
    ensures ReasonIs(NonzeroRc, "NONZERO_RC")
    ensures ReasonIs(NotALabHostName, "NOT_A_LAB_HOST_NAME")
    ensures ReasonIs(IptablesMissing, "IPTABLES_MISSING")
    ensures ReasonIs(Ip6tablesAbsent, "IP6TABLES_MISSING")
    ensures ReasonIs(E41Gate, "E4_1_GATE")
    ensures ReasonIs(NonzeroRcOrSplitReject, "NONZERO_RC_OR_SPLIT_REJECT")
    ensures ReasonIs(NonNameLine, "NON_NAME_LINE_NOT_COPIED")
    ensures ReasonIs(E42RequiredNameMissing, "E4_2_REQUIRED_NAME_MISSING")
    ensures ReasonIs(E43CountNotZero, "E4_3_COUNT_NOT_ZERO")
    ensures ReasonIs(E51NotAllPresent, "E5_1_NOT_ALL_PRESENT")
    ensures ReasonIs(E52NotAllPresent, "E5_2_NOT_ALL_PRESENT")
    ensures ReasonIs(E53UnexpectedLine, "E5_3_UNEXPECTED_LINE")
    ensures ReasonIs(E53KeysMissing, "E5_3_KEYS_MISSING")
    ensures ReasonIs(E53NotFreshOrFailed, "E5_3_NOT_FRESH_OR_FAILED")
    ensures ReasonIs(Ipv4HoldWrong, "IPV4_HOLD_NOT_AS_EXPECTED")
    ensures ReasonIs(Ipv6HoldWrong, "IPV6_HOLD_NOT_AS_EXPECTED")
    ensures ReasonIs(RecordAndContinue, "RECORD_AND_CONTINUE")
    ensures ReasonIs(StopWord, "STOP")
    ensures ReasonIs(NotJsonOrNonzeroRc, "NOT_JSON_OR_NONZERO_RC")
    ensures ReasonIs(E510AlreadyReleased, "E5_10_ALREADY_RELEASED")
    ensures ReasonIs(E511HoldOffByPolicy, "E5_11_HOLD_OFF_BY_POLICY")
    ensures ReasonIs(Ipv6Absent, "IPV6_NOT_PRESENT")
  {
    GateWords();
    CheckWords();
    UnitWords();
    HoldWords();
    FileWords();
  }

  ghost predicate Given(s: string) { exists r :: ReasonIs(r, s) }

  ghost predicate ReasonGiven(v: Val) { v.Str? && Given(v.s) }

  lemma WordsGiven(s: string)
    requires s in REASON_TEXTS
    ensures Given(s)
  {
    ReasonWords();
  }

  lemma StoppedGiven(id: RowId, s: string)
    requires s == "STOPPED_AT_" + Underscored(RowText(id))
    ensures Given(s)
  {
    assert ReasonIs(StoppedAt(id), s);
  }

  lemma GivenAllowed(r: Reason, s: string)
    requires ReasonIs(r, s)
    ensures IsReason(Str(s))
  {
    ReasonAllowed(r);
  }

  /** The reasons let through are exactly those the producer writes. */
  lemma ReasonIff(v: Val)
    ensures IsReason(v) <==> ReasonGiven(v)
  {
    if IsReason(v) {
      if v.s in REASON_TEXTS {
        WordsGiven(v.s);
      } else {
        var id :| id in ALLOWED_ROW_IDS && v.s == "STOPPED_AT_" + Underscored(RowText(id));
        StoppedGiven(id, v.s);
      }
    }
    if v.Str? && Given(v.s) {
      var r :| ReasonIs(r, v.s);
      GivenAllowed(r, v.s);
    }
  }

  /** A later row names the row that stopped the run, with underscores. */
  lemma StoppedAtWords(id: RowId)
    ensures var s, row := ReasonText(StoppedAt(id)), RowText(id);
            && |s| == 11 + |row| && s[..11] == "STOPPED_AT_"
            && forall i | 0 <= i < |row| :: s[11 + i] == if row[i] == '-' then '_' else row[i]
  {
  }

  /** The row names of both sides are the same, in the same order. */
  lemma RowsAgree()
    ensures ROW_IDS == ALLOWED_ROW_IDS
  {
  }

  // ----- one row, and the report -----

  ghost predicate RowNamed(v: Val, id: RowId) { v == Str(RowText(id)) }

  lemma RowOfIff(v: Val, id: RowId)
    ensures RowOf(v) == Some(id) <==> RowNamed(v, id)
  {
    if RowNamed(v, id) {
      RowOfText(id);
    }
  }

  lemma NoRowIff(v: Val)
    ensures RowOf(v).None? <==> forall id :: !RowNamed(v, id)
  {
    forall id ensures RowOf(v) == Some(id) <==> RowNamed(v, id) {
      RowOfIff(v, id);
    }
  }

  ghost predicate SmallRc(v: Val) { v == Null || (v.Int? && -255 <= v.n <= 255) }

  /** The row is kept under its id: outcome and reason are the producer's, and the return code is small. */
  ghost predicate KeepsRow(item: Fields, id: RowId) {
    && RowNamed(Get(item, RowKey), id) && OutcomeGiven(Get(item, OutcomeKey))
    && SmallRc(Get(item, RcKey)) && ReasonGiven(Get(item, ReasonKey))
  }

  /** An entry raises exactly when it names a row and its outcome is a list or a dict. */
  lemma RowRaisesIff(v: Val)
    ensures AllowRow(v).TypeError? <==>
            v.Dict? && (exists id :: RowNamed(Get(v.fields, RowKey), id))
            && (Get(v.fields, OutcomeKey).List? || Get(v.fields, OutcomeKey).Dict?)
  {
    if v.Dict? {
      NoRowIff(Get(v.fields, RowKey));
    }
  }

  lemma RowKeptIff(v: Val)
    ensures AllowRow(v).Kept? <==> v.Dict? && exists id :: KeepsRow(v.fields, id)
  {
    if v.Dict? {
      var item, found := v.fields, RowOf(Get(v.fields, RowKey));
      OutcomeIff(Get(item, OutcomeKey));
      ReasonIff(Get(item, ReasonKey));
      assert IsRc(Get(item, RcKey)) <==> SmallRc(Get(item, RcKey));
      forall id ensures found == Some(id) <==> RowNamed(Get(item, RowKey), id) {
        RowOfIff(Get(item, RowKey), id);
      }
      if found.Some? {
        assert AllowRow(v).Kept? <==> KeepsRow(item, found.value);
      }
    }
  }

  /** What is kept of a row: its four words as they are, and of its facts those that may stand there. */
  lemma KeptRowIs(item: Fields, id: RowId, key: Key)
    requires KeepsRow(item, id)
    ensures var got, facts := AllowRow(Dict(item)), AsDict(Get(item, FactsKey));
            && got.Kept? && got.value.Dict? && got.value.fields.Keys == {RowKey, OutcomeKey, RcKey, ReasonKey, FactsKey}
            && Get(got.value.fields, RowKey) == Get(item, RowKey) && Get(got.value.fields, OutcomeKey) == Get(item, OutcomeKey)
            && Get(got.value.fields, RcKey) == Get(item, RcKey) && Get(got.value.fields, ReasonKey) == Get(item, ReasonKey)
            && var kept := Get(got.value.fields, FactsKey);
               && kept.Dict? && (key in kept.fields <==> key in facts && MayStand(id, Get(item, OutcomeKey), key, facts[key]))
               && (key in kept.fields ==> kept.fields[key] == facts[key])
  {
    var facts, outcome := AsDict(Get(item, FactsKey)), Get(item, OutcomeKey);
    RowKeptIff(Dict(item));
    RowOfIff(Get(item, RowKey), id);
    var kept := Filter(facts, FactRule(id, outcome));
    if key in facts {
      FactOkIff(id, outcome, key, facts[key]);
    }
    KeptRowReads(Get(item, RowKey), outcome, Get(item, RcKey), Get(item, ReasonKey), kept);
    assert AllowRow(Dict(item)) == Kept(KeptRow(Get(item, RowKey), outcome, Get(item, RcKey), Get(item, ReasonKey), kept));
  }

  ghost predicate StoppedText(s: string) {
    || s == "" || s == "HOSTCHECK_ABSENT" || s == "HOSTCHECK_ERROR" || s == "INSTALL_NOT_RUN" || s == "NOT_ROOT"
    || s == "S4_INSTALL_NOT_OBSERVE_HEALTHY" || exists id :: s == RowText(id)
  }

  lemma StoppedTextIff(v: Val)
    ensures IsStoppedAt(v) <==> v.Str? && StoppedText(v.s)
  {
    if v.Str? && exists id :: v.s == RowText(id) {
      var id :| v.s == RowText(id);
      assert ALLOWED_ROW_IDS[Index(id)] == id;
    }
  }

  /** The summary fields let through. */
  ghost predicate MaySum(key: Key, v: Val) {
    match key
    case ArgvSha256 => v == Str("d52b5c4f145742b2f2be509a2176fdd7aacab5f01ac7cecb9300a3cc869cea2e")
    case E5dOutcome => exists d :: v == Str(VerdictText(d))
    case Ipv6Key => exists s :: v == Str(Ipv6Text(s))
    case StoppedAtKey => v.Str? && StoppedText(v.s)
    case E5dNote => v == Str("IPv6 half not read; E5 (d) cannot be recorded as active")
    case Ipv6ErrorVerbatim => AbsentError(v)
    case _ => false
  }

  lemma SummaryOkIff(key: Key, v: Val)
    ensures SummaryOk(key, v) <==> MaySum(key, v)
  {
    match key {
      case E5dOutcome => VerdictTextIff(v);
      case Ipv6Key => Ipv6TextIff(v);
      case StoppedAtKey => StoppedTextIff(v);
      case Ipv6ErrorVerbatim => VerbatimIff(v);
      case _ =>
    }
  }

  lemma VerdictTextIff(v: Val)
    ensures v.Str? && v.s in {"NOT_PASS_IPV6_NOT_PRESENT", "STOPPED", "RECORDED_FOR_GRADING"} <==> exists d :: v == Str(VerdictText(d))
  {
    assert VerdictText(NotPassIpv6) == "NOT_PASS_IPV6_NOT_PRESENT" && VerdictText(Stopped) == "STOPPED";
    assert VerdictText(RecordedForGrading) == "RECORDED_FOR_GRADING";
  }

  lemma Ipv6TextIff(v: Val)
    ensures v.Str? && v.s in {"NOT_READ", "READ", "NOT_PRESENT"} <==> exists s :: v == Str(Ipv6Text(s))
  {
    assert Ipv6Text(NotRead) == "NOT_READ" && Ipv6Text(Read) == "READ" && Ipv6Text(NotPresent) == "NOT_PRESENT";
  }

  lemma RowWords()
    ensures RowText(S0a) == "S0-a"
    ensures RowText(S0b) == "S0-b"
    ensures RowText(S0c) == "S0-c"
    ensures RowText(S0d) == "S0-d"
    ensures RowText(S0e) == "S0-e"
    ensures RowText(E41) == "E4-1"
    ensures RowText(E42) == "E4-2"
    ensures RowText(E43) == "E4-3"
    ensures RowText(E51) == "E5-1"
    ensures RowText(E52) == "E5-2"
    ensures RowText(E53) == "E5-3"
    ensures RowText(E54) == "E5-4"
    ensures RowText(E55) == "E5-5"
    ensures RowText(E56) == "E5-6"
    ensures RowText(E57) == "E5-7"
    ensures RowText(E58) == "E5-8"
    ensures RowText(E59) == "E5-9"
    ensures RowText(E510) == "E5-10"
    ensures RowText(E511) == "E5-11"
    ensures RowText(E512) == "E5-12"
    ensures RowText(E513) == "E5-13"
  {
  }

  // ----- the rows and the report -----

  /** Keeping some entries of a list keeps their order: what comes of two parts is one after the other. */
  lemma {:induction false} KeepSomeParts<T, U>(a: seq<T>, b: seq<T>, f: T -> Option<U>)
    ensures KeepSome(a + b, f) == KeepSome(a, f) + KeepSome(b, f)
  {
    if a == [] {
      assert a + b == b;
    } else {
      assert (a + b)[0] == a[0] && (a + b)[1..] == a[1..] + b;
      KeepSomeParts(a[1..], b, f);
    }
  }

  lemma KeepSomeOne<T, U>(x: T, f: T -> Option<U>)
    ensures KeepSome([x], f) == if f(x).Some? then [f(x).value] else []
  {
  }

  ghost predicate RaisesAt(v: Val, i: nat) {
    v.Dict? && Get(v.fields, Rows).List? && i < |Get(v.fields, Rows).items| && AllowRow(Get(v.fields, Rows).items[i]).TypeError?
  }

  /** A kept report: its rows in order, and its allowed summary fields. */
  ghost predicate KeptAs(got: Val, items: seq<Val>, summary: Fields, key: Key) {
    && got.Dict? && got.fields.Keys == {ReportProofState, Rows, Summary} && got.fields[ReportProofState] == Str("NOT_PROVED")
    && got.fields[Rows] == List(KeepSome(items, RowRule)) && got.fields[Summary].Dict?
    && var kept := got.fields[Summary].fields;
       && (key in kept <==> key in summary && MaySum(key, summary[key]))
       && (key in kept ==> kept[key] == summary[key])
  }

  lemma KeptSummary(rows: seq<Val>, items: seq<Val>, summary: Fields, key: Key)
    requires rows == KeepSome(items, RowRule)
    ensures KeptAs(KeptReport(rows, Filter(summary, SummaryOk)), items, summary, key)
  {
    if key in summary {
      SummaryOkIff(key, summary[key]);
    }
  }

  /** A report is dropped, or raises, or is kept with its rows in order and its allowed summary fields. */
  lemma ReportIs(v: Val, key: Key)
    ensures Allow(v).Dropped? <==> !v.Dict?
    ensures Allow(v).TypeError? <==> exists i: nat :: RaisesAt(v, i)
    ensures Allow(v).Kept? ==>
              KeptAs(Allow(v).value, if Get(v.fields, Rows).List? then Get(v.fields, Rows).items else [], AsDict(Get(v.fields, Summary)), key)
  {
    if v.Dict? {
      var items, summary := AsList(Get(v.fields, Rows)), AsDict(Get(v.fields, Summary));
      RaisesIff(v, items);
      KeptSummary(KeepSome(items, RowRule), items, summary, key);
    }
  }

  lemma RaisesIff(v: Val, items: seq<Val>)
    requires v.Dict? && items == AsList(Get(v.fields, Rows))
    ensures Raises(items) <==> exists i: nat :: RaisesAt(v, i)
  {
    if i :| 0 <= i < |items| && AllowRow(items[i]).TypeError? {
      assert RaisesAt(v, i);
    }
    if i: nat :| RaisesAt(v, i) {
      assert AllowRow(items[i]).TypeError?;
    }
  }
}
