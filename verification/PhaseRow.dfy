/**
 The host's record of one phase battery and its grade.

 `AllowPhaseRow` keeps typed facts only and recomputes the grade from what it kept.
 Sanitising is a projection: doing it again changes nothing, so a stored pass cannot
 drift however often the record is rewritten.
 */
module PhaseRow {
  import opened PyJson
  import opened Texts

  /** The keys of a row and of its map-swap record; any other key is `Other`. */
  datatype Key =
    | Battery | BatterySeen | HostResult | Pass | VerdictReason
    | Reason | Classification | NotRunReason | Result
    | HarnessError | UninstallVerified | RevokeFailOpen | LoaderUp | FileAttributed
    | KernelBtf | Attributed | BootImageAllowed | SealLane
    | GuestRc | UninstallRc | PostKillPid | PostKillAnchor | MaxRuntimeSeconds
    | SampleCount | HostCount | DeniedSamples | RevokeErrno | ControlErrno
    | EnrolledNetErrno | EnrolledFileErrno | UnenrolledFileErrno | AllowlistedPrivateErrno
    | EnrolledPid | NetBlockAnchor | RuntimeSeconds | RevokeConvergenceMs
    | KillTiming | ClaimScope | Distro | Kernel | KernelLsm | Lockdown | Image | BootImageName
    | MapSwap | Swapped | WaitedS | BeforeIds | Ids | IncomingBefore | Incoming | IncomingSeen | Loaders
    | Host | Ns | Stem(stem: DenyMap)
    | EnrolledAfter | Enrolled | Unenrolled | NetErrno | FileErrno | Pid | KernelFacts | Lsm | Btf
    | Other(name: string)

  datatype DenyMap = DenyAttr | DenyAttrDrops | DenyOverflow

  type Val = Value<Key>
  type Fields = map<Key, Val>

  const MAX_PERF_SECONDS: int := 900
  const PERF_SAMPLES: int := 100
  const CLAIM_SCOPE_2F: string := "kill after deny-attr map swap; ready-to-swap gap not covered (VAN-45)"
  const KILL_AFTER_MAP_SWAP: string := "after_map_swap"
  const KILL_NOT_KILLED: string := "not_killed"
  const IMAGE: string := "ubuntu-os-cloud/ubuntu-2404-lts-amd64"
  const BOOT_PREFIX: string := "ubuntu-2404-"
  const PID_MAX: int := 4194304
  const TWO_32: int := 4294967296
  const TWO_63: int := 9223372036854775808

  /** The three phases, in the order the host runs them. */
  datatype Mode = Performance | Tamper | DistroCheck

  const MODES: seq<Mode> := [Performance, Tamper, DistroCheck]

  function ModeText(m: Mode): string {
    match m
    case Performance => "2e-performance"
    case Tamper => "2f-tamper"
    case DistroCheck => "2g-distro"
  }

  function ModeOf(v: Val): Option<Mode> {
    if v == Str("2e-performance") then Some(Performance)
    else if v == Str("2f-tamper") then Some(Tamper)
    else if v == Str("2g-distro") then Some(DistroCheck)
    else None
  }

  lemma ModeTextReads(m: Mode)
    ensures ModeOf(Str(ModeText(m))) == Some(m)
  {
    assert "2f-tamper"[1] == 'f' && "2e-performance"[1] == 'e' && "2g-distro"[1] == 'g';
  }

  datatype Word = WPass | WFail | WHold | WNotGraded | WNotRun | WUnknown

  function WordOf(v: Val): Word {
    if v == Str("PASS") then WPass
    else if v == Str("FAIL") then WFail
    else if v == Str("HOLD") then WHold
    else if v == Str("NOT_GRADED") then WNotGraded
    else if v == Str("NOT_RUN") then WNotRun
    else WUnknown
  }

  // ----- the rule of each key -----

  predicate IsWord(v: Val) {
    v.Str? && AllChars(v.s, 1, 60, c => IsLower(c) || IsDigit(c) || c == '_')
  }

  predicate IsUpperWord(v: Val) {
    v.Str? && AllChars(v.s, 1, 40, c => IsUpper(c) || IsDigit(c) || c == '_')
  }

  predicate IsDistro(v: Val) {
    v.Str? && AllChars(v.s, 1, 80, c => IsAlnum(c) || c in " ._()/+-")
  }

  predicate IsKernel(v: Val) {
    v.Str? && AllChars(v.s, 1, 80, c => IsAlnum(c) || c in "._+-")
  }

  predicate IsLsmList(v: Val) {
    v.Str? && AllChars(v.s, 1, 80, c => IsLower(c) || IsDigit(c) || c == ',')
  }

  predicate IsBootImage(v: Val) {
    && v.Str? && BOOT_PREFIX <= v.s
    && AllChars(v.s[|BOOT_PREFIX|..], 1, 80, c => IsLower(c) || IsDigit(c) || c == '-')
  }

  /** Keys kept as they are when their value has the right type and range. */
  predicate Accepts(key: Key, v: Val) {
    match key
    case BatterySeen => v == Str("mismatch")
    case Reason => IsWord(v)
    case Classification => IsWord(v)
    case NotRunReason => IsWord(v)
    case Result => IsUpperWord(v)
    case HarnessError => v.Bool?
    case UninstallVerified => v.Bool?
    case RevokeFailOpen => v.Bool?
    case LoaderUp => v.Bool?
    case FileAttributed => v.Bool?
    case KernelBtf => v.Bool?
    case Attributed => v.Bool?
    case BootImageAllowed => v.Bool?
    case SealLane => v.Bool?
    case GuestRc => IntIn(v, -1, 255)
    case UninstallRc => IntIn(v, -1, 255)
    case PostKillPid => IntIn(v, 1, PID_MAX)
    case PostKillAnchor => IntIn(v, 1, TWO_63)
    case MaxRuntimeSeconds => IntIn(v, 0, 86400)
    case SampleCount => IntIn(v, 0, 100000)
    case HostCount => IntIn(v, 0, 64)
    case DeniedSamples => IntIn(v, 0, 100000)
    case RevokeErrno => IntIn(v, 0, 255)
    case ControlErrno => IntIn(v, 0, 255)
    case EnrolledNetErrno => IntIn(v, 0, 255)
    case EnrolledFileErrno => IntIn(v, 0, 255)
    case UnenrolledFileErrno => IntIn(v, 0, 255)
    case AllowlistedPrivateErrno => IntIn(v, 0, 255)
    case EnrolledPid => IntIn(v, 1, PID_MAX)
    case NetBlockAnchor => IntIn(v, 0, TWO_63)
    case RuntimeSeconds => NumberIn(v, 0, 86400)
    case RevokeConvergenceMs => NumberIn(v, 0, 3600000)
    case KillTiming => v == Str(KILL_AFTER_MAP_SWAP) || v == Str(KILL_NOT_KILLED)
    case ClaimScope => v == Str(CLAIM_SCOPE_2F)
    case Distro => IsDistro(v)
    case Kernel => IsKernel(v)
    case KernelLsm => IsLsmList(v)
    case Image => v == Str(IMAGE)
    case BootImageName => IsBootImage(v)
    case _ => false
  }

  /** A dropped key reads as None, and None is accepted under no key. */
  lemma NullRejected(key: Key)
    ensures !Accepts(key, Null)
  {
  }

  // ----- the map-swap record -----

  const INCOMING: string := "_incoming_"

  function PinPrefix(m: DenyMap): string {
    match m
    case DenyAttr => "/sys/fs/bpf/vantio_deny_attr_incoming_"
    case DenyAttrDrops => "/sys/fs/bpf/vantio_deny_attr_drops_incoming_"
    case DenyOverflow => "/sys/fs/bpf/vantio_deny_overflow_incoming_"
  }

  predicate IsPinOf(m: DenyMap, s: string) {
    PinPrefix(m) <= s && AllChars(s[|PinPrefix(m)|..], 1, 10, c => IsDigit(c))
  }

  predicate IsPin(v: Val) {
    v.Str? && (IsPinOf(DenyAttr, v.s) || IsPinOf(DenyAttrDrops, v.s) || IsPinOf(DenyOverflow, v.s))
  }

  function KeepIds(v: Val): Option<Val> {
    if !v.Dict? then None
    else Some(Dict(map key | key in v.fields && key.Stem? && IntIn(v.fields[key], 0, TWO_32) :: v.fields[key]))
  }

  function KeepPins(v: Val): Option<Val> {
    if v.List? && |v.items| <= 12 && forall i | 0 <= i < |v.items| :: IsPin(v.items[i]) then Some(v) else None
  }

  predicate IsLoader(v: Val) {
    v.Dict? && IntIn(Get(v.fields, Host), 1, PID_MAX) && IntIn(Get(v.fields, Ns), 1, PID_MAX)
  }

  function LoaderOnly(v: Val): Val
    requires IsLoader(v)
  {
    Dict(map[Host := Get(v.fields, Host), Ns := Get(v.fields, Ns)])
  }

  function KeepLoaders(v: Val): Option<Val> {
    if v.List? && |v.items| <= 8 && forall i | 0 <= i < |v.items| :: IsLoader(v.items[i])
    then Some(List(seq(|v.items|, i requires 0 <= i < |v.items| => LoaderOnly(v.items[i]))))
    else None
  }

  function KeepSwap(key: Key, v: Val): Option<Val> {
    match key
    case BeforeIds => KeepIds(v)
    case Ids => KeepIds(v)
    case IncomingBefore => KeepPins(v)
    case Incoming => KeepPins(v)
    case IncomingSeen => KeepPins(v)
    case Loaders => KeepLoaders(v)
    case Swapped => if v.Bool? then Some(v) else None
    case Reason => if IsWord(v) then Some(v) else None
    case WaitedS => if NumberIn(v, 0, 3600) then Some(v) else None
    case _ => None
  }

  function AllowMapSwap(v: Val): Fields {
    var d := AsDict(v);
    map key | key in d && KeepSwap(key, d[key]).Some? :: KeepSwap(key, d[key]).value
  }

  lemma KeepIdsStable(v: Val)
    requires v.Dict?
    ensures KeepIds(KeepIds(v).value) == KeepIds(v)
  {
    var kept := KeepIds(v).value.fields;
    assert KeepIds(Dict(kept)).value.fields == kept;
  }

  lemma KeepLoadersStable(v: Val)
    requires KeepLoaders(v).Some?
    ensures KeepLoaders(KeepLoaders(v).value) == KeepLoaders(v)
  {
    var kept := KeepLoaders(v).value;
    assert forall i | 0 <= i < |kept.items| :: IsLoader(kept.items[i]) && LoaderOnly(kept.items[i]) == kept.items[i];
    assert KeepLoaders(kept).value.items == kept.items;
  }

  lemma KeepSwapStable(key: Key, v: Val)
    requires KeepSwap(key, v).Some?
    ensures KeepSwap(key, KeepSwap(key, v).value) == KeepSwap(key, v)
  {
    match key {
      case BeforeIds => KeepIdsStable(v);
      case Ids => KeepIdsStable(v);
      case Loaders => KeepLoadersStable(v);
      case _ =>
    }
  }

  /** The map-swap record is a fixed point of its own sanitiser. */
  lemma AllowMapSwapIdempotent(v: Val)
    ensures AllowMapSwap(Dict(AllowMapSwap(v))) == AllowMapSwap(v)
  {
    var once := AllowMapSwap(v);
    forall key | key in once ensures KeepSwap(key, once[key]) == Some(once[key]) {
      KeepSwapStable(key, AsDict(v)[key]);
    }
  }

  // ----- the grade -----

  /** What follows the last occurrence of `sep`. */
  function AfterLast(s: string, sep: string): Option<string> {
    if s == "" then None
    else
      var later := AfterLast(s[1..], sep);
      if later.Some? then later
      else if sep <= s then Some(s[|sep|..]) else None
  }

  /** The pid a pin name ends in. */
  function PinPid(path: string): Option<int> {
    var tail := AfterLast(path, INCOMING);
    if tail.None? || tail.value == "" || !AllChars(tail.value, 0, |tail.value|, c => IsDigit(c)) || Decimal(tail.value) <= 0
    then None else Some(Decimal(tail.value))
  }

  predicate PositiveInt(v: Val) { v.Int? && v.n > 0 }

  predicate OwnedPin(v: Val, host: Val, ns: Val) {
    v.Str? && PinPid(v.s).Some? && (host == Int(PinPid(v.s).value) || ns == Int(PinPid(v.s).value))
  }

  /** All seen pins carry a pid of the one loader. */
  predicate SwapOwner(seen: Val, loaders: Val) {
    && seen.List? && loaders.List? && |loaders.items| == 1 && loaders.items[0].Dict? && seen.items != []
    && forall i | 0 <= i < |seen.items| ::
         OwnedPin(seen.items[i], Get(loaders.items[0].fields, Host), Get(loaders.items[0].fields, Ns))
  }

  predicate FreshId(was: Val, now: Val) {
    PositiveInt(now) && !(PositiveInt(was) && was == now)
  }

  /** Every map id is fresh and no incoming pin is left that was not there before. */
  predicate MapSwapped(beforeIds: Val, beforeIncoming: Val, ids: Val, incoming: Val) {
    && beforeIds.Dict? && ids.Dict? && beforeIncoming.List? && incoming.List?
    && (forall i | 0 <= i < |incoming.items| :: incoming.items[i] in beforeIncoming.items)
    && FreshId(Get(beforeIds.fields, Stem(DenyAttr)), Get(ids.fields, Stem(DenyAttr)))
    && FreshId(Get(beforeIds.fields, Stem(DenyAttrDrops)), Get(ids.fields, Stem(DenyAttrDrops)))
    && FreshId(Get(beforeIds.fields, Stem(DenyOverflow)), Get(ids.fields, Stem(DenyOverflow)))
  }

  predicate EgressDenied(errno: Val, anchor: Val) {
    || errno == Int(1) || errno == Int(13) || errno == Int(111)
    || (errno == Int(110) && PositiveInt(anchor))
  }

  /** Why the host's own numbers do not support a pass. */
  datatype Cause =
    | NoCause
    | RuntimeMissing | RuntimeBound | HostCountWrong | SampleCountWrong | DeniedSamplesWrong | RevokeNotConverged
    | MapSwapNotSeen | SwapOwnerMismatch | ControlNotAllowed | EgressNotDenied | FileNotDenied | PrivateBlocked
    | ProbePidMissing | PostKillRowMissing
    | ImageNotAllowed | SealNotLane | FieldsMissing | BpfLsmMissing | EnrolledNotDenied | UnenrolledNotAllowed
    | GuestFlagMismatch

  function Recompute2E(row: Fields): Cause {
    var runtime := Get(row, RuntimeSeconds);
    if !runtime.Int? && !runtime.Float? then RuntimeMissing
    else if !NumberIn(runtime, 0, MAX_PERF_SECONDS) then RuntimeBound
    else if Get(row, HostCount) != Int(1) then HostCountWrong
    else if Get(row, SampleCount) != Int(PERF_SAMPLES) then SampleCountWrong
    else if Get(row, DeniedSamples) != Get(row, SampleCount) then DeniedSamplesWrong
    else if Get(row, RevokeErrno) != Int(13) then RevokeNotConverged
    else if Get(row, RevokeFailOpen) != Bool(false) then GuestFlagMismatch
    else NoCause
  }

  predicate SwapSeen(swap: Fields) {
    MapSwapped(Get(swap, BeforeIds), Get(swap, IncomingBefore), Get(swap, Ids), Get(swap, Incoming))
  }

  predicate SwapOwned(swap: Fields) {
    SwapOwner(Get(swap, IncomingSeen), Get(swap, Loaders))
  }

  /** The tamper checks in their order, given what the map-swap record shows. */
  function Judge2F(seen: bool, owned: bool, swapped: Val, row: Fields): Cause {
    var pid := Get(row, EnrolledPid);
    if !seen then MapSwapNotSeen
    else if !owned then SwapOwnerMismatch
    else if swapped != Bool(true) then GuestFlagMismatch
    else if Get(row, ControlErrno) != Int(0) then ControlNotAllowed
    else if !EgressDenied(Get(row, EnrolledNetErrno), Get(row, NetBlockAnchor)) then EgressNotDenied
    else if Get(row, EnrolledFileErrno) != Int(13) then FileNotDenied
    else if Get(row, AllowlistedPrivateErrno) != Int(0) then PrivateBlocked
    else if !PositiveInt(pid) then ProbePidMissing
    else if Get(row, PostKillPid) != pid || !IntIn(Get(row, PostKillAnchor), 1, TWO_63) then PostKillRowMissing
    else if Get(row, LoaderUp) == Bool(true) || Get(row, FileAttributed) != Bool(true) then GuestFlagMismatch
    else NoCause
  }

  function Recompute2F(row: Fields): Cause {
    var swap := AsDict(Get(row, MapSwap));
    Judge2F(SwapSeen(swap), SwapOwned(swap), Get(swap, Swapped), row)
  }

  predicate Filled(v: Val) { v.Str? && v.s != "" }

  predicate BpfListed(v: Val) { v.Str? && "bpf" in SplitOn(v.s, ',') }

  predicate IsLabImage(v: Val) { v == Str(IMAGE) }

  predicate IsRecorded(v: Val) { v == Str("RECORDED") }

  function Recompute2G(row: Fields): Cause {
    if !IsLabImage(Get(row, Image)) || Get(row, BootImageAllowed) != Bool(true) then ImageNotAllowed
    else if Get(row, SealLane) != Bool(true) then SealNotLane
    else if !Filled(Get(row, Distro)) || !Filled(Get(row, Kernel)) || !Filled(Get(row, KernelLsm)) then FieldsMissing
    else if !BpfListed(Get(row, KernelLsm)) then BpfLsmMissing
    else if !PositiveInt(Get(row, EnrolledPid)) then ProbePidMissing
    else if Get(row, EnrolledFileErrno) != Int(13) then EnrolledNotDenied
    else if Get(row, UnenrolledFileErrno) != Int(0) then UnenrolledNotAllowed
    else if !IsRecorded(Get(row, Result)) || Get(row, KernelBtf) != Bool(true) then GuestFlagMismatch
    else NoCause
  }

  function Recompute(m: Mode, row: Fields): Cause {
    match m
    case Performance => Recompute2E(row)
    case Tamper => Recompute2F(row)
    case DistroCheck => Recompute2G(row)
  }

  datatype Verdict =
    | BatteryPass
    | BatteryMismatch
    | NotRun(reason: string)
    | HarnessBroke
    | NotGraded | Held | Failed | ResultUnknown
    | ClaimFieldsMissing
    | HostCause(cause: Cause)
    | UninstallNotVerified

  /** The claim fields a tamper row must carry word for word. */
  predicate ClaimFilled(row: Fields) {
    Get(row, KillTiming) == Str(KILL_AFTER_MAP_SWAP) && Get(row, ClaimScope) == Str(CLAIM_SCOPE_2F)
  }

  /** The order of the grade: the body's own word first, then the host's numbers, then the uninstall. */
  function Judge(mode: Option<Mode>, word: Word, reason: Val, harness: Val, claim: bool, cause: Cause, verified: Val): Verdict {
    if mode == None then BatteryMismatch
    else if word == WNotRun then NotRun(if IsWord(reason) then reason.s else "not_run")
    else if harness == Bool(true) then HarnessBroke
    else if word == WNotGraded then NotGraded
    else if word == WHold then Held
    else if word == WFail then Failed
    else if word == WUnknown then ResultUnknown
    else if mode.value == Tamper && !claim then ClaimFieldsMissing
    else if cause != NoCause then HostCause(cause)
    else if verified != Bool(true) then UninstallNotVerified
    else BatteryPass
  }

  function CauseOf(mode: Option<Mode>, row: Fields): Cause {
    if mode == None then NoCause else Recompute(mode.value, row)
  }

  function PhaseVerdict(row: Fields): Verdict {
    var mode := ModeOf(Get(row, Battery));
    Judge(mode, WordOf(Get(row, HostResult)), Get(row, NotRunReason), Get(row, HarnessError), ClaimFilled(row),
          CauseOf(mode, row), Get(row, UninstallVerified))
  }

  // ----- the sanitiser -----

  /** A kept row together with the grade computed from it. */
  datatype Graded = Graded(kept: Fields, verdict: Verdict)

  datatype Allowed = Row(row: Graded) | Refused | TypeError

  function KeptResult(v: Val): Val {
    if WordOf(v) == WUnknown then Str("") else v
  }

  predicate LockdownWords(text: string) {
    var words := SplitOn(text, ' ');
    && 1 <= |words| <= 4
    && forall i | 0 <= i < |words| ::
         words[i] in {"none", "[none]", "integrity", "[integrity]", "confidentiality", "[confidentiality]"}
  }

  function LockdownText(v: Val): string {
    if v.Str? && LockdownWords(Strip(v.s)) then Strip(v.s) else ""
  }

  /** The keys that are written anew rather than copied. */
  function Written(battery: Val, result: Val, swap: Fields, lockdown: string): Fields {
    var always := map[Battery := battery, HostResult := result];
    var withSwap := if swap != map[] then always[MapSwap := Dict(swap)] else always;
    if lockdown != "" then withSwap[Lockdown := Str(lockdown)] else withSwap
  }

  function SwapPart(item: Fields): Fields {
    if ModeOf(Get(item, Battery)) == Some(Tamper) then AllowMapSwap(Get(item, MapSwap)) else map[]
  }

  function Rewritten(item: Fields): Fields {
    Written(Get(item, Battery), KeptResult(Get(item, HostResult)), SwapPart(item), LockdownText(Get(item, Lockdown)))
  }

  function Kept(item: Fields): Fields {
    Filter(item, Accepts) + Rewritten(item)
  }

  function Grade(kept: Fields): Verdict {
    if Get(kept, BatterySeen) == Str("mismatch") then BatteryMismatch else PhaseVerdict(kept)
  }

  function Allow(v: Val): Allowed {
    if !v.Dict? || ModeOf(Get(v.fields, Battery)) == None then Refused
    else if !Hashable(Get(v.fields, HostResult)) then TypeError
    else Row(Graded(Kept(v.fields), Grade(Kept(v.fields))))
  }

  /** The sanitiser as the source writes it: it fills `kept` key by key, then grades it. */
  method AllowPhaseRow(v: Val) returns (r: Allowed)
    ensures r == Allow(v)
  {
    if !v.Dict? || ModeOf(Get(v.fields, Battery)) == None {
      return Refused;
    }
    var item := v.fields;
    if !Hashable(Get(item, HostResult)) {
      return TypeError;
    }
    var kept := FilterLoop(item, Accepts);
    kept := AddWritten(kept, Get(item, Battery), KeptResult(Get(item, HostResult)), SwapPart(item), LockdownText(Get(item, Lockdown)));
    return Row(Graded(kept, Grade(kept)));
  }

  method AddWritten(typed: Fields, battery: Val, result: Val, swap: Fields, lockdown: string) returns (kept: Fields)
    ensures kept == typed + Written(battery, result, swap, lockdown)
  {
    kept := typed[Battery := battery];
    kept := kept[HostResult := result];
    if swap != map[] {
      kept := kept[MapSwap := Dict(swap)];
    }
    if lockdown != "" {
      kept := kept[Lockdown := Str(lockdown)];
    }
  }

  function GradeKeys(g: Graded, reason: Verdict -> string): Fields {
    map[Pass := Bool(g.verdict == BatteryPass), VerdictReason := Str(reason(g.verdict))]
  }

  /** The dict a graded row is stored as: the kept facts, the pass flag and the reason. */
  function Stored(g: Graded, reason: Verdict -> string): Fields {
    g.kept + GradeKeys(g, reason)
  }

  // ----- sanitising is a projection -----

  lemma KeptResultStable(v: Val)
    ensures KeptResult(KeptResult(v)) == KeptResult(v)
    ensures Hashable(KeptResult(v))
  {
    assert |""| != |"PASS"|;
  }

  lemma LockdownStable(v: Val)
    ensures LockdownText(Str(LockdownText(v))) == LockdownText(v)
    ensures LockdownText(Null) == ""
  {
    if v.Str? && LockdownText(v) != "" {
      StripIdempotent(v.s);
    } else {
      assert Strip("") == "";
    }
  }

  const REWRITTEN_KEYS: set<Key> := {Battery, HostResult, MapSwap, Lockdown, Pass, VerdictReason}

  lemma RewrittenNeverAccepted()
    ensures NeverAccepted(Accepts, REWRITTEN_KEYS)
  {
  }

  lemma WrittenReads(typed: Fields, battery: Val, result: Val, swap: Fields, lockdown: string, graded: Fields)
    requires forall k | k in REWRITTEN_KEYS :: k !in typed
    requires graded.Keys == {Pass, VerdictReason}
    ensures var stored := typed + (Written(battery, result, swap, lockdown) + graded);
            && Get(stored, Battery) == battery && Get(stored, HostResult) == result
            && Get(stored, MapSwap) == (if swap != map[] then Dict(swap) else Null)
            && Get(stored, Lockdown) == (if lockdown != "" then Str(lockdown) else Null)
  {
    assert Lockdown !in typed && MapSwap !in typed;
  }

  lemma EmptySwap()
    ensures AllowMapSwap(Null) == map[]
  {
  }

  lemma SwapStable(battery: Val, v: Val, w: Val)
    requires var swap := if ModeOf(battery) == Some(Tamper) then AllowMapSwap(v) else map[];
             w == if swap != map[] then Dict(swap) else Null
    ensures ModeOf(battery) == Some(Tamper) ==> AllowMapSwap(w) == AllowMapSwap(v)
  {
    AllowMapSwapIdempotent(v);
    EmptySwap();
  }

  /** The stored form of a text that may be empty, and of a record that may be. */
  function LockdownKept(text: string): Val { if text != "" then Str(text) else Null }

  function SwapKept(swap: Fields): Val { if swap != map[] then Dict(swap) else Null }

  lemma LockdownAgain(v: Val)
    ensures LockdownText(LockdownKept(LockdownText(v))) == LockdownText(v)
  {
    LockdownStable(v);
  }

  lemma SwapPartAgain(item: Fields, stored: Fields)
    requires Get(stored, Battery) == Get(item, Battery) && Get(stored, MapSwap) == SwapKept(SwapPart(item))
    ensures SwapPart(stored) == SwapPart(item)
  {
    SwapStable(Get(item, Battery), Get(item, MapSwap), Get(stored, MapSwap));
  }

  lemma RewrittenStable(item: Fields, stored: Fields)
    requires Get(stored, Battery) == Get(item, Battery)
    requires Get(stored, HostResult) == KeptResult(Get(item, HostResult))
    requires Get(stored, MapSwap) == SwapKept(SwapPart(item))
    requires Get(stored, Lockdown) == LockdownKept(LockdownText(Get(item, Lockdown)))
    ensures Rewritten(stored) == Rewritten(item)
  {
    KeptResultStable(Get(item, HostResult));
    LockdownAgain(Get(item, Lockdown));
    SwapPartAgain(item, stored);
  }

  /** Sanitising an already sanitised row gives the same row, grade included. */
  lemma AllowIdempotent(v: Val, reason: Verdict -> string)
    requires Allow(v).Row?
    ensures Allow(Dict(Stored(Allow(v).row, reason))) == Allow(v)
  {
    var item := v.fields;
    var g := Allow(v).row;
    var stored := Stored(g, reason);
    KeptAgain(item, GradeKeys(g, reason), stored);
    KeptResultStable(Get(item, HostResult));
  }

  lemma KeptAgain(item: Fields, graded: Fields, stored: Fields)
    requires graded.Keys == {Pass, VerdictReason} && stored == Kept(item) + graded
    ensures Kept(stored) == Kept(item)
    ensures Get(stored, Battery) == Get(item, Battery)
    ensures Get(stored, HostResult) == KeptResult(Get(item, HostResult))
  {
    var typed, written := Filter(item, Accepts), Rewritten(item);
    Regroup(typed, written, graded);
    TypedAgain(item, written, graded);
    StoredReads(item, graded);
    RewrittenStable(item, stored);
  }

  lemma Regroup(a: Fields, b: Fields, c: Fields)
    ensures a + b + c == a + (b + c)
  {
  }

  lemma TypedAgain(item: Fields, written: Fields, graded: Fields)
    requires graded.Keys == {Pass, VerdictReason} && written == Rewritten(item)
    ensures Filter(Filter(item, Accepts) + (written + graded), Accepts) == Filter(item, Accepts)
  {
    WrittenKeys(Get(item, Battery), KeptResult(Get(item, HostResult)), SwapPart(item), LockdownText(Get(item, Lockdown)));
    AddedKeys(written, graded);
    RewrittenNeverAccepted();
    FilterAgain(item, Accepts, written + graded, REWRITTEN_KEYS);
  }

  lemma AddedKeys(written: Fields, graded: Fields)
    requires graded.Keys == {Pass, VerdictReason} && written.Keys <= REWRITTEN_KEYS
    ensures (written + graded).Keys + REWRITTEN_KEYS == REWRITTEN_KEYS
  {
  }

  lemma StoredReads(item: Fields, graded: Fields)
    requires graded.Keys == {Pass, VerdictReason}
    ensures var stored := Filter(item, Accepts) + (Rewritten(item) + graded);
            && Get(stored, Battery) == Get(item, Battery) && Get(stored, HostResult) == KeptResult(Get(item, HostResult))
            && Get(stored, MapSwap) == SwapKept(SwapPart(item))
            && Get(stored, Lockdown) == LockdownKept(LockdownText(Get(item, Lockdown)))
  {
    TypedHasNone(item);
    WrittenReads(Filter(item, Accepts), Get(item, Battery), KeptResult(Get(item, HostResult)), SwapPart(item),
                 LockdownText(Get(item, Lockdown)), graded);
  }

  lemma TypedHasNone(item: Fields)
    ensures forall k | k in REWRITTEN_KEYS :: k !in Filter(item, Accepts)
  {
    RewrittenNeverAccepted();
  }

  /** Reading a copied key of a kept row. */
  lemma KeptReads(item: Fields, key: Key)
    requires key !in REWRITTEN_KEYS
    ensures Get(Kept(item), key) == if Accepts(key, Get(item, key)) then Get(item, key) else Null
    ensures Get(Kept(item), Battery) == Get(item, Battery)
    ensures Get(Kept(item), HostResult) == KeptResult(Get(item, HostResult))
  {
    NullRejected(key);
    NullRejected(Battery);
    NullRejected(HostResult);
    var written := Rewritten(item);
    WrittenKeys(Get(item, Battery), KeptResult(Get(item, HostResult)), SwapPart(item), LockdownText(Get(item, Lockdown)));
    FilterReads(item, Accepts, written, key);
    FilterReads(item, Accepts, written, Battery);
    FilterReads(item, Accepts, written, HostResult);
  }

  lemma WrittenKeys(battery: Val, result: Val, swap: Fields, lockdown: string)
    ensures var w := Written(battery, result, swap, lockdown);
            w.Keys <= REWRITTEN_KEYS && Get(w, Battery) == battery && Get(w, HostResult) == result && Battery in w && HostResult in w
  {
  }

  predicate Passes(r: Allowed) {
    r.Row? && r.row.verdict == BatteryPass
  }

  // ----- what a pass rests on -----

  predicate Guest2E(row: Fields) { Get(row, RevokeFailOpen) == Bool(false) }

  predicate Guest2F(row: Fields) {
    && Get(AsDict(Get(row, MapSwap)), Swapped) == Bool(true)
    && Get(row, LoaderUp) != Bool(true) && Get(row, FileAttributed) == Bool(true)
  }

  predicate Guest2G(row: Fields) { IsRecorded(Get(row, Result)) && Get(row, KernelBtf) == Bool(true) }

  /** The guest's own words raise no objection. */
  predicate GuestAgrees(m: Mode, row: Fields) {
    && Get(row, HarnessError) != Bool(true)
    && match m
       case Performance => Guest2E(row)
       case Tamper => Guest2F(row)
       case DistroCheck => Guest2G(row)
  }

  predicate GuestKey(key: Key) {
    match key
    case HarnessError => true
    case RevokeFailOpen => true
    case LoaderUp => true
    case FileAttributed => true
    case KernelBtf => true
    case Result => true
    case MapSwap => true
    case _ => false
  }

  /** The two rows hold the same facts apart from what the guest says about itself. */
  ghost predicate SameHostFacts(a: Fields, b: Fields) {
    && (forall key | !GuestKey(key) :: Get(a, key) == Get(b, key))
    && (forall key | key != Swapped :: Get(AsDict(Get(a, MapSwap)), key) == Get(AsDict(Get(b, MapSwap)), key))
  }

  lemma Veto2E(a: Fields, b: Fields)
    requires SameHostFacts(a, b) && Recompute2E(a) == NoCause
    ensures Recompute2E(b) == NoCause <==> Guest2E(b)
  {
  }

  lemma SwapFactsAgree(a: Fields, b: Fields)
    requires forall key | key != Swapped :: Get(a, key) == Get(b, key)
    ensures SwapSeen(a) == SwapSeen(b) && SwapOwned(a) == SwapOwned(b)
  {
  }

  lemma JudgeVeto(a: Fields, b: Fields, seen: bool, owned: bool, sa: Val, sb: Val)
    requires SameHostFacts(a, b) && Judge2F(seen, owned, sa, a) == NoCause
    ensures Judge2F(seen, owned, sb, b) == NoCause <==>
            sb == Bool(true) && Get(b, LoaderUp) != Bool(true) && Get(b, FileAttributed) == Bool(true)
  {
  }

  lemma Veto2F(a: Fields, b: Fields)
    requires SameHostFacts(a, b) && Recompute2F(a) == NoCause
    ensures Recompute2F(b) == NoCause <==> Guest2F(b)
  {
    var x, y := AsDict(Get(a, MapSwap)), AsDict(Get(b, MapSwap));
    SwapFactsAgree(x, y);
    JudgeVeto(a, b, SwapSeen(x), SwapOwned(x), Get(x, Swapped), Get(y, Swapped));
  }

  lemma Veto2G(a: Fields, b: Fields)
    requires SameHostFacts(a, b) && Recompute2G(a) == NoCause
    ensures Recompute2G(b) == NoCause <==> Guest2G(b)
  {
  }

  /**
   Guest booleans only veto. Given a row that passes, a row with the same host facts passes
   too, exactly unless the guest objects in it.
   */
  lemma GuestFlagsOnlyVeto(a: Fields, b: Fields)
    requires SameHostFacts(a, b) && PhaseVerdict(a) == BatteryPass
    ensures ModeOf(Get(a, Battery)).Some?
    ensures PhaseVerdict(b) == BatteryPass <==> GuestAgrees(ModeOf(Get(a, Battery)).value, b)
  {
    var mode, word := ModeOf(Get(a, Battery)), WordOf(Get(a, HostResult));
    SameGradedFacts(a, b);
    JudgePass(mode, word, Get(a, NotRunReason), Get(a, HarnessError), ClaimFilled(a), CauseOf(mode, a), Get(a, UninstallVerified));
    JudgePass(mode, word, Get(b, NotRunReason), Get(b, HarnessError), ClaimFilled(a), CauseOf(mode, b), Get(b, UninstallVerified));
    CauseVeto(mode.value, a, b);
  }

  lemma SameGradedFacts(a: Fields, b: Fields)
    requires SameHostFacts(a, b)
    ensures Get(a, Battery) == Get(b, Battery) && Get(a, HostResult) == Get(b, HostResult)
    ensures Get(a, UninstallVerified) == Get(b, UninstallVerified)
    ensures ClaimFilled(a) == ClaimFilled(b)
  {
  }

  lemma JudgePass(mode: Option<Mode>, word: Word, reason: Val, harness: Val, claim: bool, cause: Cause, verified: Val)
    ensures Judge(mode, word, reason, harness, claim, cause, verified) == BatteryPass <==>
            && mode.Some? && word == WPass && harness != Bool(true) && (mode.value == Tamper ==> claim)
            && cause == NoCause && verified == Bool(true)
  {
  }

  lemma CauseVeto(m: Mode, a: Fields, b: Fields)
    requires SameHostFacts(a, b) && Recompute(m, a) == NoCause
    ensures Recompute(m, b) == NoCause && Get(b, HarnessError) != Bool(true) <==> GuestAgrees(m, b)
  {
    match m {
      case Performance => Veto2E(a, b);
      case Tamper => Veto2F(a, b);
      case DistroCheck => Veto2G(a, b);
    }
  }

  /**
   A tamper pass names its evidence: a fresh id for each of the three maps, no pin left that
   was not there before, every seen pin owned by the one loader, and a post-kill row for the probe.
   */
  lemma TamperPassEvidence(row: Fields) returns (seen: seq<Val>, host: Val, ns: Val, pid: int)
    requires PhaseVerdict(row) == BatteryPass && ModeOf(Get(row, Battery)) == Some(Tamper)
    ensures var swap := AsDict(Get(row, MapSwap));
            && (forall m :: FreshId(Get(AsDict(Get(swap, BeforeIds)), Stem(m)), Get(AsDict(Get(swap, Ids)), Stem(m))))
            && (forall p | p in Get(swap, Incoming).items :: p in Get(swap, IncomingBefore).items)
            && Get(swap, IncomingSeen) == List(seen) && seen != []
            && (forall p | p in seen :: OwnedPin(p, host, ns))
            && |Get(swap, Loaders).items| == 1
            && Get(AsDict(Get(swap, Loaders).items[0]), Host) == host
            && Get(AsDict(Get(swap, Loaders).items[0]), Ns) == ns
    ensures pid > 0 && Get(row, EnrolledPid) == Int(pid) && Get(row, PostKillPid) == Int(pid)
    ensures Get(row, UninstallVerified) == Bool(true)
  {
    var swap := AsDict(Get(row, MapSwap));
    seen := Get(swap, IncomingSeen).items;
    host, ns := Get(AsDict(Get(swap, Loaders).items[0]), Host), Get(AsDict(Get(swap, Loaders).items[0]), Ns);
    pid := Get(row, EnrolledPid).n;
    forall m ensures FreshId(Get(AsDict(Get(swap, BeforeIds)), Stem(m)), Get(AsDict(Get(swap, Ids)), Stem(m))) {
      match m {
        case DenyAttr =>
        case DenyAttrDrops =>
        case DenyOverflow =>
      }
    }
  }

  /** A performance pass is exactly this: the guest's word, no harness error, and the host's own numbers. */
  lemma PerformancePassIff(row: Fields)
    requires ModeOf(Get(row, Battery)) == Some(Performance)
    ensures PhaseVerdict(row) == BatteryPass <==>
            && Get(row, HostResult) == Str("PASS") && Get(row, HarnessError) != Bool(true)
            && NumberIn(Get(row, RuntimeSeconds), 0, 900) && Get(row, HostCount) == Int(1)
            && Get(row, SampleCount) == Int(100) && Get(row, DeniedSamples) == Int(100)
            && Get(row, RevokeErrno) == Int(13) && Get(row, RevokeFailOpen) == Bool(false)
            && Get(row, UninstallVerified) == Bool(true)
  {
    JudgePass(Some(Performance), WordOf(Get(row, HostResult)), Get(row, NotRunReason), Get(row, HarnessError), ClaimFilled(row),
              Recompute2E(row), Get(row, UninstallVerified));
  }

  /** And a distro pass. */
  lemma DistroPassIff(row: Fields)
    requires ModeOf(Get(row, Battery)) == Some(DistroCheck)
    ensures PhaseVerdict(row) == BatteryPass <==>
            && Get(row, HostResult) == Str("PASS") && Get(row, HarnessError) != Bool(true)
            && Get(row, Image) == Str("ubuntu-os-cloud/ubuntu-2404-lts-amd64") && Get(row, BootImageAllowed) == Bool(true) && Get(row, SealLane) == Bool(true)
            && Get(row, Distro).Str? && Get(row, Distro).s != "" && Get(row, Kernel).Str? && Get(row, Kernel).s != ""
            && Get(row, KernelLsm).Str? && HasPiece(Get(row, KernelLsm).s, ',', "bpf")
            && Get(row, EnrolledPid).Int? && Get(row, EnrolledPid).n > 0 && Get(row, EnrolledFileErrno) == Int(13) && Get(row, UnenrolledFileErrno) == Int(0)
            && Get(row, Result) == Str("RECORDED") && Get(row, KernelBtf) == Bool(true)
            && Get(row, UninstallVerified) == Bool(true)
  {
    JudgePass(Some(DistroCheck), WordOf(Get(row, HostResult)), Get(row, NotRunReason), Get(row, HarnessError), ClaimFilled(row),
              Recompute2G(row), Get(row, UninstallVerified));
    EmptyListsNothing(Get(row, KernelLsm));
    if Get(row, KernelLsm).Str? {
      SplitIff(Get(row, KernelLsm).s, ',', "bpf");
    }
  }

  lemma EmptyListsNothing(v: Val)
    ensures BpfListed(v) ==> Filled(v)
  {
    if v.Str? && v.s == "" {
      assert SplitOn("", ',') == [""];
      assert |"bpf"| == 3;
    }
  }

  /** A positive id that is not the one from before. */
  ghost predicate NewId(was: Val, now: Val) { now.Int? && now.n > 0 && was != now }

  /** The text ends in "_incoming_" and the digits of a pid. */
  ghost predicate EndsInPid(s: string, pid: int) {
    exists k: nat :: PidAt(s, k, pid)
  }

  ghost predicate PidAt(s: string, k: nat, pid: int) {
    && k + 10 < |s| && s[k..k + 10] == "_incoming_" && (forall c | c in s[k + 10..] :: c in DIGITS)
    && Decimal(s[k + 10..]) == pid && pid > 0
  }

  /** A pin whose name ends in the loader's pid, as the host or its namespace counts. */
  ghost predicate PinOf(v: Val, host: Val, ns: Val) {
    v.Str? && exists pid :: EndsInPid(v.s, pid) && (host == Int(pid) || ns == Int(pid))
  }

  lemma NewIdIff(was: Val, now: Val)
    ensures FreshId(was, now) <==> NewId(was, now)
  {
  }

  lemma OccursLater(s: string, sep: string, j: nat)
    requires s != ""
    ensures OccursAt(s[1..], sep, j) <==> OccursAt(s, sep, j + 1)
  {
    var t := s[1..];
    assert j + |sep| <= |t| ==> t[j..j + |sep|] == s[j + 1..j + 1 + |sep|];
  }

  /** The last occurrence of the separator is the one the text is cut at. */
  lemma {:induction false} AfterLastIs(s: string, sep: string, k: nat)
    requires sep != "" && OccursAt(s, sep, k) && forall j: nat | k < j :: !OccursAt(s, sep, j)
    ensures AfterLast(s, sep) == Some(s[k + |sep|..])
    decreases k
  {
    var t := s[1..];
    if k > 0 {
      OccursLater(s, sep, k - 1);
      forall j: nat | k - 1 < j ensures !OccursAt(t, sep, j) {
        OccursLater(s, sep, j);
      }
      AfterLastIs(t, sep, k - 1);
      assert t[k - 1 + |sep|..] == s[k + |sep|..];
    } else {
      forall j: nat ensures !OccursAt(t, sep, j) {
        OccursLater(s, sep, j);
      }
      NoLast(t, sep);
      assert s[0..|sep|] == s[..|sep|];
    }
  }

  lemma {:induction false} NoLast(s: string, sep: string)
    requires sep != "" && forall j: nat :: !OccursAt(s, sep, j)
    ensures AfterLast(s, sep) == None
  {
    if s != "" {
      forall j: nat ensures !OccursAt(s[1..], sep, j) {
        OccursLater(s, sep, j);
      }
      NoLast(s[1..], sep);
      assert |sep| <= |s| ==> s[0..0 + |sep|] == s[..|sep|];
      assert !OccursAt(s, sep, 0);
    }
  }

  lemma {:induction false} AfterLastAt(s: string, sep: string) returns (k: nat)
    requires AfterLast(s, sep).Some?
    ensures OccursAt(s, sep, k) && AfterLast(s, sep).value == s[k + |sep|..]
  {
    if AfterLast(s[1..], sep).Some? {
      var j := AfterLastAt(s[1..], sep);
      k := j + 1;
      OccursLater(s, sep, j);
      assert s[1..][j + |sep|..] == s[k + |sep|..];
    } else {
      k := 0;
      assert s[0..|sep|] == sep;
    }
  }

  lemma DigitsAre(s: string)
    ensures AllChars(s, 0, |s|, c => IsDigit(c)) <==> forall c | c in s :: c in DIGITS
  {
    forall i | 0 <= i < |s| ensures IsDigit(s[i]) <==> s[i] in DIGITS {
      DigitIff(s[i]);
    }
  }

  lemma PinPidIff(s: string, pid: int)
    ensures PinPid(s) == Some(pid) <==> EndsInPid(s, pid)
  {
    if PinPid(s) == Some(pid) {
      PidFound(s, pid);
    }
    if k: nat :| PidAt(s, k, pid) {
      LastIsIt(s, k);
      AfterLastIs(s, INCOMING, k);
      DigitsAre(s[k + 10..]);
    }
  }

  lemma PidFound(s: string, pid: int)
    requires PinPid(s) == Some(pid)
    ensures EndsInPid(s, pid)
  {
    var k := AfterLastAt(s, INCOMING);
    DigitsAre(s[k + 10..]);
    assert PidAt(s, k, pid);
  }

  lemma LastIsIt(s: string, k: nat)
    requires k + 10 < |s| && s[k..k + 10] == "_incoming_" && forall c | c in s[k + 10..] :: c in DIGITS
    ensures OccursAt(s, INCOMING, k) && forall j: nat | k < j :: !OccursAt(s, INCOMING, j)
  {
    forall j: nat | k < j ensures !OccursAt(s, INCOMING, j) {
      if j + 10 <= |s| {
        var last := s[j + 9];
        assert s[j..j + 10][9] == last && last == s[k + 10..][j - k - 1];
        assert last in s[k + 10..];
        DigitIff('_');
      }
    }
  }

  lemma OwnedIff(v: Val, host: Val, ns: Val)
    ensures OwnedPin(v, host, ns) <==> PinOf(v, host, ns)
  {
    if v.Str? {
      forall pid ensures PinPid(v.s) == Some(pid) <==> EndsInPid(v.s, pid) {
        PinPidIff(v.s, pid);
      }
    }
  }

  /** What a map-swap record has to show. */
  ghost predicate SwapEvidence(swap: Fields) {
    && Get(swap, BeforeIds).Dict? && Get(swap, Ids).Dict? && Get(swap, IncomingBefore).List? && Get(swap, Incoming).List?
    && (forall m: DenyMap :: NewId(Get(Get(swap, BeforeIds).fields, Stem(m)), Get(Get(swap, Ids).fields, Stem(m))))
    && (forall p | p in Get(swap, Incoming).items :: p in Get(swap, IncomingBefore).items)
    && Get(swap, IncomingSeen).List? && Get(swap, IncomingSeen).items != []
    && Get(swap, Loaders).List? && |Get(swap, Loaders).items| == 1 && Get(swap, Loaders).items[0].Dict?
    && (var loader := Get(swap, Loaders).items[0].fields;
        forall p | p in Get(swap, IncomingSeen).items :: PinOf(p, Get(loader, Host), Get(loader, Ns)))
  }

  lemma SwapEvidenceIff(swap: Fields)
    ensures SwapEvidence(swap) <==> SwapSeen(swap) && SwapOwned(swap)
  {
    forall was, now ensures FreshId(was, now) <==> NewId(was, now) {
      NewIdIff(was, now);
    }
    forall v, host, ns ensures OwnedPin(v, host, ns) <==> PinOf(v, host, ns) {
      OwnedIff(v, host, ns);
    }
    if SwapSeen(swap) && SwapOwned(swap) {
      forall m: DenyMap ensures FreshId(Get(Get(swap, BeforeIds).fields, Stem(m)), Get(Get(swap, Ids).fields, Stem(m))) {
        match m {
          case DenyAttr =>
          case DenyAttrDrops =>
          case DenyOverflow =>
        }
      }
    }
  }

  /** And a tamper pass: the claim word for word, the swap record, the errnos, and the probe's post-kill row. */
  lemma TamperPassIff(row: Fields)
    requires ModeOf(Get(row, Battery)) == Some(Tamper)
    ensures PhaseVerdict(row) == BatteryPass <==>
            && Get(row, HostResult) == Str("PASS") && Get(row, HarnessError) != Bool(true)
            && Get(row, KillTiming) == Str("after_map_swap")
            && Get(row, ClaimScope) == Str("kill after deny-attr map swap; ready-to-swap gap not covered (VAN-45)")
            && SwapEvidence(AsDict(Get(row, MapSwap))) && Get(AsDict(Get(row, MapSwap)), Swapped) == Bool(true)
            && Get(row, ControlErrno) == Int(0) && Get(row, EnrolledFileErrno) == Int(13) && Get(row, AllowlistedPrivateErrno) == Int(0)
            && Get(row, EnrolledNetErrno).Int?
            && (Get(row, EnrolledNetErrno).n in {1, 13, 111}
                || (Get(row, EnrolledNetErrno).n == 110 && Get(row, NetBlockAnchor).Int? && Get(row, NetBlockAnchor).n > 0))
            && Get(row, EnrolledPid).Int? && Get(row, EnrolledPid).n > 0 && Get(row, PostKillPid) == Get(row, EnrolledPid)
            && Get(row, PostKillAnchor).Int? && 1 <= Get(row, PostKillAnchor).n <= 9223372036854775808
            && Get(row, LoaderUp) != Bool(true) && Get(row, FileAttributed) == Bool(true)
            && Get(row, UninstallVerified) == Bool(true)
  {
    JudgePass(Some(Tamper), WordOf(Get(row, HostResult)), Get(row, NotRunReason), Get(row, HarnessError), ClaimFilled(row),
              Recompute2F(row), Get(row, UninstallVerified));
    PassWord(Get(row, HostResult));
    ClaimIs(row);
    TamperClear(row);
  }

  lemma PassWord(v: Val)
    ensures WordOf(v) == WPass <==> v == Str("PASS")
  {
  }

  lemma ClaimIs(row: Fields)
    ensures ClaimFilled(row) <==>
            && Get(row, KillTiming) == Str("after_map_swap")
            && Get(row, ClaimScope) == Str("kill after deny-attr map swap; ready-to-swap gap not covered (VAN-45)")
  {
  }

  /** The host's own facts raise nothing against a tamper row. */
  lemma TamperClear(row: Fields)
    ensures Recompute2F(row) == NoCause <==>
            && SwapEvidence(AsDict(Get(row, MapSwap))) && Get(AsDict(Get(row, MapSwap)), Swapped) == Bool(true)
            && Get(row, ControlErrno) == Int(0) && Get(row, EnrolledFileErrno) == Int(13) && Get(row, AllowlistedPrivateErrno) == Int(0)
            && Get(row, EnrolledNetErrno).Int?
            && (Get(row, EnrolledNetErrno).n in {1, 13, 111}
                || (Get(row, EnrolledNetErrno).n == 110 && Get(row, NetBlockAnchor).Int? && Get(row, NetBlockAnchor).n > 0))
            && Get(row, EnrolledPid).Int? && Get(row, EnrolledPid).n > 0 && Get(row, PostKillPid) == Get(row, EnrolledPid)
            && Get(row, PostKillAnchor).Int? && 1 <= Get(row, PostKillAnchor).n <= 9223372036854775808
            && Get(row, LoaderUp) != Bool(true) && Get(row, FileAttributed) == Bool(true)
  {
    SwapEvidenceIff(AsDict(Get(row, MapSwap)));
  }

  // ----- all three phases -----

  /** All three phases, in order, each a recomputed pass. */
  ghost predicate PhasesPass(rows: seq<Val>) {
    |rows| == 3 && forall i | 0 <= i < 3 :: PassesAs(rows[i], MODES[i])
  }

  predicate PassesAs(v: Val, m: Mode) {
    Passes(Allow(v)) && ModeOf(Get(Allow(v).row.kept, Battery)) == Some(m)
  }

  /** What the evidence record stores: the first three entries, sanitised, refused ones dropped. */
  function Sanitised(rows: seq<Val>, reason: Verdict -> string): seq<Val> {
    KeepSome(rows, v => StoredRow(v, reason))
  }

  function StoredRow(v: Val, reason: Verdict -> string): Option<Val> {
    if Allow(v).Row? then Some(Dict(Stored(Allow(v).row, reason))) else None
  }

  function FirstThree(rows: seq<Val>): seq<Val> { if |rows| > 3 then rows[..3] else rows }

  lemma StoredPasses(v: Val, reason: Verdict -> string, m: Mode)
    requires Allow(v).Row?
    ensures PassesAs(Dict(Stored(Allow(v).row, reason)), m) <==> PassesAs(v, m)
  {
    AllowIdempotent(v, reason);
  }

  /** Rewriting the record never changes whether all phases pass. */
  lemma SanitisedPassesAgain(rows: seq<Val>, reason: Verdict -> string)
    requires |rows| <= 3
    ensures PhasesPass(Sanitised(rows, reason)) <==> PhasesPass(rows)
  {
    KeepSomeAll(rows, v => StoredRow(v, reason));
    if |Sanitised(rows, reason)| == 3 {
      forall i | 0 <= i < 3 ensures PassesAs(Sanitised(rows, reason)[i], MODES[i]) <==> PassesAs(rows[i], MODES[i]) {
        StoredPasses(rows[i], reason, MODES[i]);
      }
    }
  }

  /**
   The stored list may pass where the raw list does not, exactly because it was cut: a list
   of more than three entries never passes, but its first three entries may.
   */
  lemma StoredPassIffFirstThreePass(rows: seq<Val>, reason: Verdict -> string)
    ensures PhasesPass(Sanitised(FirstThree(rows), reason)) <==> PhasesPass(FirstThree(rows))
    ensures PhasesPass(Sanitised(FirstThree(rows), reason)) != PhasesPass(rows) <==>
              |rows| > 3 && PhasesPass(FirstThree(rows))
  {
    SanitisedPassesAgain(FirstThree(rows), reason);
  }
}
