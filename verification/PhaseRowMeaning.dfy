/**
 What the sanitiser keeps and which verdict a row gets, in the words and numbers of the record
 itself: tables of types and ranges, and the first objection in order.
 */
module PhaseRowMeaning {
  import opened PyJson
  import opened Texts
  import opened PhaseRow

  // ----- the table of keys -----

  /** What a key takes: a truth value, a whole number in a range, a number from zero up to one, one of some texts, or a made text. */
  datatype Slot =
    | Flag | Range(low: int, high: int) | UpTo(most: int) | OneOf(words: set<string>) | Chars(most: int, of: string) | BootName | NoSlot

  ghost function SlotOf(key: Key): Slot {
    match key
    case HarnessError | UninstallVerified | RevokeFailOpen | LoaderUp | FileAttributed | KernelBtf | Attributed => Flag
    case BootImageAllowed | SealLane => Flag
    case GuestRc | UninstallRc => Range(-1, 255)
    case PostKillPid | EnrolledPid => Range(1, 4194304)
    case PostKillAnchor => Range(1, 9223372036854775808)
    case NetBlockAnchor => Range(0, 9223372036854775808)
    case MaxRuntimeSeconds => Range(0, 86400)
    case SampleCount | DeniedSamples => Range(0, 100000)
    case HostCount => Range(0, 64)
    case RevokeErrno | ControlErrno | EnrolledNetErrno | EnrolledFileErrno | UnenrolledFileErrno | AllowlistedPrivateErrno => Range(0, 255)
    case RuntimeSeconds => UpTo(86400)
    case RevokeConvergenceMs => UpTo(3600000)
    case BatterySeen => OneOf({"mismatch"})
    case KillTiming => OneOf({"after_map_swap", "not_killed"})
    case ClaimScope => OneOf({"kill after deny-attr map swap; ready-to-swap gap not covered (VAN-45)"})
    case Image => OneOf({"ubuntu-os-cloud/ubuntu-2404-lts-amd64"})
    case Reason | Classification | NotRunReason => Chars(60, LOWER + DIGITS + "_")
    case Result => Chars(40, UPPER + DIGITS + "_")
    case Distro => Chars(80, UPPER + LOWER + DIGITS + " ._()/+-")
    case Kernel => Chars(80, UPPER + LOWER + DIGITS + "._+-")
    case KernelLsm => Chars(80, LOWER + DIGITS + ",")
    case BootImageName => BootName
    case _ => NoSlot
  }

  ghost predicate Made(s: string, least: int, most: int, of: string) { least <= |s| <= most && forall c | c in s :: c in of }

  ghost predicate Takes(slot: Slot, v: Val) {
    match slot
    case Flag => v.Bool?
    case Range(low, high) => v.Int? && low <= v.n <= high
    case UpTo(most) => (v.Int? && 0 <= v.n <= most) || (v.Float? && v.x.Finite? && 0.0 <= v.x.r <= most as real)
    case OneOf(words) => v.Str? && v.s in words
    case Chars(most, of) => v.Str? && Made(v.s, 1, most, of)
    case BootName => v.Str? && "ubuntu-2404-" <= v.s && Made(v.s[12..], 1, 80, LOWER + DIGITS + "-")
    case NoSlot => false
  }

  ghost predicate Fits(key: Key, v: Val) { Takes(SlotOf(key), v) }

  lemma WordChars(c: char)
    ensures IsLower(c) || IsDigit(c) || c == '_' <==> c in LOWER + DIGITS + "_"
    ensures IsUpper(c) || IsDigit(c) || c == '_' <==> c in UPPER + DIGITS + "_"
    ensures IsLower(c) || IsDigit(c) || c == ',' <==> c in LOWER + DIGITS + ","
    ensures IsLower(c) || IsDigit(c) || c == '-' <==> c in LOWER + DIGITS + "-"
  {
    AlnumIff(c);
    LowerIff(c);
    UpperIff(c);
    DigitIff(c);
  }

  lemma NameChars(c: char)
    ensures IsAlnum(c) || c in " ._()/+-" <==> c in UPPER + LOWER + DIGITS + " ._()/+-"
    ensures IsAlnum(c) || c in "._+-" <==> c in UPPER + LOWER + DIGITS + "._+-"
  {
    AlnumIff(c);
  }

  lemma WordTexts(v: Val)
    ensures IsWord(v) <==> v.Str? && Made(v.s, 1, 60, LOWER + DIGITS + "_")
  {
    if v.Str? {
      forall i | 0 <= i < |v.s| ensures IsLower(v.s[i]) || IsDigit(v.s[i]) || v.s[i] == '_' <==> v.s[i] in LOWER + DIGITS + "_" {
        WordChars(v.s[i]);
      }
    }
  }

  lemma UpperTexts(v: Val)
    ensures IsUpperWord(v) <==> v.Str? && Made(v.s, 1, 40, UPPER + DIGITS + "_")
  {
    if v.Str? {
      forall i | 0 <= i < |v.s| ensures IsUpper(v.s[i]) || IsDigit(v.s[i]) || v.s[i] == '_' <==> v.s[i] in UPPER + DIGITS + "_" {
        WordChars(v.s[i]);
      }
    }
  }

  lemma LsmTexts(v: Val)
    ensures IsLsmList(v) <==> v.Str? && Made(v.s, 1, 80, LOWER + DIGITS + ",")
  {
    if v.Str? {
      forall i | 0 <= i < |v.s| ensures IsLower(v.s[i]) || IsDigit(v.s[i]) || v.s[i] == ',' <==> v.s[i] in LOWER + DIGITS + "," {
        WordChars(v.s[i]);
      }
    }
  }

  lemma DistroNames(v: Val)
    ensures IsDistro(v) <==> v.Str? && Made(v.s, 1, 80, UPPER + LOWER + DIGITS + " ._()/+-")
  {
    if v.Str? {
      forall i | 0 <= i < |v.s| ensures IsAlnum(v.s[i]) || v.s[i] in " ._()/+-" <==> v.s[i] in UPPER + LOWER + DIGITS + " ._()/+-" {
        NameChars(v.s[i]);
      }
    }
  }

  lemma KernelNames(v: Val)
    ensures IsKernel(v) <==> v.Str? && Made(v.s, 1, 80, UPPER + LOWER + DIGITS + "._+-")
  {
    if v.Str? {
      forall i | 0 <= i < |v.s| ensures IsAlnum(v.s[i]) || v.s[i] in "._+-" <==> v.s[i] in UPPER + LOWER + DIGITS + "._+-" {
        NameChars(v.s[i]);
      }
    }
  }

  lemma BootNames(v: Val)
    ensures IsBootImage(v) <==> v.Str? && "ubuntu-2404-" <= v.s && Made(v.s[12..], 1, 80, LOWER + DIGITS + "-")
  {
    assert |BOOT_PREFIX| == 12;
    if v.Str? && |v.s| >= 12 {
      var s := v.s[12..];
      forall i | 0 <= i < |s| ensures IsLower(s[i]) || IsDigit(s[i]) || s[i] == '-' <==> s[i] in LOWER + DIGITS + "-" {
        WordChars(s[i]);
      }
    }
  }

  lemma FlagIff(key: Key, v: Val)
    requires key == HarnessError || key == UninstallVerified || key == RevokeFailOpen || key == LoaderUp || key == FileAttributed
    ensures Accepts(key, v) <==> Fits(key, v)
  {
  }

  lemma FactIff(key: Key, v: Val)
    requires key == KernelBtf || key == Attributed || key == BootImageAllowed || key == SealLane
    ensures Accepts(key, v) <==> Fits(key, v)
  {
  }

  lemma RcIff(key: Key, v: Val)
    requires key == GuestRc || key == UninstallRc || key == PostKillPid || key == EnrolledPid
    ensures Accepts(key, v) <==> Fits(key, v)
  {
  }

  lemma AnchorIff(key: Key, v: Val)
    requires key == PostKillAnchor || key == NetBlockAnchor
    ensures Accepts(key, v) <==> Fits(key, v)
  {
  }

  lemma CountIff(key: Key, v: Val)
    requires key == MaxRuntimeSeconds || key == SampleCount || key == DeniedSamples || key == HostCount
    ensures Accepts(key, v) <==> Fits(key, v)
  {
  }

  lemma ErrnoIff(key: Key, v: Val)
    requires key == RevokeErrno || key == ControlErrno || key == EnrolledNetErrno
    ensures Accepts(key, v) <==> Fits(key, v)
  {
  }

  lemma FileErrnoIff(key: Key, v: Val)
    requires key == EnrolledFileErrno || key == UnenrolledFileErrno || key == AllowlistedPrivateErrno
    ensures Accepts(key, v) <==> Fits(key, v)
  {
  }

  lemma NumberIff(key: Key, v: Val)
    requires key == RuntimeSeconds || key == RevokeConvergenceMs
    ensures Accepts(key, v) <==> Fits(key, v)
  {
  }

  lemma TextIff(key: Key, v: Val)
    requires key == BatterySeen || key == KillTiming || key == ClaimScope || key == Image
    ensures Accepts(key, v) <==> Fits(key, v)
  {
  }

  lemma WordPatternIff(key: Key, v: Val)
    requires key == Reason || key == Classification || key == NotRunReason || key == Result
    ensures Accepts(key, v) <==> Fits(key, v)
  {
    WordTexts(v);
    UpperTexts(v);
  }

  lemma NamePatternIff(key: Key, v: Val)
    requires key == Distro || key == Kernel || key == KernelLsm
    ensures Accepts(key, v) <==> Fits(key, v)
  {
    LsmTexts(v);
    DistroNames(v);
    KernelNames(v);
  }

  lemma BootIff(key: Key, v: Val)
    requires key == BootImageName
    ensures Accepts(key, v) <==> Fits(key, v)
  {
    BootNames(v);
  }

  lemma NoOther(key: Key, v: Val)
    requires SlotOf(key).NoSlot?
    ensures !Accepts(key, v)
  {
  }

  /** The sanitiser keeps a key exactly when the table has it with such a value. */
  lemma AcceptsIff(key: Key, v: Val)
    ensures Accepts(key, v) <==> Fits(key, v)
  {
    match key {
      case HarnessError | UninstallVerified | RevokeFailOpen | LoaderUp | FileAttributed => FlagIff(key, v);
      case KernelBtf | Attributed | BootImageAllowed | SealLane => FactIff(key, v);
      case GuestRc | UninstallRc | PostKillPid | EnrolledPid => RcIff(key, v);
      case PostKillAnchor | NetBlockAnchor => AnchorIff(key, v);
      case MaxRuntimeSeconds | SampleCount | DeniedSamples | HostCount => CountIff(key, v);
      case RevokeErrno | ControlErrno | EnrolledNetErrno => ErrnoIff(key, v);
      case EnrolledFileErrno | UnenrolledFileErrno | AllowlistedPrivateErrno => FileErrnoIff(key, v);
      case RuntimeSeconds | RevokeConvergenceMs => NumberIff(key, v);
      case BatterySeen | KillTiming | ClaimScope | Image => TextIff(key, v);
      case Reason | Classification | NotRunReason | Result => WordPatternIff(key, v);
      case Distro | Kernel | KernelLsm => NamePatternIff(key, v);
      case BootImageName => BootIff(key, v);
      case _ => NoOther(key, v);
    }
  }

  // ----- the verdict -----

  /** The battery names, and no other. */
  lemma ModeIff(v: Val, m: Mode)
    ensures ModeOf(v) == Some(m) <==>
            match m
            case Performance => v == Str("2e-performance")
            case Tamper => v == Str("2f-tamper")
            case DistroCheck => v == Str("2g-distro")
    ensures ModeOf(v) == Some(m) ==> v == Str(ModeText(m))
  {
    assert "2f-tamper"[1] == 'f' && "2e-performance"[1] == 'e' && "2g-distro"[1] == 'g';
  }

  ghost predicate Known(v: Val) { v == Str("2e-performance") || v == Str("2f-tamper") || v == Str("2g-distro") }

  /** The claim of a tamper row, word for word. */
  ghost predicate Claims(row: Fields) {
    && Get(row, KillTiming) == Str("after_map_swap")
    && Get(row, ClaimScope) == Str("kill after deny-attr map swap; ready-to-swap gap not covered (VAN-45)")
  }

  lemma ResultWords(v: Val)
    ensures WordOf(v) == WPass <==> v == Str("PASS")
    ensures WordOf(v) == WFail <==> v == Str("FAIL")
    ensures WordOf(v) == WHold <==> v == Str("HOLD")
    ensures WordOf(v) == WNotGraded <==> v == Str("NOT_GRADED")
    ensures WordOf(v) == WNotRun <==> v == Str("NOT_RUN")
  {
    assert "PASS"[0] == 'P' && "FAIL"[0] == 'F' && "HOLD"[0] == 'H' && |"NOT_GRADED"| == 10 && |"NOT_RUN"| == 7 && |"PASS"| == 4;
  }

  /** The first objection decides: the battery's name, its own word, its claim, the host's numbers, the uninstall. */
  lemma VerdictIff(row: Fields)
    ensures var verdict, word := PhaseVerdict(row), Get(row, HostResult);
            var known := Known(Get(row, Battery));
            var ran := known && word != Str("NOT_RUN");
            var sound := ran && Get(row, HarnessError) != Bool(true);
            var passed := sound && word == Str("PASS");
            var claimed := passed && (Get(row, Battery) == Str("2f-tamper") ==> Claims(row));
            var cause := CauseOf(ModeOf(Get(row, Battery)), row);
            && (verdict == BatteryMismatch <==> !known)
            && (verdict.NotRun? <==> known && word == Str("NOT_RUN"))
            && (verdict == HarnessBroke <==> ran && !sound)
            && (verdict == NotGraded <==> sound && word == Str("NOT_GRADED"))
            && (verdict == Held <==> sound && word == Str("HOLD"))
            && (verdict == Failed <==> sound && word == Str("FAIL"))
            && (verdict == ResultUnknown <==>
                  sound && word != Str("PASS") && word != Str("NOT_GRADED") && word != Str("HOLD") && word != Str("FAIL"))
            && (verdict == ClaimFieldsMissing <==> passed && !claimed)
            && (verdict.HostCause? <==> claimed && cause != NoCause) && (verdict.HostCause? ==> verdict.cause == cause)
            && (verdict == UninstallNotVerified <==> claimed && cause == NoCause && Get(row, UninstallVerified) != Bool(true))
            && (verdict == BatteryPass <==> claimed && cause == NoCause && Get(row, UninstallVerified) == Bool(true))
  {
    ResultWords(Get(row, HostResult));
    ModeIff(Get(row, Battery), Performance);
    ModeIff(Get(row, Battery), Tamper);
    ModeIff(Get(row, Battery), DistroCheck);
    JudgeIff(ModeOf(Get(row, Battery)), WordOf(Get(row, HostResult)), Get(row, NotRunReason), Get(row, HarnessError), ClaimFilled(row),
             CauseOf(ModeOf(Get(row, Battery)), row), Get(row, UninstallVerified));
    assert ClaimFilled(row) <==> Claims(row);
  }

  lemma JudgeIff(mode: Option<Mode>, word: Word, reason: Val, harness: Val, claim: bool, cause: Cause, verified: Val)
    ensures var verdict := Judge(mode, word, reason, harness, claim, cause, verified);
            var ran := mode.Some? && word != WNotRun;
            var sound := ran && harness != Bool(true);
            var claimed := sound && word == WPass && (mode.value == Tamper ==> claim);
            && (verdict == BatteryMismatch <==> mode.None?) && (verdict.NotRun? <==> mode.Some? && word == WNotRun)
            && (verdict == HarnessBroke <==> ran && !sound)
            && (verdict == NotGraded <==> sound && word == WNotGraded) && (verdict == Held <==> sound && word == WHold)
            && (verdict == Failed <==> sound && word == WFail) && (verdict == ResultUnknown <==> sound && word == WUnknown)
            && (verdict == ClaimFieldsMissing <==> sound && word == WPass && !claimed)
            && (verdict.HostCause? <==> claimed && cause != NoCause) && (verdict.HostCause? ==> verdict.cause == cause)
            && (verdict == UninstallNotVerified <==> claimed && cause == NoCause && verified != Bool(true))
            && (verdict == BatteryPass <==> claimed && cause == NoCause && verified == Bool(true))
  {
  }

  /** A phase that did not run names its reason when that is a word. */
  lemma NotRunReasonIs(row: Fields)
    requires PhaseVerdict(row).NotRun?
    ensures var reason := Get(row, NotRunReason);
            PhaseVerdict(row).reason == if reason.Str? && Made(reason.s, 1, 60, LOWER + DIGITS + "_") then reason.s else "not_run"
  {
    WordTexts(Get(row, NotRunReason));
  }

  // ----- the host's own objections -----

  ghost predicate IsNumber(v: Val) { v.Int? || v.Float? }

  ghost predicate Between(v: Val, low: real, high: real) {
    (v.Int? && low <= v.n as real <= high) || (v.Float? && v.x.Finite? && low <= v.x.r <= high)
  }

  /** Performance: the first number that is wrong. */
  lemma PerformanceCauseIff(row: Fields)
    ensures var cause, runtime := Recompute2E(row), Get(row, RuntimeSeconds);
            var inTime := Between(runtime, 0.0, 900.0);
            var oneHost := inTime && Get(row, HostCount) == Int(1);
            var sampled := oneHost && Get(row, SampleCount) == Int(100);
            var denied := sampled && Get(row, DeniedSamples) == Int(100);
            var revoked := denied && Get(row, RevokeErrno) == Int(13);
            && (cause == RuntimeMissing <==> !IsNumber(runtime)) && (cause == RuntimeBound <==> IsNumber(runtime) && !inTime)
            && (cause == HostCountWrong <==> inTime && !oneHost) && (cause == SampleCountWrong <==> oneHost && !sampled)
            && (cause == DeniedSamplesWrong <==> sampled && !denied) && (cause == RevokeNotConverged <==> denied && !revoked)
            && (cause == GuestFlagMismatch <==> revoked && Get(row, RevokeFailOpen) != Bool(false))
            && (cause == NoCause <==> revoked && Get(row, RevokeFailOpen) == Bool(false))
  {
  }

  /** Distro: image, seal, kernel facts, probes, and the guest's own words. */
  lemma DistroCauseIff(row: Fields)
    ensures var cause, lsm, pid := Recompute2G(row), Get(row, KernelLsm), Get(row, EnrolledPid);
            var placed := Get(row, Image) == Str("ubuntu-os-cloud/ubuntu-2404-lts-amd64") && Get(row, BootImageAllowed) == Bool(true);
            var sealed := placed && Get(row, SealLane) == Bool(true);
            var told := sealed && Told(Get(row, Distro)) && Told(Get(row, Kernel)) && Told(lsm);
            var listed := told && HasPiece(lsm.s, ',', "bpf");
            var probed := listed && pid.Int? && pid.n > 0;
            var denied := probed && Get(row, EnrolledFileErrno) == Int(13);
            var allowed := denied && Get(row, UnenrolledFileErrno) == Int(0);
            var agreed := allowed && Get(row, Result) == Str("RECORDED") && Get(row, KernelBtf) == Bool(true);
            && (cause == ImageNotAllowed <==> !placed) && (cause == SealNotLane <==> placed && !sealed)
            && (cause == FieldsMissing <==> sealed && !told) && (cause == BpfLsmMissing <==> told && !listed)
            && (cause == ProbePidMissing <==> listed && !probed) && (cause == EnrolledNotDenied <==> probed && !denied)
            && (cause == UnenrolledNotAllowed <==> denied && !allowed) && (cause == GuestFlagMismatch <==> allowed && !agreed)
            && (cause == NoCause <==> agreed)
  {
    if Get(row, KernelLsm).Str? {
      SplitIff(Get(row, KernelLsm).s, ',', "bpf");
    }
  }

  ghost predicate Told(v: Val) { v.Str? && v.s != "" }

  ghost predicate SwapShown(swap: Fields) {
    && Get(swap, BeforeIds).Dict? && Get(swap, Ids).Dict? && Get(swap, IncomingBefore).List? && Get(swap, Incoming).List?
    && (forall m: DenyMap :: NewId(Get(Get(swap, BeforeIds).fields, Stem(m)), Get(Get(swap, Ids).fields, Stem(m))))
    && (forall p | p in Get(swap, Incoming).items :: p in Get(swap, IncomingBefore).items)
  }

  ghost predicate OneOwner(swap: Fields) {
    && Get(swap, IncomingSeen).List? && Get(swap, IncomingSeen).items != []
    && Get(swap, Loaders).List? && |Get(swap, Loaders).items| == 1 && Get(swap, Loaders).items[0].Dict?
    && var loader := Get(swap, Loaders).items[0].fields;
       forall p | p in Get(swap, IncomingSeen).items :: PinOf(p, Get(loader, Host), Get(loader, Ns))
  }

  lemma ShownIff(swap: Fields)
    ensures SwapSeen(swap) <==> SwapShown(swap)
  {
    forall was, now ensures FreshId(was, now) <==> NewId(was, now) {
      NewIdIff(was, now);
    }
    if SwapSeen(swap) {
      forall m: DenyMap ensures NewId(Get(Get(swap, BeforeIds).fields, Stem(m)), Get(Get(swap, Ids).fields, Stem(m))) {
        match m {
          case DenyAttr =>
          case DenyAttrDrops =>
          case DenyOverflow =>
        }
      }
    }
  }

  lemma OwnerIff(swap: Fields)
    ensures SwapOwned(swap) <==> OneOwner(swap)
  {
    forall v, host, ns ensures OwnedPin(v, host, ns) <==> PinOf(v, host, ns) {
      OwnedIff(v, host, ns);
    }
  }

  /** The errno of an egress that was stopped; a time-out counts when the block left an anchor. */
  ghost predicate EgressStopped(errno: Val, anchor: Val) {
    errno.Int? && (errno.n in {1, 13, 111} || (errno.n == 110 && anchor.Int? && anchor.n > 0))
  }

  /** Tamper: the swap record, the errnos, the probe's post-kill row, and the guest's own words. */
  lemma TamperCauseIff(row: Fields)
    ensures var cause, swap, pid := Recompute2F(row), AsDict(Get(row, MapSwap)), Get(row, EnrolledPid);
            var shown := SwapShown(swap);
            var owned := shown && OneOwner(swap);
            var swapped := owned && Get(swap, Swapped) == Bool(true);
            var control := swapped && Get(row, ControlErrno) == Int(0);
            var stopped := control && EgressStopped(Get(row, EnrolledNetErrno), Get(row, NetBlockAnchor));
            var denied := stopped && Get(row, EnrolledFileErrno) == Int(13);
            var open := denied && Get(row, AllowlistedPrivateErrno) == Int(0);
            var probed := open && pid.Int? && pid.n > 0;
            var drained := probed && Get(row, PostKillPid) == pid
                           && Get(row, PostKillAnchor).Int? && 1 <= Get(row, PostKillAnchor).n <= 9223372036854775808;
            var agreed := drained && Get(row, LoaderUp) != Bool(true) && Get(row, FileAttributed) == Bool(true);
            && (cause == MapSwapNotSeen <==> !shown) && (cause == SwapOwnerMismatch <==> shown && !owned)
            && (cause == ControlNotAllowed <==> swapped && !control) && (cause == EgressNotDenied <==> control && !stopped)
            && (cause == FileNotDenied <==> stopped && !denied) && (cause == PrivateBlocked <==> denied && !open)
            && (cause == ProbePidMissing <==> open && !probed) && (cause == PostKillRowMissing <==> probed && !drained)
            && (cause == GuestFlagMismatch <==> (owned && !swapped) || (drained && !agreed))
            && (cause == NoCause <==> agreed)
  {
    var swap := AsDict(Get(row, MapSwap));
    ShownIff(swap);
    OwnerIff(swap);
    JudgeCauseIff(SwapSeen(swap), SwapOwned(swap), Get(swap, Swapped), row);
  }

  lemma JudgeCauseIff(shown: bool, isOwned: bool, said: Val, row: Fields)
    ensures var cause, pid := Judge2F(shown, isOwned, said, row), Get(row, EnrolledPid);
            var owned := shown && isOwned;
            var swapped := owned && said == Bool(true);
            var control := swapped && Get(row, ControlErrno) == Int(0);
            var stopped := control && EgressStopped(Get(row, EnrolledNetErrno), Get(row, NetBlockAnchor));
            var denied := stopped && Get(row, EnrolledFileErrno) == Int(13);
            var open := denied && Get(row, AllowlistedPrivateErrno) == Int(0);
            var probed := open && pid.Int? && pid.n > 0;
            var drained := probed && Get(row, PostKillPid) == pid
                           && Get(row, PostKillAnchor).Int? && 1 <= Get(row, PostKillAnchor).n <= 9223372036854775808;
            var agreed := drained && Get(row, LoaderUp) != Bool(true) && Get(row, FileAttributed) == Bool(true);
            && (cause == MapSwapNotSeen <==> !shown) && (cause == SwapOwnerMismatch <==> shown && !owned)
            && (cause == ControlNotAllowed <==> swapped && !control) && (cause == EgressNotDenied <==> control && !stopped)
            && (cause == FileNotDenied <==> stopped && !denied) && (cause == PrivateBlocked <==> denied && !open)
            && (cause == ProbePidMissing <==> open && !probed) && (cause == PostKillRowMissing <==> probed && !drained)
            && (cause == GuestFlagMismatch <==> (owned && !swapped) || (drained && !agreed))
            && (cause == NoCause <==> agreed)
  {
  }

  // ----- what is written anew -----

  /** The battery's own word is kept if it is one of the five, and is empty text otherwise. */
  lemma KeptResultIs(v: Val)
    ensures KeptResult(v) == if v == Str("PASS") || v == Str("FAIL") || v == Str("HOLD") || v == Str("NOT_GRADED") || v == Str("NOT_RUN") then v else Str("")
  {
    ResultWords(v);
  }

  /** A row that says it came from another battery never gets a grade of its own. */
  lemma GradeIs(kept: Fields)
    ensures Grade(kept) == if Get(kept, BatterySeen) == Str("mismatch") then BatteryMismatch else PhaseVerdict(kept)
    ensures Passes(Row(Graded(kept, Grade(kept)))) <==> Get(kept, BatterySeen) != Str("mismatch") && PhaseVerdict(kept) == BatteryPass
  {
  }

  // ----- the map-swap record -----

  /** A pin of one of the three maps, with the digits of a pid. */
  ghost predicate PinNamed(s: string, prefix: string) { prefix <= s && Made(s[|prefix|..], 1, 10, DIGITS) }

  ghost predicate Pin(v: Val) {
    v.Str? && (PinNamed(v.s, "/sys/fs/bpf/vantio_deny_attr_incoming_") || PinNamed(v.s, "/sys/fs/bpf/vantio_deny_attr_drops_incoming_")
               || PinNamed(v.s, "/sys/fs/bpf/vantio_deny_overflow_incoming_"))
  }

  lemma PinOfIff(m: DenyMap, s: string)
    ensures IsPinOf(m, s) <==> PinNamed(s, PinPrefix(m))
  {
    if PinPrefix(m) <= s {
      var tail := s[|PinPrefix(m)|..];
      forall i | 0 <= i < |tail| ensures IsDigit(tail[i]) <==> tail[i] in DIGITS {
        DigitIff(tail[i]);
      }
    }
  }

  lemma PinIff(v: Val)
    ensures IsPin(v) <==> Pin(v)
  {
    if v.Str? {
      PinOfIff(DenyAttr, v.s);
      PinOfIff(DenyAttrDrops, v.s);
      PinOfIff(DenyOverflow, v.s);
    }
  }

  ghost predicate Pid(v: Val) { v.Int? && 1 <= v.n <= 4194304 }

  /** Ids by map name, and only those in range. */
  lemma IdsKept(v: Val)
    ensures KeepIds(v).Some? <==> v.Dict?
    ensures v.Dict? ==>
              && KeepIds(v).value.Dict?
              && forall key ::
                   var id := Get(v.fields, key);
                   Get(KeepIds(v).value.fields, key) == if key.Stem? && id.Int? && 0 <= id.n <= 4294967296 then id else Null
  {
  }

  lemma PinsKept(v: Val)
    ensures KeepPins(v).Some? <==> v.List? && |v.items| <= 12 && forall p | p in v.items :: Pin(p)
    ensures KeepPins(v).Some? ==> KeepPins(v).value == v
  {
    if v.List? {
      forall i | 0 <= i < |v.items| ensures IsPin(v.items[i]) <==> Pin(v.items[i]) {
        PinIff(v.items[i]);
      }
    }
  }

  /** Loaders with both pids, cut down to them. */
  lemma LoadersKept(v: Val)
    ensures KeepLoaders(v).Some? <==>
            v.List? && |v.items| <= 8 && forall p | p in v.items :: p.Dict? && Pid(Get(p.fields, Host)) && Pid(Get(p.fields, Ns))
    ensures KeepLoaders(v).Some? ==>
              && KeepLoaders(v).value.List? && |KeepLoaders(v).value.items| == |v.items|
              && forall i | 0 <= i < |v.items| ::
                   KeepLoaders(v).value.items[i] == Dict(map[Host := Get(v.items[i].fields, Host), Ns := Get(v.items[i].fields, Ns)])
  {
    if v.List? {
      assert forall i | 0 <= i < |v.items| :: IsLoader(v.items[i]) <==>
               v.items[i].Dict? && Pid(Get(v.items[i].fields, Host)) && Pid(Get(v.items[i].fields, Ns));
    }
  }

  /** Which rule each key of the record has. */
  lemma SwapKeyIs(key: Key, v: Val)
    ensures key in {BeforeIds, Ids} ==> KeepSwap(key, v) == KeepIds(v)
    ensures key in {IncomingBefore, Incoming, IncomingSeen} ==> KeepSwap(key, v) == KeepPins(v)
    ensures key == Loaders ==> KeepSwap(key, v) == KeepLoaders(v)
    ensures key == Swapped ==> KeepSwap(key, v) == if v.Bool? then Some(v) else None
    ensures key == Reason ==> KeepSwap(key, v) == if v.Str? && Made(v.s, 1, 60, LOWER + DIGITS + "_") then Some(v) else None
    ensures key == WaitedS ==> KeepSwap(key, v) == if Between(v, 0.0, 3600.0) then Some(v) else None
    ensures key !in {BeforeIds, Ids, IncomingBefore, Incoming, IncomingSeen, Loaders, Swapped, Reason, WaitedS} ==> KeepSwap(key, v) == None
  {
    WordTexts(v);
  }

  // ----- the lockdown text -----

  const LOCKDOWN: set<string> := {"none", "[none]", "integrity", "[integrity]", "confidentiality", "[confidentiality]"}

  /** Kept are one to four of these words with single spaces between them. */
  lemma LockdownIs(v: Val, text: string)
    requires text != ""
    ensures LockdownText(v) == text <==>
            v.Str? && Core(v.s, text) && multiset(text)[' '] <= 3 && forall part | HasPiece(text, ' ', part) :: part in LOCKDOWN
  {
    if v.Str? {
      StripIff(v.s, text);
      SplitCount(text, ' ');
      forall part ensures part in SplitOn(text, ' ') <==> HasPiece(text, ' ', part) {
        SplitIff(text, ' ', part);
      }
      LockdownPieces(text);
    }
  }

  lemma LockdownPieces(text: string)
    ensures LockdownWords(text) <==> |SplitOn(text, ' ')| <= 4 && forall part | part in SplitOn(text, ' ') :: part in LOCKDOWN
  {
    var words := SplitOn(text, ' ');
    if LockdownWords(text) {
      forall part | part in words ensures part in LOCKDOWN {
        var i :| 0 <= i < |words| && words[i] == part;
      }
    } else if |words| <= 4 {
      var i :| 0 <= i < |words| && words[i] !in LOCKDOWN;
      assert words[i] in words;
    }
  }
}
