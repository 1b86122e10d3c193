/**
 What the host makes of a phase: where each fact of its row comes from, what it asks of the
 uninstall, and how its deadline is read, in the source's own words and numbers.
 */
module PhaseScheduleMeaning {
  import opened PyJson
  import opened Texts
  import R = PhaseRow
  import opened PhaseSchedule

  // ----- replies -----

  /** A tunnel that died: ssh's own exit status or its text, and no status of the guest's command. */
  lemma DeadTunnelIff(r: Reply)
    ensures NeedsRetry(r) <==> r.pyRc.None? && (r.rc == 255 || r.tunnelText)
    ensures HostClean(r) <==> LeftClean(r)
  {
  }

  // ----- the row -----

  ghost function Word(m: R.Mode): string {
    match m
    case Performance => "2e-performance"
    case Tamper => "2f-tamper"
    case DistroCheck => "2g-distro"
  }

  /** Python's truth of a value. */
  ghost predicate Truth(v: Val) {
    v != Null && v != Bool(false) && v != Int(0) && v != Float(Finite(0.0)) && v != Str("") && v != List([]) && v != Dict(map[])
  }

  lemma TruthIff(v: Val)
    ensures Truthy(v) <==> Truth(v)
  {
  }

  ghost function TextOrNull(v: Val): Val { if v.Str? then v else Null }

  lemma BatterySays(m: R.Mode, body: Fields, guest: Reply, uninstall: Reply)
    ensures var c := CommonPart(m, body, guest, uninstall);
            && Get(c, R.Battery) == Str(Word(m))
            && Get(c, R.BatterySeen) == (if Get(body, R.Battery) == Str(Word(m)) then Null else Str("mismatch"))
  {
    R.ModeTextReads(m);
  }

  lemma ResultSays(m: R.Mode, body: Fields, guest: Reply, uninstall: Reply)
    ensures Get(CommonPart(m, body, guest, uninstall), R.HostResult) == TextOrNull(Get(body, R.HostResult))
  {
  }

  lemma InnerResultSays(m: R.Mode, body: Fields, guest: Reply, uninstall: Reply)
    ensures Get(CommonPart(m, body, guest, uninstall), R.Result) == TextOrNull(Get(body, R.Result))
  {
  }

  lemma ReasonSays(m: R.Mode, body: Fields, guest: Reply, uninstall: Reply)
    ensures Get(CommonPart(m, body, guest, uninstall), R.Reason) == TextOrNull(Get(body, R.Reason))
  {
  }

  lemma ClassSays(m: R.Mode, body: Fields, guest: Reply, uninstall: Reply)
    ensures Get(CommonPart(m, body, guest, uninstall), R.Classification) == TextOrNull(Get(body, R.Classification))
  {
  }

  lemma ErrorSays(m: R.Mode, body: Fields, guest: Reply, uninstall: Reply)
    ensures Get(CommonPart(m, body, guest, uninstall), R.HarnessError) == Bool(Truth(Get(body, R.HarnessError)))
  {
    TruthIff(Get(body, R.HarnessError));
  }

  lemma UninstallSays(m: R.Mode, body: Fields, guest: Reply, uninstall: Reply)
    ensures var c := CommonPart(m, body, guest, uninstall);
            && Get(c, R.GuestRc) == Int(if guest.pyRc.Some? then guest.pyRc.value else -1)
            && Get(c, R.UninstallRc) == Int(if 0 <= uninstall.rc <= 255 then uninstall.rc else -1)
            && Get(c, R.UninstallVerified) == Bool(LeftClean(uninstall))
  {
  }

  lemma PostKillSays(m: R.Mode, body: Fields, guest: Reply, uninstall: Reply)
    ensures var c := CommonPart(m, body, guest, uninstall);
            && Get(c, R.PostKillPid) == (if uninstall.postKill.Some? then Int(uninstall.postKill.value.0) else Null)
            && Get(c, R.PostKillAnchor) == (if uninstall.postKill.Some? then Int(uninstall.postKill.value.1) else Null)
  {
  }

  lemma CommonWins(m: R.Mode, body: Fields, guest: Reply, uninstall: Reply, disk: Option<string>, sealLane: bool, key: R.Key)
    ensures Get(BuiltRow(m, body, guest, uninstall, disk, sealLane), key) ==
            var c := CommonPart(m, body, guest, uninstall);
            if key in c then Get(c, key) else Get(ModePart(m, body, disk, sealLane), key)
  {
  }

  /** The performance numbers are the guest's, key by key. */
  lemma PerformanceSays(body: Fields, disk: Option<string>, sealLane: bool, key: R.Key)
    ensures Get(ModePart(R.Performance, body, disk, sealLane), key) ==
            if key in {R.RuntimeSeconds, R.MaxRuntimeSeconds, R.SampleCount, R.HostCount, R.DeniedSamples, R.RevokeConvergenceMs, R.RevokeErrno, R.RevokeFailOpen}
            then Get(body, key) else Null
  {
  }

  /** The tamper facts: the probe after enrolment, the swap record, and what else the guest names. */
  lemma TamperSays(body: Fields, disk: Option<string>, sealLane: bool)
    ensures var t, probe := ModePart(R.Tamper, body, disk, sealLane), AsDict(Get(body, R.EnrolledAfter));
            && Get(t, R.EnrolledNetErrno) == Get(probe, R.NetErrno) && Get(t, R.EnrolledFileErrno) == Get(probe, R.FileErrno)
            && Get(t, R.EnrolledPid) == Get(probe, R.Pid) && Get(t, R.MapSwap) == Get(body, R.MapSwap)
            && forall key | key in {R.ControlErrno, R.NetBlockAnchor, R.AllowlistedPrivateErrno, R.LoaderUp, R.FileAttributed, R.KillTiming, R.ClaimScope} ::
                 Get(t, key) == Get(body, key)
  {
  }

  /** The distro facts: the kernel's, both probes', and the host's own image and seal. */
  lemma DistroSays(body: Fields, disk: Option<string>, sealLane: bool)
    ensures var t, kernel := ModePart(R.DistroCheck, body, disk, sealLane), AsDict(Get(body, R.KernelFacts));
            && Get(t, R.Distro) == Get(kernel, R.Distro) && Get(t, R.Kernel) == Get(kernel, R.Kernel) && Get(t, R.KernelLsm) == Get(kernel, R.Lsm)
            && Get(t, R.KernelBtf) == Get(kernel, R.Btf) && Get(t, R.Lockdown) == Get(kernel, R.Lockdown)
  {
  }

  lemma ProbesSay(body: Fields, disk: Option<string>, sealLane: bool)
    ensures var t := ModePart(R.DistroCheck, body, disk, sealLane);
            && Get(t, R.EnrolledFileErrno) == Get(AsDict(Get(body, R.Enrolled)), R.FileErrno)
            && Get(t, R.UnenrolledFileErrno) == Get(AsDict(Get(body, R.Unenrolled)), R.FileErrno)
            && Get(t, R.EnrolledPid) == Get(AsDict(Get(body, R.Enrolled)), R.Pid) && Get(t, R.Attributed) == Get(body, R.Attributed)
  {
  }

  lemma ImageSays(body: Fields, disk: Option<string>, sealLane: bool)
    ensures var t := ModePart(R.DistroCheck, body, disk, sealLane);
            && Get(t, R.Image) == Str("ubuntu-os-cloud/ubuntu-2404-lts-amd64") && Get(t, R.BootImageAllowed) == Bool(disk.Some?)
            && Get(t, R.BootImageName) == (if disk.Some? then Str(disk.value) else Null) && Get(t, R.SealLane) == Bool(sealLane)
  {
  }

  /** A row for a phase that brought nothing says so, why, and whether it was cleaned up. */
  lemma NotRunSays(m: R.Mode, reason: string, clean: Option<bool>)
    ensures NotRunRow(m, reason, clean) ==
            map[R.Battery := Str(Word(m)), R.HostResult := Str("NOT_RUN"), R.NotRunReason := Str(reason),
                R.UninstallVerified := if clean.Some? then Bool(clean.value) else Null]
  {
  }

  lemma ReasonsAre()
    ensures MissingText(Transport) == "transport" && MissingText(MissingRows) == "rows_missing" && MissingText(MalformedRows) == "rows_malformed"
    ensures BlockedText(PreviousUninstall) == "previous_uninstall" && BlockedText(TimeBudget) == "time_budget"
  {
  }

  /** A skipped retry is a body without a grade. */
  lemma SkippedSays(m: R.Mode)
    ensures SkippedBody(m) == map[R.Battery := Str(Word(m)), R.HostResult := Str("NOT_GRADED"), R.Reason := Str("infra_retry_skipped")]
  {
  }

  // ----- what is asked of the uninstall -----

  /** The enrolled probe of a tamper body, when it is a positive number. */
  ghost predicate NamesProbe(m: R.Mode, body: Option<Fields>, pid: int) {
    m == R.Tamper && body.Some? && pid > 0 && Get(AsDict(Get(body.value, R.EnrolledAfter)), R.Pid) == Int(pid)
  }

  lemma ProbeIff(m: R.Mode, body: Option<Fields>, pid: int)
    requires pid > 0
    ensures ProbePid(m, body) == pid <==> NamesProbe(m, body, pid)
  {
  }

  /** A post-kill row is required exactly of a tamper body that names its probe and says when it was killed. */
  lemma RequireIff(m: R.Mode, body: Option<Fields>)
    ensures RequireRow(m, body) <==> (exists pid :: NamesProbe(m, body, pid)) && Get(body.value, R.KillTiming) == Str("after_map_swap")
  {
    var pid := ProbePid(m, body);
    if pid > 0 {
      ProbeIff(m, body, pid);
    }
    if p :| NamesProbe(m, body, p) {
      ProbeIff(m, body, p);
    }
  }

  // ----- the deadline -----

  ghost predicate IsDigits(s: string) { s != "" && forall c | c in s :: c in DIGITS }

  /** A life in minutes: the int, or its decimal digits with white space around them. */
  ghost predicate Asks(v: Val, n: int) {
    v == Int(n) || (v.Str? && exists digits :: Core(v.s, digits) && IsDigits(digits) && Decimal(digits) == n)
  }

  lemma AllDigits(s: string)
    ensures s != "" && (forall i | 0 <= i < |s| :: IsDigit(s[i])) <==> IsDigits(s)
  {
    forall i | 0 <= i < |s| ensures IsDigit(s[i]) <==> s[i] in DIGITS {
      DigitIff(s[i]);
    }
  }

  lemma MinutesIff(v: Val, n: int)
    ensures BoundedMinutes(v) == Some(n) <==> 1 <= n <= 120 && Asks(v, n)
  {
    if v.Str? {
      AllDigits(Strip(v.s));
      StripIff(v.s, Strip(v.s));
      if Asks(v, n) {
        var digits :| Core(v.s, digits) && IsDigits(digits) && Decimal(digits) == n;
        StripIff(v.s, digits);
      }
    }
  }

  /** The deadline in numbers: the guest's minutes or 105 of them, whichever ends first, less five, from its creation or else the start. */
  lemma DeadlineIs(created: Option<int>, started: int, minutes: Val)
    ensures forall n | 1 <= n <= 120 && Asks(minutes, n) ::
              PhaseDeadline(created, started, minutes) ==
              (if created.Some? && 0 < created.value <= started then created.value else started) + 60 * (if n < 105 then n else 105) - 300
    ensures (forall n | 1 <= n <= 120 :: !Asks(minutes, n)) ==> PhaseDeadline(created, started, minutes) == 0
  {
    forall n ensures BoundedMinutes(minutes) == Some(n) <==> 1 <= n <= 120 && Asks(minutes, n) {
      MinutesIff(minutes, n);
    }
  }

  /** A phase may start with 2600 seconds left. */
  lemma HasTimeIff(deadline: int, now: real)
    ensures PhaseHasTime(deadline, now) <==> deadline > 0 && now + 2600.0 <= deadline as real
  {
  }
}
