/**
 A phase list whose stored form passes where the raw list does not, with the three passing
 rows written out: what the sanitiser keeps of a row is the row when every fact fits.
 */
module PhaseRowCut {
  import opened PyJson
  import opened PhaseRow

  /** Facts that are all kept as they are. */
  ghost predicate AllAccepted(facts: Fields) { forall key | key in facts :: Accepts(key, facts[key]) }

  ghost predicate CleanSwap(swap: Fields) { forall key | key in swap :: KeepSwap(key, swap[key]) == Some(swap[key]) }

  /** A row of accepted facts whose own word is a pass. */
  function Composed(m: Mode, facts: Fields, swap: Fields): Fields {
    facts + Written(Str(ModeText(m)), Str("PASS"), swap, "")
  }

  lemma WrittenRow(m: Mode, swap: Fields)
    ensures var w := Written(Str(ModeText(m)), Str("PASS"), swap, "");
            && w.Keys <= REWRITTEN_KEYS && Lockdown !in w && Pass !in w && VerdictReason !in w
            && Get(w, Battery) == Str(ModeText(m)) && Get(w, HostResult) == Str("PASS")
            && Get(w, MapSwap) == if swap != map[] then Dict(swap) else Null
  {
  }

  lemma ComposedReads(m: Mode, facts: Fields, swap: Fields)
    requires AllAccepted(facts)
    ensures var item := Composed(m, facts, swap);
            && Get(item, Battery) == Str(ModeText(m)) && Get(item, HostResult) == Str("PASS")
            && Get(item, MapSwap) == (if swap != map[] then Dict(swap) else Null) && Get(item, Lockdown) == Null
            && forall key | key !in REWRITTEN_KEYS :: Get(item, key) == Get(facts, key)
  {
    WrittenRow(m, swap);
    RewrittenNeverAccepted();
    assert forall key | key in REWRITTEN_KEYS :: key !in facts;
  }

  lemma CleanSwapKept(swap: Fields)
    requires CleanSwap(swap)
    ensures AllowMapSwap(if swap != map[] then Dict(swap) else Null) == swap
  {
    EmptySwap();
  }

  lemma ComposedIsKept(m: Mode, facts: Fields, swap: Fields)
    requires AllAccepted(facts) && CleanSwap(swap) && (swap != map[] ==> m == Tamper)
    ensures Kept(Composed(m, facts, swap)) == Composed(m, facts, swap)
  {
    var item, added := Composed(m, facts, swap), Written(Str(ModeText(m)), Str("PASS"), swap, "");
    WrittenRow(m, swap);
    RewrittenNeverAccepted();
    assert Filter(facts, Accepts) == facts;
    assert added.Keys + REWRITTEN_KEYS == REWRITTEN_KEYS;
    FilterAgain(facts, Accepts, added, REWRITTEN_KEYS);
    ComposedReads(m, facts, swap);
    ModeTextReads(m);
    CleanSwapKept(swap);
    LockdownStable(Null);
    assert SwapPart(item) == swap;
  }

  lemma ComposedPasses(m: Mode, facts: Fields, swap: Fields)
    requires AllAccepted(facts) && CleanSwap(swap) && (swap != map[] ==> m == Tamper) && BatterySeen !in facts
    requires PhaseVerdict(Composed(m, facts, swap)) == BatteryPass
    ensures PassesAs(Dict(Composed(m, facts, swap)), m)
  {
    ComposedIsKept(m, facts, swap);
    ComposedReads(m, facts, swap);
    ModeTextReads(m);
  }

  lemma With(facts: Fields, key: Key, v: Val)
    requires AllAccepted(facts) && Accepts(key, v)
    ensures AllAccepted(facts[key := v])
  {
  }

  function PerformanceFacts(): Fields {
    map[RuntimeSeconds := Int(120), HostCount := Int(1), SampleCount := Int(100), DeniedSamples := Int(100),
        RevokeErrno := Int(13), RevokeFailOpen := Bool(false), UninstallVerified := Bool(true)]
  }

  function PerformanceRow(): Fields { Composed(Performance, PerformanceFacts(), map[]) }

  predicate PerformanceShows(row: Fields) {
    && Get(row, HarnessError) == Null
    && Get(row, RuntimeSeconds) == Int(120) && Get(row, HostCount) == Int(1) && Get(row, SampleCount) == Int(100)
    && Get(row, DeniedSamples) == Int(100) && Get(row, RevokeErrno) == Int(13) && Get(row, RevokeFailOpen) == Bool(false)
    && Get(row, UninstallVerified) == Bool(true)
  }

  lemma PerformanceShown(row: Fields)
    requires PerformanceShows(row) && Get(row, Battery) == Str(ModeText(Performance)) && Get(row, HostResult) == Str("PASS")
    ensures PhaseVerdict(row) == BatteryPass
  {
    ModeTextReads(Performance);
    PerformancePassIff(row);
  }

  lemma PerformanceCarries(facts: Fields, row: Fields)
    requires PerformanceShows(facts) && forall key | key !in REWRITTEN_KEYS :: Get(row, key) == Get(facts, key)
    ensures PerformanceShows(row)
  {
  }

  lemma PerformanceVerdict(facts: Fields)
    requires AllAccepted(facts) && PerformanceShows(facts)
    ensures PhaseVerdict(Composed(Performance, facts, map[])) == BatteryPass
  {
    ComposedReads(Performance, facts, map[]);
    PerformanceCarries(facts, Composed(Performance, facts, map[]));
    PerformanceShown(Composed(Performance, facts, map[]));
  }

  lemma PerformanceFrom(facts: Fields)
    requires AllAccepted(facts) && BatterySeen !in facts && PerformanceShows(facts)
    ensures PassesAs(Dict(Composed(Performance, facts, map[])), Performance)
  {
    PerformanceVerdict(facts);
    ComposedPasses(Performance, facts, map[]);
  }

  lemma PerformanceRowPasses()
    ensures PassesAs(Dict(PerformanceRow()), Performance)
  {
    PerformanceFactsAccepted();
    PerformanceFrom(PerformanceFacts());
  }

  lemma PerformanceFactsAccepted()
    ensures AllAccepted(PerformanceFacts())
  {
    With(map[], RuntimeSeconds, Int(120));
    With(map[RuntimeSeconds := Int(120)], HostCount, Int(1));
    var a: Fields := map[RuntimeSeconds := Int(120), HostCount := Int(1)];
    With(a, SampleCount, Int(100));
    SamplesAccepted(a[SampleCount := Int(100)]);
  }

  lemma SamplesAccepted(f: Fields)
    requires AllAccepted(f)
    ensures AllAccepted(f[DeniedSamples := Int(100)][RevokeErrno := Int(13)][RevokeFailOpen := Bool(false)][UninstallVerified := Bool(true)])
  {
    With(f, DeniedSamples, Int(100));
    var g := f[DeniedSamples := Int(100)];
    With(g, RevokeErrno, Int(13));
    With(g[RevokeErrno := Int(13)], RevokeFailOpen, Bool(false));
    With(g[RevokeErrno := Int(13)][RevokeFailOpen := Bool(false)], UninstallVerified, Bool(true));
  }

  function DistroImage(): Fields { map[Image := Str(IMAGE), BootImageAllowed := Bool(true), SealLane := Bool(true)] }

  function DistroTexts(): Fields {
    DistroImage()[Distro := Str("Ubuntu")][Kernel := Str("6.8")][KernelLsm := Str("bpf")][Result := Str("RECORDED")]
  }

  function DistroFacts(): Fields {
    DistroTexts()[EnrolledPid := Int(7)][EnrolledFileErrno := Int(13)][UnenrolledFileErrno := Int(0)][KernelBtf := Bool(true)]
      [UninstallVerified := Bool(true)]
  }

  function DistroRow(): Fields { Composed(DistroCheck, DistroFacts(), map[]) }

  lemma BpfAlone()
    ensures BpfListed(Str("bpf"))
  {
    SplitWhole("bpf", ',');
  }

  lemma DistroImageAccepted()
    ensures AllAccepted(DistroImage())
  {
    With(map[], Image, Str(IMAGE));
    With(map[Image := Str(IMAGE)], BootImageAllowed, Bool(true));
    With(map[Image := Str(IMAGE), BootImageAllowed := Bool(true)], SealLane, Bool(true));
  }

  lemma ProbesAccepted(f: Fields)
    requires AllAccepted(f)
    ensures AllAccepted(f[EnrolledPid := Int(7)][EnrolledFileErrno := Int(13)][UnenrolledFileErrno := Int(0)][KernelBtf := Bool(true)]
                        [UninstallVerified := Bool(true)])
  {
    With(f, EnrolledPid, Int(7));
    var g := f[EnrolledPid := Int(7)];
    With(g, EnrolledFileErrno, Int(13));
    With(g[EnrolledFileErrno := Int(13)], UnenrolledFileErrno, Int(0));
    var h := g[EnrolledFileErrno := Int(13)][UnenrolledFileErrno := Int(0)];
    With(h, KernelBtf, Bool(true));
    With(h[KernelBtf := Bool(true)], UninstallVerified, Bool(true));
  }

  lemma TextAccepted(key: Key, s: string)
    requires key == Distro || key == Kernel || key == KernelLsm || key == Result
    requires 0 < |s| <= 40
    requires forall c | c in s :: match key case Result => IsUpper(c) case KernelLsm => IsLower(c) case _ => IsAlnum(c) || c == '.'
    ensures Accepts(key, Str(s))
  {
    assert " ._()/+-"[1] == '.' && "._+-"[0] == '.';
  }

  lemma TextsAccepted(f: Fields)
    requires AllAccepted(f)
    ensures AllAccepted(f[Distro := Str("Ubuntu")][Kernel := Str("6.8")][KernelLsm := Str("bpf")][Result := Str("RECORDED")])
  {
    TextAccepted(Distro, "Ubuntu");
    TextAccepted(Kernel, "6.8");
    TextAccepted(KernelLsm, "bpf");
    TextAccepted(Result, "RECORDED");
    With(f, Distro, Str("Ubuntu"));
    var g := f[Distro := Str("Ubuntu")];
    With(g, Kernel, Str("6.8"));
    With(g[Kernel := Str("6.8")], KernelLsm, Str("bpf"));
    With(g[Kernel := Str("6.8")][KernelLsm := Str("bpf")], Result, Str("RECORDED"));
  }

  lemma DistroFactsAccepted()
    ensures AllAccepted(DistroFacts())
  {
    DistroImageAccepted();
    TextsAccepted(DistroImage());
    ProbesAccepted(DistroTexts());
  }

  predicate DistroShows(row: Fields) {
    && Get(row, HarnessError) == Null
    && Get(row, Image) == Str(IMAGE) && Get(row, BootImageAllowed) == Bool(true) && Get(row, SealLane) == Bool(true)
    && Get(row, Distro) == Str("Ubuntu") && Get(row, Kernel) == Str("6.8") && Get(row, KernelLsm) == Str("bpf")
    && Get(row, EnrolledPid) == Int(7) && Get(row, EnrolledFileErrno) == Int(13) && Get(row, UnenrolledFileErrno) == Int(0)
    && Get(row, Result) == Str("RECORDED") && Get(row, KernelBtf) == Bool(true) && Get(row, UninstallVerified) == Bool(true)
  }

  lemma DistroShown(row: Fields)
    requires DistroShows(row) && Get(row, Battery) == Str(ModeText(DistroCheck)) && Get(row, HostResult) == Str("PASS")
    ensures PhaseVerdict(row) == BatteryPass
  {
    ModeTextReads(DistroCheck);
    BpfAlone();
    DistroPassIff(row);
  }

  lemma DistroCarries(facts: Fields, row: Fields)
    requires DistroShows(facts) && forall key | key !in REWRITTEN_KEYS :: Get(row, key) == Get(facts, key)
    ensures DistroShows(row)
  {
  }

  lemma DistroVerdict(facts: Fields)
    requires AllAccepted(facts) && DistroShows(facts)
    ensures PhaseVerdict(Composed(DistroCheck, facts, map[])) == BatteryPass
  {
    ComposedReads(DistroCheck, facts, map[]);
    DistroCarries(facts, Composed(DistroCheck, facts, map[]));
    DistroShown(Composed(DistroCheck, facts, map[]));
  }

  lemma DistroFrom(facts: Fields)
    requires AllAccepted(facts) && BatterySeen !in facts && DistroShows(facts)
    ensures PassesAs(Dict(Composed(DistroCheck, facts, map[])), DistroCheck)
  {
    DistroVerdict(facts);
    ComposedPasses(DistroCheck, facts, map[]);
  }

  lemma DistroFactsShow()
    ensures DistroShows(DistroFacts()) && BatterySeen !in DistroFacts()
  {
  }

  lemma DistroRowPasses()
    ensures PassesAs(Dict(DistroRow()), DistroCheck)
  {
    DistroFactsAccepted();
    DistroFactsShow();
    DistroFrom(DistroFacts());
  }

  // A pin name ends in the pid of the loader that holds it.

  lemma {:induction false} AfterLastShort(s: string, sep: string)
    requires |s| < |sep|
    ensures AfterLast(s, sep) == None
  {
    if s != "" {
      AfterLastShort(s[1..], sep);
    }
  }

  lemma {:induction false} AfterLastSkips(before: string, s: string, sep: string)
    requires AfterLast(s, sep).Some?
    ensures AfterLast(before + s, sep) == AfterLast(s, sep)
  {
    if before == "" {
      assert before + s == s;
    } else {
      assert (before + s)[1..] == before[1..] + s;
      AfterLastSkips(before[1..], s, sep);
    }
  }

  const PIN: string := PinPrefix(DenyAttr) + "7"

  lemma PinIsOwned()
    ensures KeepPins(List([Str(PIN)])) == Some(List([Str(PIN)])) && OwnedPin(Str(PIN), Int(7), Int(7))
  {
    var end := INCOMING + "7";
    assert |INCOMING| == 10;
    assert end[1] == 'i';
    AfterLastShort(end[2..], INCOMING);
    assert end[1..][1..] == end[2..];
    assert AfterLast(end[1..], INCOMING) == None;
    assert end[10..] == "7";
    assert AfterLast(end, INCOMING) == Some("7");
    var n := |PIN| - 11;
    assert PIN[n..] == end;
    AfterLastSkips(PIN[..n], end, INCOMING);
    assert PIN[..n] + end == PIN;
    assert Decimal("") == 0 && Decimal("7") == 7;
    assert PIN[|PinPrefix(DenyAttr)|..] == "7";
  }

  function MapIds(a: int, b: int, c: int): Val {
    Dict(map[Stem(DenyAttr) := Int(a), Stem(DenyAttrDrops) := Int(b), Stem(DenyOverflow) := Int(c)])
  }

  function SwapMaps(): Fields { map[BeforeIds := MapIds(1, 2, 3), Ids := MapIds(4, 5, 6)] }

  function SwapPins(pin: string): Fields {
    SwapMaps()[IncomingBefore := List([])][Incoming := List([])][IncomingSeen := List([Str(pin)])]
  }

  function SwapRecord(pin: string): Fields {
    SwapPins(pin)[Loaders := List([Dict(map[Host := Int(7), Ns := Int(7)])])][Swapped := Bool(true)]
  }

  lemma MapIdsKept(a: int, b: int, c: int)
    requires 0 <= a < TWO_32 && 0 <= b < TWO_32 && 0 <= c < TWO_32
    ensures KeepIds(MapIds(a, b, c)) == Some(MapIds(a, b, c))
    ensures forall m: DenyMap :: Get(MapIds(a, b, c).fields, Stem(m)) == Int(match m case DenyAttr => a case DenyAttrDrops => b case DenyOverflow => c)
  {
    var d := MapIds(a, b, c);
    assert KeepIds(d).value.fields == d.fields;
  }

  lemma LoaderKept()
    ensures var loaders := List([Dict(map[Host := Int(7), Ns := Int(7)])]); KeepLoaders(loaders) == Some(loaders)
  {
    var loaders := List([Dict(map[Host := Int(7), Ns := Int(7)])]);
    assert IsLoader(loaders.items[0]) && LoaderOnly(loaders.items[0]) == loaders.items[0];
    assert KeepLoaders(loaders).value.items == loaders.items;
  }

  lemma SwapWith(swap: Fields, key: Key, v: Val)
    requires CleanSwap(swap) && KeepSwap(key, v) == Some(v)
    ensures CleanSwap(swap[key := v])
  {
  }

  lemma SwapMapsClean()
    ensures CleanSwap(SwapMaps())
  {
    MapIdsKept(1, 2, 3);
    MapIdsKept(4, 5, 6);
    SwapWith(map[], BeforeIds, MapIds(1, 2, 3));
    SwapWith(map[BeforeIds := MapIds(1, 2, 3)], Ids, MapIds(4, 5, 6));
  }

  lemma PinsClean(w: Fields, pin: string)
    requires CleanSwap(w) && KeepPins(List([Str(pin)])) == Some(List([Str(pin)]))
    ensures CleanSwap(w[IncomingBefore := List([])][Incoming := List([])][IncomingSeen := List([Str(pin)])])
  {
    SwapWith(w, IncomingBefore, List([]));
    SwapWith(w[IncomingBefore := List([])], Incoming, List([]));
    SwapWith(w[IncomingBefore := List([])][Incoming := List([])], IncomingSeen, List([Str(pin)]));
  }

  lemma RestClean(w: Fields, loaders: Val)
    requires CleanSwap(w) && KeepLoaders(loaders) == Some(loaders)
    ensures CleanSwap(w[Loaders := loaders][Swapped := Bool(true)])
  {
    SwapWith(w, Loaders, loaders);
    SwapWith(w[Loaders := loaders], Swapped, Bool(true));
  }

  lemma SwapRecordClean(pin: string)
    requires KeepPins(List([Str(pin)])) == Some(List([Str(pin)]))
    ensures CleanSwap(SwapRecord(pin)) && SwapRecord(pin) != map[]
  {
    SwapMapsClean();
    PinsClean(SwapMaps(), pin);
    LoaderKept();
    RestClean(SwapPins(pin), List([Dict(map[Host := Int(7), Ns := Int(7)])]));
    assert Swapped in SwapRecord(pin);
  }

  lemma SwapRecordShows(pin: string)
    requires OwnedPin(Str(pin), Int(7), Int(7))
    ensures SwapEvidence(SwapRecord(pin)) && Get(SwapRecord(pin), Swapped) == Bool(true)
  {
    MapIdsKept(1, 2, 3);
    MapIdsKept(4, 5, 6);
    OwnedIff(Str(pin), Int(7), Int(7));
    var loader := Get(SwapRecord(pin), Loaders).items[0].fields;
    assert Get(loader, Host) == Int(7) && Get(loader, Ns) == Int(7);
  }

  function TamperClaim(): Fields { map[KillTiming := Str(KILL_AFTER_MAP_SWAP), ClaimScope := Str(CLAIM_SCOPE_2F)] }

  function TamperErrnos(): Fields {
    TamperClaim()[ControlErrno := Int(0)][EnrolledNetErrno := Int(1)][EnrolledFileErrno := Int(13)][AllowlistedPrivateErrno := Int(0)]
  }

  function TamperFacts(): Fields {
    TamperErrnos()[EnrolledPid := Int(9)][PostKillPid := Int(9)][PostKillAnchor := Int(1)][FileAttributed := Bool(true)]
      [UninstallVerified := Bool(true)]
  }

  function TamperRow(): Fields { Composed(Tamper, TamperFacts(), SwapRecord(PIN)) }

  lemma TamperClaimAccepted()
    ensures AllAccepted(TamperClaim())
  {
    With(map[], KillTiming, Str(KILL_AFTER_MAP_SWAP));
    With(map[KillTiming := Str(KILL_AFTER_MAP_SWAP)], ClaimScope, Str(CLAIM_SCOPE_2F));
  }

  lemma ErrnosAccepted(f: Fields)
    requires AllAccepted(f)
    ensures AllAccepted(f[ControlErrno := Int(0)][EnrolledNetErrno := Int(1)][EnrolledFileErrno := Int(13)][AllowlistedPrivateErrno := Int(0)])
  {
    With(f, ControlErrno, Int(0));
    var g := f[ControlErrno := Int(0)];
    With(g, EnrolledNetErrno, Int(1));
    With(g[EnrolledNetErrno := Int(1)], EnrolledFileErrno, Int(13));
    With(g[EnrolledNetErrno := Int(1)][EnrolledFileErrno := Int(13)], AllowlistedPrivateErrno, Int(0));
  }

  lemma PostKillAccepted(f: Fields)
    requires AllAccepted(f)
    ensures AllAccepted(f[EnrolledPid := Int(9)][PostKillPid := Int(9)][PostKillAnchor := Int(1)][FileAttributed := Bool(true)]
                        [UninstallVerified := Bool(true)])
  {
    With(f, EnrolledPid, Int(9));
    var g := f[EnrolledPid := Int(9)];
    With(g, PostKillPid, Int(9));
    With(g[PostKillPid := Int(9)], PostKillAnchor, Int(1));
    var h := g[PostKillPid := Int(9)][PostKillAnchor := Int(1)];
    With(h, FileAttributed, Bool(true));
    With(h[FileAttributed := Bool(true)], UninstallVerified, Bool(true));
  }

  lemma TamperFactsAccepted()
    ensures AllAccepted(TamperFacts())
  {
    TamperClaimAccepted();
    ErrnosAccepted(TamperClaim());
    PostKillAccepted(TamperErrnos());
  }

  predicate TamperShows(row: Fields) {
    && Get(row, HarnessError) == Null && ClaimFilled(row)
    && Get(row, ControlErrno) == Int(0) && Get(row, EnrolledNetErrno) == Int(1) && Get(row, EnrolledFileErrno) == Int(13)
    && Get(row, AllowlistedPrivateErrno) == Int(0) && Get(row, EnrolledPid) == Int(9) && Get(row, PostKillPid) == Int(9)
    && Get(row, PostKillAnchor) == Int(1) && Get(row, LoaderUp) == Null && Get(row, FileAttributed) == Bool(true)
    && Get(row, UninstallVerified) == Bool(true)
  }

  lemma TamperShown(row: Fields)
    requires TamperShows(row) && Get(row, Battery) == Str(ModeText(Tamper)) && Get(row, HostResult) == Str("PASS")
    requires Get(row, MapSwap).Dict? && SwapEvidence(Get(row, MapSwap).fields) && Get(Get(row, MapSwap).fields, Swapped) == Bool(true)
    ensures PhaseVerdict(row) == BatteryPass
  {
    ModeTextReads(Tamper);
    TamperPassIff(row);
  }

  lemma TamperCarries(facts: Fields, row: Fields)
    requires TamperShows(facts) && forall key | key !in REWRITTEN_KEYS :: Get(row, key) == Get(facts, key)
    ensures TamperShows(row)
  {
  }

  lemma TamperVerdict(facts: Fields, swap: Fields)
    requires AllAccepted(facts) && TamperShows(facts) && swap != map[] && SwapEvidence(swap) && Get(swap, Swapped) == Bool(true)
    ensures PhaseVerdict(Composed(Tamper, facts, swap)) == BatteryPass
  {
    ComposedReads(Tamper, facts, swap);
    TamperCarries(facts, Composed(Tamper, facts, swap));
    TamperShown(Composed(Tamper, facts, swap));
  }

  lemma TamperFrom(facts: Fields, swap: Fields)
    requires AllAccepted(facts) && BatterySeen !in facts && TamperShows(facts)
    requires CleanSwap(swap) && swap != map[] && SwapEvidence(swap) && Get(swap, Swapped) == Bool(true)
    ensures PassesAs(Dict(Composed(Tamper, facts, swap)), Tamper)
  {
    TamperVerdict(facts, swap);
    ComposedPasses(Tamper, facts, swap);
  }

  lemma TamperFactsShow()
    ensures TamperShows(TamperFacts()) && BatterySeen !in TamperFacts()
  {
  }

  lemma TamperRowPasses()
    ensures PassesAs(Dict(TamperRow()), Tamper)
  {
    TamperFactsAccepted();
    TamperFactsShow();
    PinIsOwned();
    SwapRecordClean(PIN);
    SwapRecordShows(PIN);
    TamperFrom(TamperFacts(), SwapRecord(PIN));
  }

  lemma OneOfThree(ok: (Val, Mode) -> bool, a: Val, b: Val, c: Val, i: int)
    requires ok(a, Performance) && ok(b, Tamper) && ok(c, DistroCheck) && 0 <= i < 3
    ensures ok([a, b, c][i], MODES[i])
  {
  }

  /** Whatever follows three passing rows, the raw list does not pass and its stored form does. */
  lemma CutPasses(a: Val, b: Val, c: Val, more: seq<Val>, reason: Verdict -> string)
    requires PassesAs(a, Performance) && PassesAs(b, Tamper) && PassesAs(c, DistroCheck) && more != []
    ensures !PhasesPass([a, b, c] + more) && PhasesPass(Sanitised(FirstThree([a, b, c] + more), reason))
  {
    forall i | 0 <= i < 3 ensures PassesAs([a, b, c][i], MODES[i]) {
      OneOfThree(PassesAs, a, b, c, i);
    }
    assert PhasesPass([a, b, c]);
    SanitisedPassesAgain([a, b, c], reason);
    assert FirstThree([a, b, c] + more) == [a, b, c];
  }

  /** And three such rows exist. */
  lemma CutMakesPass(reason: Verdict -> string)
    ensures var rows := [Dict(PerformanceRow()), Dict(TamperRow()), Dict(DistroRow())] + [Null];
            !PhasesPass(rows) && PhasesPass(Sanitised(FirstThree(rows), reason))
  {
    PerformanceRowPasses();
    TamperRowPasses();
    DistroRowPasses();
    CutPasses(Dict(PerformanceRow()), Dict(TamperRow()), Dict(DistroRow()), [Null], reason);
  }
}
