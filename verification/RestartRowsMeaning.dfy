/**
 What the restart evidence says, in its own keys and numbers: the table of types, the first
 objection to a side, and the word for a battery.
 */
module RestartRowsMeaning {
  import opened PyJson
  import opened RestartRows

  // ----- the table of keys -----

  /** What a key takes: a truth value, a whole number from zero up to one, a stamp, a wait, a cause, or nothing. */
  datatype Slot = Flag | UpTo(most: int) | Stamp | Wait | Cause | NoSlot

  ghost function SlotOf(key: Key): Slot {
    match key
    case AnchorMatch | NewRow | PassFlag | PidMatch | RowSeen => Flag
    case Errno => UpTo(4095)
    case Anchor | ExpectedAnchor => UpTo(4294967296)
    case Pid | RowPid => UpTo(4194304)
    case MapRows | MapRowsBefore | RowCount | RowsBefore => UpTo(100000)
    case LedgerTs | ProbeAt | SeenAt => Stamp
    case WaitS => Wait
    case CauseKey => Cause
    case _ => NoSlot
  }

  const CAUSES: set<string> :=
    {"anchor_not_carried", "errno_invalid", "errno_not_13", "guest_flag_mismatch", "not_blocked", "pid_mismatch", "row_absent_errno13",
     "row_not_new", "row_past_cap"}

  ghost predicate Between(v: Val, low: real, high: real) {
    (v.Int? && low <= v.n as real <= high) || (v.Float? && v.x.Finite? && low <= v.x.r <= high)
  }

  ghost predicate Takes(clock: Clock, slot: Slot, v: Val) {
    match slot
    case Flag => v.Bool?
    case UpTo(most) => v.Int? && 0 <= v.n <= most
    case Stamp => v.Str? && clock.keeps(v.s)
    case Wait => Between(v, 0.0, 3600.0)
    case Cause => v.Str? && v.s in CAUSES
    case NoSlot => false
  }

  ghost predicate Fits(clock: Clock, key: Key, v: Val) { Takes(clock, SlotOf(key), v) }

  lemma FlagIff(clock: Clock, key: Key, v: Val)
    requires key == AnchorMatch || key == NewRow || key == PassFlag || key == PidMatch || key == RowSeen
    ensures Accepts(clock, key, v) <==> Fits(clock, key, v)
  {
  }

  lemma NumberIff(clock: Clock, key: Key, v: Val)
    requires key == Errno || key == Anchor || key == ExpectedAnchor || key == Pid || key == RowPid
    ensures Accepts(clock, key, v) <==> Fits(clock, key, v)
  {
  }

  lemma CountIff(clock: Clock, key: Key, v: Val)
    requires key == MapRows || key == MapRowsBefore || key == RowCount || key == RowsBefore
    ensures Accepts(clock, key, v) <==> Fits(clock, key, v)
  {
  }

  lemma TimeIff(clock: Clock, key: Key, v: Val)
    requires key == LedgerTs || key == ProbeAt || key == SeenAt || key == WaitS
    ensures Accepts(clock, key, v) <==> Fits(clock, key, v)
  {
  }

  lemma CauseIff(clock: Clock, v: Val)
    ensures Accepts(clock, CauseKey, v) <==> Fits(clock, CauseKey, v)
  {
  }

  lemma NoOther(clock: Clock, key: Key, v: Val)
    requires SlotOf(key).NoSlot?
    ensures !Accepts(clock, key, v)
  {
  }

  /** The sanitiser keeps a key exactly when the table has it with such a value. */
  lemma AcceptsIff(clock: Clock, key: Key, v: Val)
    ensures Accepts(clock, key, v) <==> Fits(clock, key, v)
  {
    match key {
      case AnchorMatch | NewRow | PassFlag | PidMatch | RowSeen => FlagIff(clock, key, v);
      case Errno | Anchor | ExpectedAnchor | Pid | RowPid => NumberIff(clock, key, v);
      case MapRows | MapRowsBefore | RowCount | RowsBefore => CountIff(clock, key, v);
      case LedgerTs | ProbeAt | SeenAt | WaitS => TimeIff(clock, key, v);
      case CauseKey => CauseIff(clock, v);
      case _ => NoOther(clock, key, v);
    }
  }

  // ----- what the host derives -----

  /** The whole number kept under a key, if there is one. */
  ghost predicate Has(kept: Fields, key: Key, n: int) { key in kept && kept[key] == Int(n) }

  /** New map rows are counted from the two totals, and never below zero. */
  lemma NewRowsAre(clock: Clock, kept: Fields)
    ensures var derived := Derived(clock, kept);
            && (MapRowsAfterNew in derived <==> Get(kept, MapRows).Int? && Get(kept, MapRowsBefore).Int?)
            && forall n, m | Has(kept, MapRows, n) && Has(kept, MapRowsBefore, m) ::
                 derived[MapRowsAfterNew] == Int(if n <= m then 0 else n - m)
  {
    assert MapRowsAfterNew !in SourcePart(clock, kept) && MapRowsAfterNew !in LatencyPart(clock, kept);
  }

  ghost predicate Dated(clock: Clock, v: Val, t: real) { v.Str? && clock.seconds(v.s) == Some(t) }

  ghost predicate WithinADay(s: real, t: real) { s - t <= 86400.0 && t - s <= 86400.0 }

  /** The latency is that of the ledger's own stamp if it is near the probe, else of the host's. */
  lemma LatencyIs(clock: Clock, kept: Fields)
    ensures Latency(clock, kept).Some? ==> exists t :: Dated(clock, Get(kept, ProbeAt), t)
    ensures forall t, s | Dated(clock, Get(kept, ProbeAt), t) && Dated(clock, Get(kept, LedgerTs), s) && WithinADay(s, t) ::
              Latency(clock, kept) == Some((clock.round(s - t), "ledger_row"))
    ensures forall t, s | Dated(clock, Get(kept, ProbeAt), t) && Dated(clock, Get(kept, SeenAt), s) && WithinADay(s, t)
                          && !(exists l :: Dated(clock, Get(kept, LedgerTs), l) && WithinADay(l, t)) ::
              Latency(clock, kept) == Some((clock.round(s - t), "host_seen_at"))
    ensures forall t | Dated(clock, Get(kept, ProbeAt), t)
                       && !(exists l :: Dated(clock, Get(kept, LedgerTs), l) && WithinADay(l, t))
                       && !(exists s :: Dated(clock, Get(kept, SeenAt), s) && WithinADay(s, t)) ::
              Latency(clock, kept) == None
  {
    var probe := SecondsOf(clock, Get(kept, ProbeAt));
    if probe.Some? {
      assert Dated(clock, Get(kept, ProbeAt), probe.value);
      NearIff(clock, Get(kept, LedgerTs), probe.value);
      NearIff(clock, Get(kept, SeenAt), probe.value);
    }
  }

  lemma NearIff(clock: Clock, v: Val, t: real)
    ensures Near(SecondsOf(clock, v), t) <==> exists s :: Dated(clock, v, s) && WithinADay(s, t)
  {
    if Near(SecondsOf(clock, v), t) {
      assert Dated(clock, v, SecondsOf(clock, v).value);
    }
  }

  /** A seen row says where its time comes from, and a dated one how late it was. */
  lemma SourceIs(clock: Clock, kept: Fields)
    ensures var derived, seen := Derived(clock, kept), Get(kept, RowSeen) == Bool(true);
            && Get(derived, LedgerTsSource) ==
               (if !seen then Null else if exists t :: Dated(clock, Get(kept, LedgerTs), t) then Str("ledger_row") else Str("host_seen_at"))
            && (LedgerLatencyS in derived <==> seen && Latency(clock, kept).Some?)
            && (LedgerLatencySource in derived <==> LedgerLatencyS in derived)
            && (LedgerLatencyS in derived ==>
                  derived[LedgerLatencyS] == Float(Finite(Latency(clock, kept).value.0))
                  && derived[LedgerLatencySource] == Str(Latency(clock, kept).value.1))
  {
    var ledger := SecondsOf(clock, Get(kept, LedgerTs));
    if ledger.Some? {
      assert Dated(clock, Get(kept, LedgerTs), ledger.value);
    }
    SourceOf(NewMapRows(kept), SourcePart(clock, kept), LatencyPart(clock, kept));
  }

  lemma SourceOf(rows: Fields, source: Fields, latency: Fields)
    requires rows.Keys <= {MapRowsAfterNew} && source.Keys == {LedgerTsSource} && latency.Keys <= {LedgerLatencyS, LedgerLatencySource}
    ensures Get(rows + (source + latency), LedgerTsSource) == source[LedgerTsSource]
    ensures forall key | key in {LedgerLatencyS, LedgerLatencySource} ::
              (key in rows + (source + latency) <==> key in latency) && (key in latency ==> (rows + (source + latency))[key] == latency[key])
  {
  }

  // ----- the objections to one side -----

  /** Python's equality with a whole number: a broken number or a flag of that value is equal to it. */
  ghost predicate Equal(v: Val, n: int) {
    v == Int(n) || v == Float(Finite(n as real)) || (v == Bool(true) && n == 1) || (v == Bool(false) && n == 0)
  }

  lemma EqualIff(v: Val, n: int)
    ensures EqualsInt(v, n) <==> Equal(v, n)
  {
  }

  ghost predicate Waited(v: Val) { (v.Int? && 0 <= v.n) || (v.Float? && v.x.Finite? && 0.0 <= v.x.r) }

  ghost predicate Says(side: Fields, key: Key) { key in side ==> side[key] == Bool(true) }

  /** The first objection to a side, in this order. */
  lemma SideCauseIff(side: Fields)
    ensures var cause, errno, pid, anchor := SideCause(side), Get(side, Errno), Get(side, Pid), Get(side, Anchor);
            var blocked := errno == Int(13);
            var seen := blocked && Get(side, RowSeen) == Bool(true) && Waited(Get(side, WaitS));
            var inTime := seen && Between(Get(side, WaitS), 0.0, 15.0);
            var isNew := inTime && Get(side, RowsBefore).Int? && Get(side, RowCount).Int? && 0 <= Get(side, RowsBefore).n < Get(side, RowCount).n;
            var named := isNew && pid.Int? && pid.n > 0 && Equal(Get(side, RowPid), pid.n);
            var carried := named && anchor.Int? && anchor.n > 0
                           && (Get(side, ExpectedAnchor) != Null ==> Equal(Get(side, ExpectedAnchor), anchor.n));
            var agreed := carried && Says(side, NewRow) && Says(side, PidMatch) && Says(side, AnchorMatch);
            && (cause == ErrnoInvalid <==> !errno.Int?) && (cause == NotBlocked <==> errno == Int(0))
            && (cause == ErrnoNot13 <==> errno.Int? && errno.n != 0 && !blocked) && (cause == RowAbsent <==> blocked && !seen)
            && (cause == RowPastCap <==> seen && !inTime) && (cause == RowNotNew <==> inTime && !isNew)
            && (cause == PidMismatch <==> isNew && !named) && (cause == AnchorNotCarried <==> named && !carried)
            && (cause == GuestFlagMismatch <==> carried && !agreed) && (cause == Held <==> agreed)
  {
    if Get(side, Pid).Int? {
      EqualIff(Get(side, RowPid), Get(side, Pid).n);
    }
    if Get(side, Anchor).Int? {
      EqualIff(Get(side, ExpectedAnchor), Get(side, Anchor).n);
    }
  }

  /** The first objection to the whole evidence: a missing side, the one before, the one after, the anchor between them. */
  lemma RowsCauseIff(rows: Fields)
    ensures var verdict, before, after := RowsCause(rows), Get(rows, Before), Get(rows, After);
            if !before.Dict? || !after.Dict? then verdict == Verdict(RowsMissing, false)
            else if SideCause(before.fields) != Held then verdict == Verdict(SideCause(before.fields), true)
            else if SideCause(after.fields) != Held then verdict == Verdict(SideCause(after.fields), false)
            else
              var carried := Get(before.fields, Anchor).Int? && Equal(Get(after.fields, ExpectedAnchor), Get(before.fields, Anchor).n);
              verdict == Verdict(if carried then Held else AnchorNotCarried, false)
  {
    if Get(rows, Before).Dict? && Get(rows, After).Dict? && Get(Get(rows, Before).fields, Anchor).Int? {
      EqualIff(Get(Get(rows, After).fields, ExpectedAnchor), Get(Get(rows, Before).fields, Anchor).n);
    }
  }

  /** A side that held and waited over five seconds. */
  ghost predicate LateBy(v: Val, t: real) {
    && v.Dict? && SideCause(v.fields) == Held && t > 5.0
    && (Get(v.fields, WaitS) == Float(Finite(t)) || (Get(v.fields, WaitS).Int? && t == Get(v.fields, WaitS).n as real))
  }

  lemma LateIff(v: Val, t: real)
    ensures LateOf(v) == Some(t) <==> LateBy(v, t)
  {
  }

  /** The lateness is the longest of those waits. */
  lemma LatenessIs(rows: Fields, t: real)
    ensures LateSeconds(rows) == Some(t) <==>
            && (LateBy(Get(rows, Before), t) || LateBy(Get(rows, After), t))
            && forall s | LateBy(Get(rows, Before), s) || LateBy(Get(rows, After), s) :: s <= t
  {
    forall v, s ensures LateOf(v) == Some(s) <==> LateBy(v, s) {
      LateIff(v, s);
    }
  }

  // ----- the word for a battery -----

  const SECRET: string := "/var/lib/vantio-pe-clean-host/d/secret"

  /** A sample: errno 13 on the sealed path, and an event of the same process, lineage and path. */
  ghost predicate Denied(v: Val) {
    && v.Dict? && Equal(Get(v.fields, FileErrno), 13) && Get(v.fields, Path) == Str(SECRET)
    && Get(v.fields, DenyEvent).Dict? && Get(Get(v.fields, DenyEvent).fields, Path) == Str(SECRET)
    && SameNumber(v.fields, Get(v.fields, DenyEvent).fields, Pid) && SameNumber(v.fields, Get(v.fields, DenyEvent).fields, LineageAnchor)
  }

  /** A positive number that both have. */
  ghost predicate SameNumber(a: Fields, b: Fields, key: Key) {
    Get(a, key).Int? && Get(a, key).n > 0 && Equal(Get(b, key), Get(a, key).n)
  }

  lemma SampleIff(v: Val)
    ensures SampleHeld(v) <==> Denied(v)
  {
    if v.Dict? {
      EqualIff(Get(v.fields, FileErrno), 13);
      if Get(v.fields, DenyEvent).Dict? && Get(v.fields, Pid).Int? && Get(v.fields, LineageAnchor).Int? {
        EqualIff(Get(Get(v.fields, DenyEvent).fields, Pid), Get(v.fields, Pid).n);
        EqualIff(Get(Get(v.fields, DenyEvent).fields, LineageAnchor), Get(v.fields, LineageAnchor).n);
      }
    }
  }

  /** The words of a crash recovery, in order: no setup, no held restart, evidence that raises or objects, and the samples after. */
  lemma CrashWordIff(clock: Clock, body: Fields)
    ensures var word, restart := CrashWord(clock, body), Get(body, EnrollRestart);
            var ready := Denied(Get(body, WhileLoaderUp));
            var again := ready && restart.Dict? && Get(restart.fields, HeldFlag) == Bool(true);
            var rows := AllowRows(clock, Get(AsDict(restart), RestartRowsKey));
            && (word == WordSetupInvalid <==> !ready)
            && (word.WordRaises? <==> again && rows.RowsRaise?) && (word.WordRaises? ==> word.error == rows.error)
            && (word == WordHeld <==>
                  again && rows.Rows? && RowsCause(rows.rows).cause == Held
                  && Equal(Get(AsDict(Get(body, UnenrolledAfter)), FileErrno), 0) && Denied(Get(body, EnrolledAfter)))
            && (word == WordFail <==> ready && word != WordHeld && !word.WordRaises?)
  {
    SampleIff(Get(body, WhileLoaderUp));
    SampleIff(Get(body, EnrolledAfter));
    EqualIff(Get(AsDict(Get(body, UnenrolledAfter)), FileErrno), 0);
  }

  const SETUP_REASONS: set<string> := {"public_pin_absent", "public_pin_digest", "seal_absent", "seal", "cycle_incomplete"}

  /** The words of an upgrade: an image cycle by its own result, anything else by its two samples. */
  lemma UpgradeWordIff(body: Fields)
    ensures var word, reason := UpgradeWord(body), Get(body, Reason);
            var cycle := Get(body, Battery) == Str("2c-upgrade-rollback") && Steps in body && HostResult in body;
            var recorded := Get(body, HostResult) == Str("RECORDED") && Get(body, UpgradePass) == Bool(true);
            if cycle then
              && (word == WordHeld <==> recorded) && (word == WordRaises(TypeError) <==> !recorded && (reason.List? || reason.Dict?))
              && (word == WordSetupInvalid <==> !recorded && reason.Str? && reason.s in SETUP_REASONS)
              && (word == WordFail <==> word != WordHeld && word != WordRaises(TypeError) && word != WordSetupInvalid)
            else
              && (word == WordSetupInvalid <==> !Denied(Get(body, DenyBefore)))
              && (word == WordHeld <==> Denied(Get(body, DenyBefore)) && Denied(Get(body, DenyAfter)))
              && (word == WordFail <==> Denied(Get(body, DenyBefore)) && !Denied(Get(body, DenyAfter)))
  {
    SampleIff(Get(body, DenyBefore));
    SampleIff(Get(body, DenyAfter));
  }

  /** A body that is no object fails, one that calls its setup invalid is that, and the mode decides the rest. */
  lemma LoaderWordIs(clock: Clock, mode: Mode, body: Val)
    ensures !body.Dict? ==> LoaderWord(clock, mode, body) == WordFail
    ensures body.Dict? && Get(body.fields, SetupInvalid) == Bool(true) ==> LoaderWord(clock, mode, body) == WordSetupInvalid
    ensures body.Dict? && Get(body.fields, SetupInvalid) != Bool(true) ==>
              && LoaderWord(clock, CrashRecovery, body) == CrashWord(clock, body.fields)
              && LoaderWord(clock, UpgradeRollback, body) == UpgradeWord(body.fields)
              && LoaderWord(clock, OtherMode, body) == WordFail
  {
  }

  // ----- the two sides together -----

  /** A side that is no object is left out; the others are sanitised, and one that raises makes all raise. */
  lemma AllowRowsIs(clock: Clock, v: Val)
    ensures var before, after := AllowSide(clock, Get(AsDict(v), Before)), AllowSide(clock, Get(AsDict(v), After));
            && (AllowRows(clock, v).RowsRaise? <==> before.Raises? || after.Raises?)
            && (AllowRows(clock, v).Rows? ==>
                  && Get(AllowRows(clock, v).rows, Before) == (if before.Kept? then Dict(before.fields) else Null)
                  && Get(AllowRows(clock, v).rows, After) == (if after.Kept? then Dict(after.fields) else Null))
  {
  }

  /** A side raises for a wait no float can hold, and then for a cause that cannot be looked up in a set. */
  lemma AllowSideIs(clock: Clock, v: Val)
    ensures var side := AllowSide(clock, v);
            && (side == Absent <==> !v.Dict?)
            && (side == Raises(OverflowError) <==> v.Dict? && FloatOverflows(Get(v.fields, WaitS)))
            && (side == Raises(TypeError) <==>
                  v.Dict? && !FloatOverflows(Get(v.fields, WaitS)) && (Get(v.fields, CauseKey).List? || Get(v.fields, CauseKey).Dict?))
            && (side.Kept? ==> side.fields == Typed(clock, v.fields) + Derived(clock, Typed(clock, v.fields)))
  {
  }

  // ----- the largest float -----

  function Two(n: nat): nat { if n == 0 then 1 else 2 * Two(n - 1) }

  lemma {:induction false} TwoSum(a: nat, b: nat)
    ensures Two(a + b) == Two(a) * Two(b)
  {
    if a > 0 {
      TwoSum(a - 1, b);
    }
  }

  lemma Double(n: nat, value: nat)
    requires Two(n) == value
    ensures Two(2 * n) == value * value && Two(2 * n + 1) == 2 * (value * value)
  {
    TwoSum(n, n);
  }

  /** The limit is 2^1024 - 2^970: float() rounds what is below it to a finite number and refuses the rest. */
  lemma FloatLimitIs()
    ensures FLOAT_LIMIT == Two(1024) - Two(970)
  {
    TwoIs970();
    TwoIs54();
    TwoSum(970, 54);
  }

  lemma TwoIs54()
    ensures Two(54) == 0x40000000000000
  {
    assert Two(6) == 64;
    Double(6, 64);
    Double(13, 8192);
    Double(27, 134217728);
  }

  lemma TwoIs970()
    ensures Two(970) == 0x400000000000000000000000000000000000000000000000000000000000000000000000000000000000000000000000000000000000000000000000000000000000000000000000000000000000000000000000000000000000000000000000000000000000000000000000000000000000000000000000000
  {
    assert Two(5) == 32;
    Double(5, 32);
    assert Two(10) == 1024;
    TwoSum(10, 5);
    assert Two(15) == 32768;
    Double(15, 0x8000);
    assert Two(30) == 0x40000000;
    Double(30, 0x40000000);
    assert Two(60) == 0x1000000000000000;
    Double(60, 0x1000000000000000);
    assert Two(121) == 0x2000000000000000000000000000000;
    Double(121, 0x2000000000000000000000000000000);
    assert Two(242) == 0x4000000000000000000000000000000000000000000000000000000000000;
    Double(242, 0x4000000000000000000000000000000000000000000000000000000000000);
    assert Two(485) == 0x20000000000000000000000000000000000000000000000000000000000000000000000000000000000000000000000000000000000000000000000000;
    Double(485, 0x20000000000000000000000000000000000000000000000000000000000000000000000000000000000000000000000000000000000000000000000000);
    assert Two(970) == 0x400000000000000000000000000000000000000000000000000000000000000000000000000000000000000000000000000000000000000000000000000000000000000000000000000000000000000000000000000000000000000000000000000000000000000000000000000000000000000000000000000;
  }

  /** A wait is too large for a float from there on, in either direction. */
  lemma OverflowIff(v: Val)
    ensures FloatOverflows(v) <==> v.Int? && (v.n >= Two(1024) - Two(970) || v.n <= Two(970) - Two(1024))
  {
    FloatLimitIs();
  }
}
