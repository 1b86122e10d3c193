/**
 The crash-recovery evidence: one denied probe before the loader restart and one after.

 The host keeps typed facts only, grades the kept integers itself, and reports a hold only
 if both sides hold. Sanitising is a projection, so a stored record keeps its cause and its
 lateness however often it is rewritten.
 */
module RestartRows {
  import opened PyJson

  datatype Key =
    | Errno | AnchorMatch | NewRow | PassFlag | PidMatch | RowSeen
    | Anchor | ExpectedAnchor | Pid | RowPid
    | MapRows | MapRowsBefore | RowCount | RowsBefore | MapRowsAfterNew
    | WaitS | LedgerTs | ProbeAt | SeenAt | CauseKey | LedgerTsSource | LedgerLatencyS | LedgerLatencySource
    | Before | After
    | SetupInvalid | WhileLoaderUp | EnrollRestart | HeldFlag | RestartRowsKey | UnenrolledAfter | EnrolledAfter
    | FileErrno | Path | LineageAnchor | DenyEvent
    | DenyBefore | DenyAfter | Battery | Steps | HostResult | UpgradePass | Reason
    | Other(name: string)

  type Val = Value<Key>
  type Fields = map<Key, Val>

  const ROW_CAP_SECONDS: int := 15
  const ROW_LATE_SECONDS: int := 5
  const CEILING_PATH: string := "/var/lib/vantio-pe-clean-host/d/secret"

  /** Timestamp text is read by functions of the caller: which text is kept, what it means, how seconds are rounded. */
  datatype Clock = Clock(keeps: string -> bool, seconds: string -> Option<real>, round: real -> real)

  // ----- sanitising one side -----

  /** Python's == between any value and an int: a float or a bool of that value is equal to it. */
  predicate EqualsInt(v: Val, n: int) {
    match v
    case Int(m) => m == n
    case Float(Finite(r)) => r == n as real
    case Bool(b) => n == if b then 1 else 0
    case _ => false
  }

  /** The least magnitude of an int that float() refuses: 2^1024 - 2^970. */
  const FLOAT_LIMIT: int :=
    0xFFFFFFFFFFFFFC00000000000000000000000000000000000000000000000000000000000000000000000000000000000000000000000000000000000000000000000000000000000000000000000000000000000000000000000000000000000000000000000000000000000000000000000000000000000000000000000000

  predicate FloatOverflows(v: Val) {
    v.Int? && (v.n >= FLOAT_LIMIT || -v.n >= FLOAT_LIMIT)
  }

  predicate IsCause(v: Val) {
    v == Str("anchor_not_carried") || v == Str("errno_invalid") || v == Str("errno_not_13")
    || v == Str("guest_flag_mismatch") || v == Str("not_blocked") || v == Str("pid_mismatch")
    || v == Str("row_absent_errno13") || v == Str("row_not_new") || v == Str("row_past_cap")
  }

  const TWO_32: int := 4294967296
  const TWO_22: int := 4194304

  predicate Accepts(clock: Clock, key: Key, v: Val) {
    match key
    case Errno => IntIn(v, 0, 4095)
    case AnchorMatch => v.Bool?
    case NewRow => v.Bool?
    case PassFlag => v.Bool?
    case PidMatch => v.Bool?
    case RowSeen => v.Bool?
    case Anchor => IntIn(v, 0, TWO_32)
    case ExpectedAnchor => IntIn(v, 0, TWO_32)
    case Pid => IntIn(v, 0, TWO_22)
    case RowPid => IntIn(v, 0, TWO_22)
    case MapRows => IntIn(v, 0, 100000)
    case MapRowsBefore => IntIn(v, 0, 100000)
    case RowCount => IntIn(v, 0, 100000)
    case RowsBefore => IntIn(v, 0, 100000)
    case WaitS => NumberIn(v, 0, 3600)
    case LedgerTs => v.Str? && clock.keeps(v.s)
    case ProbeAt => v.Str? && clock.keeps(v.s)
    case SeenAt => v.Str? && clock.keeps(v.s)
    case CauseKey => IsCause(v)
    case _ => false
  }

  function Rule(clock: Clock): (Key, Val) -> bool { (key, v) => Accepts(clock, key, v) }

  function Typed(clock: Clock, side: Fields): Fields { Filter(side, Rule(clock)) }

  function SecondsOf(clock: Clock, v: Val): Option<real> {
    if v.Str? then clock.seconds(v.s) else None
  }

  function Near(stamp: Option<real>, probe: real): bool {
    stamp.Some? && -86400.0 <= stamp.value - probe <= 86400.0
  }

  const FROM_ROW: string := "ledger_row"
  const HOST_SEEN: string := "host_seen_at"

  /** Seconds from the probe to the row, and which stamp they come from. */
  function Latency(clock: Clock, kept: Fields): Option<(real, string)> {
    var probe := SecondsOf(clock, Get(kept, ProbeAt));
    var ledger, seen := SecondsOf(clock, Get(kept, LedgerTs)), SecondsOf(clock, Get(kept, SeenAt));
    if probe.None? then None
    else if Near(ledger, probe.value) then Some((clock.round(ledger.value - probe.value), FROM_ROW))
    else if Near(seen, probe.value) then Some((clock.round(seen.value - probe.value), HOST_SEEN))
    else None
  }

  function NewMapRows(kept: Fields): Fields {
    if Get(kept, MapRows).Int? && Get(kept, MapRowsBefore).Int?
    then
      var more := Get(kept, MapRows).n - Get(kept, MapRowsBefore).n;
      map[MapRowsAfterNew := Int(if more > 0 then more else 0)]
    else map[]
  }

  function SourcePart(clock: Clock, kept: Fields): Fields {
    map[LedgerTsSource := Str(if SecondsOf(clock, Get(kept, LedgerTs)).Some? then FROM_ROW else HOST_SEEN)]
  }

  function LatencyPart(clock: Clock, kept: Fields): Fields {
    var l := Latency(clock, kept);
    if l.Some? then map[LedgerLatencyS := Float(Finite(l.value.0)), LedgerLatencySource := Str(l.value.1)] else map[]
  }

  /** What the host derives from the kept facts; the guest's own values of these keys are never kept. */
  function Derived(clock: Clock, kept: Fields): Fields {
    NewMapRows(kept) +
    if Get(kept, RowSeen) == Bool(true) then SourcePart(clock, kept) + LatencyPart(clock, kept) else map[]
  }

  function Kept(clock: Clock, side: Fields): Fields {
    Typed(clock, side) + Derived(clock, Typed(clock, side))
  }

  datatype Error = TypeError | OverflowError

  datatype Allowed = Kept(fields: Fields) | Absent | Raises(error: Error)

  function AllowSide(clock: Clock, v: Val): Allowed {
    if !v.Dict? then Absent
    else if FloatOverflows(Get(v.fields, WaitS)) then Raises(OverflowError)
    else if !Hashable(Get(v.fields, CauseKey)) then Raises(TypeError)
    else Allowed.Kept(Kept(clock, v.fields))
  }

  /** The sanitiser as written: facts are copied key by key, then the derived ones are set. */
  method AllowRestartSide(clock: Clock, v: Val) returns (r: Allowed)
    ensures r == AllowSide(clock, v)
  {
    if !v.Dict? {
      return Absent;
    }
    if FloatOverflows(Get(v.fields, WaitS)) {
      return Raises(OverflowError);
    }
    if !Hashable(Get(v.fields, CauseKey)) {
      return Raises(TypeError);
    }
    var kept := FilterLoop(v.fields, Rule(clock));
    var derived := Derived(clock, kept);
    return Allowed.Kept(kept + derived);
  }

  // ----- sanitising is a projection -----

  const DERIVED_KEYS: set<Key> := {MapRowsAfterNew, LedgerTsSource, LedgerLatencyS, LedgerLatencySource}

  lemma DerivedNeverAccepted(clock: Clock)
    ensures NeverAccepted(Rule(clock), DERIVED_KEYS)
  {
  }

  lemma DerivedKeysOnly(clock: Clock, kept: Fields)
    ensures Derived(clock, kept).Keys <= DERIVED_KEYS
  {
  }

  lemma KeptReads(clock: Clock, side: Fields, key: Key)
    requires key !in DERIVED_KEYS
    ensures Get(Kept(clock, side), key) == if Accepts(clock, key, Get(side, key)) then Get(side, key) else Null
    ensures key in Kept(clock, side) <==> Accepts(clock, key, Get(side, key))
  {
    DerivedKeysOnly(clock, Typed(clock, side));
    FilterReads(side, Rule(clock), Derived(clock, Typed(clock, side)), key);
  }

  lemma AllowSideIdempotent(clock: Clock, v: Val)
    requires AllowSide(clock, v).Kept?
    ensures AllowSide(clock, Dict(AllowSide(clock, v).fields)) == AllowSide(clock, v)
  {
    var side := v.fields;
    var typed := Typed(clock, side);
    var derived := Derived(clock, typed);
    DerivedNeverAccepted(clock);
    DerivedKeysOnly(clock, typed);
    assert derived.Keys + {} == derived.Keys;
    FilterAgain(side, Rule(clock), derived, {});
    KeptReads(clock, side, WaitS);
    KeptReads(clock, side, CauseKey);
  }

  datatype AllowedRows = Rows(rows: Fields) | RowsRaise(error: Error)

  function Part(key: Key, side: Allowed): Fields {
    if side.Kept? then map[key := Dict(side.fields)] else map[]
  }

  /** Both sides; an exception on either is an exception of the whole. */
  function AllowRows(clock: Clock, v: Val): AllowedRows {
    var d := AsDict(v);
    var before, after := AllowSide(clock, Get(d, Before)), AllowSide(clock, Get(d, After));
    if before.Raises? then RowsRaise(before.error)
    else if after.Raises? then RowsRaise(after.error)
    else Rows(Part(Before, before) + Part(After, after))
  }

  lemma PartsRead(before: Allowed, after: Allowed)
    ensures var rows := Part(Before, before) + Part(After, after);
            && Get(rows, Before) == (if before.Kept? then Dict(before.fields) else Null)
            && Get(rows, After) == (if after.Kept? then Dict(after.fields) else Null)
  {
  }

  /** The stored restart evidence is a fixed point of its sanitiser. */
  lemma AllowRowsIdempotent(clock: Clock, v: Val)
    requires AllowRows(clock, v).Rows?
    ensures AllowRows(clock, Dict(AllowRows(clock, v).rows)) == AllowRows(clock, v)
  {
    var before, after := AllowSide(clock, Get(AsDict(v), Before)), AllowSide(clock, Get(AsDict(v), After));
    PartsRead(before, after);
    if before.Kept? {
      AllowSideIdempotent(clock, Get(AsDict(v), Before));
    }
    if after.Kept? {
      AllowSideIdempotent(clock, Get(AsDict(v), After));
    }
  }

  // ----- the grade -----

  datatype Cause =
    | Held | ErrnoInvalid | NotBlocked | ErrnoNot13 | RowAbsent | RowPastCap | RowNotNew | PidMismatch
    | AnchorNotCarried | GuestFlagMismatch | RowsMissing

  datatype RowsVerdict = Verdict(cause: Cause, beforeRestart: bool)

  /** A wait that is a number, finite and not negative. */
  predicate IsWait(v: Val) {
    (v.Int? && 0 <= v.n) || (v.Float? && v.x.Finite? && 0.0 <= v.x.r)
  }

  function WaitOf(v: Val): real
    requires IsWait(v)
  {
    if v.Int? then v.n as real else v.x.r
  }

  predicate Positive(v: Val) { v.Int? && v.n > 0 }

  predicate Grew(before: Val, after: Val) {
    before.Int? && after.Int? && 0 <= before.n < after.n
  }

  predicate FlagRefutes(side: Fields, key: Key) {
    key in side && side[key] != Bool(true)
  }

  /** The checks of one side in their order; `refuted` says that a guest flag is present and not true. */
  function Judge(errno: Val, seen: Val, wait: Val, before: Val, count: Val, pid: Val, rowPid: Val, anchor: Val,
                 expected: Val, refuted: bool): Cause {
    if !errno.Int? then ErrnoInvalid
    else if errno.n == 0 then NotBlocked
    else if errno.n != 13 then ErrnoNot13
    else if seen != Bool(true) || !IsWait(wait) then RowAbsent
    else if WaitOf(wait) > ROW_CAP_SECONDS as real then RowPastCap
    else if !Grew(before, count) then RowNotNew
    else if !Positive(pid) || !EqualsInt(rowPid, pid.n) then PidMismatch
    else if !Positive(anchor) || (expected != Null && !EqualsInt(expected, anchor.n)) then AnchorNotCarried
    else if refuted then GuestFlagMismatch
    else Held
  }

  function SideCause(side: Fields): (c: Cause)
    ensures c == Held ==> IsWait(Get(side, WaitS)) && Get(side, Anchor).Int?
  {
    Judge(Get(side, Errno), Get(side, RowSeen), Get(side, WaitS), Get(side, RowsBefore), Get(side, RowCount),
          Get(side, Pid), Get(side, RowPid), Get(side, Anchor), Get(side, ExpectedAnchor),
          FlagRefutes(side, NewRow) || FlagRefutes(side, PidMatch) || FlagRefutes(side, AnchorMatch))
  }

  function RowCause(v: Val): Cause {
    if v.Dict? then SideCause(v.fields) else ErrnoInvalid
  }

  function RowsCause(rows: Fields): RowsVerdict {
    var before, after := Get(rows, Before), Get(rows, After);
    if !before.Dict? || !after.Dict? then Verdict(RowsMissing, false)
    else if SideCause(before.fields) != Held then Verdict(SideCause(before.fields), true)
    else if SideCause(after.fields) != Held then Verdict(SideCause(after.fields), false)
    else if !EqualsInt(Get(after.fields, ExpectedAnchor), Get(before.fields, Anchor).n) then Verdict(AnchorNotCarried, false)
    else Verdict(Held, false)
  }

  function LateOf(v: Val): Option<real> {
    if RowCause(v) == Held && WaitOf(Get(v.fields, WaitS)) > ROW_LATE_SECONDS as real
    then Some(WaitOf(Get(v.fields, WaitS))) else None
  }

  /** The largest wait over the prompt limit among the sides that held; the source rounds it. */
  function LateSeconds(rows: Fields): Option<real> {
    var b, a := LateOf(Get(rows, Before)), LateOf(Get(rows, After));
    if b.None? then a else if a.None? then b else if a.value > b.value then a else b
  }

  // ----- what a held side is, in the guest's own words -----

  /**
   The raw facts of a held side: errno 13, a row seen within the cap, the count strictly up,
   the row's pid the probe's pid, a positive anchor, no kept anchor expectation against it and
   no flag saying false.
   */
  predicate RawHeld(side: Fields) {
    && RawRow(Get(side, Errno), Get(side, RowSeen), Get(side, WaitS), Get(side, RowsBefore), Get(side, RowCount))
    && RawNames(Get(side, Pid), Get(side, RowPid), Get(side, Anchor), Get(side, ExpectedAnchor))
    && Get(side, NewRow) != Bool(false) && Get(side, PidMatch) != Bool(false) && Get(side, AnchorMatch) != Bool(false)
  }

  predicate RawRow(errno: Val, seen: Val, wait: Val, before: Val, count: Val) {
    && errno == Int(13) && seen == Bool(true) && NumberIn(wait, 0, ROW_CAP_SECONDS)
    && IntIn(before, 0, 100000) && IntIn(count, 0, 100000) && before.n < count.n
  }

  predicate RawNames(pid: Val, rowPid: Val, anchor: Val, expected: Val) {
    && IntIn(pid, 1, TWO_22) && rowPid == pid && IntIn(anchor, 1, TWO_32)
    && (IntIn(expected, 0, TWO_32) ==> expected == anchor)
  }

  function KeptInt(v: Val, high: int): Val { if IntIn(v, 0, high) then v else Null }

  lemma JudgeKept(errno: Val, seen: Val, wait: Val, before: Val, count: Val, pid: Val, rowPid: Val, anchor: Val,
                  expected: Val, refuted: bool)
    ensures Judge(KeptInt(errno, 4095), if seen.Bool? then seen else Null, if NumberIn(wait, 0, 3600) then wait else Null,
                  KeptInt(before, 100000), KeptInt(count, 100000), KeptInt(pid, TWO_22), KeptInt(rowPid, TWO_22),
                  KeptInt(anchor, TWO_32), KeptInt(expected, TWO_32), refuted) == Held <==>
            RawRow(errno, seen, wait, before, count) && RawNames(pid, rowPid, anchor, expected) && !refuted
  {
  }

  lemma FlagKept(clock: Clock, side: Fields, key: Key)
    requires key == NewRow || key == PidMatch || key == AnchorMatch
    ensures FlagRefutes(Kept(clock, side), key) <==> Get(side, key) == Bool(false)
  {
    KeptReads(clock, side, key);
  }

  lemma KeptRow(clock: Clock, side: Fields)
    ensures var k := Kept(clock, side);
            && Get(k, Errno) == KeptInt(Get(side, Errno), 4095)
            && Get(k, RowSeen) == (if Get(side, RowSeen).Bool? then Get(side, RowSeen) else Null)
            && Get(k, WaitS) == (if NumberIn(Get(side, WaitS), 0, 3600) then Get(side, WaitS) else Null)
            && Get(k, RowsBefore) == KeptInt(Get(side, RowsBefore), 100000)
            && Get(k, RowCount) == KeptInt(Get(side, RowCount), 100000)
  {
    KeptReads(clock, side, Errno);
    KeptReads(clock, side, RowSeen);
    KeptReads(clock, side, WaitS);
    KeptCounts(clock, side);
  }

  lemma KeptCounts(clock: Clock, side: Fields)
    ensures var k := Kept(clock, side);
            && Get(k, RowsBefore) == KeptInt(Get(side, RowsBefore), 100000)
            && Get(k, RowCount) == KeptInt(Get(side, RowCount), 100000)
  {
    KeptReads(clock, side, RowsBefore);
    KeptReads(clock, side, RowCount);
  }

  lemma KeptNames(clock: Clock, side: Fields)
    ensures var k := Kept(clock, side);
            && Get(k, Pid) == KeptInt(Get(side, Pid), TWO_22) && Get(k, RowPid) == KeptInt(Get(side, RowPid), TWO_22)
            && Get(k, Anchor) == KeptInt(Get(side, Anchor), TWO_32)
            && Get(k, ExpectedAnchor) == KeptInt(Get(side, ExpectedAnchor), TWO_32)
  {
    KeptReads(clock, side, Pid);
    KeptReads(clock, side, RowPid);
    KeptReads(clock, side, Anchor);
    KeptReads(clock, side, ExpectedAnchor);
  }

  /** The host's grade of a sanitised side, said of what the guest sent. */
  lemma SideHeldIff(clock: Clock, side: Fields)
    ensures SideCause(Kept(clock, side)) == Held <==> RawHeld(side)
  {
    KeptRow(clock, side);
    KeptNames(clock, side);
    FlagKept(clock, side, NewRow);
    FlagKept(clock, side, PidMatch);
    FlagKept(clock, side, AnchorMatch);
    var k := Kept(clock, side);
    JudgeKept(Get(side, Errno), Get(side, RowSeen), Get(side, WaitS), Get(side, RowsBefore), Get(side, RowCount),
              Get(side, Pid), Get(side, RowPid), Get(side, Anchor), Get(side, ExpectedAnchor),
              FlagRefutes(k, NewRow) || FlagRefutes(k, PidMatch) || FlagRefutes(k, AnchorMatch));
  }

  function ExampleSide(pid: int): Fields {
    map[Errno := Int(13), RowSeen := Bool(true), WaitS := Int(1), RowsBefore := Int(0), RowCount := Int(1),
        Pid := Int(pid), RowPid := Int(pid), Anchor := Int(9)]
  }

  lemma ExampleReads(pid: int, side: Fields)
    requires side == ExampleSide(pid) || side == ExampleSide(pid)[NewRow := Str("no")]
    ensures Get(side, Errno) == Int(13) && Get(side, RowSeen) == Bool(true) && Get(side, WaitS) == Int(1)
    ensures Get(side, RowsBefore) == Int(0) && Get(side, RowCount) == Int(1) && Get(side, Anchor) == Int(9)
    ensures Get(side, Pid) == Int(pid) == Get(side, RowPid) && Get(side, ExpectedAnchor) == Null
    ensures Get(side, PidMatch) == Null == Get(side, AnchorMatch)
    ensures Get(side, NewRow) == if side == ExampleSide(pid) then Null else Str("no")
  {
  }

  lemma ExampleGrades(pid: int, side: Fields)
    requires side == ExampleSide(pid) || side == ExampleSide(pid)[NewRow := Str("no")]
    requires pid > 0
    ensures SideCause(side) == if side == ExampleSide(pid) then Held else GuestFlagMismatch
    ensures RawHeld(side) <==> pid <= TWO_22
  {
    ExampleReads(pid, side);
  }

  /** Grading before sanitising would refuse a side that is held once an untyped flag is dropped. */
  lemma RawGradeRefusesMore(clock: Clock)
    ensures exists side: Fields :: SideCause(side) == GuestFlagMismatch && SideCause(Kept(clock, side)) == Held
  {
    var side := ExampleSide(7)[NewRow := Str("no")];
    assert NewRow in side && NewRow !in ExampleSide(7);
    ExampleGrades(7, side);
    SideHeldIff(clock, side);
  }

  /** And it would hold a side whose pid is no pid. */
  lemma RawGradeHoldsMore(clock: Clock)
    ensures exists side: Fields :: SideCause(side) == Held && SideCause(Kept(clock, side)) != Held
  {
    var side := ExampleSide(TWO_22 + 1);
    ExampleGrades(TWO_22 + 1, side);
    SideHeldIff(clock, side);
  }

  /** Both sides of the raw evidence hold and the anchor carried over the restart. */
  predicate RawRowsHeld(v: Val) {
    && v.Dict? && Get(v.fields, Before).Dict? && Get(v.fields, After).Dict?
    && var before, after := Get(v.fields, Before).fields, Get(v.fields, After).fields;
       RawHeld(before) && RawHeld(after) && Get(after, ExpectedAnchor) == Get(before, Anchor)
  }

  predicate RowsHold(clock: Clock, v: Val) {
    AllowRows(clock, v).Rows? && RowsCause(AllowRows(clock, v).rows).cause == Held
  }

  lemma AnchorCarried(anchor: Val, expected: Val)
    requires IntIn(anchor, 1, TWO_32)
    ensures KeptInt(anchor, TWO_32) == anchor
    ensures EqualsInt(KeptInt(expected, TWO_32), anchor.n) <==> expected == anchor
  {
  }

  lemma RowsCauseOf(rows: Fields, before: Fields, after: Fields)
    requires Get(rows, Before) == Dict(before) && Get(rows, After) == Dict(after)
    ensures RowsCause(rows).cause == Held <==>
            && SideCause(before) == Held && SideCause(after) == Held
            && EqualsInt(Get(after, ExpectedAnchor), Get(before, Anchor).n)
  {
  }

  lemma TwoSidesHeldIff(clock: Clock, before: Fields, after: Fields)
    ensures (&& SideCause(Kept(clock, before)) == Held && SideCause(Kept(clock, after)) == Held
             && EqualsInt(Get(Kept(clock, after), ExpectedAnchor), Get(Kept(clock, before), Anchor).n)) <==>
            RawHeld(before) && RawHeld(after) && Get(after, ExpectedAnchor) == Get(before, Anchor)
  {
    SideHeldIff(clock, before);
    SideHeldIff(clock, after);
    if RawHeld(before) {
      KeptNames(clock, before);
      KeptNames(clock, after);
      AnchorCarried(Get(before, Anchor), Get(after, ExpectedAnchor));
    }
  }

  /** Exactly when the sanitised evidence has no cause against it. */
  lemma RowsHeldIff(clock: Clock, v: Val)
    requires AllowRows(clock, v).Rows?
    ensures RowsHold(clock, v) <==> RawRowsHeld(v)
    ensures RawRowsHeld(v) ==> Get(v.fields[After].fields, Anchor) == Get(v.fields[Before].fields, Anchor)
  {
    var b, a := Get(AsDict(v), Before), Get(AsDict(v), After);
    PartsRead(AllowSide(clock, b), AllowSide(clock, a));
    if b.Dict? && a.Dict? {
      RowsCauseOf(AllowRows(clock, v).rows, Kept(clock, b.fields), Kept(clock, a.fields));
      TwoSidesHeldIff(clock, b.fields, a.fields);
    }
  }

  /** Rewriting stored evidence changes neither its cause nor its lateness. */
  lemma CauseAndLatenessStable(clock: Clock, v: Val)
    requires AllowRows(clock, v).Rows?
    ensures var rows := AllowRows(clock, v).rows;
            && AllowRows(clock, Dict(rows)).Rows?
            && RowsCause(AllowRows(clock, Dict(rows)).rows) == RowsCause(rows)
            && LateSeconds(AllowRows(clock, Dict(rows)).rows) == LateSeconds(rows)
  {
    AllowRowsIdempotent(clock, v);
  }

  /** Lateness is reported exactly when a held side waited over five seconds, and never exceeds the cap. */
  lemma LatenessBounds(rows: Fields)
    ensures LateSeconds(rows).Some? ==> (ROW_LATE_SECONDS as real) < LateSeconds(rows).value <= ROW_CAP_SECONDS as real
    ensures RowsCause(rows).cause == Held ==>
              (LateSeconds(rows).None? <==>
               && WaitOf(Get(Get(rows, Before).fields, WaitS)) <= ROW_LATE_SECONDS as real
               && WaitOf(Get(Get(rows, After).fields, WaitS)) <= ROW_LATE_SECONDS as real)
  {
  }

  // ----- the word for a battery -----

  predicate SampleHeld(v: Val) {
    && v.Dict? && EqualsInt(Get(v.fields, FileErrno), 13) && Get(v.fields, Path) == Str(CEILING_PATH)
    && Positive(Get(v.fields, Pid)) && Positive(Get(v.fields, LineageAnchor))
    && Get(v.fields, DenyEvent).Dict?
    && var event := Get(v.fields, DenyEvent).fields;
       && EqualsInt(Get(event, Pid), Get(v.fields, Pid).n)
       && EqualsInt(Get(event, LineageAnchor), Get(v.fields, LineageAnchor).n)
       && Get(event, Path) == Str(CEILING_PATH)
  }

  datatype Mode = CrashRecovery | UpgradeRollback | OtherMode

  datatype Word = WordHeld | WordFail | WordSetupInvalid | WordRaises(error: Error)

  function CrashWord(clock: Clock, body: Fields): Word {
    var restart := Get(body, EnrollRestart);
    if !SampleHeld(Get(body, WhileLoaderUp)) then WordSetupInvalid
    else if !restart.Dict? || Get(restart.fields, HeldFlag) != Bool(true) then WordFail
    else
      var rows := AllowRows(clock, Get(restart.fields, RestartRowsKey));
      if rows.RowsRaise? then WordRaises(rows.error)
      else if RowsCause(rows.rows).cause != Held then WordFail
      else if !EqualsInt(Get(AsDict(Get(body, UnenrolledAfter)), FileErrno), 0) then WordFail
      else if SampleHeld(Get(body, EnrolledAfter)) then WordHeld
      else WordFail
  }

  predicate SetupReason(v: Val) {
    v == Str("public_pin_absent") || v == Str("public_pin_digest") || v == Str("seal_absent") || v == Str("seal")
    || v == Str("cycle_incomplete")
  }

  predicate IsImageCycle(body: Fields) {
    Get(body, Battery) == Str("2c-upgrade-rollback") && Steps in body && HostResult in body
  }

  function UpgradeWord(body: Fields): Word {
    if IsImageCycle(body) then
      if Get(body, HostResult) == Str("RECORDED") && Get(body, UpgradePass) == Bool(true) then WordHeld
      else if !Hashable(Get(body, Reason)) then WordRaises(TypeError)
      else if SetupReason(Get(body, Reason)) then WordSetupInvalid
      else WordFail
    else if !SampleHeld(Get(body, DenyBefore)) then WordSetupInvalid
    else if SampleHeld(Get(body, DenyAfter)) then WordHeld
    else WordFail
  }

  function LoaderWord(clock: Clock, mode: Mode, body: Val): Word {
    if !body.Dict? then WordFail
    else if Get(body.fields, SetupInvalid) == Bool(true) then WordSetupInvalid
    else match mode
      case CrashRecovery => CrashWord(clock, body.fields)
      case UpgradeRollback => UpgradeWord(body.fields)
      case OtherMode => WordFail
  }

  /** Crash recovery is held exactly when all measured facts say so; the guest's flags alone never do. */
  lemma CrashHeldIff(clock: Clock, body: Val)
    requires body.Dict?
    requires AllowRows(clock, Get(AsDict(Get(body.fields, EnrollRestart)), RestartRowsKey)).Rows?
    ensures LoaderWord(clock, CrashRecovery, body) == WordHeld <==>
            && Get(body.fields, SetupInvalid) != Bool(true)
            && SampleHeld(Get(body.fields, WhileLoaderUp)) && SampleHeld(Get(body.fields, EnrolledAfter))
            && Get(body.fields, EnrollRestart).Dict?
            && Get(Get(body.fields, EnrollRestart).fields, HeldFlag) == Bool(true)
            && RawRowsHeld(Get(Get(body.fields, EnrollRestart).fields, RestartRowsKey))
            && EqualsInt(Get(AsDict(Get(body.fields, UnenrolledAfter)), FileErrno), 0)
  {
    RowsHeldIff(clock, Get(AsDict(Get(body.fields, EnrollRestart)), RestartRowsKey));
  }

  /** A held crash recovery names its evidence on both sides of the restart. */
  lemma CrashHeldEvidence(clock: Clock, body: Val) returns (before: Fields, after: Fields)
    requires LoaderWord(clock, CrashRecovery, body) == WordHeld
    ensures Get(AsDict(Get(AsDict(Get(body.fields, EnrollRestart)), RestartRowsKey)), Before) == Dict(before)
    ensures Get(AsDict(Get(AsDict(Get(body.fields, EnrollRestart)), RestartRowsKey)), After) == Dict(after)
    ensures Get(before, Errno) == Int(13) && Get(after, Errno) == Int(13)
    ensures Grew(Get(before, RowsBefore), Get(before, RowCount)) && Grew(Get(after, RowsBefore), Get(after, RowCount))
    ensures NumberIn(Get(before, WaitS), 0, 15) && NumberIn(Get(after, WaitS), 0, 15)
    ensures Get(before, RowPid) == Get(before, Pid) && Get(after, RowPid) == Get(after, Pid)
    ensures Get(before, Anchor) == Get(after, Anchor) == Get(after, ExpectedAnchor) && Positive(Get(before, Anchor))
  {
    CrashHeldIff(clock, body);
    var rows := Get(Get(body.fields, EnrollRestart).fields, RestartRowsKey);
    RowsHeldIff(clock, rows);
    before, after := Get(rows.fields, Before).fields, Get(rows.fields, After).fields;
  }

  /**
   The one way a crash-recovery word is an exception: everything before the rows passed, and a
   side carries an unhashable cause or a wait too large for a float.
   */
  lemma CrashRaisesIff(clock: Clock, body: Val)
    requires body.Dict?
    ensures LoaderWord(clock, CrashRecovery, body).WordRaises? <==>
            && Get(body.fields, SetupInvalid) != Bool(true)
            && SampleHeld(Get(body.fields, WhileLoaderUp))
            && Get(body.fields, EnrollRestart).Dict?
            && Get(Get(body.fields, EnrollRestart).fields, HeldFlag) == Bool(true)
            && var rows := AsDict(Get(Get(body.fields, EnrollRestart).fields, RestartRowsKey));
               RaisingSide(Get(rows, Before)) || RaisingSide(Get(rows, After))
  {
  }

  predicate RaisingSide(v: Val) {
    v.Dict? && (FloatOverflows(Get(v.fields, WaitS)) || !Hashable(Get(v.fields, CauseKey)))
  }
}
