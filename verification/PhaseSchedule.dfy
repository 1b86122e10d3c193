/**
 The time-budgeted run of the three phase batteries.

 Each guest call ends within its own timeout; the reserve a phase needs before it may
 start is the exact sum of what it can use. So whatever the guest does, a phase that
 starts finishes by the deadline, and its one retry is never refused for lack of time.
 */
module PhaseSchedule {
  import opened PyJson
  import R = PhaseRow

  const SSHD_WAIT_SECONDS: int := 300
  const PROBE_SSH_TIMEOUT: int := 20
  const CASE_TIMEOUT: int := 900
  const UNINSTALL_TIMEOUT: int := 300
  const PULL_TIMEOUT: int := 120
  const DESCRIBE_TIMEOUT: int := 60
  const RETRY_NEED: int := SSHD_WAIT_SECONDS + PROBE_SSH_TIMEOUT + CASE_TIMEOUT + PULL_TIMEOUT + DESCRIBE_TIMEOUT + UNINSTALL_TIMEOUT
  const RESERVE: int := CASE_TIMEOUT + RETRY_NEED
  const JOB_LIMIT_AFTER_CREATE: int := 105 * 60
  const END_MARGIN: int := 300
  const MAX_LIFE_MINUTES: int := 120

  // ----- the guest -----

  datatype Call =
    | Guest(mode: R.Mode)
    | Probe
    | Pull
    | Uninstall(requireRow: bool, pid: int)
    | DescribeDisk
    | Wait(seconds: real)

  function Timeout(c: Call): real {
    match c
    case Guest(_) => CASE_TIMEOUT as real
    case Probe => PROBE_SSH_TIMEOUT as real
    case Pull => PULL_TIMEOUT as real
    case Uninstall(_, _) => UNINSTALL_TIMEOUT as real
    case DescribeDisk => DESCRIBE_TIMEOUT as real
    case Wait(s) => if s < 0.0 then 0.0 else s
  }

  datatype Pulled = Body(fields: R.Fields) | RowsMissing | RowsMalformed

  /** One finished call. `broke` is an exception out of the call itself. */
  datatype Reply = Reply(
    broke: bool, rc: int, tunnelText: bool, pyRc: Option<int>, pulled: Pulled,
    verifiedLine: bool, dirtyLine: bool, postKill: Option<(int, int)>, bootImage: Option<string>, elapsed: real)

  datatype Event = Event(call: Call, start: real, end: real)

  type Trace = seq<Event>

  /** What the clock advances by: a subprocess is killed at its timeout, a sleep lasts as long as asked. */
  function Spent(c: Call, r: Reply): real {
    if c.Wait? then Timeout(c)
    else if r.elapsed < 0.0 then 0.0
    else if r.elapsed > Timeout(c) then Timeout(c)
    else r.elapsed
  }

  class Host {
    const oracle: (Trace, Call) -> Reply
    var now: real
    var trace: Trace

    constructor (oracle: (Trace, Call) -> Reply, now: real)
      ensures this.oracle == oracle && this.now == now && trace == []
    {
      this.oracle := oracle;
      this.now := now;
      trace := [];
    }

    method Run(c: Call) returns (r: Reply)
      modifies this
      ensures r == oracle(old(trace), c)
      ensures now == old(now) + Spent(c, r)
      ensures old(now) <= now <= old(now) + Timeout(c)
      ensures c.Wait? ==> now == old(now) + Timeout(c)
      ensures trace == old(trace) + [Event(c, old(now), now)]
    {
      r := oracle(trace, c);
      var start := now;
      now := now + Spent(c, r);
      trace := trace + [Event(c, start, now)];
    }
  }

  /** The last call broke off with an exception. */
  ghost predicate LastBroke(oracle: (Trace, Call) -> Reply, t: Trace) {
    t != [] && oracle(t[..|t| - 1], t[|t| - 1].call).broke
  }

  lemma BrokeNow(oracle: (Trace, Call) -> Reply, t: Trace, u: Trace)
    requires t <= u && |u| == |t| + 1 && oracle(t, u[|t|].call).broke
    ensures LastBroke(oracle, u)
  {
    assert u[..|u| - 1] == t;
  }

  // ----- the slowest guest -----

  function Probes(t: Trace): nat {
    if t == [] then 0 else Probes(t[..|t| - 1]) + (if t[|t| - 1].call == Probe then 1 else 0)
  }

  /** The tunnel dies at the end of the first call, eight probes fail after `pace` seconds, and all else is as slow as it may be. */
  function SlowReply(pace: real, t: Trace, c: Call): Reply {
    var alive := Probes(t) > 0;
    var late := Probes(t) >= 8;
    match c
    case Probe => Reply(false, if late then 0 else 1, false, None, RowsMissing, false, false, None, None,
                        if late then PROBE_SSH_TIMEOUT as real else pace)
    case Guest(_) => Reply(false, if alive then 0 else 255, false, if alive then Some(0) else None, RowsMissing, false, false,
                           None, None, CASE_TIMEOUT as real)
    case _ => Reply(false, 0, false, None, Body(map[]), false, false, None, None, Timeout(c))
  }

  const SLOWEST: real := 115.0 / 8.0

  ghost predicate Slow(oracle: (Trace, Call) -> Reply, pace: real) {
    0.0 <= pace < SLOWEST && forall t, c :: oracle(t, c) == SlowReply(pace, t, c)
  }

  function DelayAt(k: nat): real { if k == 0 then 5.0 else if k == 1 then 10.0 else if k == 2 then 20.0 else 30.0 }

  /** The time of probe `k`, counted from zero, when each earlier one took `pace`. */
  function ProbeTime(pace: real, k: nat): real {
    if k == 0 then 0.0 else ProbeTime(pace, k - 1) + pace + DelayAt(k - 1)
  }

  lemma LastProbeTime(pace: real)
    ensures ProbeTime(pace, 8) == 185.0 + 8.0 * pace
  {
    assert ProbeTime(pace, 1) == 5.0 + pace;
    assert ProbeTime(pace, 2) == 15.0 + 2.0 * pace;
    assert ProbeTime(pace, 3) == 35.0 + 3.0 * pace;
    assert ProbeTime(pace, 4) == 65.0 + 4.0 * pace;
    assert ProbeTime(pace, 5) == 95.0 + 5.0 * pace;
    assert ProbeTime(pace, 6) == 125.0 + 6.0 * pace;
    assert ProbeTime(pace, 7) == 155.0 + 7.0 * pace;
  }

  lemma {:induction false} ProbeTimeGrows(pace: real, k: nat, n: nat)
    requires 0.0 <= pace && k <= n
    ensures ProbeTime(pace, k) <= ProbeTime(pace, n)
    decreases n - k
  {
    if k < n {
      ProbeTimeGrows(pace, k, n - 1);
    }
  }

  /** Apart from its probes a slow guest answers well and takes all the time there is. */
  ghost predicate TakesAll(oracle: (Trace, Call) -> Reply) {
    && (forall t :: !oracle(t, Pull).broke && oracle(t, Pull).pulled.Body? && Spent(Pull, oracle(t, Pull)) == 120.0)
    && (forall t, row, pid :: !oracle(t, Uninstall(row, pid)).broke && Spent(Uninstall(row, pid), oracle(t, Uninstall(row, pid))) == 300.0)
    && (forall t :: !oracle(t, DescribeDisk).broke && Spent(DescribeDisk, oracle(t, DescribeDisk)) == 60.0)
  }

  lemma SlowTakesAll(oracle: (Trace, Call) -> Reply, pace: real)
    requires Slow(oracle, pace)
    ensures TakesAll(oracle)
  {
  }

  lemma AddsProbe(t: Trace, e: Event)
    ensures Probes(t + [e]) == Probes(t) + if e.call == Probe then 1 else 0
  {
    assert (t + [e])[..|t|] == t;
  }

  /** Where the poll loop stands against a slow guest that was not probed before. */
  ghost predicate Paced(oracle: (Trace, Call) -> Reply, first: Trace, t: Trace, spent: real, delay: real) {
    forall pace | Slow(oracle, pace) && Probes(first) == 0 ::
      Probes(t) <= 8 && spent == ProbeTime(pace, Probes(t)) && delay == DelayAt(Probes(t))
  }

  /** One probe of a slow guest: the ninth answers, and before it there is time for the whole delay. */
  lemma PacedProbe(oracle: (Trace, Call) -> Reply, pace: real, t: Trace, spent: real)
    requires Slow(oracle, pace) && Probes(t) <= 8 && spent == ProbeTime(pace, Probes(t))
    ensures var r := oracle(t, Probe);
            && !r.broke && (r.rc == 0 <==> Probes(t) == 8)
            && Spent(Probe, r) == (if Probes(t) == 8 then PROBE_SSH_TIMEOUT as real else pace)
    ensures Probes(t) < 8 ==> spent + pace + DelayAt(Probes(t)) == ProbeTime(pace, Probes(t) + 1) < SSHD_WAIT_SECONDS as real
    ensures spent < SSHD_WAIT_SECONDS as real
  {
    LastProbeTime(pace);
    ProbeTimeGrows(pace, Probes(t), 8);
    if Probes(t) < 8 {
      ProbeTimeGrows(pace, Probes(t) + 1, 8);
    }
  }

  /** Against a slow guest the wait ends with its ninth probe, answered at the last moment. */
  ghost predicate ReadySlowly(oracle: (Trace, Call) -> Reply, first: Trace, t: Trace, spent: real, ready: Outcome<bool>) {
    forall pace | Slow(oracle, pace) && Probes(first) == 0 ::
      ready == Returned(true) && spent == 205.0 + 8.0 * pace && Probes(t) > 0
  }

  lemma PacedTurn(oracle: (Trace, Call) -> Reply, first: Trace, t: Trace, spent: real, delay: real, p: Event, w: Event, pause: real)
    requires Paced(oracle, first, t, spent, delay) && p.call == Probe && w.call.Wait?
    requires !oracle(t, Probe).broke && oracle(t, Probe).rc != 0
    requires var left := SSHD_WAIT_SECONDS as real - spent - Spent(Probe, oracle(t, Probe)); pause == if delay < left then delay else left
    ensures Paced(oracle, first, t + [p] + [w], spent + Spent(Probe, oracle(t, Probe)) + pause, if delay * 2.0 < 30.0 then delay * 2.0 else 30.0)
  {
    forall pace | Slow(oracle, pace) && Probes(first) == 0
      ensures Probes(t) < 8 && pause == DelayAt(Probes(t)) && Probes(t + [p] + [w]) == Probes(t) + 1
      ensures spent + Spent(Probe, oracle(t, Probe)) + pause == ProbeTime(pace, Probes(t) + 1)
    {
      PacedProbe(oracle, pace, t, spent);
      AddsProbe(t, p);
      AddsProbe(t + [p], w);
    }
  }

  lemma PacedEnd(oracle: (Trace, Call) -> Reply, first: Trace, t: Trace, spent: real, delay: real, p: Event, ready: Outcome<bool>)
    requires Paced(oracle, first, t, spent, delay) && p.call == Probe
    requires var r := oracle(t, Probe);
             if r.broke then ready == Raised
             else if r.rc == 0 then ready == Returned(true)
             else spent + Spent(Probe, r) >= SSHD_WAIT_SECONDS as real
    ensures ReadySlowly(oracle, first, t + [p], spent + Spent(Probe, oracle(t, Probe)), ready)
  {
    forall pace | Slow(oracle, pace) && Probes(first) == 0
      ensures ready == Returned(true) && spent + Spent(Probe, oracle(t, Probe)) == 205.0 + 8.0 * pace && Probes(t + [p]) > 0
    {
      PacedProbe(oracle, pace, t, spent);
      AddsProbe(t, p);
      LastProbeTime(pace);
    }
  }

  lemma PacedInTime(oracle: (Trace, Call) -> Reply, first: Trace, t: Trace, spent: real, delay: real, ready: Outcome<bool>)
    requires Paced(oracle, first, t, spent, delay) && spent >= SSHD_WAIT_SECONDS as real
    ensures ReadySlowly(oracle, first, t, spent, ready)
  {
    forall pace | Slow(oracle, pace) && Probes(first) == 0 ensures false {
      PacedProbe(oracle, pace, t, spent);
    }
  }

  predicate TransportFailure(r: Reply) { r.rc == 255 || r.tunnelText }

  /** The tunnel died before the guest reported a status of its own. */
  predicate NeedsRetry(r: Reply) { TransportFailure(r) && r.pyRc == None }

  /** The events since `before` all ended by `time`, and none of them is an uninstall. */
  ghost predicate WorkedUntil(before: Trace, t: Trace, time: real) {
    && before <= t
    && forall i | |before| <= i < |t| :: t[i].end <= time && !t[i].call.Uninstall?
  }

  lemma WorkedStep(a: Trace, b: Trace, c: Trace, s: real, t: real)
    requires WorkedUntil(a, b, s) && WorkedUntil(b, c, t) && s <= t
    ensures WorkedUntil(a, c, t)
  {
    assert forall i | |a| <= i < |b| :: c[i] == b[i];
  }

  function Rounds(x: real): nat { if x <= 0.0 then 0 else x.Floor + 1 }

  /** Polls sshd with a growing delay. The last probe can run one probe timeout past the wait. */
  method SshReady(host: Host) returns (ready: Outcome<bool>)
    modifies host
    ensures ready.Raised? ==> LastBroke(host.oracle, host.trace)
    ensures host.now < old(host.now) + (SSHD_WAIT_SECONDS + PROBE_SSH_TIMEOUT) as real
    ensures WorkedUntil(old(host.trace), host.trace, host.now) && old(host.now) <= host.now
    ensures NoGuest(host.trace, |old(host.trace)|)
    ensures ready == Returned(false) ==>
              |host.trace| > |old(host.trace)| && host.trace[|host.trace| - 1].end >= old(host.now) + SSHD_WAIT_SECONDS as real
    ensures ready == Returned(true) ==> LastProbeAnswered(host.oracle, host.trace)
    ensures ReadySlowly(host.oracle, old(host.trace), host.trace, host.now - old(host.now), ready)
  {
    ghost var t, start := host.trace, host.now;
    var deadline := host.now + SSHD_WAIT_SECONDS as real;
    var delay := 5.0;
    while host.now < deadline
      invariant 5.0 <= delay <= 30.0 && Polled(t, host.trace, start, host.now) && host.now < deadline + PROBE_SSH_TIMEOUT as real
      invariant Paced(host.oracle, t, host.trace, host.now - start, delay)
      decreases Rounds(deadline - host.now)
    {
      var ended;
      ended, delay := PollOnce(host, t, start, deadline, delay);
      if ended.Some? {
        return ended.value;
      }
    }
    PacedInTime(host.oracle, t, host.trace, host.now - start, delay, Returned(false));
    return Returned(false);
  }

  /** Between two polls: only polling since `t`, and the last call ended just now. */
  ghost predicate Polled(t: Trace, x: Trace, start: real, now: real) {
    && WorkedUntil(t, x, now) && NoGuest(x, |t|) && start <= now
    && if |x| > |t| then x[|x| - 1].end == now else now == start
  }

  lemma ProbeEnds(oracle: (Trace, Call) -> Reply, t: Trace, u: Trace)
    requires t <= u && |u| == |t| + 1 && u[|t|].call == Probe
    ensures LastProbeAnswered(oracle, u) <==> oracle(t, Probe).rc == 0
    ensures LastBroke(oracle, u) <==> oracle(t, Probe).broke
  {
    assert u[..|u| - 1] == t;
  }

  /** One turn of the poll loop: a probe, and a pause when it failed. */
  method PollOnce(host: Host, ghost t: Trace, ghost start: real, deadline: real, delay: real) returns (ended: Option<Outcome<bool>>, next: real)
    requires 5.0 <= delay <= 30.0 && Polled(t, host.trace, start, host.now)
    requires deadline == start + SSHD_WAIT_SECONDS as real && host.now < deadline
    requires Paced(host.oracle, t, host.trace, host.now - start, delay)
    modifies host
    ensures ended == Some(Raised) ==> LastBroke(host.oracle, host.trace)
    ensures Polled(t, host.trace, start, host.now) && |host.trace| > |t| && host.now < deadline + PROBE_SSH_TIMEOUT as real
    ensures ended.None? ==>
              && 5.0 <= next <= 30.0 && Paced(host.oracle, t, host.trace, host.now - start, next)
              && (host.now == deadline || host.now >= old(host.now) + 5.0)
    ensures ended.Some? ==>
              && ReadySlowly(host.oracle, t, host.trace, host.now - start, ended.value)
              && (ended.value == Returned(true) ==> LastProbeAnswered(host.oracle, host.trace))
              && (ended.value == Returned(false) ==> host.now >= deadline)
  {
    ghost var before, polled := host.now, host.trace;
    next := delay;
    var probe := host.Run(Probe);
    ghost var p := host.trace[|polled|];
    var remaining := deadline - host.now;
    if probe.broke || probe.rc == 0 || remaining <= 0.0 {
      ended := Some(if probe.broke then Raised else Returned(probe.rc == 0));
      PacedEnd(host.oracle, t, polled, before - start, delay, p, ended.value);
      ProbeEnds(host.oracle, polled, host.trace);
      return;
    }
    var pause := if delay < remaining then delay else remaining;
    var slept := host.Run(Wait(pause));
    PacedTurn(host.oracle, t, polled, before - start, delay, p, host.trace[|polled| + 1], pause);
    assert host.trace == polled + [p] + [host.trace[|polled| + 1]];
    return None, if delay * 2.0 < 30.0 then delay * 2.0 else 30.0;
  }

  /** The last call was a probe that sshd answered. */
  ghost predicate LastProbeAnswered(oracle: (Trace, Call) -> Reply, t: Trace) {
    t != [] && t[|t| - 1].call == Probe && oracle(t[..|t| - 1], Probe).rc == 0
  }

  ghost predicate NoGuest(t: Trace, from: nat) {
    forall i | from <= i < |t| :: !t[i].call.Guest?
  }

  datatype Outcome<T> = Returned(value: T) | Raised

  /**
   The case is settled: by the first call when the tunnel held, else by a second call after an
   answered probe, or by the first one after the whole wait brought no answer.
   */
  ghost predicate SettledCase(oracle: (Trace, Call) -> Reply, before: Trace, t: Trace, mode: R.Mode, r: Reply) {
    var first := oracle(before, Guest(mode));
    && before < t
    && (!NeedsRetry(first) ==> r == first && |t| == |before| + 1)
    && (NeedsRetry(first) ==>
          || (r == first && t[|t| - 1].end >= t[|before|].end + SSHD_WAIT_SECONDS as real && NoGuest(t, |before| + 1))
          || SecondCall(oracle, before, t, mode, r))
  }

  ghost predicate SecondCall(oracle: (Trace, Call) -> Reply, before: Trace, t: Trace, mode: R.Mode, r: Reply) {
    && |t| > |before| + 2 && t[|t| - 1].call == Guest(mode) && r == oracle(t[..|t| - 1], Guest(mode))
    && LastProbeAnswered(oracle, t[..|t| - 1])
  }

  /**
   The guest call with its one retry. A needed retry is skipped exactly when too little time is left
   after the first call, which cannot happen if the call began with the whole reserve.
   */
  method PhaseSshCase(host: Host, mode: R.Mode, deadline: int) returns (o: Outcome<Reply>, skipped: bool)
    modifies host
    ensures o.Raised? ==> LastBroke(host.oracle, host.trace)
    ensures old(host.now) <= host.now < old(host.now) + (CASE_TIMEOUT + SSHD_WAIT_SECONDS + PROBE_SSH_TIMEOUT + CASE_TIMEOUT) as real
    ensures WorkedUntil(old(host.trace), host.trace, host.now)
    ensures |host.trace| > |old(host.trace)| && host.trace[|old(host.trace)|].call == Guest(mode)
    ensures host.trace[|old(host.trace)|].start == old(host.now)
    ensures var first := host.oracle(old(host.trace), Guest(mode));
            && host.trace[|old(host.trace)|].end == old(host.now) + Spent(Guest(mode), first)
            && (skipped <==> !first.broke && NeedsRetry(first) && deadline as real - host.trace[|old(host.trace)|].end < RETRY_NEED as real)
    ensures skipped ==> o == Returned(host.oracle(old(host.trace), Guest(mode))) && |host.trace| == |old(host.trace)| + 1
    ensures deadline as real - old(host.now) >= RESERVE as real ==> !skipped
    ensures o.Returned? && !skipped ==> SettledCase(host.oracle, old(host.trace), host.trace, mode, o.value)
    ensures deadline as real - old(host.now) >= RESERVE as real ==>
              CaseSlowly(host.oracle, old(host.trace), host.now - old(host.now), o)
  {
    ghost var t, start := host.trace, host.now;
    SlowCaseRetries(host.oracle, t, mode);
    var completed := host.Run(Guest(mode));
    ghost var u, mid := host.trace, host.now;
    if completed.broke {
      BrokeNow(host.oracle, t, host.trace);
      return Raised, false;
    }
    if !NeedsRetry(completed) {
      return Returned(completed), false;
    }
    if deadline as real - host.now < RETRY_NEED as real {
      return Returned(completed), true;
    }
    var ready := SshReady(host);
    WorkedStep(t, u, host.trace, host.now, host.now);
    SlowCaseWaits(host.oracle, t, u[|t|], mode, ready, host.trace, host.now - mid);
    if ready.Raised? {
      return Raised, false;
    }
    if !ready.value {
      return Returned(completed), false;
    }
    ghost var w := host.trace;
    var again := host.Run(Guest(mode));
    WorkedStep(t, w, host.trace, host.now, host.now);
    assert host.trace[..|host.trace| - 1] == w;
    if again.broke {
      BrokeNow(host.oracle, w, host.trace);
      return Raised, false;
    }
    return Returned(again), false;
  }

  /** Against a slow guest both calls take all their time, and the second one brings a status. */
  ghost predicate CaseSlowly(oracle: (Trace, Call) -> Reply, first: Trace, spent: real, o: Outcome<Reply>) {
    forall pace | Slow(oracle, pace) && Probes(first) == 0 ::
      o.Returned? && !NeedsRetry(o.value) && spent == 2005.0 + 8.0 * pace
  }

  lemma SlowFirst(oracle: (Trace, Call) -> Reply, pace: real, t: Trace, e: Event, mode: R.Mode)
    requires Slow(oracle, pace) && Probes(t) == 0 && e.call == Guest(mode)
    ensures var r := oracle(t, Guest(mode)); !r.broke && NeedsRetry(r) && Spent(Guest(mode), r) == 900.0 && Probes(t + [e]) == 0
  {
    AddsProbe(t, e);
  }

  lemma SlowSecond(oracle: (Trace, Call) -> Reply, pace: real, t: Trace, mode: R.Mode)
    requires Slow(oracle, pace) && Probes(t) > 0
    ensures var r := oracle(t, Guest(mode)); !r.broke && !NeedsRetry(r) && Spent(Guest(mode), r) == 900.0
  {
  }

  /** Up to the second call there is no other way for a slow guest. */
  lemma SlowCaseWaits(oracle: (Trace, Call) -> Reply, first: Trace, e: Event, mode: R.Mode, ready: Outcome<bool>, t: Trace, spent: real)
    requires e.call == Guest(mode) && ReadySlowly(oracle, first + [e], t, spent, ready)
    ensures forall pace | Slow(oracle, pace) && Probes(first) == 0 ::
              && ready == Returned(true) && Probes(t) > 0
              && Spent(Guest(mode), oracle(first, Guest(mode))) + spent + Spent(Guest(mode), oracle(t, Guest(mode))) == 2005.0 + 8.0 * pace
              && !oracle(t, Guest(mode)).broke && !NeedsRetry(oracle(t, Guest(mode)))
  {
    forall pace | Slow(oracle, pace) && Probes(first) == 0
      ensures ready == Returned(true) && Probes(t) > 0
      ensures Spent(Guest(mode), oracle(first, Guest(mode))) + spent + Spent(Guest(mode), oracle(t, Guest(mode))) == 2005.0 + 8.0 * pace
      ensures !oracle(t, Guest(mode)).broke && !NeedsRetry(oracle(t, Guest(mode)))
    {
      SlowFirst(oracle, pace, first, e, mode);
      SlowSecond(oracle, pace, t, mode);
    }
  }

  lemma SlowCaseRetries(oracle: (Trace, Call) -> Reply, first: Trace, mode: R.Mode)
    ensures forall pace | Slow(oracle, pace) && Probes(first) == 0 ::
              !oracle(first, Guest(mode)).broke && NeedsRetry(oracle(first, Guest(mode)))
  {
    forall pace | Slow(oracle, pace) && Probes(first) == 0
      ensures !oracle(first, Guest(mode)).broke && NeedsRetry(oracle(first, Guest(mode)))
    {
      SlowFirst(oracle, pace, first, Event(Guest(mode), 0.0, 0.0), mode);
    }
  }

  /** A tunnel that dies at the end of every call. */
  function DeadTunnel(t: Trace, c: Call): Reply {
    Reply(false, 255, false, None, RowsMissing, false, false, None, None, CASE_TIMEOUT as real)
  }

  /** The reserve is the least that will do: with anything less left, some guest makes the retry not fit. */
  method LessThanReserve(mode: R.Mode, deadline: int, now: real) returns (o: Outcome<Reply>, skipped: bool)
    requires deadline as real - now < RESERVE as real
    ensures skipped
  {
    var host := new Host(DeadTunnel, now);
    o, skipped := PhaseSshCase(host, mode, deadline);
  }

  // ----- the row of a phase -----

  type Fields = R.Fields
  type Val = R.Val

  /** The uninstall ran to its end: exit 0, or 1 for a missing post-kill row, the line that verifies it and none that does not. */
  ghost predicate LeftClean(r: Reply) {
    r.rc in {0, 1} && r.verifiedLine && !r.dirtyLine
  }

  predicate HostClean(r: Reply) {
    (r.rc == 0 || r.rc == 1) && r.verifiedLine && !r.dirtyLine
  }

  function Text(v: Val): Val { if v.Str? then v else Null }

  predicate Truthy(v: Val) {
    match v
    case Null => false
    case Bool(b) => b
    case Int(n) => n != 0
    case Float(x) => x != Finite(0.0)
    case Str(s) => s != ""
    case List(items) => items != []
    case Dict(fields) => fields != map[]
  }

  function Rc(r: int): int { if 0 <= r <= 255 then r else -1 }

  function PostKill(post: Option<(int, int)>): Fields {
    if post.Some? then map[R.PostKillPid := Int(post.value.0), R.PostKillAnchor := Int(post.value.1)] else map[]
  }

  /** What every phase row carries, copied from the body or known to the host. */
  function CommonPart(m: R.Mode, body: Fields, guest: Reply, uninstall: Reply): Fields {
    map[
      R.Battery := Str(R.ModeText(m)),
      R.BatterySeen := if Get(body, R.Battery) == Str(R.ModeText(m)) then Null else Str("mismatch"),
      R.HostResult := Text(Get(body, R.HostResult)),
      R.Result := Text(Get(body, R.Result)),
      R.Reason := Text(Get(body, R.Reason)),
      R.Classification := Text(Get(body, R.Classification)),
      R.HarnessError := Bool(Truthy(Get(body, R.HarnessError))),
      R.GuestRc := Int(if guest.pyRc.Some? then guest.pyRc.value else -1),
      R.UninstallRc := Int(Rc(uninstall.rc)),
      R.UninstallVerified := Bool(HostClean(uninstall))
    ] + PostKill(uninstall.postKill)
  }

  function Copied(body: Fields, keys: set<R.Key>): Fields {
    map k | k in keys && k in body :: body[k]
  }

  function ModePart(m: R.Mode, body: Fields, disk: Option<string>, sealLane: bool): Fields {
    match m
    case Performance =>
      Copied(body, {R.RuntimeSeconds, R.MaxRuntimeSeconds, R.SampleCount, R.HostCount, R.DeniedSamples,
                    R.RevokeConvergenceMs, R.RevokeErrno, R.RevokeFailOpen})
    case Tamper =>
      var enrolled := AsDict(Get(body, R.EnrolledAfter));
      Copied(body, {R.ControlErrno, R.NetBlockAnchor, R.AllowlistedPrivateErrno, R.LoaderUp, R.FileAttributed,
                    R.KillTiming, R.ClaimScope}) +
      map[R.EnrolledNetErrno := Get(enrolled, R.NetErrno), R.EnrolledFileErrno := Get(enrolled, R.FileErrno),
          R.EnrolledPid := Get(enrolled, R.Pid), R.MapSwap := Get(body, R.MapSwap)]
    case DistroCheck =>
      var facts := AsDict(Get(body, R.KernelFacts));
      var enrolled, unenrolled := AsDict(Get(body, R.Enrolled)), AsDict(Get(body, R.Unenrolled));
      map[R.Distro := Get(facts, R.Distro), R.Kernel := Get(facts, R.Kernel), R.KernelLsm := Get(facts, R.Lsm),
          R.KernelBtf := Get(facts, R.Btf), R.Lockdown := Get(facts, R.Lockdown),
          R.EnrolledFileErrno := Get(enrolled, R.FileErrno), R.UnenrolledFileErrno := Get(unenrolled, R.FileErrno),
          R.EnrolledPid := Get(enrolled, R.Pid), R.Attributed := Get(body, R.Attributed),
          R.Image := Str(R.IMAGE), R.BootImageAllowed := Bool(disk.Some?),
          R.BootImageName := if disk.Some? then Str(disk.value) else Null,
          R.SealLane := Bool(sealLane)]
  }

  function BuiltRow(m: R.Mode, body: Fields, guest: Reply, uninstall: Reply, disk: Option<string>, sealLane: bool): Fields {
    ModePart(m, body, disk, sealLane) + CommonPart(m, body, guest, uninstall)
  }

  /** A row for a phase without a result; `clean` is known only when the uninstall ran. */
  function NotRunRow(m: R.Mode, reason: string, clean: Option<bool>): Fields {
    map[R.Battery := Str(R.ModeText(m)), R.HostResult := Str("NOT_RUN"), R.NotRunReason := Str(reason),
        R.UninstallVerified := if clean.Some? then Bool(clean.value) else Null]
  }

  predicate Verified(g: R.Graded) { Get(g.kept, R.UninstallVerified) == Bool(true) }

  ghost predicate RowOf(g: R.Graded, m: R.Mode) {
    R.ModeOf(Get(g.kept, R.Battery)) == Some(m) && g.verdict == R.Grade(g.kept)
  }

  /** The host's own facts survive sanitising: the mode, the word and the uninstall. */
  lemma RowKeeps(m: R.Mode, row: Fields)
    requires Get(row, R.Battery) == Str(R.ModeText(m)) && Hashable(Get(row, R.HostResult))
    requires Get(row, R.UninstallVerified).Bool? || Get(row, R.UninstallVerified).Null?
    ensures R.Allow(Dict(row)).Row?
    ensures var g := R.Allow(Dict(row)).row;
            && RowOf(g, m)
            && Get(g.kept, R.UninstallVerified) == Get(row, R.UninstallVerified)
            && Get(g.kept, R.HostResult) == R.KeptResult(Get(row, R.HostResult))
  {
    AllowIsKept(m, row);
    KeptFacts(m, row);
  }

  lemma AllowIsKept(m: R.Mode, row: Fields)
    requires Get(row, R.Battery) == Str(R.ModeText(m)) && Hashable(Get(row, R.HostResult))
    ensures R.Allow(Dict(row)) == R.Row(R.Graded(R.Kept(row), R.Grade(R.Kept(row))))
  {
    R.ModeTextReads(m);
  }

  lemma KeptFacts(m: R.Mode, row: Fields)
    requires Get(row, R.Battery) == Str(R.ModeText(m))
    requires Get(row, R.UninstallVerified).Bool? || Get(row, R.UninstallVerified).Null?
    ensures var kept := R.Kept(row);
            && R.ModeOf(Get(kept, R.Battery)) == Some(m)
            && Get(kept, R.UninstallVerified) == Get(row, R.UninstallVerified)
            && Get(kept, R.HostResult) == R.KeptResult(Get(row, R.HostResult))
  {
    R.KeptReads(row, R.UninstallVerified);
    ReadsBack(m, row, R.Kept(row));
  }

  lemma ReadsBack(m: R.Mode, row: Fields, kept: Fields)
    requires Get(row, R.Battery) == Str(R.ModeText(m)) && Get(kept, R.Battery) == Get(row, R.Battery)
    requires Get(row, R.UninstallVerified).Bool? || Get(row, R.UninstallVerified).Null?
    requires var v := Get(row, R.UninstallVerified); Get(kept, R.UninstallVerified) == if R.Accepts(R.UninstallVerified, v) then v else Null
    ensures R.ModeOf(Get(kept, R.Battery)) == Some(m) && Get(kept, R.UninstallVerified) == Get(row, R.UninstallVerified)
  {
    R.ModeTextReads(m);
  }

  lemma NotRunReads(m: R.Mode, reason: string, clean: Option<bool>)
    ensures var row := NotRunRow(m, reason, clean);
            && Get(row, R.Battery) == Str(R.ModeText(m)) && Get(row, R.HostResult) == Str("NOT_RUN")
            && Get(row, R.UninstallVerified) == if clean.Some? then Bool(clean.value) else Null
  {
  }

  lemma NotRunWord()
    ensures R.WordOf(Str("NOT_RUN")) == R.WNotRun && R.KeptResult(Str("NOT_RUN")) == Str("NOT_RUN")
  {
    assert |"NOT_RUN"| == 7 && |"PASS"| == 4 && |"FAIL"| == 4 && |"HOLD"| == 4 && |"NOT_GRADED"| == 10;
  }

  lemma NotRunGrade(g: R.Graded, m: R.Mode)
    requires RowOf(g, m) && Get(g.kept, R.HostResult) == Str("NOT_RUN")
    ensures g.verdict != R.BatteryPass
  {
    NotRunWord();
    R.JudgePass(Some(m), R.WNotRun, Get(g.kept, R.NotRunReason), Get(g.kept, R.HarnessError), R.ClaimFilled(g.kept),
                R.CauseOf(Some(m), g.kept), Get(g.kept, R.UninstallVerified));
  }

  lemma NotRunNeverPasses(m: R.Mode, reason: string, clean: Option<bool>)
    ensures R.Allow(Dict(NotRunRow(m, reason, clean))).Row?
    ensures var g := R.Allow(Dict(NotRunRow(m, reason, clean))).row;
            RowOf(g, m) && g.verdict != R.BatteryPass && (Verified(g) <==> clean == Some(true))
  {
    var row := NotRunRow(m, reason, clean);
    NotRunReads(m, reason, clean);
    NotRunWord();
    RowKeeps(m, row);
    NotRunGrade(R.Allow(Dict(row)).row, m);
  }

  method Graded(m: R.Mode, row: Fields) returns (g: R.Graded)
    requires Get(row, R.Battery) == Str(R.ModeText(m)) && Hashable(Get(row, R.HostResult))
    requires Get(row, R.UninstallVerified).Bool? || Get(row, R.UninstallVerified).Null?
    ensures R.Allow(Dict(row)) == R.Row(g) && RowOf(g, m)
    ensures Verified(g) <==> Get(row, R.UninstallVerified) == Bool(true)
  {
    RowKeeps(m, row);
    var r := R.AllowPhaseRow(Dict(row));
    g := r.row;
  }

  // ----- one phase -----

  /** The probe the tamper battery enrolled, when the guest names one. */
  function ProbePid(m: R.Mode, body: Option<Fields>): (pid: int)
    ensures pid >= 0
  {
    if m != R.Tamper || body.None? then 0
    else
      var raw := Get(AsDict(Get(body.value, R.EnrolledAfter)), R.Pid);
      if R.PositiveInt(raw) then raw.n else 0
  }

  predicate RequireRow(m: R.Mode, body: Option<Fields>) {
    m == R.Tamper && body.Some? && Get(body.value, R.KillTiming) == Str(R.KILL_AFTER_MAP_SWAP) && ProbePid(m, body) > 0
  }

  /**
   Event `at` is the one uninstall since `before`: it comes after every guest call, and only
   the look at the boot disk may follow it.
   */
  ghost predicate UninstalledAt(before: Trace, t: Trace, at: nat) {
    && before <= t && |before| < at < |t| && t[at].call.Uninstall?
    && (t[at].call.requireRow ==> t[at].call.pid > 0)
    && (forall i | |before| <= i < at :: !t[i].call.Uninstall?)
    && (forall i | at < i < |t| :: t[i].call.DescribeDisk?)
  }

  /** Everything since `before` ended by `time`. */
  ghost predicate EndedBy(before: Trace, t: Trace, time: real) {
    before <= t && forall i | |before| <= i < |t| :: t[i].end <= time
  }

  datatype Missing = Transport | MissingRows | MalformedRows

  function MissingText(m: Missing): string {
    match m
    case Transport => "transport"
    case MissingRows => "rows_missing"
    case MalformedRows => "rows_malformed"
  }

  function SkippedBody(m: R.Mode): Fields {
    map[R.Battery := Str(R.ModeText(m)), R.HostResult := Str("NOT_GRADED"), R.Reason := Str("infra_retry_skipped")]
  }

  /** The body is what the pull brought; there is no pull when the tunnel never came back. */
  ghost predicate PulledBody(oracle: (Trace, Call) -> Reply, before: Trace, t: Trace, guest: Reply, body: Option<Fields>, missing: Missing) {
    if NeedsRetry(guest) then t == before && body == None && missing == Transport
    else
      && |t| == |before| + 1 && before <= t && t[|before|].call == Pull
      && match oracle(before, Pull).pulled
         case Body(fields) => body == Some(fields)
         case RowsMissing => body == None && missing == MissingRows
         case RowsMalformed => body == None && missing == MalformedRows
  }

  /** Fetches the guest's rows, unless the tunnel never came back. */
  method PullBody(host: Host, guest: Reply) returns (o: Outcome<Option<Fields>>, missing: Missing)
    modifies host
    ensures o.Raised? ==> LastBroke(host.oracle, host.trace)
    ensures old(host.now) <= host.now <= old(host.now) + PULL_TIMEOUT as real
    ensures WorkedUntil(old(host.trace), host.trace, host.now)
    ensures o.Returned? ==> PulledBody(host.oracle, old(host.trace), host.trace, guest, o.value, missing)
    ensures TakesAll(host.oracle) && !NeedsRetry(guest) ==> o.Returned? && o.value.Some? && host.now == old(host.now) + 120.0
  {
    missing := Transport;
    if NeedsRetry(guest) {
      return Returned(None), missing;
    }
    ghost var t := host.trace;
    var r := host.Run(Pull);
    if r.broke {
      BrokeNow(host.oracle, t, host.trace);
      return Raised, missing;
    }
    match r.pulled {
      case Body(fields) => o := Returned(Some(fields));
      case RowsMissing => o, missing := Returned(None), MissingRows;
      case RowsMalformed => o, missing := Returned(None), MalformedRows;
    }
  }

  ghost predicate WorkSlowly(oracle: (Trace, Call) -> Reply, first: Trace, spent: real, o: Outcome<(Reply, Option<Fields>)>) {
    forall pace | Slow(oracle, pace) && Probes(first) == 0 :: o.Returned? && o.value.1.Some? && spent == 2125.0 + 8.0 * pace
  }

  lemma SlowWork(oracle: (Trace, Call) -> Reply, first: Trace, spent: real, guest: Outcome<Reply>, total: real, o: Outcome<(Reply, Option<Fields>)>)
    requires CaseSlowly(oracle, first, spent, guest)
    requires TakesAll(oracle) && guest.Returned? && !NeedsRetry(guest.value) ==> o.Returned? && o.value.1.Some? && total == spent + 120.0
    ensures WorkSlowly(oracle, first, total, o)
  {
    forall pace | Slow(oracle, pace) && Probes(first) == 0
      ensures o.Returned? && o.value.1.Some? && total == 2125.0 + 8.0 * pace
    {
      SlowTakesAll(oracle, pace);
    }
  }

  /** The guest call and its rows: all the work of a phase before its uninstall. */
  method GuestWork(host: Host, mode: R.Mode, deadline: int)
    returns (o: Outcome<(Reply, Option<Fields>)>, missing: Missing, skipped: bool, ghost mid: Trace)
    requires deadline as real - host.now >= RESERVE as real
    modifies host
    ensures o.Raised? ==> LastBroke(host.oracle, host.trace)
    ensures !skipped
    ensures old(host.now) <= host.now
    ensures host.now < old(host.now) + (RESERVE - DESCRIBE_TIMEOUT - UNINSTALL_TIMEOUT) as real
    ensures WorkedUntil(old(host.trace), host.trace, host.now)
    ensures |host.trace| > |old(host.trace)| && host.trace[|old(host.trace)|].call == Guest(mode)
    ensures host.trace[|old(host.trace)|].start == old(host.now)
    ensures o.Returned? ==>
              && SettledCase(host.oracle, old(host.trace), mid, mode, o.value.0) && mid <= host.trace
              && PulledBody(host.oracle, mid, host.trace, o.value.0, o.value.1, missing)
    ensures WorkSlowly(host.oracle, old(host.trace), host.now - old(host.now), o)
  {
    missing := Transport;
    ghost var t, start := host.trace, host.now;
    mid := t;
    var guest;
    guest, skipped := PhaseSshCase(host, mode, deadline);
    ghost var u := host.trace;
    mid := u;
    ghost var spent := host.now - start;
    if guest.Raised? {
      SlowWork(host.oracle, t, spent, guest, spent, Raised);
      return Raised, missing, skipped, mid;
    }
    var reply := guest.value;
    if skipped {
      return Returned((reply, Some(SkippedBody(mode)))), missing, skipped, mid;
    }
    var pulled;
    pulled, missing := PullBody(host, reply);
    WorkedStep(t, u, host.trace, host.now, host.now);
    o := if pulled.Raised? then Raised else Returned((reply, pulled.value));
    SlowWork(host.oracle, t, spent, guest, host.now - start, o);
  }

  method GradedNotRun(m: R.Mode, reason: string, clean: Option<bool>) returns (g: R.Graded)
    ensures RowOf(g, m) && g.verdict != R.BatteryPass
    ensures Verified(g) <==> clean == Some(true)
    ensures R.Allow(Dict(NotRunRow(m, reason, clean))) == R.Row(g)
  {
    NotRunNeverPasses(m, reason, clean);
    g := Graded(m, NotRunRow(m, reason, clean));
  }

  method GradedBuilt(m: R.Mode, body: Fields, guest: Reply, uninstall: Reply, disk: Option<string>, sealLane: bool)
    returns (g: R.Graded)
    ensures R.Allow(Dict(BuiltRow(m, body, guest, uninstall, disk, sealLane))) == R.Row(g)
    ensures RowOf(g, m) && (Verified(g) <==> LeftClean(uninstall))
  {
    BuiltKeeps(m, body, guest, uninstall, disk, sealLane);
    g := Graded(m, BuiltRow(m, body, guest, uninstall, disk, sealLane));
  }

  /** The boot image a look at the disk after the uninstall showed. */
  ghost function DiskSeen(oracle: (Trace, Call) -> Reply, t: Trace, at: nat): Option<string>
    requires at < |t|
  {
    if |t| == at + 1 then None
    else
      var d := oracle(t[..at + 1], DescribeDisk);
      if d.rc == 0 then d.bootImage else None
  }

  /** The row is the sanitised form of what the guest, the pull, the uninstall and the disk said. */
  ghost predicate RowContent(oracle: (Trace, Call) -> Reply, t: Trace, at: nat, mode: R.Mode, guest: Reply, body: Option<Fields>,
                             missing: Missing, sealLane: bool, g: R.Graded) {
    && at < |t|
    && var u := oracle(t[..at], t[at].call);
       if body.None? then R.Allow(Dict(NotRunRow(mode, MissingText(missing), Some(LeftClean(u))))) == R.Row(g)
       else R.Allow(Dict(BuiltRow(mode, body.value, guest, u, DiskSeen(oracle, t, at), mode == R.DistroCheck && sealLane))) == R.Row(g)
  }

  method UninstallAndGrade(host: Host, mode: R.Mode, guest: Reply, body: Option<Fields>, missing: Missing, skipped: bool, sealLane: bool)
    returns (o: Outcome<R.Graded>)
    modifies host
    ensures o.Raised? ==> LastBroke(host.oracle, host.trace)
    ensures old(host.now) <= host.now <= old(host.now) + (DESCRIBE_TIMEOUT + UNINSTALL_TIMEOUT) as real
    ensures EndedBy(old(host.trace), host.trace, host.now)
    ensures |host.trace| > |old(host.trace)|
    ensures var u := host.trace[|old(host.trace)|].call;
            u == Uninstall(RequireRow(mode, body), ProbePid(mode, body))
    ensures forall i | |old(host.trace)| < i < |host.trace| :: host.trace[i].call.DescribeDisk?
    ensures o.Returned? ==> RowOf(o.value, mode)
    ensures o.Returned? && Verified(o.value) ==> LeftClean(host.oracle(old(host.trace), host.trace[|old(host.trace)|].call))
    ensures o.Returned? && body.None? ==> o.value.verdict != R.BatteryPass
    ensures o.Returned? ==> (|host.trace| == |old(host.trace)| + 2 <==> mode == R.DistroCheck && !skipped && body.Some?)
    ensures o.Returned? ==> RowContent(host.oracle, host.trace, |old(host.trace)|, mode, guest, body, missing, sealLane, o.value)
    ensures TakesAll(host.oracle) && mode == R.DistroCheck && !skipped && body.Some? ==>
              o.Returned? && host.now == old(host.now) + 360.0
  {
    ghost var before := host.trace;
    var uninstall := host.Run(Uninstall(RequireRow(mode, body), ProbePid(mode, body)));
    if uninstall.broke {
      BrokeNow(host.oracle, before, host.trace);
      return Raised;
    }
    if body.None? {
      assert host.trace[..|before|] == before;
      var g := GradedNotRun(mode, MissingText(missing), Some(HostClean(uninstall)));
      return Returned(g);
    }
    var disk := LookAtDisk(host, mode, skipped, |before|);
    if disk.Raised? {
      return Raised;
    }
    assert host.trace[..|before|] == before;
    var g := GradedBuilt(mode, body.value, guest, uninstall, disk.value, mode == R.DistroCheck && sealLane);
    return Returned(g);
  }

  /** The boot image, looked up for the distro phase only, right after the uninstall at `at`. */
  method LookAtDisk(host: Host, mode: R.Mode, skipped: bool, ghost at: nat) returns (o: Outcome<Option<string>>)
    requires |host.trace| == at + 1
    modifies host
    ensures o.Raised? ==> LastBroke(host.oracle, host.trace)
    ensures old(host.now) <= host.now <= old(host.now) + DESCRIBE_TIMEOUT as real
    ensures EndedBy(old(host.trace), host.trace, host.now)
    ensures forall i | at < i < |host.trace| :: host.trace[i].call.DescribeDisk?
    ensures o.Returned? ==> (|host.trace| == at + 2 <==> mode == R.DistroCheck && !skipped) && |host.trace| <= at + 2
    ensures o.Returned? ==> o.value == DiskSeen(host.oracle, host.trace, at)
    ensures TakesAll(host.oracle) && mode == R.DistroCheck && !skipped ==> o.Returned? && host.now == old(host.now) + 60.0
  {
    if mode != R.DistroCheck || skipped {
      return Returned(None);
    }
    ghost var t := host.trace;
    var described := host.Run(DescribeDisk);
    if described.broke {
      BrokeNow(host.oracle, t, host.trace);
      return Raised;
    }
    assert host.trace[..at + 1] == t;
    return Returned(if described.rc == 0 then described.bootImage else None);
  }

  lemma BuiltKeeps(m: R.Mode, body: Fields, guest: Reply, uninstall: Reply, disk: Option<string>, sealLane: bool)
    ensures var row := BuiltRow(m, body, guest, uninstall, disk, sealLane);
            && Get(row, R.Battery) == Str(R.ModeText(m)) && Hashable(Get(row, R.HostResult))
            && Get(row, R.UninstallVerified) == Bool(HostClean(uninstall))
  {
    CommonReads(m, body, guest, uninstall);
  }

  lemma CommonReads(m: R.Mode, body: Fields, guest: Reply, uninstall: Reply)
    ensures var c := CommonPart(m, body, guest, uninstall);
            && R.Battery in c && R.HostResult in c && R.UninstallVerified in c
            && c[R.Battery] == Str(R.ModeText(m)) && Hashable(c[R.HostResult])
            && c[R.UninstallVerified] == Bool(HostClean(uninstall))
  {
  }

  /** Against a slow guest a distro phase uses up the reserve but for what the pace of its probes leaves. */
  ghost predicate PhaseSlowly(oracle: (Trace, Call) -> Reply, first: Trace, spent: real, o: Outcome<R.Graded>) {
    forall pace | Slow(oracle, pace) && Probes(first) == 0 ::
      o.Returned? && spent == RESERVE as real - (115.0 - 8.0 * pace)
  }

  lemma SlowPhase(oracle: (Trace, Call) -> Reply, first: Trace, spent: real, work: Outcome<(Reply, Option<Fields>)>, total: real, o: Outcome<R.Graded>)
    requires WorkSlowly(oracle, first, spent, work)
    requires TakesAll(oracle) && work.Returned? && work.value.1.Some? ==> o.Returned? && total == spent + 360.0
    ensures PhaseSlowly(oracle, first, total, o)
  {
    forall pace | Slow(oracle, pace) && Probes(first) == 0
      ensures o.Returned? && total == RESERVE as real - (115.0 - 8.0 * pace)
    {
      SlowTakesAll(oracle, pace);
    }
  }

  /** One phase, ended strictly before the deadline. A result always comes with exactly one uninstall, after all guest work. */
  method RunOnePhase(host: Host, mode: R.Mode, deadline: int, sealLane: bool)
    returns (o: Outcome<R.Graded>, ghost at: nat, ghost mid: Trace, ghost work: (Reply, Option<Fields>, Missing))
    requires deadline as real - host.now >= RESERVE as real
    modifies host
    ensures o.Raised? ==> LastBroke(host.oracle, host.trace)
    ensures old(host.now) <= host.now < deadline as real
    ensures EndedBy(old(host.trace), host.trace, host.now) && old(host.trace) < host.trace
    ensures var first := host.trace[|old(host.trace)|]; first.call == Guest(mode) && first.start == old(host.now)
    ensures o.Returned? ==> RowOf(o.value, mode) && UninstalledAt(old(host.trace), host.trace, at)
    ensures o.Returned? && Verified(o.value) ==> CleanAt(host.oracle, host.trace, at)
    ensures o.Returned? ==>
              && SettledCase(host.oracle, old(host.trace), mid, mode, work.0)
              && PulledBody(host.oracle, mid, host.trace[..at], work.0, work.1, work.2)
              && RowContent(host.oracle, host.trace, at, mode, work.0, work.1, work.2, sealLane, o.value)
              && host.trace[at].call == Uninstall(RequireRow(mode, work.1), ProbePid(mode, work.1))
    ensures mode == R.DistroCheck ==> PhaseSlowly(host.oracle, old(host.trace), host.now - old(host.now), o)
  {
    ghost var t, start := host.trace, host.now;
    at := 0;
    var done, missing, skipped;
    done, missing, skipped, mid := GuestWork(host, mode, deadline);
    ghost var spent := host.now - start;
    if done.Raised? {
      SlowPhase(host.oracle, t, spent, done, spent, Raised);
      work := (host.oracle(t, Guest(mode)), None, missing);
      return Raised, at, mid, work;
    }
    ghost var u := host.trace;
    at, work := |u|, (done.value.0, done.value.1, missing);
    o := UninstallAndGrade(host, mode, done.value.0, done.value.1, missing, skipped, sealLane);
    if mode == R.DistroCheck {
      SlowPhase(host.oracle, t, spent, done, host.now - start, o);
    }
    FinishedAt(t, u, host.trace, host.now);
  }

  /** The uninstall ends the guest work. */
  lemma FinishedAt(t: Trace, u: Trace, x: Trace, now: real)
    requires t < u < x && WorkedUntil(t, u, now) && EndedBy(u, x, now)
    requires var e := x[|u|].call; e.Uninstall? && (e.requireRow ==> e.pid > 0)
    requires forall i | |u| < i < |x| :: x[i].call.DescribeDisk?
    ensures UninstalledAt(t, x, |u|) && EndedBy(t, x, now) && x[..|u|] == u && x[|t|] == u[|t|]
  {
    assert forall i | 0 <= i < |u| :: x[i] == u[i];
  }

  /**
   The reserve is tight: for every gap, however small, there is a guest whose phase starts with
   exactly the reserve left and ends this much before the deadline.
   */
  method EndsJustBefore(deadline: int, gap: real, sealLane: bool) returns (host: Host, o: Outcome<R.Graded>)
    requires 0.0 < gap <= 115.0
    ensures host.trace != [] && host.trace[0].start == (deadline - RESERVE) as real
    ensures o.Returned? && host.now == deadline as real - gap
  {
    var pace := (115.0 - gap) / 8.0;
    host := new Host((t, c) => SlowReply(pace, t, c), (deadline - RESERVE) as real);
    assert Slow(host.oracle, pace);
    ghost var at, mid, work;
    o, at, mid, work := RunOnePhase(host, R.DistroCheck, deadline, sealLane);
  }

  ghost predicate CleanAt(oracle: (Trace, Call) -> Reply, t: Trace, at: nat) {
    at < |t| && LeftClean(oracle(t[..at], t[at].call))
  }

  // ----- the three phases -----

  /** lab.bounded_minutes on a typed value: an int or digits, 1 to 120. */
  function BoundedMinutes(v: Val): Option<int> {
    var n :=
      if v.Int? then Some(v.n)
      else if v.Str? && Strip(v.s) != "" && (forall i | 0 <= i < |Strip(v.s)| :: IsDigit(Strip(v.s)[i])) then Some(Decimal(Strip(v.s)))
      else None;
    if n.Some? && 1 <= n.value <= MAX_LIFE_MINUTES then n else None
  }

  /** Time counts from creation when it is known and not in the future. */
  function Base(created: Option<int>, started: int): int {
    if created.Some? && 0 < created.value <= started then created.value else started
  }

  /** The last second of phase work: within both the guest's life and the job's limit, one of them used up to the margin. */
  function PhaseDeadline(created: Option<int>, started: int, minutes: Val): (d: int)
    ensures var m, base := BoundedMinutes(minutes), Base(created, started);
            && (m.None? ==> d == 0)
            && (m.Some? ==>
                  && d + END_MARGIN <= base + m.value * 60 && d + END_MARGIN <= base + JOB_LIMIT_AFTER_CREATE
                  && (d + END_MARGIN == base + m.value * 60 || d + END_MARGIN == base + JOB_LIMIT_AFTER_CREATE))
  {
    var bounded := BoundedMinutes(minutes);
    if bounded.None? then 0
    else
      var base := Base(created, started);
      var byMinutes, byJob := base + bounded.value * 60, base + JOB_LIMIT_AFTER_CREATE;
      (if byMinutes < byJob then byMinutes else byJob) - END_MARGIN
  }

  predicate PhaseHasTime(deadline: int, now: real) {
    deadline > 0 && deadline as real - now >= RESERVE as real
  }

  datatype Blocked = Free | PreviousUninstall | TimeBudget

  function BlockedText(b: Blocked): string {
    match b
    case Free => ""
    case PreviousUninstall => "previous_uninstall"
    case TimeBudget => "time_budget"
  }

  /** What the run shows of the phases so far: phase `i` made the calls from `marks[i]` up to `marks[i + 1]`. */
  ghost predicate PhaseShape(host: Host, deadline: int, i: nat, row: R.Graded, t: Trace, low: nat, high: nat)
    requires i < 3
  {
    && RowOf(row, R.MODES[i]) && low <= high <= |t|
    && (low == high ==> !Verified(row) && row.verdict != R.BatteryPass)
    && (low < high ==>
          && t[low].call == Guest(R.MODES[i]) && t[low].start + RESERVE as real <= deadline as real
          && (forall k | low <= k < high :: t[k].end <= deadline as real)
          && (Verified(row) ==> exists at :: UninstalledAt(t[..low], t[..high], at) && CleanAt(host.oracle, t[..high], at)))
  }

  lemma ShapeKept(host: Host, deadline: int, i: nat, row: R.Graded, t: Trace, u: Trace, low: nat, high: nat)
    requires i < 3 && PhaseShape(host, deadline, i, row, t, low, high) && t <= u
    ensures PhaseShape(host, deadline, i, row, u, low, high)
  {
    assert u[..high] == t[..high] && u[..low] == t[..low];
    assert forall k | 0 <= k < high :: u[k] == t[k];
  }

  lemma RanShape(host: Host, deadline: int, i: nat, row: R.Graded, before: Trace, t: Trace, at: nat)
    requires i < 3 && RowOf(row, R.MODES[i]) && before < t
    requires t[|before|].call == Guest(R.MODES[i]) && t[|before|].start + RESERVE as real <= deadline as real
    requires EndedBy(before, t, deadline as real)
    requires Verified(row) ==> UninstalledAt(before, t, at) && CleanAt(host.oracle, t, at)
    ensures PhaseShape(host, deadline, i, row, t, |before|, |t|)
  {
    assert t[..|before|] == before && t[..|t|] == t;
  }

  /** One turn of the loop: the calls and the time before and after it, and what blocks a phase. */
  datatype Turn = Turn(before: Trace, after: Trace, start: real, end: real, blocked: Blocked, next: Blocked, row: R.Graded)

  ghost predicate NotRunAs(row: R.Graded, m: R.Mode, reason: string) { R.Allow(Dict(NotRunRow(m, reason, None))) == R.Row(row) }

  /** A phase ran to its row: case, pull, uninstall and row are as they should be. */
  ghost predicate RanSo(oracle: (Trace, Call) -> Reply, before: Trace, t: Trace, mode: R.Mode, sealLane: bool, row: R.Graded,
                        at: nat, mid: Trace, work: (Reply, Option<Fields>, Missing)) {
    && UninstalledAt(before, t, at) && SettledCase(oracle, before, mid, mode, work.0)
    && PulledBody(oracle, mid, t[..at], work.0, work.1, work.2)
    && RowContent(oracle, t, at, mode, work.0, work.1, work.2, sealLane, row)
    && t[at].call == Uninstall(RequireRow(mode, work.1), ProbePid(mode, work.1))
  }

  ghost predicate PhaseRan(oracle: (Trace, Call) -> Reply, before: Trace, t: Trace, mode: R.Mode, sealLane: bool, row: R.Graded) {
    exists at: nat, mid: Trace, work: (Reply, Option<Fields>, Missing) :: RanSo(oracle, before, t, mode, sealLane, row, at, mid, work)
  }

  /**
   A phase that is blocked or has no time makes no call and says why. Any other runs, to its row or to the
   exception that ends it, and blocks the next one unless it was cleaned up.
   */
  ghost predicate TurnDone(oracle: (Trace, Call) -> Reply, turn: Turn, mode: R.Mode, deadline: int, sealLane: bool) {
    if turn.blocked != Free || !PhaseHasTime(deadline, turn.start) then
      && turn.after == turn.before && turn.end == turn.start
      && turn.next == (if turn.blocked == Free then TimeBudget else turn.blocked)
      && NotRunAs(turn.row, mode, if turn.next == TimeBudget then "time_budget" else "previous_uninstall")
    else
      && turn.before < turn.after && turn.start <= turn.end < deadline as real
      && turn.next == (if Verified(turn.row) then Free else PreviousUninstall)
      && (|| PhaseRan(oracle, turn.before, turn.after, mode, sealLane, turn.row)
          || (LastBroke(oracle, turn.after) && NotRunAs(turn.row, mode, "phase_error")))
  }

  method PhaseTurn(host: Host, deadline: int, i: nat, blocked: Blocked, sealLane: bool) returns (row: R.Graded, now: Blocked)
    requires i < 3
    modifies host
    ensures TurnDone(host.oracle, Turn(old(host.trace), host.trace, old(host.now), host.now, blocked, now, row), R.MODES[i], deadline, sealLane)
    ensures old(host.trace) <= host.trace
    ensures PhaseShape(host, deadline, i, row, host.trace, |old(host.trace)|, |host.trace|)
    ensures host.trace != old(host.trace) <==> blocked == Free && PhaseHasTime(deadline, old(host.now))
    ensures host.trace == old(host.trace) ==>
              && now == (if blocked == Free then TimeBudget else blocked)
              && R.Allow(Dict(NotRunRow(R.MODES[i], BlockedText(now), None))) == R.Row(row)
    ensures now == Free ==> host.trace != old(host.trace) && Verified(row)
    ensures blocked != Free ==> now == blocked
  {
    var mode := R.MODES[i];
    ghost var t := host.trace;
    now := blocked;
    if now == Free && !PhaseHasTime(deadline, host.now) {
      now := TimeBudget;
    }
    if now != Free {
      row := GradedNotRun(mode, BlockedText(now), None);
      return;
    }
    var o, at, mid, work := RunOnePhase(host, mode, deadline, sealLane);
    if o.Raised? {
      row := GradedNotRun(mode, "phase_error", None);
    } else {
      row := o.value;
      assert RanSo(host.oracle, t, host.trace, mode, sealLane, row, at, mid, work);
    }
    RanShape(host, deadline, i, row, t, host.trace, at);
    if !Verified(row) {
      now := PreviousUninstall;
    }
  }

  ghost predicate Begun(marks: seq<nat>, i: nat)
    requires i + 1 < |marks|
  {
    marks[i] < marks[i + 1]
  }

  ghost predicate AllClean(rows: seq<R.Graded>, marks: seq<nat>, n: nat)
    requires n <= |rows| < |marks|
  {
    forall k | 0 <= k < n :: Begun(marks, k) && Verified(rows[k])
  }

  /** A phase made calls only if the host was ready and every earlier phase ran and was cleaned up. */
  ghost predicate Gated(ready: bool, rows: seq<R.Graded>, marks: seq<nat>) {
    && |marks| == |rows| + 1
    && forall k | 0 <= k < |rows| :: Begun(marks, k) ==> ready && AllClean(rows, marks, k)
  }

  lemma GatedStep(ready: bool, rows: seq<R.Graded>, marks: seq<nat>, row: R.Graded, mark: nat, free: bool)
    requires Gated(ready, rows, marks) && marks[|rows|] <= mark
    requires free ==> ready && AllClean(rows, marks, |rows|)
    requires marks[|rows|] < mark ==> free
    ensures Gated(ready, rows + [row], marks + [mark])
    ensures marks[|rows|] < mark && Verified(row) ==> AllClean(rows + [row], marks + [mark], |rows| + 1)
  {
    var r, m := rows + [row], marks + [mark];
    assert forall k | 0 <= k < |rows| :: Begun(m, k) == Begun(marks, k) && r[k] == rows[k];
    assert Begun(m, |rows|) == (marks[|rows|] < mark);
    assert forall k | 0 <= k < |rows| :: AllClean(rows, marks, k) ==> AllClean(r, m, k);
    assert AllClean(rows, marks, |rows|) ==> AllClean(r, m, |rows|);
  }

  ghost predicate Shaped(host: Host, deadline: int, rows: seq<R.Graded>, t: Trace, marks: seq<nat>) {
    && |rows| <= 3 && |marks| == |rows| + 1 && marks[|rows|] == |t|
    && forall k | 0 <= k < |rows| :: PhaseShape(host, deadline, k, rows[k], t, marks[k], marks[k + 1])
  }

  lemma ShapedStep(host: Host, deadline: int, rows: seq<R.Graded>, t: Trace, marks: seq<nat>, row: R.Graded, u: Trace)
    requires |rows| < 3 && Shaped(host, deadline, rows, t, marks) && t <= u
    requires PhaseShape(host, deadline, |rows|, row, u, |t|, |u|)
    ensures Shaped(host, deadline, rows + [row], u, marks + [|u|])
  {
    forall k | 0 <= k < |rows| ensures PhaseShape(host, deadline, k, rows[k], u, marks[k], marks[k + 1]) {
      ShapeKept(host, deadline, k, rows[k], t, u, marks[k], marks[k + 1]);
    }
  }

  /**
   The three phases in order. A phase makes calls only if the host was ready and every earlier
   phase began and left a verified uninstall; all its calls end by the deadline.
   */
  method RunPhaseBatteries(host: Host, created: Option<int>, started: int, minutes: Val, ready: bool, sealLane: bool)
    returns (rows: seq<R.Graded>, ghost marks: seq<nat>, ghost turns: seq<Turn>)
    modifies host
    ensures |rows| == 3 && old(host.trace) <= host.trace
    ensures TurnsSoFar(host.oracle, turns, rows, PhaseDeadline(created, started, minutes), sealLane)
    ensures exists last :: Ends(turns, Position(old(host.trace), old(host.now), First(ready)), Position(host.trace, host.now, last))
    ensures Shaped(host, PhaseDeadline(created, started, minutes), rows, host.trace, marks)
    ensures marks[0] == |old(host.trace)|
    ensures Gated(ready, rows, marks)
  {
    rows, marks, turns := RunPhases(host, PhaseDeadline(created, started, minutes), ready, sealLane);
  }

  /** The loop over the phases. */
  method RunPhases(host: Host, deadline: int, ready: bool, sealLane: bool)
    returns (rows: seq<R.Graded>, ghost marks: seq<nat>, ghost turns: seq<Turn>)
    modifies host
    ensures |rows| == 3 && old(host.trace) <= host.trace
    ensures TurnsSoFar(host.oracle, turns, rows, deadline, sealLane)
    ensures exists last :: Ends(turns, Position(old(host.trace), old(host.now), First(ready)), Position(host.trace, host.now, last))
    ensures Shaped(host, deadline, rows, host.trace, marks) && marks[0] == |old(host.trace)|
    ensures Gated(ready, rows, marks)
  {
    var blocked := First(ready);
    rows, marks, turns := [], [|host.trace|], [];
    ghost var begin := Position(host.trace, host.now, blocked);
    while |rows| < 3
      invariant TurnsSoFar(host.oracle, turns, rows, deadline, sealLane)
      invariant Ends(turns, begin, Position(host.trace, host.now, blocked))
      invariant |rows| <= 3 && old(host.trace) <= host.trace
      invariant SoFar(host, deadline, ready, blocked, rows, host.trace, marks) && marks[0] == |old(host.trace)|
    {
      blocked, rows, marks, turns := NextPhase(host, deadline, ready, sealLane, blocked, rows, marks, turns, begin);
    }
  }

  /** One more turn, added to what is known of the run. */
  method NextPhase(host: Host, deadline: int, ready: bool, sealLane: bool, blocked: Blocked, rows: seq<R.Graded>,
                   ghost marks: seq<nat>, ghost turns: seq<Turn>, ghost begin: Position)
    returns (now: Blocked, more: seq<R.Graded>, ghost nextMarks: seq<nat>, ghost nextTurns: seq<Turn>)
    requires |rows| < 3 && TurnsSoFar(host.oracle, turns, rows, deadline, sealLane)
    requires Ends(turns, begin, Position(host.trace, host.now, blocked))
    requires SoFar(host, deadline, ready, blocked, rows, host.trace, marks)
    modifies host
    ensures old(host.trace) <= host.trace && |more| == |rows| + 1
    ensures TurnsSoFar(host.oracle, nextTurns, more, deadline, sealLane)
    ensures Ends(nextTurns, begin, Position(host.trace, host.now, now))
    ensures SoFar(host, deadline, ready, now, more, host.trace, nextMarks)
    ensures |marks| > 0 && |nextMarks| > 0 && nextMarks[0] == marks[0]
  {
    ghost var t, start := host.trace, host.now;
    var row;
    row, now := PhaseTurn(host, deadline, |rows|, blocked, sealLane);
    SoFarStep(host, deadline, ready, blocked, rows, t, marks, row, host.trace, now);
    ghost var turn := Turn(t, host.trace, start, host.now, blocked, now, row);
    TurnAdded(host.oracle, turns, rows, deadline, sealLane, turn, begin);
    more, nextMarks, nextTurns := rows + [row], marks + [|host.trace|], turns + [turn];
  }

  /** The turns one after the other, each begun as the one before it left things. */
  ghost predicate TurnsSoFar(oracle: (Trace, Call) -> Reply, turns: seq<Turn>, rows: seq<R.Graded>, deadline: int, sealLane: bool) {
    && |turns| == |rows| <= 3
    && (forall i | 0 <= i < |turns| :: TurnDone(oracle, turns[i], R.MODES[i], deadline, sealLane) && turns[i].row == rows[i])
    && (forall i | 0 < i < |turns| :: Follows(turns[i - 1], turns[i]))
  }

  ghost predicate Follows(a: Turn, b: Turn) { b.before == a.after && b.start == a.end && b.blocked == a.next }

  /** Where the run is: its calls, its time, and what blocks the next phase. */
  datatype Position = Position(trace: Trace, now: real, blocked: Blocked)

  function First(ready: bool): Blocked { if ready then Free else PreviousUninstall }

  /** The turns lead from one position to the other. */
  ghost predicate Ends(turns: seq<Turn>, from: Position, to: Position) {
    if turns == [] then from == to
    else
      && from == Position(turns[0].before, turns[0].start, turns[0].blocked)
      && var last := turns[|turns| - 1]; to == Position(last.after, last.end, last.next)
  }

  lemma TurnAdded(oracle: (Trace, Call) -> Reply, turns: seq<Turn>, rows: seq<R.Graded>, deadline: int, sealLane: bool, turn: Turn, from: Position)
    requires TurnsSoFar(oracle, turns, rows, deadline, sealLane) && |turns| < 3
    requires TurnDone(oracle, turn, R.MODES[|turns|], deadline, sealLane)
    requires Ends(turns, from, Position(turn.before, turn.start, turn.blocked))
    ensures TurnsSoFar(oracle, turns + [turn], rows + [turn.row], deadline, sealLane)
    ensures Ends(turns + [turn], from, Position(turn.after, turn.end, turn.next))
  {
    var all := turns + [turn];
    forall i | 0 < i < |all| ensures Follows(all[i - 1], all[i]) {
      assert i < |turns| ==> Follows(turns[i - 1], turns[i]);
    }
  }

  /** The state of the loop. */
  ghost predicate SoFar(host: Host, deadline: int, ready: bool, blocked: Blocked, rows: seq<R.Graded>, t: Trace, marks: seq<nat>) {
    && Shaped(host, deadline, rows, t, marks) && Gated(ready, rows, marks)
    && (blocked == Free ==> ready && AllClean(rows, marks, |rows|))
  }

  lemma SoFarStep(host: Host, deadline: int, ready: bool, blocked: Blocked, rows: seq<R.Graded>, t: Trace, marks: seq<nat>,
                  row: R.Graded, u: Trace, now: Blocked)
    requires |rows| < 3 && SoFar(host, deadline, ready, blocked, rows, t, marks) && t <= u
    requires PhaseShape(host, deadline, |rows|, row, u, |t|, |u|)
    requires u != t ==> blocked == Free
    requires now == Free ==> u != t && Verified(row)
    ensures SoFar(host, deadline, ready, now, rows + [row], u, marks + [|u|])
  {
    ShapedStep(host, deadline, rows, t, marks, row, u);
    assert |u| == |t| ==> u == t;
    GatedStep(ready, rows, marks, row, |u|, blocked == Free);
  }

  /** Whatever the replies, a graded pass of any phase means that it ran and cleaned up after itself. */
  lemma PassMeansVerified(host: Host, deadline: int, i: nat, row: R.Graded, t: Trace, low: nat, high: nat)
    requires i < 3 && PhaseShape(host, deadline, i, row, t, low, high) && row.verdict == R.BatteryPass
    ensures low < high && Verified(row) && exists at :: UninstalledAt(t[..low], t[..high], at) && CleanAt(host.oracle, t[..high], at)
  {
    var k := row.kept;
    var m := R.ModeOf(Get(k, R.Battery));
    R.JudgePass(m, R.WordOf(Get(k, R.HostResult)), Get(k, R.NotRunReason), Get(k, R.HarnessError), R.ClaimFilled(k),
                R.CauseOf(m, k), Get(k, R.UninstallVerified));
  }
}
