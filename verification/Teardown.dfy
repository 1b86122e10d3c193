/**
 The settle-first teardown of lab fixtures.

 Every AWS reply comes from an oracle that sees the whole history, so a property
 of the trace holds whatever AWS answers. `Justified` says what must already be on
 the trace when a destructive call is sent.
 */
module Teardown {
  import opened PyJson

  const SETTLE_POLL_SECONDS: nat := 5
  const INSTANCE_TERMINATED_POLLS: nat := 60
  const VOLUME_AVAILABLE_POLLS: nat := 24
  const POST_DETACH_POLLS: nat := 12
  const EIP_FREE_POLLS: nat := 24
  const SG_DEPENDENCY_ATTEMPTS: nat := 12
  const AUTHORIZED_KEY_PAIR: string := "vantio-w3-class-b-lab-01"

  type Tags = map<string, string>

  const LAB_TAGS: Tags := map[
    "vantio:program" := "w3-clean-host-lab",
    "vantio:lifecycle" := "lab",
    "vantio:destroyable" := "true",
    "vantio:environment" := "lab"
  ]
  const VOLUME_TAGS: Tags := LAB_TAGS["vantio:owned-by" := "transaction"]

  datatype Instance = Instance(state: string, tags: Tags)
  datatype Volume = Volume(state: string, attachments: nat, tags: Tags)
  datatype Address = Address(association: string, tags: Tags)
  datatype Group = Group(name: string, tags: Tags)

  /** A parsed reply body: the first well-formed entry of each list, if there is one. */
  datatype Payload = Payload(
    instance: Option<Instance>, volume: Option<Volume>, address: Option<Address>, group: Option<Group>)

  /** One finished aws call. `saysDeny` and `saysDependency` are what the text search finds. */
  datatype Result = Result(rc: int, code: string, saysDeny: bool, saysDependency: bool, payload: Option<Payload>)

  datatype Command =
    | DescribeInstances(id: string) | TerminateInstances(id: string)
    | DescribeVolumes(id: string) | DetachVolume(id: string) | DeleteVolume(id: string)
    | DescribeAddresses(id: string) | ReleaseAddress(id: string) | DisassociateAddress(id: string)
    | DescribeGroups(id: string) | DeleteGroup(id: string)
    | DescribeKeyPairs(id: string) | DeleteKeyPair(id: string)

  datatype Event = Called(cmd: Command, result: Result) | Slept(seconds: nat)

  type Trace = seq<Event>

  // ----- reply classifiers -----

  predicate NotFoundCode(code: string) {
    EndsWith(code, "NotFound") || EndsWith(code, "NotFoundException")
  }

  predicate DenyCode(code: string) {
    code in {"AccessDenied", "AccessDeniedException", "UnauthorizedOperation", "UnauthorizedException", "NotAuthorized", "AuthFailure"}
  }

  predicate Denied(r: Result) {
    r.rc != 0 && !NotFoundCode(r.code) && (DenyCode(r.code) || r.saysDeny)
  }

  predicate DependencyViolation(r: Result) {
    r.rc != 0 && (r.code == "DependencyViolation" || (!Denied(r) && !NotFoundCode(r.code) && r.saysDependency))
  }

  datatype DryRun = DryDenied | DryAllowed | DryNotFound | DryUnexpected

  function ClassifyDryRun(r: Result): DryRun {
    if NotFoundCode(r.code) then DryNotFound
    else if Denied(r) then DryDenied
    else if r.rc == 0 || r.code == "DryRunOperation" then DryAllowed
    else DryUnexpected
  }

  /** A missing resource never counts as an authorization denial, whatever the text says. */
  lemma NotFoundIsNotDenial(r: Result)
    ensures NotFoundCode(r.code) ==> !Denied(r) && ClassifyDryRun(r) == DryNotFound
    ensures ClassifyDryRun(r) == DryDenied <==> Denied(r)
    ensures r.code == "DependencyViolation" && r.rc != 0 ==> DependencyViolation(r)
  {
  }

  predicate HasTags(tags: Tags, required: Tags) {
    forall k | k in required :: k in tags && tags[k] == required[k]
  }

  predicate Hex(c: char) { '0' <= c <= '9' || 'a' <= c <= 'f' }

  predicate HasIdShape(prefix: string, id: string) {
    && prefix <= id
    && 8 <= |id| - |prefix| <= 17
    && forall i | |prefix| <= i < |id| :: Hex(id[i])
  }

  function Body(r: Result): Option<Payload> {
    if r.rc != 0 then None else r.payload
  }

  predicate IsFree(v: Volume) { v.state == "available" && v.attachments == 0 }

  // ----- what an event shows -----

  function SeenVolume(e: Event, id: string): Option<Volume> {
    if e.Called? && e.cmd == DescribeVolumes(id) && Body(e.result).Some? then e.result.payload.value.volume else None
  }

  function SeenAddress(e: Event, id: string): Option<Address> {
    if e.Called? && e.cmd == DescribeAddresses(id) && Body(e.result).Some? then e.result.payload.value.address else None
  }

  function SeenInstance(e: Event, id: string): Option<Instance> {
    if e.Called? && e.cmd == DescribeInstances(id) && Body(e.result).Some? then e.result.payload.value.instance else None
  }

  function SeenGroup(e: Event, id: string): Option<Group> {
    if e.Called? && e.cmd == DescribeGroups(id) && Body(e.result).Some? then e.result.payload.value.group else None
  }

  /** What a describe reply can prove about a resource. */
  datatype Fact =
    | FreeVolume(id: string) | OurVolume(id: string)
    | FreeAddress(id: string) | OurAddress(id: string)
    | OurInstance(id: string) | OurGroup(id: string) | KeyExists(id: string)

  predicate Shows(e: Event, f: Fact) {
    match f
    case FreeVolume(id) => var v := SeenVolume(e, id); v.Some? && IsFree(v.value)
    case OurVolume(id) => var v := SeenVolume(e, id); v.Some? && HasTags(v.value.tags, VOLUME_TAGS)
    case FreeAddress(id) => var a := SeenAddress(e, id); a.Some? && a.value.association == ""
    case OurAddress(id) => var a := SeenAddress(e, id); a.Some? && HasTags(a.value.tags, LAB_TAGS)
    case OurInstance(id) => var n := SeenInstance(e, id); n.Some? && HasTags(n.value.tags, LAB_TAGS)
    case OurGroup(id) =>
      var g := SeenGroup(e, id); g.Some? && HasTags(g.value.tags, LAB_TAGS) && g.value.name != "default"
    case KeyExists(id) => e.Called? && e.cmd == DescribeKeyPairs(id) && e.result.rc == 0
  }

  /** The trace ends in `polls` rounds of a five-second wait and a describe that did not show the volume free. */
  ghost predicate EndsInVainPolls(t: Trace, id: string, polls: nat) {
    && 2 * polls <= |t|
    && forall k | 0 <= k < polls :: VainPoll(t, |t| - 2 * polls + 2 * k, id)
  }

  ghost predicate VainPoll(t: Trace, at: int, id: string) {
    && 0 <= at && at + 1 < |t|
    && t[at] == Slept(SETTLE_POLL_SECONDS)
    && t[at + 1].Called? && t[at + 1].cmd == DescribeVolumes(id) && !Shows(t[at + 1], FreeVolume(id))
  }

  ghost predicate Earlier(t: Trace, f: Fact) {
    exists i | 0 <= i < |t| :: Shows(t[i], f)
  }

  ghost predicate EndsIn(t: Trace, f: Fact) {
    t != [] && Shows(t[|t| - 1], f)
  }

  /** What the trace before a call must show for the call to be sent at all. */
  ghost predicate Justified(before: Trace, e: Event) {
    match e
    case Slept(_) => true
    case Called(cmd, _) =>
      match cmd
      case TerminateInstances(id) => EndsIn(before, OurInstance(id))
      case DeleteVolume(id) =>
        EndsIn(before, FreeVolume(id)) && Earlier(before, OurVolume(id))
      case DetachVolume(id) =>
        && EndsInVainPolls(before, id, VOLUME_AVAILABLE_POLLS)
        && Earlier(before, OurVolume(id))
      case ReleaseAddress(id) =>
        EndsIn(before, FreeAddress(id)) && Earlier(before, OurAddress(id))
      case DeleteGroup(id) => Earlier(before, OurGroup(id))
      case DeleteKeyPair(id) => id == AUTHORIZED_KEY_PAIR && EndsIn(before, KeyExists(id))
      case DisassociateAddress(_) => false
      case _ => true
  }

  /** Every call on the trace was justified by what came before it. */
  ghost predicate Safe(t: Trace) {
    t == [] || (Safe(t[..|t| - 1]) && Justified(t[..|t| - 1], t[|t| - 1]))
  }

  lemma {:induction false} SafeAt(t: Trace, i: nat)
    requires Safe(t) && i < |t|
    ensures Justified(t[..i], t[i])
  {
    if i < |t| - 1 {
      SafeAt(t[..|t| - 1], i);
      assert t[..|t| - 1][..i] == t[..i];
    }
  }

  function Detaches(t: Trace): nat {
    if t == [] then 0
    else
      var last := t[|t| - 1];
      Detaches(t[..|t| - 1]) + (if last.Called? && last.cmd.DetachVolume? then 1 else 0)
  }

  function TotalSleep(t: Trace): nat {
    if t == [] then 0
    else
      var last := t[|t| - 1];
      TotalSleep(t[..|t| - 1]) + (if last.Slept? then last.seconds else 0)
  }

  /** The execution order of the run: instance, volume, address, group, key pair. */
  function Rank(cmd: Command): nat {
    match cmd
    case DescribeInstances(_) => 0
    case TerminateInstances(_) => 0
    case DescribeVolumes(_) => 1
    case DetachVolume(_) => 1
    case DeleteVolume(_) => 1
    case DescribeAddresses(_) => 2
    case ReleaseAddress(_) => 2
    case DisassociateAddress(_) => 2
    case DescribeGroups(_) => 3
    case DeleteGroup(_) => 3
    case DescribeKeyPairs(_) => 4
    case DeleteKeyPair(_) => 4
  }

  ghost predicate OnlyRank(t: Trace, from: nat, rank: nat) {
    forall i | from <= i < |t| && t[i].Called? :: Rank(t[i].cmd) == rank
  }

  /** From position `from` on, no call concerns an earlier resource than the call before it. */
  ghost predicate InOrder(t: Trace, from: nat) {
    forall i, j | from <= i < j < |t| && t[i].Called? && t[j].Called? :: Rank(t[i].cmd) <= Rank(t[j].cmd)
  }

  /** `cmd` was accepted at or after position `from`. */
  ghost predicate AcceptedSince(t: Trace, from: nat, cmd: Command) {
    exists i | from <= i < |t| :: t[i].Called? && t[i].cmd == cmd && t[i].result.rc == 0
  }

  // ----- appending to a trace -----

  /** `t` continues `before` with calls for one resource, safely, within a sleep budget. */
  ghost predicate Continues(before: Trace, t: Trace, rank: nat, sleep: nat, detaches: nat) {
    && before <= t
    && (Safe(before) ==> Safe(t))
    && OnlyRank(t, |before|, rank)
    && TotalSleep(t) <= TotalSleep(before) + sleep
    && Detaches(t) <= Detaches(before) + detaches
  }

  lemma Append(t: Trace, e: Event)
    requires Justified(t, e)
    ensures Safe(t) ==> Safe(t + [e])
    ensures TotalSleep(t + [e]) == TotalSleep(t) + (if e.Slept? then e.seconds else 0)
    ensures Detaches(t + [e]) == Detaches(t) + (if e.Called? && e.cmd.DetachVolume? then 1 else 0)
  {
    var longer := t + [e];
    assert longer[..|t|] == t;
  }

  lemma CallContinues(before: Trace, t: Trace, e: Event, rank: nat, sleep: nat, detaches: nat)
    requires Continues(before, t, rank, sleep, detaches) && Justified(t, e)
    requires e.Called? && Rank(e.cmd) == rank
    ensures Continues(before, t + [e], rank, sleep, detaches + (if e.cmd.DetachVolume? then 1 else 0))
  {
    Append(t, e);
  }

  lemma SleepContinues(before: Trace, t: Trace, s: nat, rank: nat, sleep: nat, detaches: nat)
    requires Continues(before, t, rank, sleep, detaches)
    ensures Continues(before, t + [Slept(s)], rank, sleep + s, detaches)
  {
    Append(t, Slept(s));
  }

  lemma Chain(a: Trace, b: Trace, c: Trace, rank: nat, s1: nat, s2: nat, d1: nat, d2: nat)
    requires Continues(a, b, rank, s1, d1) && Continues(b, c, rank, s2, d2)
    ensures Continues(a, c, rank, s1 + s2, d1 + d2)
  {
    assert forall i | |a| <= i < |b| :: c[i] == b[i];
  }

  class Session {
    const oracle: (Trace, Command) -> Result
    var trace: Trace

    constructor (oracle: (Trace, Command) -> Result)
      ensures this.oracle == oracle && trace == []
    {
      this.oracle := oracle;
      trace := [];
    }

    method Aws(cmd: Command) returns (r: Result)
      modifies this
      ensures r == oracle(old(trace), cmd)
      ensures trace == old(trace) + [Called(cmd, r)]
    {
      r := oracle(trace, cmd);
      trace := trace + [Called(cmd, r)];
    }

    method Sleep(seconds: nat)
      modifies this
      ensures trace == old(trace) + [Slept(seconds)]
    {
      trace := trace + [Slept(seconds)];
    }
  }

  datatype Status = Pass | Fail | NotRun

  // ----- what a step does, call by call -----

  datatype Kind = OfInstance | OfVolume | OfAddress

  /** What a describe reply says: nothing holds the resource, something does, it is gone, it is not listed, or no clear answer. */
  datatype Look = Idle | Held(holder: string) | Gone | Unlisted | Unclear

  ghost function Describes(kind: Kind, id: string): Command {
    match kind
    case OfInstance => DescribeInstances(id)
    case OfVolume => DescribeVolumes(id)
    case OfAddress => DescribeAddresses(id)
  }

  ghost function InstanceLook(p: Payload): Look {
    if p.instance.None? then Unlisted else if p.instance.value.state == "terminated" then Idle else Held(p.instance.value.state)
  }

  ghost function VolumeLook(p: Payload): Look {
    if p.volume.None? then Unlisted
    else if p.volume.value.state == "available" && p.volume.value.attachments == 0 then Idle else Held(p.volume.value.state)
  }

  ghost function AddressLook(p: Payload): Look {
    if p.address.None? then Unlisted else if p.address.value.association == "" then Idle else Held(p.address.value.association)
  }

  ghost function LookOf(kind: Kind, e: Event): Look {
    if e.Slept? then Unclear
    else if e.result.rc != 0 then (if NotFoundCode(e.result.code) then Gone else Unclear)
    else if e.result.payload.None? then Unclear
    else
      match kind
      case OfInstance => InstanceLook(e.result.payload.value)
      case OfVolume => VolumeLook(e.result.payload.value)
      case OfAddress => AddressLook(e.result.payload.value)
  }

  ghost predicate EndsPolling(kind: Kind, look: Look) { look.Idle? || look.Gone? || (look.Unlisted? && kind != OfInstance) }

  /** The trace ends in one round: a wait of five seconds and a describe. */
  ghost predicate EndsInRound(kind: Kind, id: string, t: Trace) {
    |t| >= 2 && t[|t| - 2] == Slept(5) && t[|t| - 1].Called? && t[|t| - 1].cmd == Describes(kind, id)
  }

  /** After `before` come `n` rounds, none of which ends the polling. */
  ghost predicate Vain(kind: Kind, id: string, before: Trace, t: Trace, n: nat) {
    if n == 0 then t == before
    else
      && EndsInRound(kind, id, t) && !EndsPolling(kind, LookOf(kind, t[|t| - 1]))
      && Vain(kind, id, before, t[..|t| - 2], n - 1)
  }

  /** After `n` such rounds comes one more, with this look. */
  ghost predicate Halted(kind: Kind, id: string, before: Trace, t: Trace, n: nat, look: Look) {
    EndsInRound(kind, id, t) && LookOf(kind, t[|t| - 1]) == look && Vain(kind, id, before, t[..|t| - 2], n)
  }

  ghost predicate HaltedWith(kind: Kind, id: string, before: Trace, t: Trace, most: nat, look: Look) {
    exists n | 0 <= n < most :: Halted(kind, id, before, t, n, look)
  }

  /** The last text that was seen to hold the resource in the last `n` rounds. */
  ghost function LastHeld(kind: Kind, t: Trace, n: nat): string {
    if n == 0 || |t| < 2 then "unset"
    else
      var look := LookOf(kind, t[|t| - 1]);
      if look.Held? then (if look.holder == "" then "unset" else look.holder) else LastHeld(kind, t[..|t| - 2], n - 1)
  }

  ghost predicate SomeUnclear(kind: Kind, t: Trace, n: nat) {
    n > 0 && |t| >= 2 && (LookOf(kind, t[|t| - 1]).Unclear? || SomeUnclear(kind, t[..|t| - 2], n - 1))
  }

  lemma RoundAdded(kind: Kind, id: string, before: Trace, t: Trace, u: Trace, n: nat)
    requires Vain(kind, id, before, t, n) && |u| == |t| + 2 && t <= u && EndsInRound(kind, id, u)
    ensures Halted(kind, id, before, u, n, LookOf(kind, u[|u| - 1]))
    ensures !EndsPolling(kind, LookOf(kind, u[|u| - 1])) ==> Vain(kind, id, before, u, n + 1)
    ensures var look := LookOf(kind, u[|u| - 1]);
            && (LastHeld(kind, u, n + 1) == if look.Held? then (if look.holder == "" then "unset" else look.holder) else LastHeld(kind, t, n))
            && (SomeUnclear(kind, u, n + 1) <==> look.Unclear? || SomeUnclear(kind, t, n))
  {
    assert u[..|u| - 2] == t;
  }

  /** One call was added, with any answer. */
  ghost predicate OneCall(t: Trace, u: Trace, cmd: Command) {
    t <= u && |u| == |t| + 1 && u[|t|].Called? && u[|t|].cmd == cmd
  }

  // ----- instance -----

  datatype Settle = Terminated | SettleNotFound | SettleTimeout

  /** The wait ends with the first look that shows the instance terminated or gone, or after sixty looks. */
  ghost predicate InstanceSettled(before: Trace, t: Trace, id: string, outcome: Settle) {
    match outcome
    case Terminated => HaltedWith(OfInstance, id, before, t, 60, Idle)
    case SettleNotFound => HaltedWith(OfInstance, id, before, t, 60, Gone)
    case SettleTimeout => Vain(OfInstance, id, before, t, 60)
  }

  method WaitInstanceTerminated(aws: Session, id: string) returns (outcome: Settle)
    modifies aws
    ensures Continues(old(aws.trace), aws.trace, 0, INSTANCE_TERMINATED_POLLS * SETTLE_POLL_SECONDS, 0)
    ensures InstanceSettled(old(aws.trace), aws.trace, id, outcome)
  {
    for k := 0 to INSTANCE_TERMINATED_POLLS
      invariant Continues(old(aws.trace), aws.trace, 0, k * SETTLE_POLL_SECONDS, 0)
      invariant Vain(OfInstance, id, old(aws.trace), aws.trace, k)
    {
      ghost var u := aws.trace;
      var r := InstanceRound(aws, id);
      Chain(old(aws.trace), u, aws.trace, 0, k * SETTLE_POLL_SECONDS, SETTLE_POLL_SECONDS, 0, 0);
      RoundAdded(OfInstance, id, old(aws.trace), u, aws.trace, k);
      if r.rc != 0 || Denied(r) {
        if NotFoundCode(r.code) {
          return SettleNotFound;
        }
        continue;
      }
      if r.payload.Some? && r.payload.value.instance.Some? && r.payload.value.instance.value.state == "terminated" {
        return Terminated;
      }
    }
    return SettleTimeout;
  }

  /** One settle round: wait five seconds, then describe the instance. */
  method InstanceRound(aws: Session, id: string) returns (r: Result)
    modifies aws
    ensures Continues(old(aws.trace), aws.trace, 0, SETTLE_POLL_SECONDS, 0)
    ensures |aws.trace| == |old(aws.trace)| + 2 && old(aws.trace) <= aws.trace && EndsInRound(OfInstance, id, aws.trace)
    ensures aws.trace[|aws.trace| - 1] == Called(DescribeInstances(id), r)
  {
    ghost var t := aws.trace;
    SleepContinues(t, t, SETTLE_POLL_SECONDS, 0, 0, 0);
    aws.Sleep(SETTLE_POLL_SECONDS);
    ghost var u := aws.trace;
    r := aws.Aws(DescribeInstances(id));
    CallContinues(t, u, Called(DescribeInstances(id), r), 0, SETTLE_POLL_SECONDS, 0);
  }

  /** A well-formed id is described, and terminated if the reply shows it is ours. */
  ghost predicate InstanceClosed(before: Trace, t: Trace, id: string) {
    if !HasIdShape("i-", id) then t == before
    else
      exists u ::
        OneCall(before, u, DescribeInstances(id))
        && if Shows(u[|before|], OurInstance(id)) then OneCall(u, t, TerminateInstances(id)) else t == u
  }

  method CloseInstance(aws: Session, id: string) returns (status: Status)
    modifies aws
    ensures InstanceClosed(old(aws.trace), aws.trace, id)
    ensures status != NotRun
    ensures Continues(old(aws.trace), aws.trace, 0, 0, 0)
    ensures status == Pass <==> AcceptedSince(aws.trace, |old(aws.trace)|, TerminateInstances(id))
  {
    if !HasIdShape("i-", id) {
      return Fail;
    }
    ghost var t := aws.trace;
    var described := aws.Aws(DescribeInstances(id));
    CallContinues(t, t, Called(DescribeInstances(id), described), 0, 0, 0);
    assert OneCall(t, aws.trace, DescribeInstances(id));
    if Denied(described) || described.rc != 0 || described.payload == None || described.payload.value.instance == None {
      return Fail;
    }
    if !HasTags(described.payload.value.instance.value.tags, LAB_TAGS) {
      return Fail;
    }
    ghost var u := aws.trace;
    assert EndsIn(u, OurInstance(id));
    var terminated := aws.Aws(TerminateInstances(id));
    CallContinues(t, u, Called(TerminateInstances(id), terminated), 0, 0, 0);
    if Denied(terminated) || terminated.rc != 0 {
      return Fail;
    }
    assert aws.trace[|aws.trace| - 1].cmd == TerminateInstances(id);
    return Pass;
  }

  // ----- volume -----

  datatype Described<T> = Seen(item: T) | Missing | NotFound | Errored

  datatype VolumePoll = Ready | Pending(last: string) | PollNotFound | PollMissing | PollError

  method DescribeVolume(aws: Session, id: string) returns (d: Described<Volume>)
    modifies aws
    ensures Continues(old(aws.trace), aws.trace, 1, 0, 0)
    ensures |aws.trace| == |old(aws.trace)| + 1
    ensures var e := aws.trace[|old(aws.trace)|];
            && e.Called? && e.cmd == DescribeVolumes(id)
            && (d.Seen? <==> SeenVolume(e, id).Some?)
            && (d.Seen? ==> SeenVolume(e, id).value == d.item)
            && (LookOf(OfVolume, e) == if d.Seen? then (if IsFree(d.item) then Idle else Held(d.item.state))
                                       else if d.NotFound? then Gone else if d.Missing? then Unlisted else Unclear)
  {
    ghost var t := aws.trace;
    var r := aws.Aws(DescribeVolumes(id));
    CallContinues(t, t, Called(DescribeVolumes(id), r), 1, 0, 0);
    if r.rc != 0 || Denied(r) {
      return if NotFoundCode(r.code) then NotFound else Errored;
    }
    if r.payload == None {
      return Errored;
    }
    if r.payload.value.volume == None {
      return Missing;
    }
    return Seen(r.payload.value.volume.value);
  }

  lemma VainPollsGrow(t: Trace, u: Trace, id: string, k: nat)
    requires EndsInVainPolls(t, id, k) && t <= u && |u| == |t| + 2 && VainPoll(u, |t|, id)
    ensures EndsInVainPolls(u, id, k + 1)
  {
    forall j | 0 <= j < k + 1 ensures VainPoll(u, |u| - 2 * (k + 1) + 2 * j, id) {
      if j < k {
        assert VainPoll(t, |t| - 2 * k + 2 * j, id);
      }
    }
  }

  lemma {:induction false} VainIsVain(before: Trace, t: Trace, id: string, n: nat)
    requires Vain(OfVolume, id, before, t, n)
    ensures EndsInVainPolls(t, id, n)
    decreases n
  {
    if n > 0 {
      var u := t[..|t| - 2];
      VainIsVain(before, u, id, n - 1);
      assert VainPoll(t, |u|, id);
      VainPollsGrow(u, t, id, n - 1);
    }
  }

  /** Polling deletes and releases nothing. */
  lemma {:induction false} VainDeletesNothing(kind: Kind, id: string, before: Trace, t: Trace, n: nat)
    requires Vain(kind, id, before, t, n)
    ensures before <= t && NoDelete(t, |before|)
    decreases n
  {
    if n > 0 {
      VainDeletesNothing(kind, id, before, t[..|t| - 2], n - 1);
    }
  }

  lemma HaltDeletesNothing(kind: Kind, id: string, before: Trace, t: Trace, most: nat, look: Look)
    requires HaltedWith(kind, id, before, t, most, look)
    ensures before <= t && NoDelete(t, |before|)
  {
    var n: nat :| n < most && Halted(kind, id, before, t, n, look);
    VainDeletesNothing(kind, id, before, t[..|t| - 2], n);
  }

  lemma VolumePollingIs(before: Trace, t: Trace, id: string, polls: nat, status: VolumePoll)
    requires VolumePolled(before, t, id, polls, status)
    ensures before <= t && NoDelete(t, |before|)
    ensures status.Pending? ==> EndsInVainPolls(t, id, polls)
  {
    match status {
      case Ready => HaltDeletesNothing(OfVolume, id, before, t, polls, Idle);
      case PollNotFound => HaltDeletesNothing(OfVolume, id, before, t, polls, Gone);
      case PollMissing => HaltDeletesNothing(OfVolume, id, before, t, polls, Unlisted);
      case PollError => VainDeletesNothing(OfVolume, id, before, t, polls);
      case Pending(_) =>
        VainDeletesNothing(OfVolume, id, before, t, polls);
        VainIsVain(before, t, id, polls);
    }
  }

  lemma AddressPollingIs(before: Trace, t: Trace, id: string, status: AddressPoll)
    requires AddressPolled(before, t, id, status)
    ensures before <= t && NoDelete(t, |before|)
  {
    match status {
      case Free => HaltDeletesNothing(OfAddress, id, before, t, 24, Idle);
      case AddressNotFound => HaltDeletesNothing(OfAddress, id, before, t, 24, Gone);
      case AddressMissing => HaltDeletesNothing(OfAddress, id, before, t, 24, Unlisted);
      case _ => VainDeletesNothing(OfAddress, id, before, t, 24);
    }
  }

  /** One settle round: wait five seconds, then describe the volume. */
  method VolumeRound(aws: Session, id: string) returns (d: Described<Volume>)
    modifies aws
    ensures Continues(old(aws.trace), aws.trace, 1, SETTLE_POLL_SECONDS, 0)
    ensures |aws.trace| == |old(aws.trace)| + 2
    ensures if d.Seen? && IsFree(d.item) then EndsIn(aws.trace, FreeVolume(id)) else VainPoll(aws.trace, |old(aws.trace)|, id)
    ensures old(aws.trace) <= aws.trace && EndsInRound(OfVolume, id, aws.trace)
    ensures LookOf(OfVolume, aws.trace[|aws.trace| - 1]) ==
            if d.Seen? then (if IsFree(d.item) then Idle else Held(d.item.state))
            else if d.NotFound? then Gone else if d.Missing? then Unlisted else Unclear
  {
    ghost var t := aws.trace;
    SleepContinues(t, t, SETTLE_POLL_SECONDS, 1, 0, 0);
    aws.Sleep(SETTLE_POLL_SECONDS);
    ghost var u := aws.trace;
    d := DescribeVolume(aws, id);
    Chain(t, u, aws.trace, 1, SETTLE_POLL_SECONDS, 0, 0, 0);
    assert aws.trace[|t|] == u[|t|];
  }

  /** The polling ends with the first look at a free, gone or unlisted volume, or else with what was last seen of it. */
  ghost predicate VolumePolled(before: Trace, t: Trace, id: string, polls: nat, status: VolumePoll) {
    match status
    case Ready => HaltedWith(OfVolume, id, before, t, polls, Idle)
    case PollNotFound => HaltedWith(OfVolume, id, before, t, polls, Gone)
    case PollMissing => HaltedWith(OfVolume, id, before, t, polls, Unlisted)
    case PollError => Vain(OfVolume, id, before, t, polls) && LastHeld(OfVolume, t, polls) == "unset" && SomeUnclear(OfVolume, t, polls)
    case Pending(last) =>
      && Vain(OfVolume, id, before, t, polls) && last == LastHeld(OfVolume, t, polls)
      && (last == "unset" ==> !SomeUnclear(OfVolume, t, polls))
  }

  method PollVolumeFree(aws: Session, id: string, polls: nat) returns (status: VolumePoll)
    modifies aws
    ensures VolumePolled(old(aws.trace), aws.trace, id, polls, status)
    ensures Continues(old(aws.trace), aws.trace, 1, polls * SETTLE_POLL_SECONDS, 0)
    ensures status == Ready ==> EndsIn(aws.trace, FreeVolume(id))
  {
    var lastState, sawError := "unset", false;
    ghost var t := aws.trace;
    for k := 0 to polls
      invariant Continues(t, aws.trace, 1, k * SETTLE_POLL_SECONDS, 0)
      invariant Vain(OfVolume, id, t, aws.trace, k)
      invariant lastState == LastHeld(OfVolume, aws.trace, k) && (sawError <==> SomeUnclear(OfVolume, aws.trace, k))
    {
      ghost var u := aws.trace;
      var d := VolumeRound(aws, id);
      Chain(t, u, aws.trace, 1, k * SETTLE_POLL_SECONDS, SETTLE_POLL_SECONDS, 0, 0);
      RoundAdded(OfVolume, id, t, u, aws.trace, k);
      if d.Seen? {
        lastState := if d.item.state == "" then "unset" else d.item.state;
        if IsFree(d.item) {
          return Ready;
        }
      } else if d.NotFound? {
        return PollNotFound;
      } else if d.Missing? {
        return PollMissing;
      } else {
        sawError := true;
      }
    }
    if sawError && lastState == "unset" {
      return PollError;
    }
    return Pending(lastState);
  }

  ghost predicate NoDelete(t: Trace, from: nat) {
    forall i | from <= i < |t| && t[i].Called? :: !t[i].cmd.DeleteVolume? && !t[i].cmd.ReleaseAddress?
  }

  method RemoveVolume(aws: Session, id: string) returns (status: Status)
    requires EndsIn(aws.trace, FreeVolume(id)) && Earlier(aws.trace, OurVolume(id))
    modifies aws
    ensures Continues(old(aws.trace), aws.trace, 1, 0, 0)
    ensures status != NotRun
    ensures status == Pass <==> AcceptedSince(aws.trace, |old(aws.trace)|, DeleteVolume(id))
    ensures OneCall(old(aws.trace), aws.trace, DeleteVolume(id))
  {
    ghost var t := aws.trace;
    var r := aws.Aws(DeleteVolume(id));
    CallContinues(t, t, Called(DeleteVolume(id), r), 1, 0, 0);
    assert aws.trace[|t|] == Called(DeleteVolume(id), r);
    return if Denied(r) || r.rc != 0 then Fail else Pass;
  }

  lemma EarlierStays(t: Trace, u: Trace, f: Fact)
    requires t <= u && Earlier(t, f)
    ensures Earlier(u, f)
  {
    var i :| 0 <= i < |t| && Shows(t[i], f);
    assert u[i] == t[i];
  }

  /** Detach; if that is accepted poll twelve times, and delete once the volume is seen free. */
  ghost predicate Detached(before: Trace, t: Trace, id: string) {
    exists u: Trace ::
      && OneCall(before, u, DetachVolume(id))
      && if u[|before|].result.rc != 0 then t == u else exists w, status :: PolledThenDeleted(u, w, t, id, status)
  }

  ghost predicate PolledThenDeleted(u: Trace, w: Trace, t: Trace, id: string, status: VolumePoll) {
    VolumePolled(u, w, id, 12, status) && if status == Ready then OneCall(w, t, DeleteVolume(id)) else t == w
  }

  method DetachVolumeLastResort(aws: Session, id: string) returns (status: Status)
    requires EndsInVainPolls(aws.trace, id, VOLUME_AVAILABLE_POLLS) && Earlier(aws.trace, OurVolume(id))
    modifies aws
    ensures Continues(old(aws.trace), aws.trace, 1, POST_DETACH_POLLS * SETTLE_POLL_SECONDS, 1)
    ensures Detached(old(aws.trace), aws.trace, id)
    ensures status != NotRun
    ensures status == Pass <==> AcceptedSince(aws.trace, |old(aws.trace)|, DeleteVolume(id))
  {
    ghost var t := aws.trace;
    var r := aws.Aws(DetachVolume(id));
    CallContinues(t, t, Called(DetachVolume(id), r), 1, 0, 0);
    assert OneCall(t, aws.trace, DetachVolume(id));
    if Denied(r) || r.rc != 0 {
      return Fail;
    }
    ghost var u := aws.trace;
    var polled := PollVolumeFree(aws, id, POST_DETACH_POLLS);
    ghost var w := aws.trace;
    VolumePollingIs(u, w, id, POST_DETACH_POLLS, polled);
    Chain(t, u, w, 1, 0, POST_DETACH_POLLS * SETTLE_POLL_SECONDS, 1, 0);
    NoDeleteYet(t, u, w, DeleteVolume(id));
    if polled != Ready {
      assert PolledThenDeleted(u, w, w, id, polled);
      return Fail;
    }
    EarlierStays(t, w, OurVolume(id));
    status := RemoveVolume(aws, id);
    assert PolledThenDeleted(u, w, aws.trace, id, polled);
    Chain(t, w, aws.trace, 1, POST_DETACH_POLLS * SETTLE_POLL_SECONDS, 0, 1, 0);
    AcceptedLater(t, w, aws.trace, DeleteVolume(id));
  }

  lemma NoDeleteYet(t: Trace, u: Trace, w: Trace, cmd: Command)
    requires t <= u <= w && NoDelete(w, |u|) && (cmd.DeleteVolume? || cmd.ReleaseAddress?)
    requires forall i | |t| <= i < |u| && u[i].Called? :: u[i].cmd != cmd
    ensures !AcceptedSince(w, |t|, cmd)
  {
    forall i | |t| <= i < |w| && w[i].Called? ensures w[i].cmd != cmd {
      assert i < |u| ==> w[i] == u[i];
    }
  }

  lemma AcceptedLater(t: Trace, w: Trace, x: Trace, cmd: Command)
    requires t <= w <= x && !AcceptedSince(w, |t|, cmd)
    ensures AcceptedSince(x, |t|, cmd) <==> AcceptedSince(x, |w|, cmd)
  {
    assert forall i | |t| <= i < |w| :: x[i] == w[i];
  }

  /** A well-formed id is described; a volume of ours is deleted if it is free, and settled first if it is not. */
  ghost predicate VolumeClosed(before: Trace, t: Trace, id: string) {
    if !HasIdShape("vol-", id) then t == before
    else exists u :: OneCall(before, u, DescribeVolumes(id)) && AfterDescribe(u, t, id)
  }

  ghost predicate AfterDescribe(u: Trace, t: Trace, id: string)
    requires u != []
  {
    var seen := u[|u| - 1];
    if !Shows(seen, OurVolume(id)) then t == u
    else if Shows(seen, FreeVolume(id)) then OneCall(u, t, DeleteVolume(id)) else VolumeSettled(u, t, id)
  }

  /** Poll twenty-four times: delete a free volume, detach one that is still there, and leave any other alone. */
  ghost predicate VolumeSettled(before: Trace, t: Trace, id: string) {
    exists w, status :: SettledAs(before, w, t, id, status)
  }

  ghost predicate SettledAs(before: Trace, w: Trace, t: Trace, id: string, status: VolumePoll) {
    && VolumePolled(before, w, id, 24, status)
    && if status == Ready then OneCall(w, t, DeleteVolume(id))
       else if status == Pending("in-use") || status == Pending("available") then Detached(w, t, id)
       else t == w
  }

  method CloseVolume(aws: Session, id: string) returns (status: Status)
    modifies aws
    ensures Continues(old(aws.trace), aws.trace, 1, (VOLUME_AVAILABLE_POLLS + POST_DETACH_POLLS) * SETTLE_POLL_SECONDS, 1)
    ensures VolumeClosed(old(aws.trace), aws.trace, id)
    ensures status != NotRun
    ensures status == Pass <==> AcceptedSince(aws.trace, |old(aws.trace)|, DeleteVolume(id))
  {
    ghost var t := aws.trace;
    if !HasIdShape("vol-", id) {
      return Fail;
    }
    var d := DescribeVolume(aws, id);
    ghost var u := aws.trace;
    assert OneCall(t, u, DescribeVolumes(id)) && u[|u| - 1] == u[|t|];
    if !d.Seen? || !HasTags(d.item.tags, VOLUME_TAGS) {
      return Fail;
    }
    assert Shows(u[|t|], OurVolume(id));
    if IsFree(d.item) {
      status := RemoveVolume(aws, id);
      Chain(t, u, aws.trace, 1, 0, 0, 0, 0);
      AcceptedLater(t, u, aws.trace, DeleteVolume(id));
      return;
    }
    status := SettleVolume(aws, id);
    Chain(t, u, aws.trace, 1, 0, (VOLUME_AVAILABLE_POLLS + POST_DETACH_POLLS) * SETTLE_POLL_SECONDS, 0, 1);
    AcceptedLater(t, u, aws.trace, DeleteVolume(id));
  }

  /** A volume that is ours and not free: poll, then delete it, or detach it once first. */
  method SettleVolume(aws: Session, id: string) returns (status: Status)
    requires Earlier(aws.trace, OurVolume(id))
    modifies aws
    ensures Continues(old(aws.trace), aws.trace, 1, (VOLUME_AVAILABLE_POLLS + POST_DETACH_POLLS) * SETTLE_POLL_SECONDS, 1)
    ensures VolumeSettled(old(aws.trace), aws.trace, id)
    ensures status != NotRun
    ensures status == Pass <==> AcceptedSince(aws.trace, |old(aws.trace)|, DeleteVolume(id))
  {
    ghost var t := aws.trace;
    var polled := PollVolumeFree(aws, id, VOLUME_AVAILABLE_POLLS);
    ghost var w := aws.trace;
    VolumePollingIs(t, w, id, VOLUME_AVAILABLE_POLLS, polled);
    NoDeleteYet(t, t, w, DeleteVolume(id));
    EarlierStays(t, w, OurVolume(id));
    if polled == Ready {
      status := RemoveVolume(aws, id);
      assert SettledAs(t, w, aws.trace, id, polled);
      Chain(t, w, aws.trace, 1, VOLUME_AVAILABLE_POLLS * SETTLE_POLL_SECONDS, 0, 0, 0);
      AcceptedLater(t, w, aws.trace, DeleteVolume(id));
      return;
    }
    if polled.Pending? && polled.last in {"in-use", "available"} {
      status := DetachVolumeLastResort(aws, id);
      assert SettledAs(t, w, aws.trace, id, polled);
      Chain(t, w, aws.trace, 1, VOLUME_AVAILABLE_POLLS * SETTLE_POLL_SECONDS, POST_DETACH_POLLS * SETTLE_POLL_SECONDS, 0, 1);
      AcceptedLater(t, w, aws.trace, DeleteVolume(id));
      return;
    }
    assert SettledAs(t, w, w, id, polled);
    return Fail;
  }

  // ----- address -----

  datatype AddressPoll = Free | StillAssociated | AddressNotFound | AddressMissing | AddressError

  method DescribeAddress(aws: Session, id: string) returns (d: Described<Address>)
    modifies aws
    ensures Continues(old(aws.trace), aws.trace, 2, 0, 0)
    ensures |aws.trace| == |old(aws.trace)| + 1
    ensures var e := aws.trace[|old(aws.trace)|];
            && e.Called? && e.cmd == DescribeAddresses(id)
            && (d.Seen? <==> SeenAddress(e, id).Some?)
            && (d.Seen? ==> SeenAddress(e, id).value == d.item)
            && (LookOf(OfAddress, e) == if d.Seen? then (if d.item.association == "" then Idle else Held(d.item.association))
                                        else if d.NotFound? then Gone else if d.Missing? then Unlisted else Unclear)
  {
    ghost var t := aws.trace;
    var r := aws.Aws(DescribeAddresses(id));
    CallContinues(t, t, Called(DescribeAddresses(id), r), 2, 0, 0);
    if r.rc != 0 || Denied(r) {
      return if NotFoundCode(r.code) then NotFound else Errored;
    }
    if r.payload == None {
      return Errored;
    }
    if r.payload.value.address == None {
      return Missing;
    }
    return Seen(r.payload.value.address.value);
  }

  method AddressRound(aws: Session, id: string) returns (d: Described<Address>)
    modifies aws
    ensures Continues(old(aws.trace), aws.trace, 2, SETTLE_POLL_SECONDS, 0)
    ensures NoDelete(aws.trace, |old(aws.trace)|)
    ensures d.Seen? && d.item.association == "" ==> EndsIn(aws.trace, FreeAddress(id))
    ensures |aws.trace| == |old(aws.trace)| + 2 && old(aws.trace) <= aws.trace && EndsInRound(OfAddress, id, aws.trace)
    ensures LookOf(OfAddress, aws.trace[|aws.trace| - 1]) ==
            if d.Seen? then (if d.item.association == "" then Idle else Held(d.item.association))
            else if d.NotFound? then Gone else if d.Missing? then Unlisted else Unclear
  {
    ghost var t := aws.trace;
    SleepContinues(t, t, SETTLE_POLL_SECONDS, 2, 0, 0);
    aws.Sleep(SETTLE_POLL_SECONDS);
    ghost var u := aws.trace;
    d := DescribeAddress(aws, id);
    Chain(t, u, aws.trace, 2, SETTLE_POLL_SECONDS, 0, 0, 0);
    assert aws.trace[|t|] == u[|t|];
  }

  ghost predicate AddressPolled(before: Trace, t: Trace, id: string, status: AddressPoll) {
    match status
    case Free => HaltedWith(OfAddress, id, before, t, 24, Idle)
    case AddressNotFound => HaltedWith(OfAddress, id, before, t, 24, Gone)
    case AddressMissing => HaltedWith(OfAddress, id, before, t, 24, Unlisted)
    case AddressError => Vain(OfAddress, id, before, t, 24) && LastHeld(OfAddress, t, 24) == "unset" && SomeUnclear(OfAddress, t, 24)
    case StillAssociated => Vain(OfAddress, id, before, t, 24) && (LastHeld(OfAddress, t, 24) == "unset" ==> !SomeUnclear(OfAddress, t, 24))
  }

  method PollAddressFree(aws: Session, id: string) returns (status: AddressPoll)
    modifies aws
    ensures AddressPolled(old(aws.trace), aws.trace, id, status)
    ensures Continues(old(aws.trace), aws.trace, 2, EIP_FREE_POLLS * SETTLE_POLL_SECONDS, 0)
    ensures status == Free ==> EndsIn(aws.trace, FreeAddress(id))
  {
    var lastAssociation, sawError := "unset", false;
    ghost var t := aws.trace;
    for k := 0 to EIP_FREE_POLLS
      invariant Continues(t, aws.trace, 2, k * SETTLE_POLL_SECONDS, 0)
      invariant Vain(OfAddress, id, t, aws.trace, k)
      invariant lastAssociation == LastHeld(OfAddress, aws.trace, k) && (sawError <==> SomeUnclear(OfAddress, aws.trace, k))
    {
      ghost var u := aws.trace;
      var d := AddressRound(aws, id);
      Chain(t, u, aws.trace, 2, k * SETTLE_POLL_SECONDS, SETTLE_POLL_SECONDS, 0, 0);
      RoundAdded(OfAddress, id, t, u, aws.trace, k);
      if d.Seen? {
        lastAssociation := d.item.association;
        if lastAssociation == "" {
          return Free;
        }
      } else if d.NotFound? {
        return AddressNotFound;
      } else if d.Missing? {
        return AddressMissing;
      } else {
        sawError := true;
      }
    }
    if sawError && lastAssociation == "unset" {
      return AddressError;
    }
    return StillAssociated;
  }

  method Release(aws: Session, id: string) returns (status: Status)
    requires EndsIn(aws.trace, FreeAddress(id)) && Earlier(aws.trace, OurAddress(id))
    modifies aws
    ensures Continues(old(aws.trace), aws.trace, 2, 0, 0)
    ensures status != NotRun
    ensures status == Pass <==> AcceptedSince(aws.trace, |old(aws.trace)|, ReleaseAddress(id))
    ensures OneCall(old(aws.trace), aws.trace, ReleaseAddress(id))
  {
    ghost var t := aws.trace;
    var r := aws.Aws(ReleaseAddress(id));
    CallContinues(t, t, Called(ReleaseAddress(id), r), 2, 0, 0);
    assert aws.trace[|t|] == Called(ReleaseAddress(id), r);
    return if Denied(r) || r.rc != 0 then Fail else Pass;
  }

  /** A well-formed id is described; an address of ours is released once it is free, and polled for that if it is not. */
  ghost predicate AddressClosed(before: Trace, t: Trace, id: string) {
    if !HasIdShape("eipalloc-", id) then t == before
    else exists u :: OneCall(before, u, DescribeAddresses(id)) && AfterAddress(u, t, id)
  }

  ghost predicate AfterAddress(u: Trace, t: Trace, id: string)
    requires u != []
  {
    var seen := u[|u| - 1];
    if !Shows(seen, OurAddress(id)) then t == u
    else if Shows(seen, FreeAddress(id)) then OneCall(u, t, ReleaseAddress(id)) else AddressSettled(u, t, id)
  }

  ghost predicate AddressSettled(before: Trace, t: Trace, id: string) {
    exists w, status :: AddressPolled(before, w, id, status) && if status == Free then OneCall(w, t, ReleaseAddress(id)) else t == w
  }

  method CloseAddress(aws: Session, id: string) returns (status: Status)
    modifies aws
    ensures AddressClosed(old(aws.trace), aws.trace, id)
    ensures Continues(old(aws.trace), aws.trace, 2, EIP_FREE_POLLS * SETTLE_POLL_SECONDS, 0)
    ensures status != NotRun
    ensures status == Pass <==> AcceptedSince(aws.trace, |old(aws.trace)|, ReleaseAddress(id))
  {
    ghost var t := aws.trace;
    if !HasIdShape("eipalloc-", id) {
      return Fail;
    }
    var d := DescribeAddress(aws, id);
    ghost var u := aws.trace;
    assert OneCall(t, u, DescribeAddresses(id)) && u[|u| - 1] == u[|t|];
    if !d.Seen? || !HasTags(d.item.tags, LAB_TAGS) {
      return Fail;
    }
    assert Shows(u[|t|], OurAddress(id));
    if d.item.association == "" {
      status := Release(aws, id);
      Chain(t, u, aws.trace, 2, 0, 0, 0, 0);
      AcceptedLater(t, u, aws.trace, ReleaseAddress(id));
      return;
    }
    status := SettleAddress(aws, id);
    Chain(t, u, aws.trace, 2, 0, EIP_FREE_POLLS * SETTLE_POLL_SECONDS, 0, 0);
    AcceptedLater(t, u, aws.trace, ReleaseAddress(id));
  }

  /** An address that is ours and associated: poll until it is free, then release it. */
  method SettleAddress(aws: Session, id: string) returns (status: Status)
    requires Earlier(aws.trace, OurAddress(id))
    modifies aws
    ensures AddressSettled(old(aws.trace), aws.trace, id)
    ensures Continues(old(aws.trace), aws.trace, 2, EIP_FREE_POLLS * SETTLE_POLL_SECONDS, 0)
    ensures status != NotRun
    ensures status == Pass <==> AcceptedSince(aws.trace, |old(aws.trace)|, ReleaseAddress(id))
  {
    ghost var t := aws.trace;
    var polled := PollAddressFree(aws, id);
    ghost var w := aws.trace;
    AddressPollingIs(t, w, id, polled);
    NoDeleteYet(t, t, w, ReleaseAddress(id));
    EarlierStays(t, w, OurAddress(id));
    if polled != Free {
      return Fail;
    }
    status := Release(aws, id);
    Chain(t, w, aws.trace, 2, EIP_FREE_POLLS * SETTLE_POLL_SECONDS, 0, 0, 0);
    AcceptedLater(t, w, aws.trace, ReleaseAddress(id));
  }

  // ----- security group and key pair -----

  function Backoff(failedAttempt: nat): nat {
    if failedAttempt < 4 then 5 * (failedAttempt + 1) else 20
  }

  /** The sleep before attempt `n`: 5, 10, 15, 20, then 20 each. */
  function BackoffTotal(n: nat): nat {
    if n == 0 then 0 else BackoffTotal(n - 1) + Backoff(n - 1)
  }

  lemma {:induction false} BackoffBound(n: nat)
    ensures n >= 4 ==> BackoffTotal(n) == 50 + 20 * (n - 4)
    ensures BackoffTotal(n) <= BackoffTotal(n + 1)
  {
    if n > 4 {
      BackoffBound(n - 1);
    } else if n == 4 {
      assert BackoffTotal(1) == 5 && BackoffTotal(2) == 15 && BackoffTotal(3) == 30;
    }
  }

  lemma {:induction false} BackoffMonotone(m: nat, n: nat)
    requires m <= n
    ensures BackoffTotal(m) <= BackoffTotal(n)
    decreases n - m
  {
    if m < n {
      BackoffMonotone(m + 1, n);
    }
  }

  /** `n` refused deletes, each for a dependency and each followed by its wait: 5, 10, 15, 20, then 20 seconds. */
  ghost predicate Refused(before: Trace, t: Trace, id: string, n: nat) {
    if n == 0 then t == before
    else
      && |t| >= 2 && t[|t| - 1] == Slept(if n <= 4 then 5 * n else 20)
      && t[|t| - 2].Called? && t[|t| - 2].cmd == DeleteGroup(id) && DependencyViolation(t[|t| - 2].result)
      && Refused(before, t[..|t| - 2], id, n - 1)
  }

  /** The delete is sent again after each refusal for a dependency, twelve times at most. */
  ghost predicate Retried(before: Trace, t: Trace, id: string) { exists u, n: nat :: RetriedAfter(before, u, t, id, n) }

  ghost predicate RetriedAfter(before: Trace, u: Trace, t: Trace, id: string, n: nat) {
    && n < 12 && Refused(before, u, id, n) && OneCall(u, t, DeleteGroup(id))
    && (n < 11 ==> !DependencyViolation(t[|u|].result))
  }

  lemma EndsRetrying(before: Trace, u: Trace, t: Trace, id: string, n: nat)
    requires RetriedAfter(before, u, t, id, n)
    ensures Retried(before, t, id)
  {
  }

  lemma RefusedOnce(before: Trace, t: Trace, u: Trace, id: string, n: nat)
    requires Refused(before, t, id, n) && OneCall(t, u, DeleteGroup(id)) && DependencyViolation(u[|t|].result)
    ensures Refused(before, u + [Slept(if n < 4 then 5 * (n + 1) else 20)], id, n + 1)
  {
    var w := u + [Slept(if n < 4 then 5 * (n + 1) else 20)];
    assert w[..|w| - 2] == t && w[|w| - 2] == u[|t|];
  }

  method DeleteGroupWithRetries(aws: Session, id: string) returns (status: Status)
    requires Earlier(aws.trace, OurGroup(id))
    modifies aws
    ensures Retried(old(aws.trace), aws.trace, id)
    ensures Continues(old(aws.trace), aws.trace, 3, 190, 0)
    ensures status != NotRun
    ensures status == Pass <==> AcceptedSince(aws.trace, |old(aws.trace)|, DeleteGroup(id))
  {
    ghost var t := aws.trace;
    BackoffBound(11);
    for attempt := 0 to SG_DEPENDENCY_ATTEMPTS
      invariant Continues(t, aws.trace, 3, BackoffTotal(attempt), 0)
      invariant !AcceptedSince(aws.trace, |t|, DeleteGroup(id))
      invariant attempt < SG_DEPENDENCY_ATTEMPTS
      invariant Refused(t, aws.trace, id, attempt)
    {
      BackoffMonotone(attempt, 11);
      ghost var u := aws.trace;
      var deleted := AttemptDeleteGroup(aws, id, t, BackoffTotal(attempt));
      var residual := DependencyViolation(deleted);
      if !residual || attempt + 1 == SG_DEPENDENCY_ATTEMPTS {
        EndsRetrying(t, u, aws.trace, id, attempt);
      }
      if deleted.rc == 0 && !Denied(deleted) {
        return Pass;
      }
      if residual && attempt + 1 < SG_DEPENDENCY_ATTEMPTS {
        ghost var w := aws.trace;
        SleepContinues(t, w, Backoff(attempt), 3, BackoffTotal(attempt), 0);
        aws.Sleep(Backoff(attempt));
        RefusedOnce(t, u, w, id, attempt);
        SleepAccepts(w, Backoff(attempt), |t|, DeleteGroup(id));
        continue;
      }
      return Fail;
    }
    return Fail;
  }

  lemma SleepAccepts(w: Trace, s: nat, from: nat, cmd: Command)
    ensures AcceptedSince(w + [Slept(s)], from, cmd) ==> AcceptedSince(w, from, cmd)
  {
  }

  method AttemptDeleteGroup(aws: Session, id: string, ghost t: Trace, ghost slept: nat) returns (deleted: Result)
    requires Earlier(t, OurGroup(id)) && Continues(t, aws.trace, 3, slept, 0)
    requires !AcceptedSince(aws.trace, |t|, DeleteGroup(id))
    modifies aws
    ensures Continues(t, aws.trace, 3, slept, 0)
    ensures AcceptedSince(aws.trace, |t|, DeleteGroup(id)) <==> deleted.rc == 0
    ensures OneCall(old(aws.trace), aws.trace, DeleteGroup(id)) && aws.trace[|old(aws.trace)|].result == deleted
  {
    ghost var u := aws.trace;
    EarlierStays(t, u, OurGroup(id));
    deleted := aws.Aws(DeleteGroup(id));
    CallContinues(t, u, Called(DeleteGroup(id), deleted), 3, slept, 0);
    assert aws.trace[|u|] == Called(DeleteGroup(id), deleted);
    assert forall i | |t| <= i < |u| :: aws.trace[i] == u[i];
  }

  /** The describe and the tag match that a delete needs. */
  method DescribeOurGroup(aws: Session, id: string) returns (ours: bool)
    modifies aws
    ensures Continues(old(aws.trace), aws.trace, 3, 0, 0)
    ensures !AcceptedSince(aws.trace, |old(aws.trace)|, DeleteGroup(id))
    ensures ours ==> Earlier(aws.trace, OurGroup(id))
    ensures OneCall(old(aws.trace), aws.trace, DescribeGroups(id)) && (ours <==> Shows(aws.trace[|old(aws.trace)|], OurGroup(id)))
  {
    ghost var t := aws.trace;
    var described := aws.Aws(DescribeGroups(id));
    CallContinues(t, t, Called(DescribeGroups(id), described), 3, 0, 0);
    if Denied(described) || described.rc != 0 || described.payload == None || described.payload.value.group == None {
      return false;
    }
    var group := described.payload.value.group.value;
    ours := group.name != "default" && HasTags(group.tags, LAB_TAGS);
    assert ours ==> Shows(aws.trace[|t|], OurGroup(id));
  }

  ghost predicate GroupClosed(before: Trace, t: Trace, id: string) {
    if !HasIdShape("sg-", id) then t == before
    else
      exists u ::
        OneCall(before, u, DescribeGroups(id)) && if Shows(u[|before|], OurGroup(id)) then Retried(u, t, id) else t == u
  }

  method CloseGroup(aws: Session, id: string) returns (status: Status)
    modifies aws
    ensures GroupClosed(old(aws.trace), aws.trace, id)
    ensures Continues(old(aws.trace), aws.trace, 3, 190, 0)
    ensures status != NotRun
    ensures status == Pass <==> AcceptedSince(aws.trace, |old(aws.trace)|, DeleteGroup(id))
  {
    ghost var t := aws.trace;
    if !HasIdShape("sg-", id) {
      return Fail;
    }
    var ours := DescribeOurGroup(aws, id);
    if !ours {
      return Fail;
    }
    ghost var u := aws.trace;
    status := DeleteGroupWithRetries(aws, id);
    Chain(t, u, aws.trace, 3, 0, 190, 0, 0);
    AcceptedLater(t, u, aws.trace, DeleteGroup(id));
  }

  ghost predicate KeyPairClosed(before: Trace, t: Trace, name: string) {
    if name != "vantio-w3-class-b-lab-01" then t == before
    else
      exists u: Trace ::
        OneCall(before, u, DescribeKeyPairs(name)) && if u[|before|].result.rc == 0 then OneCall(u, t, DeleteKeyPair(name)) else t == u
  }

  method CloseKeyPair(aws: Session, name: string) returns (status: Status)
    modifies aws
    ensures KeyPairClosed(old(aws.trace), aws.trace, name)
    ensures Continues(old(aws.trace), aws.trace, 4, 0, 0)
    ensures status != NotRun
    ensures status == Pass <==> AcceptedSince(aws.trace, |old(aws.trace)|, DeleteKeyPair(name))
  {
    ghost var t := aws.trace;
    if name != AUTHORIZED_KEY_PAIR {
      return Fail;
    }
    var described := aws.Aws(DescribeKeyPairs(name));
    CallContinues(t, t, Called(DescribeKeyPairs(name), described), 4, 0, 0);
    assert OneCall(t, aws.trace, DescribeKeyPairs(name));
    if Denied(described) || described.rc != 0 {
      return Fail;
    }
    ghost var u := aws.trace;
    assert EndsIn(u, KeyExists(name));
    var deleted := aws.Aws(DeleteKeyPair(name));
    CallContinues(t, u, Called(DeleteKeyPair(name), deleted), 4, 0, 0);
    assert aws.trace[|u|] == Called(DeleteKeyPair(name), deleted);
    return if Denied(deleted) || deleted.rc != 0 then Fail else Pass;
  }

  // ----- the run -----

  datatype Context = Context(
    runDestructive: bool, instanceId: string, volumeId: string, groupId: string, keyName: string, allocationId: string)

  datatype Report = Report(instance: Status, volume: Status, group: Status, keyPair: Status, address: Status)

  /** Everything the run did from position `from` on. */
  ghost predicate RunSafe(before: Trace, t: Trace, rankBound: nat, sleep: nat) {
    && before <= t
    && (Safe(before) ==> Safe(t))
    && InOrder(t, |before|)
    && (forall i | |before| <= i < |t| && t[i].Called? :: Rank(t[i].cmd) <= rankBound)
    && TotalSleep(t) <= TotalSleep(before) + sleep
    && Detaches(t) <= Detaches(before) + (if rankBound >= 1 then 1 else 0)
  }

  lemma RunStep(a: Trace, b: Trace, c: Trace, low: nat, rank: nat, s1: nat, s2: nat, d: nat)
    requires RunSafe(a, b, low, s1) && Continues(b, c, rank, s2, d)
    requires low <= rank && d <= (if rank == 1 then 1 else 0) && (rank == 1 ==> low == 0)
    ensures RunSafe(a, c, rank, s1 + s2)
  {
    assert forall i | 0 <= i < |b| :: c[i] == b[i];
  }

  lemma SkipStep(a: Trace, b: Trace, low: nat, rank: nat, s1: nat, s2: nat)
    requires RunSafe(a, b, low, s1) && low <= rank
    ensures RunSafe(a, b, rank, s1 + s2)
  {
  }

  /** A later step adds no accepted call for an earlier resource. */
  ghost predicate KeepsAccepted(t: Trace, u: Trace, w: Trace, rank: nat) {
    forall cmd | Rank(cmd) < rank :: AcceptedSince(w, |t|, cmd) <==> AcceptedSince(u, |t|, cmd)
  }

  lemma StepKeepsAccepted(t: Trace, u: Trace, w: Trace, rank: nat, s: nat, d: nat)
    requires t <= u && Continues(u, w, rank, s, d)
    ensures KeepsAccepted(t, u, w, rank)
  {
    forall cmd | Rank(cmd) < rank ensures AcceptedSince(w, |t|, cmd) <==> AcceptedSince(u, |t|, cmd) {
      assert forall i | |t| <= i < |u| :: w[i] == u[i];
    }
  }

  lemma StepReports(t: Trace, u: Trace, w: Trace, low: nat, s: nat, cmd: Command)
    requires RunSafe(t, u, low, s) && u <= w && low < Rank(cmd)
    ensures AcceptedSince(w, |t|, cmd) <==> AcceptedSince(w, |u|, cmd)
  {
    assert forall i | |t| <= i < |u| :: w[i] == u[i];
  }

  /** A row of the report: not run without an id, and a pass exactly when the call was accepted. */
  ghost predicate Reported(status: Status, id: string, t: Trace, from: nat, cmd: Command) {
    && (status == NotRun <==> id == "")
    && (id != "" ==> (status == Pass <==> AcceptedSince(t, from, cmd)))
  }

  /** Close the instance, and after an accepted terminate wait for it. */
  ghost predicate InstanceRan(before: Trace, t: Trace, id: string, status: Status) {
    if id == "" then t == before
    else exists u :: InstanceClosed(before, u, id) && if status == Pass then exists o :: InstanceSettled(u, t, id, o) else t == u
  }

  method RunInstance(aws: Session, id: string) returns (status: Status)
    modifies aws
    ensures InstanceRan(old(aws.trace), aws.trace, id, status)
    ensures RunSafe(old(aws.trace), aws.trace, 0, 300)
    ensures Reported(status, id, aws.trace, |old(aws.trace)|, TerminateInstances(id))
  {
    ghost var t := aws.trace;
    if id == "" {
      return NotRun;
    }
    status := CloseInstance(aws, id);
    RunStep(t, t, aws.trace, 0, 0, 0, 0, 0);
    if status == Pass {
      ghost var u := aws.trace;
      var outcome := WaitInstanceTerminated(aws, id);
      RunStep(t, u, aws.trace, 0, 0, 0, 300, 0);
      assert forall i | 0 <= i < |u| :: aws.trace[i] == u[i];
    }
  }

  ghost predicate VolumeRan(before: Trace, t: Trace, id: string) { if id == "" then t == before else VolumeClosed(before, t, id) }

  method RunVolume(aws: Session, id: string, ghost t: Trace) returns (status: Status)
    requires RunSafe(t, aws.trace, 0, 300)
    modifies aws
    ensures RunSafe(t, aws.trace, 1, 480) && KeepsAccepted(t, old(aws.trace), aws.trace, 1)
    ensures VolumeRan(old(aws.trace), aws.trace, id)
    ensures Reported(status, id, aws.trace, |t|, DeleteVolume(id))
  {
    ghost var u := aws.trace;
    SkipStep(t, u, 0, 1, 300, 180);
    if id == "" {
      return NotRun;
    }
    status := CloseVolume(aws, id);
    RunStep(t, u, aws.trace, 0, 1, 300, 180, 1);
    StepKeepsAccepted(t, u, aws.trace, 1, 180, 1);
    StepReports(t, u, aws.trace, 0, 300, DeleteVolume(id));
  }

  ghost predicate AddressRan(before: Trace, t: Trace, id: string) { if id == "" then t == before else AddressClosed(before, t, id) }

  method RunAddress(aws: Session, id: string, ghost t: Trace) returns (status: Status)
    requires RunSafe(t, aws.trace, 1, 480)
    modifies aws
    ensures RunSafe(t, aws.trace, 2, 600) && KeepsAccepted(t, old(aws.trace), aws.trace, 2)
    ensures AddressRan(old(aws.trace), aws.trace, id)
    ensures Reported(status, id, aws.trace, |t|, ReleaseAddress(id))
  {
    ghost var u := aws.trace;
    SkipStep(t, u, 1, 2, 480, 120);
    if id == "" {
      return NotRun;
    }
    status := CloseAddress(aws, id);
    RunStep(t, u, aws.trace, 1, 2, 480, 120, 0);
    StepKeepsAccepted(t, u, aws.trace, 2, 120, 0);
    StepReports(t, u, aws.trace, 1, 480, ReleaseAddress(id));
  }

  ghost predicate GroupRan(before: Trace, t: Trace, id: string) { if id == "" then t == before else GroupClosed(before, t, id) }

  method RunGroup(aws: Session, id: string, ghost t: Trace) returns (status: Status)
    requires RunSafe(t, aws.trace, 2, 600)
    modifies aws
    ensures RunSafe(t, aws.trace, 3, 790) && KeepsAccepted(t, old(aws.trace), aws.trace, 3)
    ensures GroupRan(old(aws.trace), aws.trace, id)
    ensures Reported(status, id, aws.trace, |t|, DeleteGroup(id))
  {
    ghost var u := aws.trace;
    SkipStep(t, u, 2, 3, 600, 190);
    if id == "" {
      return NotRun;
    }
    status := CloseGroup(aws, id);
    RunStep(t, u, aws.trace, 2, 3, 600, 190, 0);
    StepKeepsAccepted(t, u, aws.trace, 3, 190, 0);
    StepReports(t, u, aws.trace, 2, 600, DeleteGroup(id));
  }

  ghost predicate KeyPairRan(before: Trace, t: Trace, name: string) { if name == "" then t == before else KeyPairClosed(before, t, name) }

  method RunKeyPair(aws: Session, name: string, ghost t: Trace) returns (status: Status)
    requires RunSafe(t, aws.trace, 3, 790)
    modifies aws
    ensures RunSafe(t, aws.trace, 4, 790) && KeepsAccepted(t, old(aws.trace), aws.trace, 4)
    ensures KeyPairRan(old(aws.trace), aws.trace, name)
    ensures Reported(status, name, aws.trace, |t|, DeleteKeyPair(name))
  {
    ghost var u := aws.trace;
    SkipStep(t, u, 3, 4, 790, 0);
    if name == "" {
      return NotRun;
    }
    status := CloseKeyPair(aws, name);
    RunStep(t, u, aws.trace, 3, 4, 790, 0, 0);
    StepKeepsAccepted(t, u, aws.trace, 4, 0, 0);
    StepReports(t, u, aws.trace, 3, 790, DeleteKeyPair(name));
  }

  /** The five steps one after the other, each skipped without an id. */
  ghost predicate Steps(ctx: Context, t: Trace, a: Trace, b: Trace, c: Trace, d: Trace, e: Trace, instance: Status) {
    && InstanceRan(t, a, ctx.instanceId, instance) && VolumeRan(a, b, ctx.volumeId) && AddressRan(b, c, ctx.allocationId)
    && GroupRan(c, d, ctx.groupId) && KeyPairRan(d, e, ctx.keyName)
  }

  ghost predicate Ran(ctx: Context, t: Trace, e: Trace, instance: Status) {
    exists a, b, c, d :: Steps(ctx, t, a, b, c, d, e, instance)
  }

  lemma StepsRan(ctx: Context, t: Trace, a: Trace, b: Trace, c: Trace, d: Trace, e: Trace, instance: Status)
    requires InstanceRan(t, a, ctx.instanceId, instance) && VolumeRan(a, b, ctx.volumeId) && AddressRan(b, c, ctx.allocationId)
    requires GroupRan(c, d, ctx.groupId) && KeyPairRan(d, e, ctx.keyName)
    ensures Ran(ctx, t, e, instance)
  {
    assert Steps(ctx, t, a, b, c, d, e, instance);
  }

  ghost predicate AllReported(ctx: Context, report: Report, t: Trace, from: nat) {
    && Reported(report.instance, ctx.instanceId, t, from, TerminateInstances(ctx.instanceId))
    && Reported(report.volume, ctx.volumeId, t, from, DeleteVolume(ctx.volumeId))
    && Reported(report.address, ctx.allocationId, t, from, ReleaseAddress(ctx.allocationId))
    && Reported(report.group, ctx.groupId, t, from, DeleteGroup(ctx.groupId))
    && Reported(report.keyPair, ctx.keyName, t, from, DeleteKeyPair(ctx.keyName))
  }

  /** What a step reports stays true while the later steps run. */
  lemma ReportsStay(ctx: Context, report: Report, t: Trace, a: Trace, b: Trace, c: Trace, d: Trace, e: Trace)
    requires Reported(report.instance, ctx.instanceId, a, |t|, TerminateInstances(ctx.instanceId))
    requires Reported(report.volume, ctx.volumeId, b, |t|, DeleteVolume(ctx.volumeId)) && KeepsAccepted(t, a, b, 1)
    requires Reported(report.address, ctx.allocationId, c, |t|, ReleaseAddress(ctx.allocationId)) && KeepsAccepted(t, b, c, 2)
    requires Reported(report.group, ctx.groupId, d, |t|, DeleteGroup(ctx.groupId)) && KeepsAccepted(t, c, d, 3)
    requires Reported(report.keyPair, ctx.keyName, e, |t|, DeleteKeyPair(ctx.keyName)) && KeepsAccepted(t, d, e, 4)
    ensures AllReported(ctx, report, e, |t|)
  {
  }

  /**
   The destructive run. For every sequence of replies its trace is safe, goes through the
   resources in order, detaches at most once and sleeps at most 790 seconds.
   */
  method CheckDestructive(aws: Session, ctx: Context) returns (report: Report)
    modifies aws
    ensures RunSafe(old(aws.trace), aws.trace, 4, 790)
    ensures !ctx.runDestructive ==> aws.trace == old(aws.trace) && report == Report(NotRun, NotRun, NotRun, NotRun, NotRun)
    ensures ctx.runDestructive ==> Ran(ctx, old(aws.trace), aws.trace, report.instance)
    ensures ctx.runDestructive ==> AllReported(ctx, report, aws.trace, |old(aws.trace)|)
  {
    ghost var t := aws.trace;
    if !ctx.runDestructive {
      return Report(NotRun, NotRun, NotRun, NotRun, NotRun);
    }
    var instance := RunInstance(aws, ctx.instanceId);
    ghost var a := aws.trace;
    var volume := RunVolume(aws, ctx.volumeId, t);
    ghost var b := aws.trace;
    var address := RunAddress(aws, ctx.allocationId, t);
    ghost var c := aws.trace;
    var group := RunGroup(aws, ctx.groupId, t);
    ghost var d := aws.trace;
    var keyPair := RunKeyPair(aws, ctx.keyName, t);
    StepsRan(ctx, t, a, b, c, d, aws.trace, instance);
    report := Report(instance, volume, group, keyPair, address);
    ReportsStay(ctx, report, t, a, b, c, d, aws.trace);
  }

  /** What safety means for a reader of the call log: the call just before a delete is the proof it was safe. */
  lemma SafeDeletes(t: Trace, i: nat, id: string)
    requires Safe(t) && i < |t| && t[i].Called?
    ensures t[i].cmd == DeleteVolume(id) ==>
              && i > 0 && Shows(t[i - 1], FreeVolume(id))
              && exists j | 0 <= j < i :: Shows(t[j], OurVolume(id))
    ensures t[i].cmd == ReleaseAddress(id) ==>
              && i > 0 && Shows(t[i - 1], FreeAddress(id))
              && exists j | 0 <= j < i :: Shows(t[j], OurAddress(id))
    ensures t[i].cmd == DetachVolume(id) ==>
              && i >= 48 && forall k | 0 <= k < 24 :: VainPoll(t[..i], i - 48 + 2 * k, id)
    ensures !t[i].cmd.DisassociateAddress?
  {
    SafeAt(t, i);
    if t[i].cmd == DeleteVolume(id) {
      ShownBefore(t, i, FreeVolume(id), OurVolume(id));
    } else if t[i].cmd == ReleaseAddress(id) {
      ShownBefore(t, i, FreeAddress(id), OurAddress(id));
    } else if t[i].cmd == DetachVolume(id) {
      PolledBefore(t, i, id);
    }
  }

  lemma ShownBefore(t: Trace, i: nat, free: Fact, ours: Fact)
    requires i < |t| && EndsIn(t[..i], free) && Earlier(t[..i], ours)
    ensures i > 0 && Shows(t[i - 1], free) && exists j | 0 <= j < i :: Shows(t[j], ours)
  {
    var j :| 0 <= j < i && Shows(t[..i][j], ours);
    assert t[j] == t[..i][j];
  }

  lemma PolledBefore(t: Trace, i: nat, id: string)
    requires i < |t| && EndsInVainPolls(t[..i], id, VOLUME_AVAILABLE_POLLS)
    ensures i >= 48 && forall k | 0 <= k < 24 :: VainPoll(t[..i], i - 48 + 2 * k, id)
  {
    assert |t[..i]| == i;
  }
}
