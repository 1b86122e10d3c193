/**
 The launch: gate, plan, image, group, optional closing of egress, one run-instances, and the
 rollback of the group when there is no instance. AWS may answer anything of the right type.
 */
module Launch {
  import opened PyJson
  import opened Texts
  import L = Lifecycle

  // ----- refused commands -----

  const FORBIDDEN_ACCOUNT: string := "934814114565"

  /** Text no command line may carry. The patterns have no space, so arguments can be looked at one by one. */
  predicate Forbidden(s: string) {
    var low := L.LowerAscii(s);
    || Contains(s, FORBIDDEN_ACCOUNT)
    || Contains(low, "getcostandusage") || Contains(low, "cost-explorer")
    || Contains(low, "upgrade-account-plan") || Contains(low, "upgradeaccountplan")
    || Contains(low, "allocate-address") || Contains(low, "associate-address")
  }

  datatype Call =
    | DescribeImage(image: string)
    | CreateGroup(name: string)
    | RevokeDryRun(group: string)
    | Revoke(group: string, v6: bool)
    | DescribeGroup(group: string)
    | RunInstances(group: string, image: string, name: string, userData: string)
    | DeleteGroup(group: string)

  predicate IsRefused(c: Call) {
    match c
    case DescribeImage(image) => Forbidden(image)
    case CreateGroup(name) => Forbidden(name)
    case RevokeDryRun(g) => Forbidden(g)
    case Revoke(g, _) => Forbidden(g)
    case DescribeGroup(g) => Forbidden(g)
    case RunInstances(g, image, name, userData) => Forbidden(g) || Forbidden(image) || Forbidden(name) || Forbidden(userData)
    case DeleteGroup(g) => Forbidden(g)
  }

  // ----- AWS -----

  datatype Perm = Perm(v4: seq<string>, v6: seq<string>)

  datatype GroupInfo = NotAMapping | GroupInfo(egress: seq<Perm>)

  /** A typed answer: the words seen in its text, and the fields of its payload. */
  datatype Reply = Reply(
    rc: int, dryRunWord: bool, deniedWord: bool, notFoundWord: bool, isDict: bool, imageAccepted: bool,
    groupId: Option<string>, groups: Option<seq<GroupInfo>>, instances: Option<seq<Option<string>>>)

  datatype Event = Event(call: Call, reply: Reply)

  type Trace = seq<Event>

  class Cloud {
    const oracle: (Trace, Call) -> Reply
    var trace: Trace

    constructor (oracle: (Trace, Call) -> Reply)
      ensures this.oracle == oracle && trace == []
    {
      this.oracle := oracle;
      trace := [];
    }

    method Send(c: Call) returns (r: Reply)
      modifies this
      ensures r == oracle(old(trace), c) && trace == old(trace) + [Event(c, r)]
    {
      r := oracle(trace, c);
      trace := trace + [Event(c, r)];
    }

    /** aws_json: a refused command is not sent; a failed one or a payload that is no object is an abort. */
    method Json(c: Call) returns (r: Option<Reply>)
      modifies this
      ensures IsRefused(c) ==> r.None? && trace == old(trace)
      ensures !IsRefused(c) ==>
                && trace == old(trace) + [Event(c, oracle(old(trace), c))]
                && (r.Some? <==> Answered(oracle(old(trace), c)))
                && (r.Some? ==> r.value == oracle(old(trace), c))
    {
      if IsRefused(c) {
        return None;
      }
      var reply := Send(c);
      return if Answered(reply) then Some(reply) else None;
    }
  }

  predicate Answered(r: Reply) { r.rc == 0 && r.isDict }

  datatype Status = Allowed | Denied | Absent | Done | Failed

  function Classify(r: Reply): Status {
    if r.dryRunWord then Allowed
    else if r.deniedWord then Denied
    else if r.notFoundWord then Absent
    else if r.rc == 0 then Done
    else Failed
  }

  predicate OpenPerm(p: Perm) { "0.0.0.0/0" in p.v4 || "::/0" in p.v6 }

  /** The describe shows at least one group and none with an open egress rule. */
  predicate ShowsClosed(r: Reply) {
    && Answered(r) && r.groups.Some? && r.groups.value != []
    && forall i | 0 <= i < |r.groups.value| ::
         r.groups.value[i].GroupInfo? && forall j | 0 <= j < |r.groups.value[i].egress| :: !OpenPerm(r.groups.value[i].egress[j])
  }

  predicate HexChar(c: char) { IsDigit(c) || 'a' <= c <= 'f' }

  /** A regular expression ending in $ also matches before a final newline. */
  function WithoutNewline(s: string): string {
    if s != "" && s[|s| - 1] == '\n' then s[..|s| - 1] else s
  }

  predicate HexId(s: string, prefix: string) {
    prefix <= WithoutNewline(s) && AllChars(WithoutNewline(s)[|prefix|..], 8, 17, HexChar)
  }

  predicate IsGroupId(s: string) { HexId(s, "sg-") }

  predicate IsInstanceId(s: string) { HexId(s, "i-") }

  // ----- closing egress -----

  /** The events since `before` neither run an instance nor delete a group. */
  ghost predicate Quiet(before: Trace, t: Trace) {
    && before <= t
    && forall i | |before| <= i < |t| :: !t[i].call.RunInstances? && !t[i].call.DeleteGroup? && !t[i].call.CreateGroup?
  }

  /** The last event is a describe of this group that shows it closed. */
  ghost predicate ClosedLast(t: Trace, group: string) {
    t != [] && t[|t| - 1].call == DescribeGroup(group) && ShowsClosed(t[|t| - 1].reply)
  }

  /** The four calls that close egress, in order. */
  function ClosingCall(group: string, i: nat): Call {
    if i == 0 then RevokeDryRun(group) else if i == 1 then Revoke(group, false) else if i == 2 then Revoke(group, true) else DescribeGroup(group)
  }

  predicate ClosingOk(r: Reply, i: nat) {
    if i == 0 then Classify(r) == Allowed
    else if i == 1 then Classify(r) == Done
    else if i == 2 then Classify(r) == Done || Classify(r) == Absent
    else ShowsClosed(r)
  }

  /** The calls since `before` are the closing calls in order, each but the last with a good answer. */
  ghost predicate Closing(before: Trace, t: Trace, group: string) {
    && before <= t && |t| <= |before| + 4
    && (forall i | |before| <= i < |t| :: t[i].call == ClosingCall(group, i - |before|))
    && (forall i | |before| <= i < |t| - 1 :: ClosingOk(t[i].reply, i - |before|))
  }

  ghost predicate LastOk(before: Trace, t: Trace) {
    |before| < |t| && ClosingOk(t[|t| - 1].reply, |t| - 1 - |before|)
  }

  /** One closing call; `k` of them were made and answered well. */
  method CloseStep(cloud: Cloud, ghost before: Trace, group: string, k: nat) returns (ok: bool)
    requires k < 3 && Closing(before, cloud.trace, group) && |cloud.trace| == |before| + k && (k > 0 ==> LastOk(before, cloud.trace))
    requires !Forbidden(group)
    modifies cloud
    ensures Closing(before, cloud.trace, group) && |cloud.trace| == |before| + k + 1
    ensures ok <==> LastOk(before, cloud.trace)
  {
    var r := cloud.Send(ClosingCall(group, k));
    ok := ClosingOk(r, k);
  }

  /** The dry run, then the two revokes. */
  method RevokeAll(cloud: Cloud, group: string) returns (ok: bool)
    requires !Forbidden(group)
    modifies cloud
    ensures Closing(old(cloud.trace), cloud.trace, group) && |cloud.trace| > |old(cloud.trace)|
    ensures ok <==> |cloud.trace| == |old(cloud.trace)| + 3 && LastOk(old(cloud.trace), cloud.trace)
    ensures !ok ==> |cloud.trace| <= |old(cloud.trace)| + 3 && !LastOk(old(cloud.trace), cloud.trace)
  {
    ghost var before := cloud.trace;
    ok := CloseStep(cloud, before, group, 0);
    var k := 1;
    while ok && k < 3
      invariant 1 <= k <= 3 && |cloud.trace| == |before| + k && Closing(before, cloud.trace, group)
      invariant ok <==> LastOk(before, cloud.trace)
    {
      ok := CloseStep(cloud, before, group, k);
      k := k + 1;
    }
  }

  /** The describe that has to show the group closed. */
  method DescribeClosed(cloud: Cloud, group: string) returns (ok: bool)
    requires !Forbidden(group)
    modifies cloud
    ensures |cloud.trace| == |old(cloud.trace)| + 1 && old(cloud.trace) <= cloud.trace
    ensures cloud.trace[|old(cloud.trace)|].call == DescribeGroup(group)
    ensures ok <==> ShowsClosed(cloud.trace[|old(cloud.trace)|].reply)
  {
    var described := cloud.Json(DescribeGroup(group));
    if described.None? || described.value.groups.None? || described.value.groups.value == [] {
      return false;
    }
    ok := AllClosed(described.value.groups.value);
  }

  lemma ClosingDone(before: Trace, mid: Trace, t: Trace, group: string)
    requires Closing(before, mid, group) && |mid| == |before| + 3 && LastOk(before, mid)
    requires mid <= t && |t| == |mid| + 1 && t[|mid|].call == DescribeGroup(group)
    ensures Closing(before, t, group) && (LastOk(before, t) <==> ShowsClosed(t[|mid|].reply))
  {
    assert forall i | 0 <= i < |mid| :: t[i] == mid[i];
  }

  lemma ClosingIsQuiet(before: Trace, t: Trace, group: string)
    requires Closing(before, t, group)
    ensures Quiet(before, t)
  {
  }

  lemma ClosingCallsAre(group: string)
    ensures ClosingCall(group, 0) == RevokeDryRun(group) && ClosingCall(group, 1) == Revoke(group, false)
    ensures ClosingCall(group, 2) == Revoke(group, true) && ClosingCall(group, 3) == DescribeGroup(group)
  {
  }

  /** Closes egress: succeeds exactly when all four calls were made and answered well. */
  method DenyDefaultEgress(cloud: Cloud, group: string) returns (ok: bool)
    modifies cloud
    ensures Closing(old(cloud.trace), cloud.trace, group) && Quiet(old(cloud.trace), cloud.trace)
    ensures ok <==> |cloud.trace| == |old(cloud.trace)| + 4 && LastOk(old(cloud.trace), cloud.trace)
    ensures !ok ==> cloud.trace == old(cloud.trace) || !LastOk(old(cloud.trace), cloud.trace)
    ensures cloud.trace == old(cloud.trace) <==> !IsGroupId(group) || Forbidden(group)
    ensures ok ==> ClosedLast(cloud.trace, group) && |cloud.trace| > |old(cloud.trace)|
  {
    ghost var before := cloud.trace;
    if !IsGroupId(group) || IsRefused(RevokeDryRun(group)) {
      return false;
    }
    ok := RevokeAll(cloud, group);
    if ok {
      ghost var mid := cloud.trace;
      ok := DescribeClosed(cloud, group);
      ClosingDone(before, mid, cloud.trace, group);
    }
    ClosingIsQuiet(before, cloud.trace, group);
  }

  /** The loop over groups and permissions. */
  method AllClosed(groups: seq<GroupInfo>) returns (closed: bool)
    ensures closed <==> forall i | 0 <= i < |groups| ::
                          groups[i].GroupInfo? && forall j | 0 <= j < |groups[i].egress| :: !OpenPerm(groups[i].egress[j])
  {
    for i := 0 to |groups|
      invariant forall k | 0 <= k < i ::
                  groups[k].GroupInfo? && forall j | 0 <= j < |groups[k].egress| :: !OpenPerm(groups[k].egress[j])
    {
      if groups[i].NotAMapping? {
        return false;
      }
      for j := 0 to |groups[i].egress|
        invariant forall k | 0 <= k < j :: !OpenPerm(groups[i].egress[k])
      {
        if OpenPerm(groups[i].egress[j]) {
          return false;
        }
      }
    }
    return true;
  }

  // ----- the launch arguments -----

  /** run_instances_args accepts the plan. */
  predicate ArgsAccepted(p: L.Plan) {
    && p.minCount == 1 && p.maxCount == 1 && p.profile == None && !p.elasticIp
    && if p.shape == L.Brain then p.credit == None && p.ebsOptimized else p.credit == Some("standard") && !p.ebsOptimized
  }

  predicate ShapeGuards(p: L.Plan) {
    && !p.elasticIp && p.profile == None && p.terminateOnShutdown
    && L.Destroyable in p.tags && p.tags[L.Destroyable] == L.Text("true")
  }

  /** No plan of the planner is refused at launch. */
  lemma PlansAreAccepted(spec: L.Spec, now: real)
    requires L.PlanLaunch(spec, now).Ok?
    ensures ArgsAccepted(L.PlanLaunch(spec, now).value) && ShapeGuards(L.PlanLaunch(spec, now).value)
  {
    var p := L.PlanLaunch(spec, now).value;
    var shape, life, soak, stop, expires, name, purpose, publicIp := L.PlanShape(spec, now);
    L.ExactStay(name, p.expiresAt, life, purpose, soak, L.Destroyable);
  }

  // ----- the launch -----

  /** The launch request apart from the plan: its checks on region, subnet and network, the gate and the identity. */
  datatype Request = Request(
    placed: bool, gatePassed: bool, identityOk: bool, image: string, imageIdOk: bool, userData: string, closeEgress: bool,
    denied: set<string>)

  datatype Outcome =
    | Launched(instance: string, group: string)
    | Aborted
    | RollbackFailed
    | BadPlan

  predicate ReturnsInstance(r: Reply) { Answered(r) && r.instances.Some? && r.instances.value != [] }

  /** How a launch without an instance ends: the delete was answered, or it failed, or it could not be sent. */
  ghost function RolledTo(t: Trace, group: string): Outcome {
    if Forbidden(group) || t == [] then RollbackFailed
    else if t[|t| - 1].reply.rc == 0 && t[|t| - 1].reply.isDict then Aborted else RollbackFailed
  }

  method Rollback(cloud: Cloud, group: string) returns (o: Outcome)
    requires "sg-" <= group
    modifies cloud
    ensures o == Aborted || o == RollbackFailed
    ensures Forbidden(group) ==> cloud.trace == old(cloud.trace) && o == RollbackFailed
    ensures !Forbidden(group) ==>
              |cloud.trace| == |old(cloud.trace)| + 1 && old(cloud.trace) <= cloud.trace
              && cloud.trace[|old(cloud.trace)|].call == DeleteGroup(group)
    ensures o == RolledTo(cloud.trace, group)
  {
    var r := cloud.Json(DeleteGroup(group));
    o := if r.Some? then Aborted else RollbackFailed;
  }

  ghost predicate NoRun(t: Trace, from: nat, to: nat) {
    forall i | from <= i < to && i < |t| :: !t[i].call.RunInstances?
  }

  ghost predicate NoDelete(t: Trace, from: nat, to: nat) {
    forall i | from <= i < to && i < |t| :: !t[i].call.DeleteGroup?
  }

  /** `run` is the one place since `from` where an instance was started. */
  ghost predicate OnlyRun(t: Trace, from: nat, group: string, run: Option<nat>) {
    if run.None? then NoRun(t, from, |t|)
    else
      && from <= run.value < |t| && t[run.value].call.RunInstances? && t[run.value].call.group == group
      && NoRun(t, from, run.value) && NoRun(t, run.value + 1, |t|)
  }

  ghost predicate Returned(t: Trace, run: Option<nat>) {
    run.Some? && run.value < |t| && ReturnsInstance(t[run.value].reply)
  }

  /** With no instance returned, the last thing sent is the delete of the group. */
  ghost predicate RolledBack(t: Trace, from: nat, group: string) {
    && from < |t| && t[|t| - 1].call == DeleteGroup(group) && NoDelete(t, from, |t| - 1)
  }

  /** What happened since the group was made at the end of `from`. */
  ghost predicate Tail(t: Trace, from: nat, group: string, closed: bool, run: Option<nat>, o: Outcome) {
    && OnlyRun(t, from, group, run) && (Forbidden(group) ==> run.None?)
    && (run.Some? && closed ==> from < run.value && ClosedLast(t[..run.value], group))
    && (Returned(t, run) ==> run.value == |t| - 1 && NoDelete(t, from, |t|) && (o.Launched? ==> o.group == group))
    && (!Returned(t, run) ==>
          && o == RolledTo(t, group)
          && if Forbidden(group) then NoDelete(t, from, |t|) else RolledBack(t, from, group))
  }

  lemma RollbackTail(before: Trace, t: Trace, from: nat, group: string, closed: bool, run: Option<nat>, o: Outcome)
    requires from <= |before| && OnlyRun(before, from, group, run) && NoDelete(before, from, |before|) && !Returned(before, run)
    requires run.Some? && closed ==> from < run.value && ClosedLast(before[..run.value], group)
    requires o == RolledTo(t, group)
    requires Forbidden(group) ==> t == before && run.None?
    requires !Forbidden(group) ==> |t| == |before| + 1 && before <= t && t[|before|].call == DeleteGroup(group)
    ensures Tail(t, from, group, closed, run, o)
  {
    if !Forbidden(group) {
      assert forall i | 0 <= i < |before| :: t[i] == before[i];
      if run.Some? {
        assert t[..run.value] == before[..run.value];
      }
    }
  }

  /** A text of the run is refused, so it is never sent. */
  ghost predicate Unsendable(group: string, name: string, req: Request) {
    Forbidden(group) || Forbidden(req.image) || Forbidden(name) || Forbidden(req.userData)
  }

  /** Closing egress was asked for and one of its calls was not answered well, or the group has no proper id. */
  ghost predicate ClosingFailed(before: Trace, t: Trace, group: string) {
    || !IsGroupId(group) || Forbidden(group)
    || exists k: nat :: k < 4 && BadClosing(before, t, group, k)
  }

  ghost predicate BadClosing(before: Trace, t: Trace, group: string, k: nat) {
    |before| + k < |t| && t[|before| + k].call == ClosingCall(group, k) && !ClosingOk(t[|before| + k].reply, k)
  }

  lemma FailedClosing(before: Trace, mid: Trace, t: Trace, group: string)
    requires Closing(before, mid, group) && mid <= t && (mid == before || !LastOk(before, mid))
    requires mid == before <==> !IsGroupId(group) || Forbidden(group)
    ensures ClosingFailed(before, t, group)
  {
    if mid != before {
      assert BadClosing(before, t, group, |mid| - 1 - |before|);
    }
  }

  /** The outcome of an answer that holds an instance. */
  function OutcomeOf(r: Reply, group: string, denied: set<string>): Outcome
    requires ReturnsInstance(r)
  {
    var id := r.instances.value[0];
    if id.Some? && IsInstanceId(id.value) && id.value !in denied then Launched(id.value, group) else Aborted
  }

  lemma ReturnedTail(before: Trace, t: Trace, from: nat, group: string, closed: bool, e: Event, o: Outcome)
    requires from <= |before| && t == before + [e] && NoRun(before, from, |before|) && NoDelete(before, from, |before|)
    requires e.call.RunInstances? && e.call.group == group && ReturnsInstance(e.reply) && !Forbidden(group)
    requires closed ==> from < |before| && ClosedLast(before, group)
    requires o.Launched? ==> o.group == group
    ensures Tail(t, from, group, closed, Some(|before|), o)
  {
    assert t[..|before|] == before;
    assert forall i | 0 <= i < |before| :: t[i] == before[i];
  }

  /** The request of the run: this group, and the image, the name and the user data that were asked for. */
  ghost predicate RunsThis(t: Trace, at: nat, group: string, name: string, req: Request) {
    at < |t| && t[at].call == RunInstances(group, req.image, name, req.userData)
  }

  /** An id: its prefix and 8 to 17 hexadecimal digits in lower case, and perhaps a final newline. */
  ghost predicate IdText(s: string, prefix: string) {
    exists digits: string ::
      (s == prefix + digits || s == prefix + digits + "\n") && 8 <= |digits| <= 17 && forall c | c in digits :: c in DIGITS + "abcdef"
  }

  /** The first instance is the launched one if its id is well-formed and not denied; anything else is an abort. */
  ghost predicate Yields(r: Reply, group: string, denied: set<string>, o: Outcome) {
    && r.instances.Some? && r.instances.value != []
    && var id := r.instances.value[0];
       if id.Some? && IdText(id.value, "i-") && id.value !in denied then o == Launched(id.value, group) else o == Aborted
  }

  lemma HexCharIff(c: char)
    ensures HexChar(c) <==> c in DIGITS + "abcdef"
  {
    DigitIff(c);
    assert 'a' <= c <= 'f' ==> "abcdef"[c as int - 'a' as int] == c;
  }

  lemma HexDigits(digits: string)
    ensures AllChars(digits, 8, 17, HexChar) <==> 8 <= |digits| <= 17 && forall c | c in digits :: c in DIGITS + "abcdef"
  {
    forall i | 0 <= i < |digits| ensures HexChar(digits[i]) <==> digits[i] in DIGITS + "abcdef" {
      HexCharIff(digits[i]);
    }
  }

  lemma HexIdIff(s: string, prefix: string)
    ensures HexId(s, prefix) <==> IdText(s, prefix)
  {
    if HexId(s, prefix) {
      var t := WithoutNewline(s);
      var digits := t[|prefix|..];
      HexDigits(digits);
      assert t == prefix + digits;
      assert s == t || s == t + "\n";
    }
    if digits: string :| (s == prefix + digits || s == prefix + digits + "\n") && 8 <= |digits| <= 17 && forall c | c in digits :: c in DIGITS + "abcdef" {
      HexDigits(digits);
      LastIsHex(prefix, digits);
      assert WithoutNewline(s) == prefix + digits;
      assert (prefix + digits)[|prefix|..] == digits;
    }
  }

  lemma LastIsHex(prefix: string, digits: string)
    requires digits != "" && forall c | c in digits :: c in DIGITS + "abcdef"
    ensures var s := prefix + digits; s[|s| - 1] != '\n'
  {
    var last := digits[|digits| - 1];
    assert last in digits;
    HexCharIff('\n');
  }

  lemma OutcomeYields(r: Reply, group: string, denied: set<string>)
    requires ReturnsInstance(r)
    ensures Yields(r, group, denied, OutcomeOf(r, group, denied))
  {
    var id := r.instances.value[0];
    if id.Some? {
      HexIdIff(id.value, "i-");
    }
  }

  /** The one run, and the rollback when no instance came. */
  method RunOnce(cloud: Cloud, ghost from: nat, group: string, name: string, req: Request) returns (o: Outcome, ghost run: Option<nat>)
    requires "sg-" <= group && from <= |cloud.trace|
    requires NoRun(cloud.trace, from, |cloud.trace|) && NoDelete(cloud.trace, from, |cloud.trace|)
    requires req.closeEgress ==> from < |cloud.trace| && ClosedLast(cloud.trace, group)
    modifies cloud
    ensures old(cloud.trace) <= cloud.trace && Tail(cloud.trace, from, group, req.closeEgress, run, o)
    ensures Returned(cloud.trace, run) ==> Yields(cloud.trace[run.value].reply, group, req.denied, o)
    ensures !Returned(cloud.trace, run) ==> o == Aborted || o == RollbackFailed
    ensures run.Some? ==> RunsThis(cloud.trace, run.value, group, name, req)
    ensures run.None? <==> Unsendable(group, name, req)
  {
    ghost var before := cloud.trace;
    var call := RunInstances(group, req.image, name, req.userData);
    var launched := cloud.Json(call);
    ghost var mid := cloud.trace;
    run := if IsRefused(call) then None else Some(|before|);
    if launched.Some? && ReturnsInstance(launched.value) {
      o := OutcomeOf(launched.value, group, req.denied);
      OutcomeYields(launched.value, group, req.denied);
      ReturnedTail(before, mid, from, group, req.closeEgress, mid[|before|], o);
      return;
    }
    NotReturned(before, mid, from, group, req.closeEgress, run);
    o := Rollback(cloud, group);
    RollbackTail(mid, cloud.trace, from, group, req.closeEgress, run, o);
  }

  lemma NotReturned(before: Trace, mid: Trace, from: nat, group: string, closed: bool, run: Option<nat>)
    requires from <= |before| && NoRun(before, from, |before|) && NoDelete(before, from, |before|)
    requires closed ==> from < |before| && ClosedLast(before, group)
    requires run.None? ==> mid == before
    requires run.Some? ==>
               && run.value == |before| && |mid| == |before| + 1 && before <= mid
               && mid[|before|].call.RunInstances? && mid[|before|].call.group == group && !ReturnsInstance(mid[|before|].reply)
    ensures OnlyRun(mid, from, group, run) && NoDelete(mid, from, |mid|) && !Returned(mid, run)
    ensures run.Some? && closed ==> from < run.value && ClosedLast(mid[..run.value], group)
  {
    assert mid[..|before|] == before;
    assert forall i | 0 <= i < |before| :: mid[i] == before[i];
  }

  /** After the group exists: close egress if asked, run once, and roll back when no instance came. */
  method LaunchInGroup(cloud: Cloud, group: string, name: string, req: Request) returns (o: Outcome, ghost run: Option<nat>)
    requires "sg-" <= group
    modifies cloud
    ensures old(cloud.trace) <= cloud.trace && Tail(cloud.trace, |old(cloud.trace)|, group, req.closeEgress, run, o)
    ensures Returned(cloud.trace, run) ==> Yields(cloud.trace[run.value].reply, group, req.denied, o)
    ensures !Returned(cloud.trace, run) ==> o == Aborted || o == RollbackFailed
    ensures run.Some? ==> RunsThis(cloud.trace, run.value, group, name, req)
    ensures run.None? ==> Unsendable(group, name, req) || (req.closeEgress && ClosingFailed(old(cloud.trace), cloud.trace, group))
  {
    ghost var from := |cloud.trace|;
    if req.closeEgress {
      var closed := DenyDefaultEgress(cloud, group);
      if !closed {
        ghost var before := cloud.trace;
        o := Rollback(cloud, group);
        run := None;
        FailedClosing(old(cloud.trace), before, cloud.trace, group);
        RollbackTail(before, cloud.trace, from, group, true, None, o);
        return;
      }
    }
    o, run := RunOnce(cloud, from, group, name, req);
  }

  /** The group that a run made: the create call at `at` answered with this id. */
  ghost predicate MadeAt(t: Trace, at: nat, group: string) {
    && at < |t| && t[at].call.CreateGroup? && Answered(t[at].reply) && t[at].reply.groupId == Some(group) && "sg-" <= group
  }

  /** What is known of a launch that began at `from`: without a group nothing is run or deleted; with one, `Tail` says the rest. */
  ghost predicate LaunchShape(t: Trace, from: nat, closed: bool, o: Outcome, made: Option<(nat, string)>, run: Option<nat>) {
    if made.None? then run.None? && !o.Launched? && Quieter(t, from)
    else
      var (at, group) := made.value;
      && from <= at && MadeAt(t, at, group) && Quieter(t[..at], from)
      && Tail(t, at + 1, group, closed, run, o)
  }

  lemma ShapeAfterGroup(before: Trace, t: Trace, from: nat, group: string, closed: bool, o: Outcome, run: Option<nat>)
    requires from < |before| && before <= t && MadeAt(before, |before| - 1, group) && Quieter(before, from)
    requires Tail(t, |before|, group, closed, run, o)
    ensures LaunchShape(t, from, closed, o, Some((|before| - 1, group)), run)
  {
    var at := |before| - 1;
    assert t[at] == before[at] && t[..at] == before[..at];
  }

  /** A group is made by the second call of a launch. */
  ghost function MadeHere(group: Option<string>, from: nat): Option<(nat, string)> {
    if group.Some? then Some((from + 1, group.value)) else None
  }

  /** Why no run was sent in the group that was made: a refused text, or egress that was not closed. */
  ghost predicate NotSent(t: Trace, made: (nat, string), name: string, req: Request) {
    || Unsendable(made.1, name, req)
    || (made.0 < |t| && req.closeEgress && ClosingFailed(t[..made.0 + 1], t, made.1))
  }

  /** At most the image was looked up and a group asked for. */
  ghost predicate MadeNothing(t: Trace, from: nat, name: string, image: string) {
    && from <= |t| <= from + 2
    && (|t| > from ==> t[from].call == DescribeImage(image)) && (|t| > from + 1 ==> t[from + 1].call == CreateGroup(name))
  }

  /** The launch of an accepted plan. */
  method LaunchPlanned(cloud: Cloud, name: string, accepted: bool, req: Request)
    returns (o: Outcome, ghost made: Option<(nat, string)>, ghost run: Option<nat>)
    requires accepted
    modifies cloud
    ensures old(cloud.trace) <= cloud.trace && o != BadPlan
    ensures LaunchShape(cloud.trace, |old(cloud.trace)|, req.closeEgress, o, made, run)
    ensures o.Launched? ==> Returned(cloud.trace, run) && IdText(o.instance, "i-") && o.instance !in req.denied
    ensures made == MadeHere(GroupGiven(cloud.oracle, old(cloud.trace), name, req.image), |old(cloud.trace)|)
    ensures run.Some? ==> made.Some? && RunsThis(cloud.trace, run.value, made.value.1, name, req)
    ensures made.Some? && run.None? ==> NotSent(cloud.trace, made.value, name, req)
    ensures made.None? ==> o == Aborted && MadeNothing(cloud.trace, |old(cloud.trace)|, name, req.image)
    ensures Returned(cloud.trace, run) ==> made.Some? && Yields(cloud.trace[run.value].reply, made.value.1, req.denied, o)
  {
    ghost var from := |cloud.trace|;
    made, run := None, None;
    var group := MakeGroup(cloud, name, req.image);
    if group.None? {
      return Aborted, made, run;
    }
    ghost var t := cloud.trace;
    made := Some((|t| - 1, group.value));
    if !accepted {
      return BadPlan, made, run;
    }
    o, run := LaunchInGroup(cloud, group.value, name, req);
    assert cloud.trace[..|t|] == t;
    ShapeAfterGroup(t, cloud.trace, from, group.value, req.closeEgress, o, run);
  }

  /** A refused text holds the account number, or in any mix of cases one of the names of calls that cost money. */
  lemma ForbiddenIff(s: string)
    ensures Forbidden(s) <==>
            || Contains(s, "934814114565")
            || exists word :: word in {"getcostandusage", "cost-explorer", "upgrade-account-plan", "upgradeaccountplan", "allocate-address", "associate-address"}
                              && Contains(L.LowerAscii(s), word)
  {
  }

  /** A plan names its group by the Name tag, the name that was asked for. */
  lemma NameIs(spec: L.Spec, now: real)
    requires L.PlanLaunch(spec, now).Ok?
    ensures L.AsksName(spec, NameOf(L.PlanLaunch(spec, now).value))
  {
    var p := L.PlanLaunch(spec, now).value;
    L.PlanIff(spec, now, p);
    var expires :| L.Asked(spec, now, p, expires);
    AskedName(spec, now, p, expires);
  }

  lemma AskedName(spec: L.Spec, now: real, p: L.Plan, expires: int)
    requires L.Asked(spec, now, p, expires)
    ensures L.AsksName(spec, NameOf(p))
  {
    var name, purpose :| L.AsksName(spec, name) && L.TagsSay(p.tags, name, p.expiresAt, p.life, purpose, p.soak);
    L.NameTagIs(p.tags, name, p.expiresAt, p.life, purpose, p.soak);
  }

  /** The name a plan gives its group. */
  function NameOf(p: L.Plan): string {
    if L.NameTag in p.tags && p.tags[L.NameTag].Text? then p.tags[L.NameTag].s else ""
  }

  /** The plan, with what its guards find. */
  method PlanFor(spec: L.Spec, now: real) returns (planned: L.Result<string>, guards: bool, accepted: bool)
    ensures planned.Ok? <==> L.PlanLaunch(spec, now).Ok?
    ensures planned.Ok? ==> planned.value == NameOf(L.PlanLaunch(spec, now).value) && guards && accepted
  {
    var p := L.PlanLaunch(spec, now);
    if p.Refused? {
      return L.Refused(p.error), false, false;
    }
    PlansAreAccepted(spec, now);
    return L.Ok(NameOf(p.value)), ShapeGuards(p.value), ArgsAccepted(p.value);
  }

  /** Everything a launch needs before its first call. */
  predicate Starts(spec: L.Spec, now: real, req: Request) {
    req.placed && req.gatePassed && req.identityOk && req.imageIdOk && L.PlanLaunch(spec, now).Ok?
  }

  /**
   The launch. Nothing is sent unless the request is in place, the gate and the identity pass and
   there is a plan.
   */
  method ExecuteLaunch(cloud: Cloud, spec: L.Spec, now: real, req: Request)
    returns (o: Outcome, ghost made: Option<(nat, string)>, ghost run: Option<nat>)
    modifies cloud
    ensures old(cloud.trace) <= cloud.trace
    ensures cloud.trace != old(cloud.trace) ==> req.placed && req.gatePassed && req.identityOk && L.PlanLaunch(spec, now).Ok?
    ensures o == BadPlan <==> req.placed && req.gatePassed && req.identityOk && L.PlanLaunch(spec, now).Refused?
    ensures !Starts(spec, now, req) ==> cloud.trace == old(cloud.trace) && (o == Aborted || o == BadPlan)
    ensures made.None? && o != BadPlan ==> o == Aborted
    ensures LaunchShape(cloud.trace, |old(cloud.trace)|, req.closeEgress, o, made, run)
    ensures o.Launched? ==> Returned(cloud.trace, run) && IdText(o.instance, "i-") && o.instance !in req.denied
    ensures made == if Starts(spec, now, req)
                    then MadeHere(GroupGiven(cloud.oracle, old(cloud.trace), NameOf(L.PlanLaunch(spec, now).value), req.image), |old(cloud.trace)|)
                    else None
    ensures made.Some? && run.None? ==>
              Starts(spec, now, req) && NotSent(cloud.trace, made.value, NameOf(L.PlanLaunch(spec, now).value), req)
    ensures run.Some? ==>
              made.Some? && Starts(spec, now, req)
              && RunsThis(cloud.trace, run.value, made.value.1, NameOf(L.PlanLaunch(spec, now).value), req)
    ensures Returned(cloud.trace, run) ==> made.Some? && Yields(cloud.trace[run.value].reply, made.value.1, req.denied, o)
  {
    made, run := None, None;
    if !req.placed || !req.gatePassed || !req.identityOk {
      return Aborted, made, run;
    }
    var planned, guards, accepted := PlanFor(spec, now);
    if planned.Refused? {
      return BadPlan, made, run;
    }
    if !guards || !req.imageIdOk {
      return Aborted, made, run;
    }
    o, made, run := LaunchPlanned(cloud, planned.value, accepted, req);
  }

  /** The id a create answers with, when the image is known and accepted and no name is a refused text. */
  ghost function GroupGiven(oracle: (Trace, Call) -> Reply, t: Trace, name: string, image: string): Option<string> {
    var d := oracle(t, DescribeImage(image));
    var c := oracle(t + [Event(DescribeImage(image), d)], CreateGroup(name));
    if Forbidden(image) || !Answered(d) || !d.imageAccepted || Forbidden(name) || !Answered(c) then None
    else if c.groupId.Some? && "sg-" <= c.groupId.value then c.groupId else None
  }

  /** The image is looked up first; the group is the last thing made. */
  method MakeGroup(cloud: Cloud, name: string, image: string) returns (group: Option<string>)
    modifies cloud
    ensures old(cloud.trace) <= cloud.trace && Quieter(cloud.trace, |old(cloud.trace)|)
    ensures group == GroupGiven(cloud.oracle, old(cloud.trace), name, image)
    ensures MadeNothing(cloud.trace, |old(cloud.trace)|, name, image)
    ensures group.Some? ==> |cloud.trace| == |old(cloud.trace)| + 2 && MadeAt(cloud.trace, |cloud.trace| - 1, group.value)
  {
    var described := cloud.Json(DescribeImage(image));
    if described.None? || !described.value.imageAccepted {
      return None;
    }
    var created := cloud.Json(CreateGroup(name));
    if created.None? || created.value.groupId.None? || !("sg-" <= created.value.groupId.value) {
      return None;
    }
    return created.value.groupId;
  }

  /** Nothing was run or deleted since `from`. */
  ghost predicate Quieter(t: Trace, from: nat) { NoRun(t, from, |t|) && NoDelete(t, from, |t|) }

  const REFUSED_ID: string := "sg-934814114565"

  /** AWS with an image for every request, one id for every group, and no instance for anyone. */
  function HandsOut(t: Trace, c: Call): Reply {
    Reply(0, false, false, false, true, true, Some(REFUSED_ID), None, None)
  }

  /** Every launch that starts makes a group there; it stays, with no delete sent. */
  method GroupStays(spec: L.Spec, now: real, req: Request) returns (cloud: Cloud, o: Outcome)
    requires Starts(spec, now, req) && !Forbidden(req.image) && !Forbidden(NameOf(L.PlanLaunch(spec, now).value))
    ensures o == Aborted || o == RollbackFailed
    ensures MadeAt(cloud.trace, 1, REFUSED_ID) && NoDelete(cloud.trace, 0, |cloud.trace|)
  {
    cloud := new Cloud(HandsOut);
    RefusedGroupId();
    GivesRefused(cloud.oracle, [], NameOf(L.PlanLaunch(spec, now).value), req.image);
    ghost var made, run;
    o, made, run := ExecuteLaunch(cloud, spec, now, req);
    StaysBehind(cloud.trace, req.closeEgress, o, REFUSED_ID, run);
  }

  lemma GivesRefused(oracle: (Trace, Call) -> Reply, t: Trace, name: string, image: string)
    requires (forall u, c :: oracle(u, c) == HandsOut(u, c)) && !Forbidden(name) && !Forbidden(image)
    ensures GroupGiven(oracle, t, name, image) == Some(REFUSED_ID)
  {
    assert "sg-" <= REFUSED_ID;
  }

  /** A group with a refused id outlives its launch, whatever AWS answers. */
  lemma StaysBehind(t: Trace, closed: bool, o: Outcome, group: string, run: Option<nat>)
    requires LaunchShape(t, 0, closed, o, Some((1, group)), run) && Forbidden(group)
    ensures run.None? && (o == Aborted || o == RollbackFailed) && MadeAt(t, 1, group) && NoDelete(t, 0, |t|)
  {
    assert !t[1].call.DeleteGroup? && !t[..1][0].call.DeleteGroup? && t[..1][0] == t[0];
  }

  /**
   The rollback hole: a group id that carries a refused text aborts every later command, the
   delete included. This one has the right shape for an id.
   */
  lemma RefusedGroupId()
    ensures IsGroupId(REFUSED_ID) && Forbidden(REFUSED_ID) && IsRefused(DeleteGroup(REFUSED_ID))
  {
    var g := REFUSED_ID;
    var tail := "934814114565";
    assert WithoutNewline(g) == g && g[3..] == tail && |tail| == 12;
    assert AllChars(tail, 8, 17, HexChar);
    assert IsGroupId(g);
    assert OccursAt(g, FORBIDDEN_ACCOUNT, 3);
    assert Contains(g, FORBIDDEN_ACCOUNT);
    assert Forbidden(g);
  }

  // ----- what the answers mean -----

  ghost predicate AnyAddress(p: Perm) { "0.0.0.0/0" in p.v4 || "::/0" in p.v6 }

  ghost predicate NoOpenEgress(groups: seq<GroupInfo>) {
    groups != [] && forall g | g in groups :: g.GroupInfo? && forall p | p in g.egress :: !AnyAddress(p)
  }

  lemma ShowsClosedIff(r: Reply)
    ensures ShowsClosed(r) <==> r.rc == 0 && r.isDict && r.groups.Some? && NoOpenEgress(r.groups.value)
  {
    if r.groups.Some? {
      var groups := r.groups.value;
      if ShowsClosed(r) {
        forall g | g in groups ensures g.GroupInfo? && forall p | p in g.egress :: !AnyAddress(p) {
          var i :| 0 <= i < |groups| && groups[i] == g;
          assert forall j | 0 <= j < |g.egress| :: !OpenPerm(g.egress[j]);
        }
      }
      if NoOpenEgress(groups) {
        forall i | 0 <= i < |groups|
          ensures groups[i].GroupInfo? && forall j | 0 <= j < |groups[i].egress| :: !OpenPerm(groups[i].egress[j])
        {
          var g := groups[i];
          assert g in groups;
          assert forall j | 0 <= j < |g.egress| :: g.egress[j] in g.egress;
        }
      }
    }
  }

  /** The answers closing egress goes on with: a dry run that would pass, a revoke done, one done or with nothing to do, a closed group. */
  lemma ClosingOkIff(r: Reply)
    ensures ClosingOk(r, 0) <==> r.dryRunWord
    ensures ClosingOk(r, 1) <==> r.rc == 0 && !r.dryRunWord && !r.deniedWord && !r.notFoundWord
    ensures ClosingOk(r, 2) <==> (r.rc == 0 || r.notFoundWord) && !r.dryRunWord && !r.deniedWord
    ensures ClosingOk(r, 3) <==> r.rc == 0 && r.isDict && r.groups.Some? && NoOpenEgress(r.groups.value)
  {
    ShowsClosedIff(r);
  }

  lemma ReturnsIff(r: Reply)
    ensures ReturnsInstance(r) <==> r.rc == 0 && r.isDict && r.instances.Some? && r.instances.value != []
  {
  }

  /** Which plans the launch arguments take: one instance, no profile, no fixed address, and the credit of its shape. */
  lemma ArgsAcceptedIff(p: L.Plan)
    ensures ArgsAccepted(p) && ShapeGuards(p) <==>
            && p.minCount == 1 && p.maxCount == 1 && p.profile.None? && !p.elasticIp && p.terminateOnShutdown
            && (if p.shape == L.Brain then p.credit.None? && p.ebsOptimized else p.credit == Some("standard") && !p.ebsOptimized)
            && L.Destroyable in p.tags && p.tags[L.Destroyable] == L.Text("true")
  {
  }
}
