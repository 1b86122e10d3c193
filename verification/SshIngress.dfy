/**
 The SSH ingress protocol of the lab runner.

 A rule in the security group and a stamp file on the runner change together: the
 stamp is what a later `close_ssh` reads to know which rule to revoke. AWS, the guest
 and the clock are an oracle over the whole history. A failed call may still have
 taken effect, so the rule after a failure is whatever the oracle says.
 */
module SshIngress {
  import opened PyJson

  datatype Rule = Rule(group: string, cidr: string)

  /** The stamp file: absent, or a JSON object whose names may be missing or not text. */
  datatype StampFile = NoStamp | Stamp(authorized: bool, rule: Rule) | BadNames(authorized: bool)

  datatype Action =
    | DryRun(revoke: bool)
    | Keygen
    | Authorize(rule: Rule)
    | Revoke(rule: Rule)
    | WriteStamp(authorized: bool, rule: Rule)
    | PushKey
    | Ssh
    | Describe
    | Pause(seconds: real)

  /** `ok`: exit status zero. `effect`: whether a failed mutation happened anyway. */
  datatype Reply = Reply(
    ok: bool, parsed: bool, allowed: bool, denied: bool, notFound: bool, effect: bool, retryable: bool,
    state: string, text: string, elapsed: real)

  /** One finished action with the time it started and what held after it. */
  datatype Entry = Entry(action: Action, reply: Reply, at: real, open: set<Rule>, stamp: StampFile)

  type Trace = seq<Entry>

  /** Every open rule is named by an authorized stamp, so a later close finds it. */
  ghost predicate Covered(open: set<Rule>, stamp: StampFile) {
    forall r | r in open :: stamp == Stamp(true, r)
  }

  ghost predicate CoveredSince(t: Trace, from: nat) {
    forall i | from <= i < |t| :: Covered(t[i].open, t[i].stamp)
  }

  predicate IsMutation(a: Action) { a.Authorize? || a.Revoke? }

  predicate UsesSsh(a: Action) { a.PushKey? || a.Ssh? }

  /** If anything since `from` touched the rule, the last thing to touch it was a revoke. */
  ghost predicate LastMutationRevokes(t: Trace, from: nat) {
    forall i | from <= i < |t| && t[i].action.Authorize? ::
      exists j | i < j < |t| :: t[j].action.Revoke?
  }

  ghost predicate NoMutation(t: Trace, from: nat) {
    forall i | from <= i < |t| :: !IsMutation(t[i].action)
  }

  /** The rule after a mutation, as the world and not the reply has it. */
  function OpenAfter(open: set<Rule>, a: Action, r: Reply): set<Rule> {
    match a
    case Authorize(rule) => if r.ok || r.effect then open + {rule} else open
    case Revoke(rule) => if r.ok || r.notFound || r.effect then open - {rule} else open
    case _ => open
  }

  function Elapsed(r: Reply): real { if r.elapsed < 0.0 then 0.0 else r.elapsed }

  datatype Outcome<T> = Returned(value: T) | Raised(reason: string)

  class Lab {
    const oracle: (Trace, Action) -> Reply
    var trace: Trace
    var open: set<Rule>
    var stamp: StampFile
    var now: real

    constructor (oracle: (Trace, Action) -> Reply)
      ensures this.oracle == oracle && trace == [] && open == {} && stamp == NoStamp
    {
      this.oracle := oracle;
      trace := [];
      open := {};
      stamp := NoStamp;
      now := 0.0;
    }

    method Do(a: Action) returns (r: Reply)
      requires !a.WriteStamp?
      modifies this
      ensures r == oracle(old(trace), a)
      ensures open == OpenAfter(old(open), a, r) && stamp == old(stamp)
      ensures trace == old(trace) + [Entry(a, r, old(now), open, stamp)]
      ensures now >= old(now) + (if a.Pause? then a.seconds else 0.0)
    {
      r := oracle(trace, a);
      open := OpenAfter(open, a, r);
      trace := trace + [Entry(a, r, now, open, stamp)];
      now := now + Elapsed(r) + (if a.Pause? then a.seconds else 0.0);
    }

    method Write(authorized: bool, rule: Rule)
      modifies this
      ensures stamp == Stamp(authorized, rule) && open == old(open) && now == old(now)
      ensures |trace| == |old(trace)| + 1 && old(trace) <= trace
      ensures var e := trace[|old(trace)|];
              e.action == WriteStamp(authorized, rule) && e.at == now && e.open == open && e.stamp == stamp
    {
      stamp := Stamp(authorized, rule);
      var a := WriteStamp(authorized, rule);
      trace := trace + [Entry(a, oracle(trace, a), now, open, stamp)];
    }
  }

  // ----- what a step does, action by action -----

  /** One action was added, with any reply. */
  ghost predicate Did(t: Trace, u: Trace, a: Action) { t <= u && |u| == |t| + 1 && u[|t|].action == a }

  predicate Good(r: Reply) { r.ok && r.parsed }

  /** Revoke, and clear the stamp once the rule is gone. */
  ghost predicate Revoked(t: Trace, u: Trace, rule: Rule) {
    && t < u && u[|t|].action == Revoke(rule)
    && if u[|t|].reply.ok || u[|t|].reply.notFound then |u| == |t| + 2 && u[|t| + 1].action == WriteStamp(false, rule)
       else |u| == |t| + 1
  }

  /** Authorize, and stamp once that went through. */
  ghost predicate Reopened(t: Trace, u: Trace, rule: Rule) {
    && t < u && u[|t|].action == Authorize(rule)
    && if Good(u[|t|].reply) then |u| == |t| + 2 && u[|t| + 1].action == WriteStamp(true, rule) else |u| == |t| + 1
  }

  /** `n` key pushes with a connection that failed in a way worth another try, two seconds after each. */
  ghost predicate Attempts(t: Trace, u: Trace, n: nat) {
    if n == 0 then u == t
    else
      && |u| >= 3 && u[|u| - 3].action == PushKey && Good(u[|u| - 3].reply)
      && u[|u| - 2].action == Ssh && !u[|u| - 2].reply.ok && u[|u| - 2].reply.retryable
      && u[|u| - 1].action == Pause(2.0) && Attempts(t, u[..|u| - 3], n - 1)
  }

  /** The last of at most four tries. */
  ghost predicate LastAttempt(v: Trace, u: Trace, n: nat, o: Outcome<Reply>) {
    && v < u && u[|v|].action == PushKey
    && if !Good(u[|v|].reply) then |u| == |v| + 1 && o == Raised("aws")
       else
         && |u| == |v| + 2 && u[|v| + 1].action == Ssh && o == Returned(u[|v| + 1].reply)
         && (u[|v| + 1].reply.ok || !u[|v| + 1].reply.retryable || n == 3)
  }

  /** Push the key, connect, and on a failure worth another try do it again two seconds later, `tries` times in all. */
  ghost predicate ConnectedIn(t: Trace, u: Trace, o: Outcome<Reply>, tries: nat)
    decreases |u|, tries
  {
    && tries > 0 && t < u && u[|t|].action == PushKey
    && if !Good(u[|t|].reply) then |u| == |t| + 1 && o == Raised("aws")
       else
         && |u| > |t| + 1 && u[|t| + 1].action == Ssh
         && if u[|t| + 1].reply.ok || !u[|t| + 1].reply.retryable || tries == 1 then |u| == |t| + 2 && o == Returned(u[|t| + 1].reply)
            else |u| > |t| + 2 && u[|t| + 2].action == Pause(2.0) && ConnectedIn(u[..|t| + 3], u, o, tries - 1)
  }

  ghost predicate Connected(t: Trace, u: Trace, o: Outcome<Reply>) { ConnectedIn(t, u, o, 4) }

  /** Tries counted from the end and from the start are the same. */
  lemma {:induction false} TriesThenLast(t: Trace, v: Trace, u: Trace, n: nat, tries: nat, o: Outcome<Reply>)
    requires n < 4 && tries + n == 4 && Attempts(t, v, n) && LastAttempt(v, u, n, o)
    ensures Connected(t, u, o)
  {
    assert ConnectedIn(v, u, o, tries);
    MoreTries(t, v, u, n, tries, o);
  }

  lemma {:induction false} MoreTries(t: Trace, v: Trace, u: Trace, n: nat, tries: nat, o: Outcome<Reply>)
    requires Attempts(t, v, n) && v <= u && ConnectedIn(v, u, o, tries)
    ensures ConnectedIn(t, u, o, tries + n)
    decreases n
  {
    if n > 0 {
      var w := v[..|v| - 3];
      assert u[..|w| + 3] == v;
      assert u[|w|] == v[|w|] && u[|w| + 1] == v[|w| + 1] && u[|w| + 2] == v[|w| + 2];
      assert ConnectedIn(w, u, o, tries + 1);
      MoreTries(t, w, u, n - 1, tries + 1, o);
    }
  }

  /** A connection, and the boot id in its reply. */
  ghost predicate BootAsked(t: Trace, u: Trace, o: Outcome<string>) {
    exists ran: Outcome<Reply> ::
      Connected(t, u, ran) && o == if ran.Raised? then Raised(ran.reason) else Returned(BootText(ran.value))
  }

  lemma OneMoreAttempt(t: Trace, v: Trace, u: Trace, n: nat)
    requires Attempts(t, v, n) && v <= u && |u| == |v| + 3
    requires u[|v|].action == PushKey && Good(u[|v|].reply)
    requires u[|v| + 1].action == Ssh && !u[|v| + 1].reply.ok && u[|v| + 1].reply.retryable && u[|v| + 2].action == Pause(2.0)
    ensures Attempts(t, u, n + 1)
  {
    assert u[..|u| - 3] == v;
  }

  // ----- closing -----

  method RevokeQuietly(lab: Lab, rule: Rule) returns (o: Outcome<()>)
    modifies lab
    ensures o.Raised? ==> o.reason == "revoke_ssh"
    ensures lab.open <= old(lab.open) && lab.stamp == old(lab.stamp)
    ensures o.Returned? ==> lab.open == old(lab.open) - {rule}
    ensures var r := lab.oracle(old(lab.trace), Revoke(rule));
            (o.Returned? <==> r.ok || r.notFound) && lab.open == OpenAfter(old(lab.open), Revoke(rule), r)
    ensures lab.now >= old(lab.now)
    ensures |lab.trace| == |old(lab.trace)| + 1 && old(lab.trace) <= lab.trace
    ensures var e := lab.trace[|old(lab.trace)|];
            && e.action == Revoke(rule) && e.open == lab.open && e.stamp == lab.stamp
            && e.reply == lab.oracle(old(lab.trace), Revoke(rule))
  {
    var r := lab.Do(Revoke(rule));
    if r.ok || r.notFound {
      return Returned(());
    }
    return Raised("revoke_ssh");
  }

  /**
   The recovery step: reads the stamp and revokes the rule it names. If every open rule
   was covered, returning means that no rule is left open.
   */
  method CloseSsh(lab: Lab) returns (o: Outcome<()>)
    modifies lab
    ensures Covered(old(lab.open), old(lab.stamp)) && o.Returned? ==> lab.open == {}
    ensures lab.open <= old(lab.open) && old(lab.trace) <= lab.trace
    ensures old(lab.stamp) == NoStamp || !old(lab.stamp).authorized ==>
              o == Returned(()) && lab.open == old(lab.open) && lab.stamp == old(lab.stamp) && lab.trace == old(lab.trace)
    ensures old(lab.stamp) == BadNames(true) ==> o == Raised("stamp") && lab.trace == old(lab.trace)
    ensures old(lab.stamp).Stamp? && old(lab.stamp).authorized ==>
              var r := lab.oracle(old(lab.trace), Revoke(old(lab.stamp).rule));
              && (o.Returned? <==> r.ok || r.notFound)
              && lab.open == OpenAfter(old(lab.open), Revoke(old(lab.stamp).rule), r)
              && Revoked(old(lab.trace), lab.trace, old(lab.stamp).rule)
              && lab.stamp == (if o.Returned? then Stamp(false, old(lab.stamp).rule) else old(lab.stamp))
  {
    if lab.stamp == NoStamp || !lab.stamp.authorized {
      return Returned(());
    }
    if lab.stamp.BadNames? {
      return Raised("stamp");
    }
    var rule := lab.stamp.rule;
    o := RevokeQuietly(lab, rule);
    if o.Returned? {
      lab.Write(false, rule);
    }
  }

  // ----- connecting -----

  /** `t` continues `before` without touching the rule or the stamp. */
  ghost predicate Quietly(before: Trace, t: Trace, open: set<Rule>, stamp: StampFile) {
    && before <= t
    && (forall i | |before| <= i < |t| :: !IsMutation(t[i].action) && t[i].open == open && t[i].stamp == stamp)
  }

  ghost predicate StartedSince(t: Trace, from: nat, time: real) {
    forall i | from <= i < |t| :: t[i].at >= time
  }

  /** The last thing done was not an authorize. */
  ghost predicate Settled(t: Trace) { t != [] && !t[|t| - 1].action.Authorize? }

  lemma QuietSettles(before: Trace, t: Trace, open: set<Rule>, stamp: StampFile)
    requires Settled(before) && Quietly(before, t, open, stamp)
    ensures Settled(t)
  {
  }

  lemma QuietlyStep(before: Trace, t: Trace, u: Trace, open: set<Rule>, stamp: StampFile)
    requires Quietly(before, t, open, stamp) && Quietly(t, u, open, stamp)
    ensures Quietly(before, u, open, stamp)
  {
    assert forall i | |before| <= i < |t| :: u[i] == t[i];
  }

  lemma StartedStep(t: Trace, u: Trace, from: nat, time: real)
    requires t <= u && from <= |t| && StartedSince(t, from, time) && StartedSince(u, |t|, time)
    ensures StartedSince(u, from, time)
  {
    assert forall i | from <= i < |t| :: u[i] == t[i];
  }

  /** aws_json on an action that is not a mutation: a non-zero exit or a bad body raises. */
  method Call(lab: Lab, a: Action) returns (o: Outcome<Reply>)
    requires !IsMutation(a) && !a.WriteStamp? && !a.Pause?
    modifies lab
    ensures lab.open == old(lab.open) && lab.stamp == old(lab.stamp) && lab.now >= old(lab.now)
    ensures Quietly(old(lab.trace), lab.trace, lab.open, lab.stamp)
    ensures StartedSince(lab.trace, |old(lab.trace)|, old(lab.now))
    ensures |lab.trace| == |old(lab.trace)| + 1 && lab.trace[|old(lab.trace)|].action == a
    ensures var r := lab.oracle(old(lab.trace), a); (o.Returned? <==> r.ok && r.parsed) && (o.Returned? ==> o.value == r)
    ensures lab.trace[|old(lab.trace)|].reply == lab.oracle(old(lab.trace), a) && (o.Raised? ==> o.reason == "aws")
  {
    var r := lab.Do(a);
    if r.ok && r.parsed {
      return Returned(r);
    }
    return Raised("aws");
  }

  /** A guest that answers: keys are taken, connections succeed, and it always shows as running. */
  ghost predicate Friendly(oracle: (Trace, Action) -> Reply) {
    forall t: Trace ::
      && oracle(t, PushKey).ok && oracle(t, PushKey).parsed && oracle(t, Ssh).ok
      && oracle(t, Describe).ok && oracle(t, Describe).parsed && oracle(t, Describe).state == "running"
  }

  /** The last thing done was an SSH command with this reply. */
  ghost predicate JustRan(t: Trace, r: Reply) {
    t != [] && t[|t| - 1].action == Ssh && t[|t| - 1].reply == r
  }

  /** Whether a try ends the connecting: the key was not taken, or the command ran, or failed for good. */
  ghost predicate EndsTrying(o: Outcome<Reply>, n: nat) { o.Raised? || o.value.ok || !o.value.retryable || n == 3 }

  /** One try: push the key, then connect; two seconds if another try is to follow. */
  method TryOnce(lab: Lab, n: nat) returns (o: Outcome<Reply>)
    requires n < 4
    modifies lab
    ensures lab.open == old(lab.open) && lab.stamp == old(lab.stamp) && lab.now >= old(lab.now)
    ensures Quietly(old(lab.trace), lab.trace, lab.open, lab.stamp)
    ensures StartedSince(lab.trace, |old(lab.trace)|, old(lab.now))
    ensures EndsTrying(o, n) ==> LastAttempt(old(lab.trace), lab.trace, n, o)
    ensures EndsTrying(o, n) && o.Returned? ==> JustRan(lab.trace, o.value)
    ensures o.Raised? ==> lab.trace[|lab.trace| - 1].action == PushKey && !Good(lab.trace[|lab.trace| - 1].reply)
    ensures !EndsTrying(o, n) ==>
              && |lab.trace| == |old(lab.trace)| + 3 && lab.trace[|old(lab.trace)|].action == PushKey
              && Good(lab.trace[|old(lab.trace)|].reply) && lab.trace[|old(lab.trace)| + 1].action == Ssh
              && lab.trace[|old(lab.trace)| + 1].reply == o.value && lab.trace[|old(lab.trace)| + 2].action == Pause(2.0)
    ensures Friendly(lab.oracle) ==> o.Returned? && o.value.ok
  {
    var pushed := Call(lab, PushKey);
    if pushed.Raised? {
      return Raised(pushed.reason);
    }
    var r := lab.Do(Ssh);
    if !r.ok && r.retryable && n + 1 < 4 {
      var waited := lab.Do(Pause(2.0));
    }
    return Returned(r);
  }

  /** Pushes the key and connects, at most four times. What comes back is the reply of the last connection. */
  method RunWithFreshKey(lab: Lab) returns (o: Outcome<Reply>)
    modifies lab
    ensures Connected(old(lab.trace), lab.trace, o)
    ensures |lab.trace| > |old(lab.trace)| && Settled(lab.trace)
    ensures o.Raised? ==> lab.trace[|lab.trace| - 1].action == PushKey && !Good(lab.trace[|lab.trace| - 1].reply)
    ensures o.Returned? ==> JustRan(lab.trace, o.value)
    ensures Friendly(lab.oracle) ==> o.Returned?
    ensures lab.open == old(lab.open) && lab.stamp == old(lab.stamp) && lab.now >= old(lab.now)
    ensures Quietly(old(lab.trace), lab.trace, lab.open, lab.stamp)
    ensures StartedSince(lab.trace, |old(lab.trace)|, old(lab.now))
  {
    ghost var t, start := lab.trace, lab.now;
    for attempt := 0 to 4
      invariant attempt < 4 && Attempts(t, lab.trace, attempt)
      invariant lab.open == old(lab.open) && lab.stamp == old(lab.stamp) && lab.now >= start
      invariant Quietly(t, lab.trace, lab.open, lab.stamp) && StartedSince(lab.trace, |t|, start)
    {
      ghost var u := lab.trace;
      o := TryOnce(lab, attempt);
      QuietlyStep(t, u, lab.trace, lab.open, lab.stamp);
      StartedStep(u, lab.trace, |t|, start);
      if o.Raised? || o.value.ok || !o.value.retryable || attempt + 1 == 4 {
        TriesThenLast(t, u, lab.trace, attempt, 4 - attempt, o);
        return;
      }
      OneMoreAttempt(t, u, lab.trace, attempt);
    }
    o := Raised("never_tried");
  }

  // ----- opening once -----

  /** Authorize, and connect if that went through. */
  ghost predicate OpenedAndRan(t: Trace, u: Trace, rule: Rule, o: Outcome<bool>) {
    exists v: Trace ::
      Did(t, v, Authorize(rule)) && if !Good(v[|t|].reply) then u == v && o == Raised("authorize") else ConnectedFor(v, u, o)
  }

  ghost predicate ConnectedFor(v: Trace, u: Trace, o: Outcome<bool>) {
    exists ran: Outcome<Reply> ::
      Connected(v, u, ran) && o == if ran.Raised? || !ran.value.ok then Raised("ssh") else Returned(true)
  }

  /** A dry run that is neither allowed nor denied stops the opening, and so does a denied one. */
  ghost predicate Probed(t: Trace, u: Trace, revoke: bool) {
    Did(t, u, DryRun(revoke)) && u[|t|].reply.allowed
  }

  ghost predicate ProbeStops(t: Trace, u: Trace, revoke: bool, o: Outcome<bool>) {
    && Did(t, u, DryRun(revoke)) && !u[|t|].reply.allowed
    && o == if u[|t|].reply.denied then Returned(false) else Raised("dry_run")
  }

  /** Two dry runs, a key and the stamp before the rule is opened; the revoke after it, whatever happened. */
  ghost predicate OpenedOnce(t: Trace, u: Trace, rule: Rule, o: Outcome<bool>) {
    || ProbeStops(t, u, true, o)
    || exists v: Trace :: Probed(t, v, true) && AfterFirstProbe(v, u, rule, o)
  }

  ghost predicate AfterFirstProbe(v: Trace, u: Trace, rule: Rule, o: Outcome<bool>) {
    || ProbeStops(v, u, false, o)
    || exists w: Trace :: Probed(v, w, false) && AfterProbes(w, u, rule, o)
  }

  ghost predicate AfterProbes(w: Trace, u: Trace, rule: Rule, o: Outcome<bool>) {
    exists k: Trace ::
      Did(w, k, Keygen) && if !k[|w|].reply.ok then u == k && o == Raised("keygen") else OpenedAndClosed(k, u, rule, o)
  }

  ghost predicate OpenedAndClosed(k: Trace, u: Trace, rule: Rule, o: Outcome<bool>) {
    exists x: Trace, y: Trace, ran: Outcome<bool> ::
      && Did(k, x, WriteStamp(true, rule)) && OpenedAndRan(x, y, rule, ran) && Revoked(y, u, rule)
      && o == if u[|y|].reply.ok || u[|y|].reply.notFound then ran else Raised("revoke_ssh")
  }

  /**
   Authorize one rule, run one command, close. At every moment an open rule is covered
   by the stamp; on every exit the last mutation is a revoke; and unless that revoke
   itself failed, no rule is left open.
   */
  method OpenSsh(lab: Lab, rule: Rule) returns (o: Outcome<bool>)
    requires lab.open <= {rule} && Covered(lab.open, lab.stamp)
    modifies lab
    ensures OpenedOnce(old(lab.trace), lab.trace, rule, o)
    ensures CoveredSince(lab.trace, |old(lab.trace)|) && Covered(lab.open, lab.stamp)
    ensures old(lab.trace) <= lab.trace && LastMutationRevokes(lab.trace, |old(lab.trace)|)
    ensures lab.open <= {rule}
    ensures o != Raised("revoke_ssh") && !NoMutation(lab.trace, |old(lab.trace)|) ==> lab.open == {}
    ensures o == Returned(true) ==> lab.open == {} && lab.stamp == Stamp(false, rule)
  {
    ghost var t := lab.trace;
    var stopped := Probe(lab, true);
    if stopped.Some? {
      return stopped.value;
    }
    ghost var p := lab.trace;
    stopped := Probe(lab, false);
    ghost var q := lab.trace;
    if stopped.Some? {
      assert AfterFirstProbe(p, q, rule, stopped.value);
      return stopped.value;
    }
    ghost var open, stamp := lab.open, lab.stamp;
    QuietlyStep(t, p, q, open, stamp);
    o := KeyThenOpen(lab, rule);
    BothProbes(t, p, q, lab.trace, rule, o);
    QuietBefore(t, q, lab.trace, open, stamp);
  }

  /** One dry run: None if it is allowed, else what the opening ends with. */
  method Probe(lab: Lab, revoke: bool) returns (stopped: Option<Outcome<bool>>)
    modifies lab
    ensures lab.open == old(lab.open) && lab.stamp == old(lab.stamp)
    ensures Quietly(old(lab.trace), lab.trace, lab.open, lab.stamp) && |lab.trace| == |old(lab.trace)| + 1
    ensures if stopped.None? then Probed(old(lab.trace), lab.trace, revoke)
            else ProbeStops(old(lab.trace), lab.trace, revoke, stopped.value) && stopped.value != Raised("revoke_ssh") && stopped.value != Returned(true)
  {
    var r := lab.Do(DryRun(revoke));
    if !r.allowed {
      return Some(if r.denied then Returned(false) else Raised("dry_run"));
    }
    return None;
  }

  lemma BothProbes(t: Trace, p: Trace, q: Trace, u: Trace, rule: Rule, o: Outcome<bool>)
    requires Probed(t, p, true) && Probed(p, q, false) && AfterProbes(q, u, rule, o)
    ensures OpenedOnce(t, u, rule, o)
  {
    assert AfterFirstProbe(p, u, rule, o);
  }

  /** Actions that leave the rule alone change nothing of what holds after them. */
  lemma QuietBefore(t: Trace, q: Trace, u: Trace, open: set<Rule>, stamp: StampFile)
    requires Quietly(t, q, open, stamp) && q <= u && Covered(open, stamp)
    ensures NoMutation(u, |q|) ==> NoMutation(u, |t|)
    ensures LastMutationRevokes(u, |q|) ==> LastMutationRevokes(u, |t|)
    ensures CoveredSince(u, |q|) ==> CoveredSince(u, |t|)
  {
    assert forall i | |t| <= i < |q| :: u[i] == q[i];
  }

  /** The key, and then the rule is opened and closed. */
  method KeyThenOpen(lab: Lab, rule: Rule) returns (o: Outcome<bool>)
    requires lab.open <= {rule} && Covered(lab.open, lab.stamp)
    modifies lab
    ensures AfterProbes(old(lab.trace), lab.trace, rule, o)
    ensures CoveredSince(lab.trace, |old(lab.trace)|) && Covered(lab.open, lab.stamp)
    ensures old(lab.trace) <= lab.trace && LastMutationRevokes(lab.trace, |old(lab.trace)|)
    ensures lab.open <= {rule}
    ensures o != Raised("revoke_ssh") && !NoMutation(lab.trace, |old(lab.trace)|) ==> lab.open == {}
    ensures o == Returned(true) ==> lab.open == {} && lab.stamp == Stamp(false, rule)
  {
    ghost var q := lab.trace;
    var key := lab.Do(Keygen);
    ghost var k := lab.trace;
    assert Did(q, k, Keygen);
    if !key.ok {
      return Raised("keygen");
    }
    lab.Write(true, rule);
    ghost var u := lab.trace;
    var ran := OpenBody(lab, rule);
    ghost var w := lab.trace;
    CoveredStep(u, w, |q|);
    var closed := Finish(lab, rule);
    CoveredStep(w, lab.trace, |q|);
    o := if closed.Raised? then Raised("revoke_ssh") else ran;
    assert Did(k, u, WriteStamp(true, rule)) && OpenedAndClosed(k, lab.trace, rule, o);
  }

  lemma CoveredStep(t: Trace, u: Trace, from: nat)
    requires t <= u && from <= |t| && CoveredSince(t, from) && CoveredSince(u, |t|)
    ensures CoveredSince(u, from)
  {
    assert forall i | from <= i < |t| :: u[i] == t[i];
  }

  /** The `finally` block: revoke, then record it. A revoke that fails leaves the stamp as it was. */
  method Finish(lab: Lab, rule: Rule) returns (o: Outcome<()>)
    requires lab.open <= {rule}
    modifies lab
    ensures Revoked(old(lab.trace), lab.trace, rule)
    ensures old(lab.trace) < lab.trace && lab.trace[|old(lab.trace)|].action == Revoke(rule)
    ensures lab.trace[|old(lab.trace)|].reply == lab.oracle(old(lab.trace), Revoke(rule))
    ensures NoMutation(lab.trace, |old(lab.trace)| + 1)
    ensures forall from: nat :: LastMutationRevokes(lab.trace, from)
    ensures lab.open <= {rule}
    ensures o.Returned? ==> lab.open == {} && lab.stamp == Stamp(false, rule)
    ensures o.Raised? ==> lab.open <= old(lab.open) && lab.stamp == old(lab.stamp)
    ensures var r := lab.oracle(old(lab.trace), Revoke(rule));
            (o.Returned? <==> r.ok || r.notFound) && lab.open == OpenAfter(old(lab.open), Revoke(rule), r)
    ensures Covered(old(lab.open), old(lab.stamp)) ==> CoveredSince(lab.trace, |old(lab.trace)|) && Covered(lab.open, lab.stamp)
  {
    ghost var t := lab.trace;
    o := RevokeQuietly(lab, rule);
    if o.Returned? {
      lab.Write(false, rule);
    }
    assert lab.trace[|t|].action.Revoke?;
  }

  method OpenBody(lab: Lab, rule: Rule) returns (o: Outcome<bool>)
    requires lab.open <= {rule} && lab.stamp == Stamp(true, rule)
    modifies lab
    ensures OpenedAndRan(old(lab.trace), lab.trace, rule, o)
    ensures lab.open <= {rule} && lab.stamp == Stamp(true, rule)
    ensures old(lab.trace) <= lab.trace && CoveredSince(lab.trace, |old(lab.trace)|)
    ensures o != Raised("revoke_ssh") && o != Returned(false)
  {
    ghost var t := lab.trace;
    var authorized := lab.Do(Authorize(rule));
    assert Did(t, lab.trace, Authorize(rule));
    if !authorized.ok || !authorized.parsed {
      return Raised("authorize");
    }
    ghost var v := lab.trace;
    var ran := RunWithFreshKey(lab);
    assert ConnectedFor(v, lab.trace, if ran.Raised? || !ran.value.ok then Raised("ssh") else Returned(true));
    if ran.Raised? || !ran.value.ok {
      return Raised("ssh");
    }
    return Returned(true);
  }

  // ----- leaving the host for a reboot -----

  /** The trace ends in the stamp that records a release, written at this time. */
  ghost predicate EndsInRelease(t: Trace, time: real) {
    && t != [] && t[|t| - 1].action.WriteStamp? && !t[|t| - 1].action.authorized
    && t[|t| - 1].at == time && t[|t| - 1].open == {}
  }

  method ReleaseSsh(lab: Lab, rule: Rule) returns (o: Outcome<()>)
    requires lab.open <= {rule} && lab.stamp == Stamp(true, rule)
    modifies lab
    ensures Revoked(old(lab.trace), lab.trace, rule) && (o.Raised? ==> o.reason == "revoke_ssh")
    ensures o.Returned? <==> lab.trace[|old(lab.trace)|].reply.ok || lab.trace[|old(lab.trace)|].reply.notFound
    ensures lab.now >= old(lab.now)
    ensures old(lab.trace) <= lab.trace && CoveredSince(lab.trace, |old(lab.trace)|)
    ensures forall i | |old(lab.trace)| <= i < |lab.trace| :: !lab.trace[i].action.Authorize? && !UsesSsh(lab.trace[i].action)
    ensures o.Returned? ==> lab.open == {} && lab.stamp == Stamp(false, rule)
    ensures o.Returned? ==> EndsInRelease(lab.trace, lab.now)
    ensures o.Raised? ==> lab.open <= {rule} && lab.stamp == Stamp(true, rule)
    ensures var r := lab.oracle(old(lab.trace), Revoke(rule)); o.Returned? <==> r.ok || r.notFound
    ensures |lab.trace| > |old(lab.trace)| && lab.trace[|old(lab.trace)|].action == Revoke(rule) && Settled(lab.trace)
  {
    o := RevokeQuietly(lab, rule);
    if o.Returned? {
      lab.Write(false, rule);
    }
  }

  /**
   The last thing done was a reopen that was reported as failed. The rule is open exactly if the
   authorize took effect all the same, and the stamp says that it is not.
   */
  ghost predicate ReopenBroke(t: Trace, open: set<Rule>, stamp: StampFile, rule: Rule) {
    && t != [] && t[|t| - 1].action == Authorize(rule) && !(t[|t| - 1].reply.ok && t[|t| - 1].reply.parsed)
    && open == (if TookEffect(t[|t| - 1].reply) then {rule} else {}) && stamp == Stamp(false, rule)
  }

  predicate TookEffect(r: Reply) { r.ok || r.effect }

  /** Reopening authorizes before it stamps: a failure here can leave the rule open and not covered. */
  method ReopenSsh(lab: Lab, rule: Rule) returns (o: Outcome<()>)
    requires lab.open == {}
    modifies lab
    ensures lab.open <= {rule} && lab.now >= old(lab.now)
    ensures old(lab.trace) < lab.trace && lab.trace[|old(lab.trace)|].action == Authorize(rule)
    ensures forall i | |old(lab.trace)| < i < |lab.trace| :: lab.trace[i].action.WriteStamp?
    ensures Reopened(old(lab.trace), lab.trace, rule) && (o.Raised? ==> o.reason == "authorize")
    ensures o.Returned? <==> Good(lab.trace[|old(lab.trace)|].reply)
    ensures o.Returned? ==> lab.stamp == Stamp(true, rule)
    ensures o.Returned? ==> lab.trace[|old(lab.trace)|].reply.ok
    ensures o.Raised? ==> lab.stamp == old(lab.stamp)
    ensures lab.open == OpenAfter(old(lab.open), Authorize(rule), lab.oracle(old(lab.trace), Authorize(rule)))
    ensures var r := lab.oracle(old(lab.trace), Authorize(rule)); o.Returned? <==> r.ok && r.parsed
    ensures o.Raised? && old(lab.stamp) == Stamp(false, rule) ==> ReopenBroke(lab.trace, lab.open, lab.stamp, rule)
  {
    var r := lab.Do(Authorize(rule));
    if !r.ok || !r.parsed {
      return Raised("authorize");
    }
    lab.Write(true, rule);
    return Returned(());
  }

  /** The boot id in a reply: one line of at most 80 characters, or empty text. */
  function BootText(r: Reply): string {
    var text := Strip(r.text);
    if !r.ok || '\n' in text || |text| > 80 then "" else text
  }

  /** The boot id the guest reports, or empty text when it cannot be read. */
  method RemoteBootId(lab: Lab) returns (o: Outcome<string>)
    modifies lab
    ensures BootAsked(old(lab.trace), lab.trace, o)
    ensures lab.open == old(lab.open) && lab.stamp == old(lab.stamp) && lab.now >= old(lab.now)
    ensures Quietly(old(lab.trace), lab.trace, lab.open, lab.stamp)
    ensures StartedSince(lab.trace, |old(lab.trace)|, old(lab.now))
    ensures |lab.trace| > |old(lab.trace)| && Settled(lab.trace)
    ensures o.Returned? ==> ReadBoot(lab.trace, o.value)
    ensures Friendly(lab.oracle) ==> o.Returned?
  {
    var ran := RunWithFreshKey(lab);
    if ran.Raised? {
      return Raised(ran.reason);
    }
    return Returned(BootText(ran.value));
  }

  /** The last thing done was an SSH command whose reply holds this boot id. */
  ghost predicate ReadBoot(t: Trace, boot: string) {
    t != [] && t[|t| - 1].action == Ssh && BootText(t[|t| - 1].reply) == boot
  }

  predicate Stopped(state: string) {
    state in {"stopped", "stopping", "shutting-down", "terminated"}
  }

  function WholeSteps(x: real): nat { if x <= 0.0 then 0 else x.Floor + 1 }

  /** No SSH and no mutation since `from`. */
  ghost predicate Silent(t: Trace, from: nat) {
    forall i | from <= i < |t| :: !UsesSsh(t[i].action) && !IsMutation(t[i].action)
  }

  /** The guest is on its way out, or gone. */
  ghost predicate Leaving(state: string) { state == "stopped" || state == "stopping" || state == "shutting-down" || state == "terminated" }

  /** `n` rounds of a describe of a guest that is not stopping and a pause of five seconds, each begun before the deadline. */
  ghost predicate QuietRounds(t: Trace, u: Trace, deadline: real, n: nat) {
    if n == 0 then u == t
    else
      && |u| >= 2 && u[|u| - 2].action == Describe && Good(u[|u| - 2].reply) && !Leaving(u[|u| - 2].reply.state)
      && u[|u| - 2].at < deadline && u[|u| - 1].action == Pause(5.0) && QuietRounds(t, u[..|u| - 2], deadline, n - 1)
  }

  ghost predicate AfterQuiet(t: Trace, u: Trace, deadline: real) { exists n :: QuietRounds(t, u, deadline, n) }

  ghost predicate StayedQuiet(t: Trace, u: Trace, deadline: real, o: Outcome<()>) {
    if o.Returned? then AfterQuiet(t, u, deadline)
    else
      && |u| > 0 && u[|u| - 1].action == Describe && u[|u| - 1].at < deadline
      && AfterQuiet(t, u[..|u| - 1], deadline)
      && if !Good(u[|u| - 1].reply) then o.reason == "describe"
         else o.reason == "instance_state" && Leaving(u[|u| - 1].reply.state)
  }

  lemma OneMoreQuiet(t: Trace, v: Trace, u: Trace, deadline: real, n: nat)
    requires QuietRounds(t, v, deadline, n) && v <= u && |u| == |v| + 2
    requires u[|v|].action == Describe && Good(u[|v|].reply) && !Leaving(u[|v|].reply.state) && u[|v|].at < deadline
    requires u[|v| + 1].action == Pause(5.0)
    ensures QuietRounds(t, u, deadline, n + 1)
  {
    assert u[..|u| - 2] == v;
  }

  /** The quiet time: only describes and pauses until the budget has elapsed. */
  method StayQuiet(lab: Lab, budget: real) returns (o: Outcome<()>)
    modifies lab
    ensures StayedQuiet(old(lab.trace), lab.trace, old(lab.now) + budget, o)
    ensures lab.open == old(lab.open) && lab.stamp == old(lab.stamp)
    ensures Quietly(old(lab.trace), lab.trace, lab.open, lab.stamp) && Silent(lab.trace, |old(lab.trace)|)
    ensures o.Returned? ==> lab.now >= old(lab.now) + budget
    ensures Friendly(lab.oracle) ==> o.Returned?
  {
    ghost var t := lab.trace;
    var deadline := lab.now + budget;
    ghost var n: nat := 0;
    while lab.now < deadline
      invariant QuietRounds(t, lab.trace, deadline, n)
      invariant lab.open == old(lab.open) && lab.stamp == old(lab.stamp)
      invariant Quietly(t, lab.trace, lab.open, lab.stamp) && Silent(lab.trace, |t|)
      decreases WholeSteps(deadline - lab.now)
    {
      ghost var v := lab.trace;
      o := QuietRound(lab);
      if o.Raised? {
        return;
      }
      OneMoreQuiet(t, v, lab.trace, deadline, n);
      n := n + 1;
    }
    return Returned(());
  }

  /** One round of the quiet time: a describe, and five seconds if the guest is there and stays. */
  method QuietRound(lab: Lab) returns (o: Outcome<()>)
    modifies lab
    ensures lab.open == old(lab.open) && lab.stamp == old(lab.stamp)
    ensures Quietly(old(lab.trace), lab.trace, lab.open, lab.stamp) && Silent(lab.trace, |old(lab.trace)|)
    ensures |lab.trace| > |old(lab.trace)|
    ensures var e := lab.trace[|old(lab.trace)|];
            && e.action == Describe && e.at == old(lab.now)
            && (o.Returned? <==> Good(e.reply) && !Leaving(e.reply.state))
            && (o.Raised? ==> o.reason == if Good(e.reply) then "instance_state" else "describe")
    ensures if o.Raised? then lab.trace[..|lab.trace| - 1] == old(lab.trace)
            else |lab.trace| == |old(lab.trace)| + 2 && lab.trace[|old(lab.trace)| + 1].action == Pause(5.0) && lab.now >= old(lab.now) + 5.0
    ensures Friendly(lab.oracle) ==> o.Returned?
  {
    var d := lab.Do(Describe);
    if !d.ok || !d.parsed {
      return Raised("describe");
    }
    if Stopped(d.state) {
      return Raised("instance_state");
    }
    var p := lab.Do(Pause(5.0));
    return Returned(());
  }

  /** An authorize went through between `from` and `i`. */
  ghost predicate OpenedBefore(t: Trace, from: nat, i: nat)
    requires i <= |t|
  {
    exists j | from <= j < i :: t[j].action.Authorize? && t[j].reply.ok
  }

  /** What the trace of the reboot path looks like from the release on. */
  ghost predicate ReturnTrace(t: Trace, from: nat, quietUntil: real, isOpen: bool) {
    && from <= |t|
    && (forall i, j | from <= i < j < |t| :: !(t[i].action.Authorize? && t[j].action.Authorize?))
    && (forall i | from <= i < |t| && UsesSsh(t[i].action) ::
          t[i].at >= quietUntil && OpenedBefore(t, from, i))
    && (isOpen ==> OpenedBefore(t, from, |t|))
    && (!isOpen ==> forall i | from <= i < |t| :: !t[i].action.Authorize?)
  }

  lemma ReturnTraceGrows(t: Trace, u: Trace, from: nat, quietUntil: real, open: set<Rule>, stamp: StampFile)
    requires ReturnTrace(t, from, quietUntil, true) && Quietly(t, u, open, stamp) && StartedSince(u, |t|, quietUntil)
    ensures ReturnTrace(u, from, quietUntil, true)
  {
    var j :| from <= j < |t| && t[j].action.Authorize? && t[j].reply.ok;
    assert forall i | 0 <= i < |t| :: u[i] == t[i];
    assert u[j].action.Authorize? && u[j].reply.ok;
    forall i | from <= i < |u| && UsesSsh(u[i].action)
      ensures u[i].at >= quietUntil && OpenedBefore(u, from, i)
    {
      if i < |t| {
        var k :| from <= k < i && t[k].action.Authorize? && t[k].reply.ok;
        assert u[k] == t[k];
      }
    }
  }

  lemma ReturnTraceSilent(t: Trace, u: Trace, from: nat, quietUntil: real, isOpen: bool)
    requires ReturnTrace(t, from, quietUntil, isOpen) && t <= u && Silent(u, |t|)
    ensures ReturnTrace(u, from, quietUntil, isOpen)
  {
    assert forall i | 0 <= i < |t| :: u[i] == t[i];
    forall i | from <= i < |u| && UsesSsh(u[i].action)
      ensures u[i].at >= quietUntil && OpenedBefore(u, from, i)
    {
      var k :| from <= k < i && t[k].action.Authorize? && t[k].reply.ok;
      assert u[k] == t[k];
    }
    if isOpen {
      var j :| from <= j < |t| && t[j].action.Authorize? && t[j].reply.ok;
      assert u[j].action.Authorize? && u[j].reply.ok;
    }
  }

  lemma ReturnTraceOpens(t: Trace, u: Trace, from: nat, quietUntil: real)
    requires ReturnTrace(t, from, quietUntil, false) && t < u
    requires u[|t|].action.Authorize? && forall i | |t| < i < |u| :: u[i].action.WriteStamp?
    ensures u[|t|].reply.ok ==> ReturnTrace(u, from, quietUntil, true)
    ensures ReopenedOnce(u, from, quietUntil)
  {
    assert forall i | 0 <= i < |t| :: u[i] == t[i];
  }

  /** The guarantees that survive an exit in the middle of a reopen. */
  ghost predicate ReopenedOnce(t: Trace, from: nat, quietUntil: real) {
    && (forall i, j | from <= i < j < |t| :: !(t[i].action.Authorize? && t[j].action.Authorize?))
    && (forall i | from <= i < |t| && UsesSsh(t[i].action) ::
          t[i].at >= quietUntil && OpenedBefore(t, from, i))
  }

  datatype Waited = Waited(outcome: Outcome<string>, reopenFailed: bool)

  /** The boot id just read, if one was and it is not the one known before. */
  ghost function NewBoot(before: string, t: Trace): string {
    if t == [] || t[|t| - 1].action != Ssh then ""
    else
      Unless(before, BootText(t[|t| - 1].reply))
  }

  function Unless(before: string, boot: string): string { if boot == before then "" else boot }

  lemma NewBootRead(before: string, t: Trace, boot: string)
    requires ReadBoot(t, boot)
    ensures NewBoot(before, t) == Unless(before, boot)
  {
  }

  lemma NoBootIn(before: string, t: Trace, r: Reply)
    requires JustRan(t, r) && !r.ok
    ensures NewBoot(before, t) == ""
  {
  }

  /** Push a key, connect, ask for the boot id; a push or a command that fails ends the look without one. */
  ghost predicate Tried(t: Trace, u: Trace, before: string, o: Outcome<string>) {
    && t < u && u[|t|].action == PushKey
    && if !Good(u[|t|].reply) then |u| == |t| + 1 && o == Returned("") else TriedAfterPush(u[..|t| + 1], u, before, o)
  }

  ghost predicate TriedAfterPush(v: Trace, u: Trace, before: string, o: Outcome<string>) {
    exists w: Trace, ran: Outcome<Reply> ::
      Connected(v, w, ran)
      && if ran.Raised? then u == w && o == Raised(ran.reason)
         else if !ran.value.ok then u == w && o == Returned("") else AskedAgain(w, u, before, o)
  }

  ghost predicate AskedAgain(w: Trace, u: Trace, before: string, o: Outcome<string>) {
    exists boot: Outcome<string> ::
      BootAsked(w, u, boot) && o == if boot.Raised? || boot.value != before then boot else Returned("")
  }

  lemma TriedSo(t: Trace, v: Trace, u: Trace, before: string, o: Outcome<string>)
    requires Did(t, v, PushKey) && Good(v[|t|].reply) && v <= u && TriedAfterPush(v, u, before, o)
    ensures Tried(t, u, before, o)
  {
    assert u[..|t| + 1] == v;
  }

  lemma TriedThrough(v: Trace, w: Trace, u: Trace, before: string, ran: Outcome<Reply>, o: Outcome<string>)
    requires Connected(v, w, ran) && ran.Returned? && ran.value.ok && AskedAgain(w, u, before, o)
    ensures TriedAfterPush(v, u, before, o)
  {
  }

  /** One look at a guest that runs and is open: push a key, connect, read the boot id. */
  method TryReturn(lab: Lab, before: string) returns (o: Outcome<string>)
    modifies lab
    ensures Tried(old(lab.trace), lab.trace, before, o)
    ensures lab.open == old(lab.open) && lab.stamp == old(lab.stamp) && lab.now >= old(lab.now)
    ensures Quietly(old(lab.trace), lab.trace, lab.open, lab.stamp)
    ensures StartedSince(lab.trace, |old(lab.trace)|, old(lab.now))
    ensures |lab.trace| > |old(lab.trace)| && Settled(lab.trace)
    ensures o.Returned? ==> o.value == NewBoot(before, lab.trace)
  {
    ghost var t, start := lab.trace, lab.now;
    var pushed := Call(lab, PushKey);
    if pushed.Raised? {
      return Returned("");
    }
    ghost var u := lab.trace;
    o := TryCommand(lab, before);
    TriedSo(t, u, lab.trace, before, o);
    QuietlyStep(t, u, lab.trace, lab.open, lab.stamp);
    StartedStep(u, lab.trace, |t|, start);
  }

  /** The look after its key push: a command, and then the boot id. */
  method TryCommand(lab: Lab, before: string) returns (o: Outcome<string>)
    modifies lab
    ensures TriedAfterPush(old(lab.trace), lab.trace, before, o)
    ensures lab.open == old(lab.open) && lab.stamp == old(lab.stamp) && lab.now >= old(lab.now)
    ensures Quietly(old(lab.trace), lab.trace, lab.open, lab.stamp)
    ensures StartedSince(lab.trace, |old(lab.trace)|, old(lab.now))
    ensures |lab.trace| > |old(lab.trace)| && Settled(lab.trace)
    ensures o.Returned? ==> o.value == NewBoot(before, lab.trace)
  {
    ghost var u, start := lab.trace, lab.now;
    var ran := RunWithFreshKey(lab);
    if ran.Raised? {
      return Raised(ran.reason);
    }
    if !ran.value.ok {
      NoBootIn(before, lab.trace, ran.value);
      return Returned("");
    }
    ghost var w := lab.trace;
    var current := RemoteBootId(lab);
    QuietlyStep(u, w, lab.trace, lab.open, lab.stamp);
    StartedStep(w, lab.trace, |u|, start);
    AskedSo(w, lab.trace, before, current);
    TriedThrough(u, w, lab.trace, before, ran, if current.Raised? then current else Returned(Unless(before, current.value)));
    if current.Raised? {
      return current;
    }
    NewBootRead(before, lab.trace, current.value);
    return Returned(Unless(before, current.value));
  }

  lemma AskedSo(w: Trace, u: Trace, before: string, boot: Outcome<string>)
    requires BootAsked(w, u, boot)
    ensures AskedAgain(w, u, before, if boot.Raised? then boot else Returned(Unless(before, boot.value)))
  {
  }

  /** The state between two looks at the guest. */
  ghost predicate Returning(t: Trace, open: set<Rule>, stamp: StampFile, rule: Rule, from: nat, quietUntil: real, isOpen: bool) {
    && ReturnTrace(t, from, quietUntil, isOpen)
    && open <= {rule}
    && (if isOpen then stamp == Stamp(true, rule) else stamp == Stamp(false, rule) && open == {})
  }

  /** A look at a guest that is open, at one that runs, and at one of which nothing is known. */
  datatype Part = AtOpen | AtRunning | AtGuest

  /**
   What one look does. A guest is described first; one that runs is reopened unless that has
   happened; and once it is open comes the try.
   */
  ghost predicate Look(part: Part, t: Trace, u: Trace, rule: Rule, before: string, wasOpen: bool, w: Waited, isOpen: bool)
    decreases match part case AtOpen => 0 case AtRunning => 1 case AtGuest => 2
  {
    match part
    case AtOpen => Tried(t, u, before, w.outcome) && !w.reopenFailed && isOpen
    case AtRunning =>
      if wasOpen then Look(AtOpen, t, u, rule, before, true, w, isOpen)
      else
        exists v: Trace ::
          Reopened(t, v, rule)
          && if Good(v[|t|].reply) then Look(AtOpen, v, u, rule, before, true, w, isOpen)
             else u == v && w == Waited(Raised("authorize"), true) && !isOpen
    case AtGuest =>
      exists v: Trace ::
        Did(t, v, Describe)
        && if !Good(v[|t|].reply) then u == v && w == Waited(Raised("describe"), false) && isOpen == wasOpen
           else if v[|t|].reply.state != "running" then u == v && w == Waited(Returned(""), false) && isOpen == wasOpen
           else Look(AtRunning, v, u, rule, before, wasOpen, w, isOpen)
  }

  lemma LookedAfterReopen(t: Trace, v: Trace, u: Trace, rule: Rule, before: string, o: Outcome<string>)
    requires Reopened(t, v, rule) && Good(v[|t|].reply) && Tried(v, u, before, o)
    ensures Look(AtRunning, t, u, rule, before, false, Waited(o, false), true)
  {
    assert Look(AtOpen, v, u, rule, before, true, Waited(o, false), true);
  }

  lemma LookedAtOpen(t: Trace, u: Trace, rule: Rule, before: string, o: Outcome<string>)
    requires Tried(t, u, before, o)
    ensures Look(AtRunning, t, u, rule, before, true, Waited(o, false), true)
  {
    assert Look(AtOpen, t, u, rule, before, true, Waited(o, false), true);
  }

  /** A running guest: reopen if that has not happened, then try to get back in. */
  method LookAtRunning(lab: Lab, rule: Rule, before: string, wasOpen: bool, ghost from: nat, ghost quietUntil: real)
    returns (w: Waited, isOpen: bool)
    requires Returning(lab.trace, lab.open, lab.stamp, rule, from, quietUntil, wasOpen) && lab.now >= quietUntil
    modifies lab
    ensures Look(AtRunning, old(lab.trace), lab.trace, rule, before, wasOpen, w, isOpen)
    ensures old(lab.trace) <= lab.trace && ReopenedOnce(lab.trace, from, quietUntil) && lab.now >= old(lab.now)
    ensures lab.open <= {rule} && (w.reopenFailed ==> w.outcome.Raised?)
    ensures !w.reopenFailed ==> isOpen && Returning(lab.trace, lab.open, lab.stamp, rule, from, quietUntil, true) && Settled(lab.trace)
    ensures w.reopenFailed ==> !wasOpen && ReopenBroke(lab.trace, lab.open, lab.stamp, rule)
    ensures w.outcome.Returned? ==> |lab.trace| > |old(lab.trace)| && w.outcome.value == NewBoot(before, lab.trace)
    ensures !wasOpen ==> var r := lab.oracle(old(lab.trace), Authorize(rule)); (w.reopenFailed <==> !(r.ok && r.parsed))
    ensures w.reopenFailed ==> (lab.open == {rule} <==> TookEffect(lab.oracle(old(lab.trace), Authorize(rule))))
  {
    isOpen := wasOpen;
    ghost var u := lab.trace;
    if !isOpen {
      var reopened := ReopenSsh(lab, rule);
      ReturnTraceOpens(u, lab.trace, from, quietUntil);
      if reopened.Raised? {
        return Waited(Raised(reopened.reason), true), isOpen;
      }
      isOpen := true;
    }
    ghost var x := lab.trace;
    var looked := TryReturn(lab, before);
    ReturnTraceGrows(x, lab.trace, from, quietUntil, lab.open, lab.stamp);
    if wasOpen {
      LookedAtOpen(x, lab.trace, rule, before, looked);
    } else {
      LookedAfterReopen(u, x, lab.trace, rule, before, looked);
    }
    return Waited(looked, false), isOpen;
  }

  predicate HasRevoke(t: Trace) { exists i | 0 <= i < |t| :: t[i].action.Revoke? }

  lemma RevokeStays(t: Trace, u: Trace)
    requires HasRevoke(t) && t <= u
    ensures HasRevoke(u)
  {
    var i :| 0 <= i < |t| && t[i].action.Revoke?;
    assert u[i] == t[i];
  }

  /** Once anything was revoked, AWS reports every authorize as failed and carries it out all the same. */
  ghost predicate RefusesReopen(oracle: (Trace, Action) -> Reply, rule: Rule) {
    forall t | HasRevoke(t) :: !oracle(t, Authorize(rule)).ok && oracle(t, Authorize(rule)).effect
  }

  /** A reopen failed, and the rule is open. */
  ghost predicate Lost(reopenFailed: bool, t: Trace, open: set<Rule>, rule: Rule) {
    reopenFailed && open == {rule} && HasRevoke(t)
  }

  /** One turn of the return loop up to its pause. */
  method LookOnce(lab: Lab, rule: Rule, before: string, wasOpen: bool, ghost from: nat, ghost quietUntil: real)
    returns (w: Waited, isOpen: bool)
    requires Returning(lab.trace, lab.open, lab.stamp, rule, from, quietUntil, wasOpen) && lab.now >= quietUntil
    modifies lab
    ensures old(lab.trace) < lab.trace && ReopenedOnce(lab.trace, from, quietUntil) && lab.now >= old(lab.now)
    ensures Look(AtGuest, old(lab.trace), lab.trace, rule, before, wasOpen, w, isOpen) && lab.trace[|old(lab.trace)|].at == old(lab.now)
    ensures lab.open <= {rule} && (w.reopenFailed ==> w.outcome.Raised?)
    ensures !w.reopenFailed ==> Returning(lab.trace, lab.open, lab.stamp, rule, from, quietUntil, isOpen) && Settled(lab.trace)
    ensures w.reopenFailed ==> ReopenBroke(lab.trace, lab.open, lab.stamp, rule)
    ensures w.outcome.Returned? && w.outcome.value != "" ==> isOpen && w.outcome.value == NewBoot(before, lab.trace)
    ensures Friendly(lab.oracle) && RefusesReopen(lab.oracle, rule) && HasRevoke(old(lab.trace)) && !wasOpen ==>
              Lost(w.reopenFailed, lab.trace, lab.open, rule)
  {
    ghost var t := lab.trace;
    isOpen := wasOpen;
    var d := lab.Do(Describe);
    assert Did(t, lab.trace, Describe);
    ReturnTraceSilent(t, lab.trace, from, quietUntil, isOpen);
    if HasRevoke(t) {
      RevokeStays(t, lab.trace);
    }
    if !d.ok || !d.parsed {
      return Waited(Raised("describe"), false), isOpen;
    }
    if d.state != "running" {
      return Waited(Returned(""), false), isOpen;
    }
    ghost var u := lab.trace;
    w, isOpen := LookAtRunning(lab, rule, before, isOpen, from, quietUntil);
    if HasRevoke(u) {
      RevokeStays(u, lab.trace);
    }
  }

  /** The trace ends in a look, begun before the deadline, that raised or showed a new boot id. */
  ghost predicate LastLook(u: Trace, rule: Rule, before: string, deadline: real, w: Waited) {
    exists v: Trace, wasOpen: bool, isOpen: bool :: Look(AtGuest, v, u, rule, before, wasOpen, w, isOpen) && LooksAt(v, u, deadline)
  }

  ghost predicate LooksAt(v: Trace, u: Trace, deadline: real) { v < u && u[|v|].at < deadline }

  /** The loop ends with such a look, or when the deadline has passed. */
  ghost predicate Awaited(u: Trace, rule: Rule, before: string, deadline: real, end: real, w: Waited) {
    || (w == Waited(Raised("reboot_timeout"), false) && end >= deadline)
    || (w.outcome != Returned("") && LastLook(u, rule, before, deadline, w))
  }

  lemma EndsLooking(v: Trace, u: Trace, rule: Rule, before: string, deadline: real, wasOpen: bool, isOpen: bool, end: real, w: Waited)
    requires Look(AtGuest, v, u, rule, before, wasOpen, w, isOpen) && LooksAt(v, u, deadline) && w.outcome != Returned("")
    ensures Awaited(u, rule, before, deadline, end, w)
  {
  }

  /** A look that showed no new boot id. */
  ghost predicate InVain(w: Waited) { w == Waited(Returned(""), false) }

  ghost predicate LookedInVain(v: Trace, u: Trace, rule: Rule, before: string, wasOpen: bool, isOpen: bool) {
    exists w: Trace :: Look(AtGuest, v, w, rule, before, wasOpen, Waited(Returned(""), false), isOpen) && Did(w, u, Pause(5.0))
  }

  /** One turn of the return loop: a look, and five seconds if it showed no new boot id. */
  method TakeTurn(lab: Lab, rule: Rule, before: string, wasOpen: bool, deadline: real, ghost from: nat, ghost quietUntil: real)
    returns (w: Waited, isOpen: bool)
    requires Returning(lab.trace, lab.open, lab.stamp, rule, from, quietUntil, wasOpen) && quietUntil <= lab.now < deadline
    modifies lab
    ensures old(lab.trace) < lab.trace && lab.trace[|old(lab.trace)|].at == old(lab.now)
    ensures if InVain(w) then LookedInVain(old(lab.trace), lab.trace, rule, before, wasOpen, isOpen)
            else w.outcome != Returned("") && Look(AtGuest, old(lab.trace), lab.trace, rule, before, wasOpen, w, isOpen)
    ensures InVain(w) ==> lab.now >= old(lab.now) + 5.0
    ensures ReopenedOnce(lab.trace, from, quietUntil) && lab.now >= old(lab.now)
    ensures lab.open <= {rule} && (w.reopenFailed ==> w.outcome.Raised?)
    ensures !w.reopenFailed ==> Returning(lab.trace, lab.open, lab.stamp, rule, from, quietUntil, isOpen) && Settled(lab.trace)
    ensures w.reopenFailed ==> ReopenBroke(lab.trace, lab.open, lab.stamp, rule)
    ensures w.outcome.Returned? && w.outcome.value != "" ==> isOpen && w.outcome.value == NewBoot(before, lab.trace)
    ensures Friendly(lab.oracle) && RefusesReopen(lab.oracle, rule) && HasRevoke(old(lab.trace)) && !wasOpen ==>
              Lost(w.reopenFailed, lab.trace, lab.open, rule)
  {
    w, isOpen := LookOnce(lab, rule, before, wasOpen, from, quietUntil);
    if w.outcome.Raised? || w.outcome.value != "" {
      return;
    }
    ghost var y := lab.trace;
    var p := lab.Do(Pause(5.0));
    ReturnTraceSilent(y, lab.trace, from, quietUntil, isOpen);
    assert Did(y, lab.trace, Pause(5.0));
  }

  /** The return loop: reopen once the guest runs, then look for a new boot id. */
  method AwaitReturn(lab: Lab, rule: Rule, before: string, budget: real, ghost from: nat, ghost quietUntil: real)
    returns (w: Waited)
    requires Returning(lab.trace, lab.open, lab.stamp, rule, from, quietUntil, false) && lab.now >= quietUntil
    requires Settled(lab.trace)
    modifies lab
    ensures Awaited(lab.trace, rule, before, old(lab.now) + budget, lab.now, w)
    ensures !w.reopenFailed ==> Settled(lab.trace)
    ensures old(lab.trace) <= lab.trace && ReopenedOnce(lab.trace, from, quietUntil)
    ensures lab.open <= {rule} && (w.reopenFailed ==> w.outcome.Raised?)
    ensures !w.reopenFailed ==> lab.stamp == Stamp(true, rule) || lab.open == {}
    ensures w.reopenFailed ==> ReopenBroke(lab.trace, lab.open, lab.stamp, rule)
    ensures w.outcome.Returned? ==> lab.stamp == Stamp(true, rule) && |lab.trace| > |old(lab.trace)|
    ensures w.outcome.Returned? ==> w.outcome.value == NewBoot(before, lab.trace) && w.outcome.value != ""
    ensures Friendly(lab.oracle) && budget > 0.0 && RefusesReopen(lab.oracle, rule) && HasRevoke(old(lab.trace)) ==>
              Lost(w.reopenFailed, lab.trace, lab.open, rule)
  {
    var deadline := lab.now + budget;
    var isOpen := false;
    ghost var doomed := Friendly(lab.oracle) && budget > 0.0 && RefusesReopen(lab.oracle, rule) && HasRevoke(lab.trace);
    while lab.now < deadline
      invariant old(lab.trace) <= lab.trace && lab.now >= quietUntil
      invariant Returning(lab.trace, lab.open, lab.stamp, rule, from, quietUntil, isOpen) && Settled(lab.trace)
      invariant doomed ==> lab.now < deadline && !isOpen && lab.trace == old(lab.trace)
      decreases WholeSteps(deadline - lab.now)
    {
      ghost var v, wasOpen := lab.trace, isOpen;
      w, isOpen := TakeTurn(lab, rule, before, isOpen, deadline, from, quietUntil);
      if w.outcome.Raised? || w.outcome.value != "" {
        EndsLooking(v, lab.trace, rule, before, deadline, wasOpen, isOpen, lab.now, w);
        return;
      }
    }
    return Waited(Raised("reboot_timeout"), false);
  }

  /** The boot id known before leaving, read by the last SSH command before the release. */
  ghost predicate KnownBoot(t: Trace, asked: nat, released: nat, before: string) {
    && asked <= released <= |t| && ReadBoot(t[..asked], before)
    && forall i | asked <= i < released :: t[i].action != Ssh
  }

  lemma KnownBootStays(t: Trace, u: Trace, asked: nat, released: nat, before: string)
    requires KnownBoot(t, asked, released, before) && t <= u
    ensures KnownBoot(u, asked, released, before)
  {
    assert u[..asked] == t[..asked];
    assert forall i | 0 <= i < |t| :: u[i] == t[i];
  }

  /** Reads the boot id, then drops the rule. */
  method Leave(lab: Lab, rule: Rule) returns (o: Outcome<string>, ghost asked: nat)
    requires lab.open <= {rule} && lab.stamp == Stamp(true, rule)
    modifies lab
    ensures old(lab.trace) <= lab.trace && |lab.trace| > |old(lab.trace)| && lab.open <= {rule} && Settled(lab.trace)
    ensures o.Raised? ==> lab.stamp == Stamp(true, rule)
    ensures o.Returned? ==> lab.open == {} && lab.stamp == Stamp(false, rule) && EndsInRelease(lab.trace, lab.now)
    ensures o.Returned? ==> |old(lab.trace)| < asked && KnownBoot(lab.trace, asked, |lab.trace|, o.value) && HasRevoke(lab.trace)
    ensures Friendly(lab.oracle) && ReleasesOnce(lab.oracle, rule) && !HasRevoke(old(lab.trace)) ==> o.Returned?
    ensures Left(old(lab.trace), lab.trace, rule, o)
  {
    ghost var first := lab.trace;
    asked := |first|;
    var known := RemoteBootId(lab);
    if known.Raised? {
      return Raised(known.reason), asked;
    }
    ghost var s := lab.trace;
    asked := |s|;
    NoRevokeYet(first, s, lab.open, lab.stamp);
    var freed := ReleaseSsh(lab, rule);
    ReleaseKeepsBoot(s, lab.trace, rule, known.value);
    ReleaseLeaves(first, s, lab.trace, rule, known.value, if freed.Raised? then Raised("revoke_ssh") else Returned(known.value));
    if freed.Raised? {
      return Raised(freed.reason), asked;
    }
    return Returned(known.value), asked;
  }

  /** Ask for the boot id; then revoke, and end with what was asked if the rule is gone. */
  ghost predicate Left(t: Trace, u: Trace, rule: Rule, o: Outcome<string>) {
    (BootAsked(t, u, o) && o.Raised?) || exists s: Trace, boot: string :: LeftFrom(t, s, u, rule, boot, o)
  }

  ghost predicate LeftFrom(t: Trace, s: Trace, u: Trace, rule: Rule, boot: string, o: Outcome<string>) {
    && BootAsked(t, s, Returned(boot)) && Revoked(s, u, rule)
    && o == if u[|s|].reply.ok || u[|s|].reply.notFound then Returned(boot) else Raised("revoke_ssh")
  }

  lemma ReleaseKeepsBoot(s: Trace, u: Trace, rule: Rule, boot: string)
    requires ReadBoot(s, boot) && Revoked(s, u, rule)
    ensures KnownBoot(u, |s|, |u|, boot) && HasRevoke(u)
  {
    assert u[..|s|] == s && u[|s|].action.Revoke?;
  }

  lemma ReleaseLeaves(t: Trace, s: Trace, u: Trace, rule: Rule, boot: string, o: Outcome<string>)
    requires BootAsked(t, s, Returned(boot)) && Revoked(s, u, rule)
    requires o == if u[|s|].reply.ok || u[|s|].reply.notFound then Returned(boot) else Raised("revoke_ssh")
    ensures Left(t, u, rule, o)
  {
    assert LeftFrom(t, s, u, rule, boot, o);
  }

  /** The quiet time; then the return loop, begun when it is over. */
  ghost predicate QuietThenReturned(t: Trace, u: Trace, rule: Rule, before: string, quietUntil: real, returnBudget: real, end: real, w: Waited) {
    || (w.outcome.Raised? && !w.reopenFailed && StayedQuiet(t, u, quietUntil, Raised(w.outcome.reason)))
    || exists v: Trace, start: real :: ReturnedFrom(t, v, u, rule, before, quietUntil, start, returnBudget, end, w)
  }

  ghost predicate ReturnedFrom(t: Trace, v: Trace, u: Trace, rule: Rule, before: string, quietUntil: real, start: real, budget: real, end: real, w: Waited) {
    StayedQuiet(t, v, quietUntil, Returned(())) && start >= quietUntil && Awaited(u, rule, before, start + budget, end, w)
  }

  lemma ReturnsAfterQuiet(t: Trace, v: Trace, u: Trace, rule: Rule, before: string, quietUntil: real, returnBudget: real, start: real, end: real, w: Waited)
    requires StayedQuiet(t, v, quietUntil, Returned(())) && start >= quietUntil && Awaited(u, rule, before, start + returnBudget, end, w)
    ensures QuietThenReturned(t, u, rule, before, quietUntil, returnBudget, end, w)
  {
    assert ReturnedFrom(t, v, u, rule, before, quietUntil, start, returnBudget, end, w);
  }

  /** What follows the release: the quiet time, then the return loop. */
  method QuietReturn(lab: Lab, rule: Rule, before: string, quietBudget: real, returnBudget: real)
    returns (w: Waited, ghost quietUntil: real)
    requires lab.open == {} && lab.stamp == Stamp(false, rule) && Settled(lab.trace) && quietBudget >= 0.0
    modifies lab
    ensures QuietThenReturned(old(lab.trace), lab.trace, rule, before, quietUntil, returnBudget, lab.now, w)
    ensures old(lab.trace) <= lab.trace && quietUntil == old(lab.now) + quietBudget
    ensures ReopenedOnce(lab.trace, |old(lab.trace)|, quietUntil)
    ensures w.reopenFailed <==> !Settled(lab.trace)
    ensures lab.open <= {rule} && (w.reopenFailed ==> w.outcome.Raised?)
    ensures !w.reopenFailed ==> lab.stamp == Stamp(true, rule) || lab.open == {}
    ensures w.reopenFailed ==> ReopenBroke(lab.trace, lab.open, lab.stamp, rule)
    ensures w.outcome.Returned? ==> lab.stamp == Stamp(true, rule) && |lab.trace| > |old(lab.trace)|
    ensures w.outcome.Returned? ==> ReadBoot(lab.trace, w.outcome.value) && w.outcome.value != "" && w.outcome.value != before
    ensures Friendly(lab.oracle) && RefusesReopen(lab.oracle, rule) && HasRevoke(old(lab.trace)) && returnBudget > 0.0 ==>
              Lost(w.reopenFailed, lab.trace, lab.open, rule)
  {
    ghost var t := lab.trace;
    quietUntil := lab.now + quietBudget;
    var quiet := StayQuiet(lab, quietBudget);
    assert ReturnTrace(lab.trace, |t|, quietUntil, false);
    QuietSettles(t, lab.trace, lab.open, lab.stamp);
    if HasRevoke(t) {
      RevokeStays(t, lab.trace);
    }
    if quiet.Raised? {
      return Waited(Raised(quiet.reason), false), quietUntil;
    }
    ghost var v, start := lab.trace, lab.now;
    w := AwaitReturn(lab, rule, before, returnBudget, |t|, quietUntil);
    ReturnsAfterQuiet(t, v, lab.trace, rule, before, quietUntil, returnBudget, start, lab.now, w);
    if w.outcome.Returned? {
      NewBootMeans(before, lab.trace);
    }
  }

  ghost predicate LeftThenReturned(t: Trace, u: Trace, rule: Rule, before: string, released: nat, quietUntil: real, returnBudget: real, end: real, w: Waited) {
    exists v: Trace :: |v| == released && Left(t, v, rule, Returned(before)) && QuietThenReturned(v, u, rule, before, quietUntil, returnBudget, end, w)
  }

  /**
   Leave the host and read the boot id again. After the release nothing uses SSH until the
   quiet budget is over; the rule is reopened at most once and before every later SSH. The known
   id is what the guest's last reply before the release said; the id that comes back is what its
   last reply after the reopen says, is not empty and is not the known one.
   */
  method WaitForReboot(lab: Lab, rule: Rule, quietBudget: real, returnBudget: real)
    returns (w: Waited, before: string, ghost left: bool, ghost asked: nat, ghost released: nat, ghost quietUntil: real)
    requires lab.open <= {rule} && lab.stamp == Stamp(true, rule) && quietBudget >= 0.0
    modifies lab
    ensures if left then LeftThenReturned(old(lab.trace), lab.trace, rule, before, released, quietUntil, returnBudget, lab.now, w)
            else !w.reopenFailed && w.outcome.Raised? && Left(old(lab.trace), lab.trace, rule, Raised(w.outcome.reason))
    ensures old(lab.trace) <= lab.trace && |old(lab.trace)| <= released <= |lab.trace|
    ensures ReopenedOnce(lab.trace, released, quietUntil)
    ensures (w.reopenFailed <==> !Settled(lab.trace)) && |lab.trace| > |old(lab.trace)|
    ensures lab.open <= {rule} && (w.reopenFailed ==> w.outcome.Raised?)
    ensures !w.reopenFailed ==> lab.stamp == Stamp(true, rule) || lab.open == {}
    ensures w.outcome.Returned? ==> lab.stamp == Stamp(true, rule)
    ensures w.reopenFailed ==> ReopenBroke(lab.trace, lab.open, lab.stamp, rule)
    ensures left ==> EndsInRelease(lab.trace[..released], quietUntil - quietBudget)
    ensures w.outcome.Returned? || w.reopenFailed ==> left
    ensures left ==> |old(lab.trace)| < asked && KnownBoot(lab.trace, asked, released, before)
    ensures w.outcome.Returned? ==>
              && |lab.trace| > released && ReadBoot(lab.trace, w.outcome.value)
              && w.outcome.value != "" && w.outcome.value != before
    ensures Friendly(lab.oracle) && RefusesReopen(lab.oracle, rule) && ReleasesOnce(lab.oracle, rule) && !HasRevoke(old(lab.trace)) && returnBudget > 0.0 ==>
              Lost(w.reopenFailed, lab.trace, lab.open, rule)
  {
    before, left, quietUntil := "", false, 0.0;
    var known;
    known, asked := Leave(lab, rule);
    released := |lab.trace|;
    if known.Raised? {
      return Waited(Raised(known.reason), false), before, left, asked, released, quietUntil;
    }
    before, left := known.value, true;
    ghost var t := lab.trace;
    w, quietUntil := QuietReturn(lab, rule, before, quietBudget, returnBudget);
    assert lab.trace[..released] == t;
    ReturnedAfter(old(lab.trace), t, lab.trace, rule, before, quietUntil, returnBudget, lab.now, w);
    KnownBootStays(t, lab.trace, asked, released, before);
  }

  lemma ReturnedAfter(t: Trace, v: Trace, u: Trace, rule: Rule, before: string, quietUntil: real, returnBudget: real, end: real, w: Waited)
    requires Left(t, v, rule, Returned(before)) && QuietThenReturned(v, u, rule, before, quietUntil, returnBudget, end, w)
    ensures LeftThenReturned(t, u, rule, before, |v|, quietUntil, returnBudget, end, w)
  {
  }

  lemma NewBootMeans(before: string, t: Trace)
    requires NewBoot(before, t) != ""
    ensures ReadBoot(t, NewBoot(before, t)) && NewBoot(before, t) != before
  {
  }

  lemma NoRevokeYet(before: Trace, t: Trace, open: set<Rule>, stamp: StampFile)
    requires Quietly(before, t, open, stamp)
    ensures HasRevoke(t) ==> HasRevoke(before)
  {
    if HasRevoke(t) {
      var i :| 0 <= i < |t| && t[i].action.Revoke?;
      assert before[i] == t[i];
    }
  }

  lemma NoRevokeAdded(t: Trace, u: Trace)
    requires t <= u && |u| == |t| + 1 && !u[|t|].action.Revoke?
    ensures HasRevoke(u) ==> HasRevoke(t)
  {
    if HasRevoke(u) {
      var i :| 0 <= i < |u| && u[i].action.Revoke?;
      assert t[i] == u[i];
    }
  }

  /** The first revoke goes through. */
  ghost predicate ReleasesOnce(oracle: (Trace, Action) -> Reply, rule: Rule) {
    forall t | !HasRevoke(t) :: oracle(t, Revoke(rule)).ok
  }

  // ----- the enterprise run -----

  /** What the body of a battery does between opening and closing; the script is arbitrary. */
  datatype Step = Remote | Reboot | Abort

  datatype Exit = Exit(raised: bool, reopenFailed: bool, revokeFailed: bool)

  /** Everything works until the rule has been released; then authorizing fails in name only and revoking fails. */
  ghost predicate LosesReopen(oracle: (Trace, Action) -> Reply, rule: Rule) {
    && Friendly(oracle) && RefusesReopen(oracle, rule) && ReleasesOnce(oracle, rule)
    && (forall t | !HasRevoke(t) :: oracle(t, Authorize(rule)).ok && oracle(t, Authorize(rule)).parsed)
    && (forall t | HasRevoke(t) :: !RevokeTook(oracle(t, Revoke(rule))))
  }

  /** The wait for the reboot: it ended before the release, or went on to the return. */
  ghost predicate WaitedFor(t: Trace, v: Trace, rule: Rule, returnBudget: real, w: Waited) {
    || (!w.reopenFailed && w.outcome.Raised? && Left(t, v, rule, Raised(w.outcome.reason)))
    || exists before: string, released: nat, quietUntil: real, end: real ::
         LeftThenReturned(t, v, rule, before, released, quietUntil, returnBudget, end, w) && ReleasedAt(v, released, quietUntil - 70.0)
  }

  /** The entry before `released` is the release, at this time. */
  ghost predicate ReleasedAt(v: Trace, released: nat, time: real) { 0 < released <= |v| && v[released - 1].at == time }

  lemma WaitedSo(t: Trace, v: Trace, rule: Rule, before: string, released: nat, quietUntil: real, returnBudget: real, end: real, w: Waited)
    requires LeftThenReturned(t, v, rule, before, released, quietUntil, returnBudget, end, w) && ReleasedAt(v, released, quietUntil - 70.0)
    ensures WaitedFor(t, v, rule, returnBudget, w)
  {
  }

  ghost predicate TailRan(v: Trace, u: Trace) { exists ran: Outcome<Reply> :: Connected(v, u, ran) }

  /** A reboot: the wait, and one more connection if the guest did not come back in time. */
  ghost predicate Rebooted(t: Trace, u: Trace, rule: Rule, raised: bool, reopenFailed: bool) {
    exists v: Trace, w: Waited ::
      && WaitedFor(t, v, rule, 240.0, w) && raised == w.outcome.Raised? && reopenFailed == w.reopenFailed
      && if w == Waited(Raised("reboot_timeout"), false) then TailRan(v, u) else u == v
  }

  /** A step that ends the body: an abort, a command whose key could not be pushed, or a reboot that raised. */
  ghost predicate StepEnds(u: Trace, step: Step, reopenFailed: bool)
    requires u != []
  {
    match step
    case Abort => !reopenFailed
    case Remote => !reopenFailed && u[|u| - 1].action == PushKey && !Good(u[|u| - 1].reply)
    case Reboot => true
  }

  ghost predicate EndsAt(u: Trace, steps: seq<Step>, k: nat, reopenFailed: bool) {
    k < |steps| && Abort !in steps[..k] && u != [] && StepEnds(u, steps[k], reopenFailed)
  }

  /** The body authorizes first; it raises if that fails or at the first step that ends it, and else does every step. */
  ghost predicate BodyRan(t: Trace, u: Trace, rule: Rule, steps: seq<Step>, raised: bool, reopenFailed: bool) {
    && t < u && u[|t|].action == Authorize(rule)
    && if !Good(u[|t|].reply) then raised && !reopenFailed && |u| == |t| + 1
       else if raised then exists k: nat :: EndsAt(u, steps, k, reopenFailed)
       else !reopenFailed && Abort !in steps && |u| > |t| + |steps|
  }

  lemma BodyEndsAt(t: Trace, u: Trace, rule: Rule, steps: seq<Step>, k: nat, reopenFailed: bool)
    requires t < u && u[|t|].action == Authorize(rule) && Good(u[|t|].reply)
    requires k < |steps| && Abort !in steps[..k] && StepEnds(u, steps[k], reopenFailed)
    ensures BodyRan(t, u, rule, steps, true, reopenFailed)
  {
    assert EndsAt(u, steps, k, reopenFailed);
  }

  method EnterpriseBody(lab: Lab, rule: Rule, steps: seq<Step>) returns (raised: bool, reopenFailed: bool)
    requires lab.open <= {rule} && lab.stamp == Stamp(true, rule)
    modifies lab
    ensures old(lab.trace) <= lab.trace && lab.open <= {rule} && |lab.trace| > |old(lab.trace)|
    ensures BodyRan(old(lab.trace), lab.trace, rule, steps, raised, reopenFailed)
    ensures reopenFailed <==> |lab.trace| > |old(lab.trace)| + 1 && !Settled(lab.trace)
    ensures reopenFailed ==> raised && ReopenBroke(lab.trace, lab.open, lab.stamp, rule)
    ensures !reopenFailed ==> Covered(lab.open, lab.stamp)
    ensures LosesReopen(lab.oracle, rule) && !HasRevoke(old(lab.trace)) && steps == [Reboot] ==>
              Lost(reopenFailed, lab.trace, lab.open, rule)
  {
    ghost var t := lab.trace;
    var authorized := lab.Do(Authorize(rule));
    if !authorized.ok || !authorized.parsed {
      return true, false;
    }
    NoRevokeAdded(t, lab.trace);
    ghost var doomed := LosesReopen(lab.oracle, rule) && !HasRevoke(t) && steps == [Reboot];
    for k := 0 to |steps|
      invariant old(lab.trace) <= lab.trace
      invariant lab.open <= {rule} && lab.stamp == Stamp(true, rule)
      invariant |lab.trace| > |t| + k && lab.trace[|t|].action == Authorize(rule) && Good(lab.trace[|t|].reply)
      invariant Abort !in steps[..k]
      invariant |lab.trace| == |t| + 1 || (|lab.trace| > |t| && Settled(lab.trace))
      invariant doomed ==> k == 0 && !HasRevoke(lab.trace)
    {
      assert steps[..k + 1] == steps[..k] + [steps[k]];
      match steps[k] {
        case Abort =>
          BodyEndsAt(t, lab.trace, rule, steps, k, false);
          return true, false;
        case Remote =>
          var ran := RunWithFreshKey(lab);
          if ran.Raised? {
            BodyEndsAt(t, lab.trace, rule, steps, k, false);
            return true, false;
          }
        case Reboot =>
          var stopped, failed := RebootStep(lab, rule);
          if stopped {
            BodyEndsAt(t, lab.trace, rule, steps, k, failed);
            return true, failed;
          }
      }
    }
    assert steps[..|steps|] == steps;
    return false, false;
  }

  /** A reboot inside a battery. A guest that does not come back in time gets one more command. */
  method RebootStep(lab: Lab, rule: Rule) returns (raised: bool, reopenFailed: bool)
    requires lab.open <= {rule} && lab.stamp == Stamp(true, rule)
    modifies lab
    ensures old(lab.trace) <= lab.trace && lab.open <= {rule} && |lab.trace| > |old(lab.trace)|
    ensures Rebooted(old(lab.trace), lab.trace, rule, raised, reopenFailed)
    ensures !raised ==> lab.stamp == Stamp(true, rule)
    ensures !reopenFailed ==> Settled(lab.trace)
    ensures reopenFailed ==> raised && ReopenBroke(lab.trace, lab.open, lab.stamp, rule)
    ensures !reopenFailed ==> Covered(lab.open, lab.stamp)
    ensures LosesReopen(lab.oracle, rule) && !HasRevoke(old(lab.trace)) ==>
              Lost(reopenFailed, lab.trace, lab.open, rule)
  {
    var w, before, left, asked, released, quietUntil := WaitForReboot(lab, rule, 70.0, 240.0);
    ghost var v := lab.trace;
    if left {
      assert v[..released][released - 1] == v[released - 1];
      WaitedSo(old(lab.trace), v, rule, before, released, quietUntil, 240.0, lab.now, w);
    }
    assert WaitedFor(old(lab.trace), v, rule, 240.0, w);
    if w.outcome.Returned? {
      return false, false;
    }
    if !w.reopenFailed && w.outcome.reason == "reboot_timeout" {
      var tail := RunWithFreshKey(lab);
      assert TailRan(v, lab.trace);
    }
    return true, w.reopenFailed;
  }

  /** Stamp, body, revoke: whatever the body did, the revoke comes after it and a failed one raises too. */
  ghost predicate BatteryRan(t: Trace, u: Trace, closing: nat, rule: Rule, steps: seq<Step>, e: Exit) {
    exists s: Trace, v: Trace, raised: bool ::
      && Did(t, s, WriteStamp(true, rule)) && |v| == closing && BodyRan(s, v, rule, steps, raised, e.reopenFailed)
      && Revoked(v, u, rule) && (e.raised <==> raised || e.revokeFailed)
  }

  lemma BatterySo(t: Trace, s: Trace, v: Trace, u: Trace, rule: Rule, steps: seq<Step>, raised: bool, e: Exit)
    requires Did(t, s, WriteStamp(true, rule)) && BodyRan(s, v, rule, steps, raised, e.reopenFailed)
    requires Revoked(v, u, rule) && (e.raised <==> raised || e.revokeFailed)
    ensures BatteryRan(t, u, |v|, rule, steps, e)
  {
  }

  /**
   A whole battery. On every exit the last mutation is a revoke; if that revoke went through no
   rule is left, and the stamp covers whatever is left unless a reopen failed. `closing` is the
   place of that last revoke; after a failed reopen the entry before it is the reopen's authorize.
   */
  method EnterpriseRows(lab: Lab, rule: Rule, steps: seq<Step>) returns (e: Exit, ghost closing: nat)
    requires lab.open <= {rule}
    modifies lab
    ensures old(lab.trace) <= lab.trace && LastMutationRevokes(lab.trace, |old(lab.trace)|)
    ensures !e.revokeFailed ==> lab.open == {} && lab.stamp == Stamp(false, rule)
    ensures !(e.revokeFailed && e.reopenFailed) ==> Covered(lab.open, lab.stamp)
    ensures e.revokeFailed || e.reopenFailed ==> e.raised
    ensures lab.open <= {rule}
    ensures |old(lab.trace)| < closing < |lab.trace| && lab.trace[closing].action == Revoke(rule)
    ensures BatteryRan(old(lab.trace), lab.trace, closing, rule, steps, e)
    ensures e.revokeFailed <==> !lab.trace[closing].reply.ok && !lab.trace[closing].reply.notFound
    ensures e.reopenFailed <==> closing - 2 > |old(lab.trace)| && ReopenAt(lab.trace, closing - 1, rule)
    ensures e.reopenFailed ==> lab.stamp == Stamp(false, rule)
    ensures NoMutation(lab.trace, closing + 1)
    ensures e.reopenFailed ==>
              (lab.open == {rule} <==> TookEffect(lab.trace[closing - 1].reply) && !RevokeTook(lab.trace[closing].reply))
    ensures LosesReopen(lab.oracle, rule) && !HasRevoke(old(lab.trace)) && steps == [Reboot] ==>
              e.reopenFailed && lab.open == {rule}
  {
    ghost var first := lab.trace;
    lab.Write(true, rule);
    NoRevokeAdded(first, lab.trace);
    ghost var second := lab.trace;
    var raised, reopenFailed := EnterpriseBody(lab, rule, steps);
    closing := |lab.trace|;
    ghost var t := lab.trace;
    var closed := Finish(lab, rule);
    assert forall i | 0 <= i < |t| :: lab.trace[i] == t[i];
    BatterySo(first, second, t, lab.trace, rule, steps, raised, Exit(raised || closed.Raised?, reopenFailed, closed.Raised?));
    return Exit(raised || closed.Raised?, reopenFailed, closed.Raised?), closing;
  }

  /** The revoke removed the rule, whatever it reported. */
  predicate RevokeTook(r: Reply) { r.ok || r.notFound || r.effect }

  /** At `i` a reopen's authorize was reported as failed. */
  ghost predicate ReopenAt(t: Trace, i: int, rule: Rule) {
    0 <= i < |t| && t[i].action == Authorize(rule) && !(t[i].reply.ok && t[i].reply.parsed)
  }

  /**
   A battery followed by the recovery step. A close that returns leaves the rule open if and only
   if a reopen reported as failed took effect and the last revoke of the battery did not.
   */
  method EnterpriseThenClose(lab: Lab, rule: Rule, steps: seq<Step>) returns (e: Exit, closed: Outcome<()>, ghost closing: nat)
    requires lab.open <= {rule}
    modifies lab
    ensures old(lab.trace) <= lab.trace && |old(lab.trace)| < closing < |lab.trace|
    ensures closed.Returned? ==>
              (lab.open != {} <==>
               && e.reopenFailed && TookEffect(lab.trace[closing - 1].reply) && !RevokeTook(lab.trace[closing].reply))
    ensures lab.trace[closing].action == Revoke(rule)
    ensures e.reopenFailed <==> closing - 2 > |old(lab.trace)| && ReopenAt(lab.trace, closing - 1, rule)
    ensures e.reopenFailed ==> closed.Returned?
    ensures lab.open <= {rule}
    ensures e.reopenFailed ==> lab.stamp == Stamp(false, rule) && NoMutation(lab.trace, closing + 1)
    ensures LosesReopen(lab.oracle, rule) && !HasRevoke(old(lab.trace)) && steps == [Reboot] ==>
              e.reopenFailed && lab.open == {rule}
  {
    e, closing := EnterpriseRows(lab, rule, steps);
    ghost var t := lab.trace;
    closed := CloseSsh(lab);
    assert lab.trace[closing] == t[closing] && lab.trace[closing - 1] == t[closing - 1];
  }

  /** Opening once followed by the recovery step leaves no rule open, without exception. */
  method OpenThenClose(lab: Lab, rule: Rule) returns (o: Outcome<bool>, closed: Outcome<()>)
    requires lab.open <= {rule} && Covered(lab.open, lab.stamp)
    modifies lab
    ensures closed.Returned? ==> lab.open == {}
  {
    o := OpenSsh(lab, rule);
    closed := CloseSsh(lab);
  }

  /** Everything works until the first revoke; then authorizing fails but takes effect, and revoking fails. */
  function LateReply(t: Trace, a: Action): Reply {
    var late := HasRevoke(t);
    match a
    case Authorize(_) => Reply(!late, true, true, false, false, late, false, "", "", 0.0)
    case Revoke(_) => Reply(!late, true, true, false, false, false, false, "", "", 0.0)
    case _ => Reply(true, true, true, false, false, false, false, "running", "boot-1", 0.0)
  }

  lemma LateLosesReopen(oracle: (Trace, Action) -> Reply, rule: Rule)
    requires forall t, a :: oracle(t, a) == LateReply(t, a)
    ensures LosesReopen(oracle, rule)
  {
  }

  /**
   The exception is real: a battery of one reboot, against these replies, ends with the rule open
   and a stamp that says it is not, and the recovery step returns without touching it.
   */
  method ReopenHole(rule: Rule) returns (lab: Lab, e: Exit, closed: Outcome<()>, ghost closing: nat)
    ensures closed.Returned? && lab.open == {rule} && lab.stamp == Stamp(false, rule) && e.reopenFailed
    ensures 2 < closing < |lab.trace| && lab.trace[closing].action == Revoke(rule) && !RevokeTook(lab.trace[closing].reply)
    ensures ReopenAt(lab.trace, closing - 1, rule) && TookEffect(lab.trace[closing - 1].reply)
    ensures NoMutation(lab.trace, closing + 1)
  {
    lab := new Lab(LateReply);
    LateLosesReopen(lab.oracle, rule);
    e, closed, closing := EnterpriseThenClose(lab, rule, [Reboot]);
  }
}
