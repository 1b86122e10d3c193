/**
 Preparing the lab's kernel: the guest reports its LSM list, may reboot into a sealed command
 line, and the host accepts only a report of the boot it last waited for.
 */
module Lsm {
  import opened PyJson
  import opened Texts

  datatype Key = BootId | HostResult | StockLsm | EnabledLsm | Cmdline | RebootRequested | Other(name: string)

  type Val = Value<Key>
  type Fields = map<Key, Val>

  // ----- what a report says -----

  function TextOf(v: Val): string { if v.Str? then v.s else "" }

  predicate Any<T>(xs: seq<T>, p: T -> bool) { exists i | 0 <= i < |xs| :: p(xs[i]) }

  predicate IsBpf(part: string) { Strip(part) == "bpf" }

  predicate BpfListed(text: string) { Any(SplitOn(text, ','), IsBpf) }

  /** The words between runs of white space. */
  function Tokens(s: string): seq<string>
    decreases |s|
  {
    StripLeftIs(s);
    var t := StripLeft(s);
    if t == "" then [] else
      var n := WordEnd(t);
      [t[..n]] + Tokens(t[n..])
  }

  function WordEnd(s: string): (n: nat)
    requires s != "" && !IsSpace(s[0])
    ensures 0 < n <= |s|
  {
    if |s| == 1 || IsSpace(s[1]) then 1 else 1 + WordEnd(s[1..])
  }

  predicate LsmToken(token: string) { "lsm=" <= token && BpfListed(token[4..]) }

  predicate CmdlineBpf(cmdline: string) { Any(Tokens(cmdline), LsmToken) }

  predicate ConfirmMatchesBoot(body: Fields, boot: string) {
    boot != "" && '\n' !in boot && Get(body, BootId) == Str(boot)
  }

  predicate LsmConfirmOk(body: Fields) {
    && (Get(body, HostResult) == Str("LSM_ENABLED") || Get(body, HostResult) == Str("LSM_ALREADY_ACTIVE"))
    && BpfListed(TextOf(Get(body, StockLsm))) && CmdlineBpf(TextOf(Get(body, Cmdline)))
  }

  predicate GuardReady(body: Fields, boot: string) {
    Get(body, HostResult) == Str("GUARD_PROVED") && Get(body, RebootRequested) == Bool(true) && ConfirmMatchesBoot(body, boot)
  }

  predicate StockBpfReady(body: Fields, boot: string) {
    && ConfirmMatchesBoot(body, boot)
    && (Get(body, HostResult) == Str("LSM_ALREADY_ACTIVE") || Get(body, HostResult) == Str("LSM_ENABLED"))
    && BpfListed(TextOf(Get(body, StockLsm)))
  }

  /** A report built from the live files. */
  function FromProbe(probe: Fields, result: string): Fields {
    map[BootId := Get(probe, BootId), Cmdline := Str(TextOf(Get(probe, Cmdline))),
        StockLsm := Str(TextOf(Get(probe, EnabledLsm))), HostResult := Str(result)]
  }

  function LiveLsmFromProbe(probe: Fields, boot: string): Option<Fields> {
    if ConfirmMatchesBoot(probe, boot) && LsmConfirmOk(FromProbe(probe, "LSM_ENABLED"))
    then Some(FromProbe(probe, "LSM_ENABLED")) else None
  }

  function LiveStockBpf(probe: Fields, boot: string): Option<Fields> {
    if ConfirmMatchesBoot(probe, boot) && BpfListed(TextOf(Get(probe, EnabledLsm)))
    then Some(FromProbe(probe, "LSM_ALREADY_ACTIVE")) else None
  }

  // ----- what the lists and reports mean -----

  /** Between two commas, or a comma and an end, stands bpf with nothing but white space around it. */
  ghost predicate BpfBetween(s: string, i: nat, j: nat) { Piece(s, ',', i, j) && Core(s[i..j], "bpf") }

  ghost predicate ListsBpf(s: string) { exists i: nat, j: nat :: BpfBetween(s, i, j) }

  /** bpf counts only as a token of its own. */
  lemma BpfListedIff(s: string)
    ensures BpfListed(s) <==> ListsBpf(s)
  {
    var parts := SplitOn(s, ',');
    if BpfListed(s) {
      var k :| 0 <= k < |parts| && IsBpf(parts[k]);
      SplitIff(s, ',', parts[k]);
      var i: nat, j: nat :| Piece(s, ',', i, j) && s[i..j] == parts[k];
      StripIff(parts[k], "bpf");
      assert BpfBetween(s, i, j);
    }
    if ListsBpf(s) {
      var i: nat, j: nat :| BpfBetween(s, i, j);
      SplitIff(s, ',', s[i..j]);
      StripIff(s[i..j], "bpf");
      var k :| 0 <= k < |parts| && parts[k] == s[i..j];
      assert IsBpf(parts[k]);
    }
  }

  /** A word: no white space in it, and none but white space or an end beside it. */
  ghost predicate WordOf(spaces: string, s: string, i: nat, j: nat) {
    && i < j <= |s| && (forall k | i <= k < j :: s[k] !in spaces)
    && (i == 0 || s[i - 1] in spaces) && (j == |s| || s[j] in spaces)
  }

  ghost predicate WordIn(spaces: string, s: string, word: string) {
    exists i: nat, j: nat :: WordOf(spaces, s, i, j) && s[i..j] == word
  }

  ghost predicate HasWord(s: string, word: string) { WordIn(SPACES, s, word) }

  /** A word of the line is lsm= and a list that names bpf. */
  ghost predicate SealedLine(s: string) {
    exists list :: HasWord(s, "lsm=" + list) && ListsBpf(list)
  }

  lemma CmdlineBpfIff(s: string)
    ensures CmdlineBpf(s) <==> SealedLine(s)
  {
    if CmdlineBpf(s) {
      SealedFrom(s);
    }
    if SealedLine(s) {
      SealedTo(s);
    }
  }

  lemma SealedFrom(s: string)
    requires CmdlineBpf(s)
    ensures SealedLine(s)
  {
    var word :| word in Tokens(s) && LsmToken(word);
    var list := word[4..];
    assert word == "lsm=" + list;
    TokensIff(s, word);
    BpfListedIff(list);
  }

  lemma SealedTo(s: string)
    requires SealedLine(s)
    ensures CmdlineBpf(s)
  {
    var list :| HasWord(s, "lsm=" + list) && ListsBpf(list);
    var word := "lsm=" + list;
    TokensIff(s, word);
    BpfListedIff(list);
    assert word[4..] == list;
    var k :| 0 <= k < |Tokens(s)| && Tokens(s)[k] == word;
    assert LsmToken(Tokens(s)[k]);
  }

  lemma {:induction false} WordEndStops(t: string)
    requires t != "" && !IsSpace(t[0])
    ensures forall k | 0 <= k < WordEnd(t) :: !IsSpace(t[k])
    ensures WordEnd(t) < |t| ==> IsSpace(t[WordEnd(t)])
  {
    if |t| > 1 && !IsSpace(t[1]) {
      WordEndStops(t[1..]);
      assert forall k | 0 < k < WordEnd(t) :: t[k] == t[1..][k - 1];
    }
  }

  /** The tokens of a text are its words. */
  lemma {:induction false} TokensIff(s: string, word: string)
    ensures word in Tokens(s) <==> HasWord(s, word)
    decreases |s|
  {
    StripLeftIs(s);
    var t := StripLeft(s);
    var a := |s| - |t|;
    if t == "" {
      SpacesOnly(s, 0, a);
      NoWords(SPACES, s, word);
    } else {
      var n := WordEnd(t);
      WordEndStops(t);
      assert t == s[a..] && t[..n] == s[a..a + n] && t[n..] == s[a + n..];
      SpacesOnly(s, 0, a);
      NoSpaces(s, t, a, n);
      TokensIff(t[n..], word);
      assert Tokens(s) == [t[..n]] + Tokens(t[n..]);
      WordCases(SPACES, s, a, n, word);
    }
  }

  lemma SpacesOnly(s: string, i: nat, j: nat)
    requires i <= j <= |s| && forall k | i <= k < j :: IsSpace(s[k])
    ensures forall k | i <= k < j :: s[k] in SPACES
  {
    forall k | i <= k < j ensures s[k] in SPACES {
      SpaceIff(s[k]);
    }
  }

  lemma NoSpaces(s: string, t: string, a: nat, n: nat)
    requires a + n <= |s| && t == s[a..] && (forall k | 0 <= k < n :: !IsSpace(t[k])) && (n < |t| ==> IsSpace(t[n]))
    ensures forall k | a <= k < a + n :: s[k] !in SPACES
    ensures a + n < |s| ==> s[a + n] in SPACES
  {
    forall k | a <= k < a + n ensures s[k] !in SPACES {
      assert s[k] == t[k - a];
      SpaceIff(s[k]);
    }
    if a + n < |s| {
      assert s[a + n] == t[n];
      SpaceIff(s[a + n]);
    }
  }

  lemma NoWords(spaces: string, s: string, word: string)
    requires forall k | 0 <= k < |s| :: s[k] in spaces
    ensures !WordIn(spaces, s, word)
  {
    forall i: nat, j: nat ensures !WordOf(spaces, s, i, j) {
      assert i < j <= |s| ==> s[i] in spaces;
    }
  }

  lemma WordCases(spaces: string, s: string, a: nat, n: nat, word: string)
    requires 0 < n && a + n <= |s| && (forall k | 0 <= k < a :: s[k] in spaces) && (forall k | a <= k < a + n :: s[k] !in spaces)
    requires a + n == |s| || s[a + n] in spaces
    ensures WordIn(spaces, s, word) <==> word == s[a..a + n] || WordIn(spaces, s[a + n..], word)
  {
    var t := s[a + n..];
    if word == s[a..a + n] {
      assert WordOf(spaces, s, a, a + n);
    }
    if WordIn(spaces, t, word) {
      var i: nat, j: nat :| WordOf(spaces, t, i, j) && t[i..j] == word;
      WordOfTail(spaces, s, a + n, i, j);
    }
    if WordIn(spaces, s, word) {
      WordSplits(spaces, s, a, n, word);
    }
  }

  lemma WordSplits(spaces: string, s: string, a: nat, n: nat, word: string)
    requires 0 < n && a + n <= |s| && (forall k | 0 <= k < a :: s[k] in spaces) && (forall k | a <= k < a + n :: s[k] !in spaces)
    requires (a + n == |s| || s[a + n] in spaces) && WordIn(spaces, s, word)
    ensures word == s[a..a + n] || WordIn(spaces, s[a + n..], word)
  {
    var i: nat, j: nat :| WordOf(spaces, s, i, j) && s[i..j] == word;
    FirstOrLater(spaces, s, a, n, i, j);
    if i > a {
      WordOfTail(spaces, s, a + n, i - a - n, j - a - n);
    }
  }

  lemma WordOfTail(spaces: string, s: string, n: nat, i: nat, j: nat)
    requires n < |s| && s[n] in spaces && i <= j <= |s| - n
    ensures s[n..][i..j] == s[n + i..n + j]
    ensures WordOf(spaces, s[n..], i, j) ==> WordOf(spaces, s, n + i, n + j)
    ensures i > 0 && WordOf(spaces, s, n + i, n + j) ==> WordOf(spaces, s[n..], i, j)
  {
    var t := s[n..];
    assert forall k | n <= k < |s| :: s[k] == t[k - n];
    assert forall k | 0 <= k < |t| :: t[k] == s[k + n];
  }

  lemma FirstOrLater(spaces: string, s: string, a: nat, n: nat, i: nat, j: nat)
    requires 0 < n && a + n <= |s| && (forall k | 0 <= k < a :: s[k] in spaces) && (forall k | a <= k < a + n :: s[k] !in spaces)
    requires (a + n == |s| || s[a + n] in spaces) && WordOf(spaces, s, i, j)
    ensures (i == a && j == a + n) || (i > a + n && a + n < |s|)
  {
    assert s[i] !in spaces;
  }

  /** The text a report has under a key. */
  lemma TextMeans(body: Fields, key: Key)
    ensures TextOf(Get(body, key)) == if key in body && body[key].Str? then body[key].s else ""
  {
  }

  ghost predicate OfBoot(body: Fields, boot: string) {
    boot != "" && '\n' !in boot && BootId in body && body[BootId] == Str(boot)
  }

  ghost predicate Result(body: Fields, word: string) { HostResult in body && body[HostResult] == Str(word) }

  /** What each test of a report asks for; `BpfListedIff` and `CmdlineBpfIff` say what the two lists are. */
  lemma ReportsMean(body: Fields, boot: string)
    ensures ConfirmMatchesBoot(body, boot) <==> OfBoot(body, boot)
    ensures StockBpfReady(body, boot) <==>
            OfBoot(body, boot) && (Result(body, "LSM_ALREADY_ACTIVE") || Result(body, "LSM_ENABLED")) && BpfListed(TextOf(Get(body, StockLsm)))
    ensures GuardReady(body, boot) <==>
            Result(body, "GUARD_PROVED") && RebootRequested in body && body[RebootRequested] == Bool(true) && OfBoot(body, boot)
  {
  }

  lemma ConfirmMeans(body: Fields)
    ensures LsmConfirmOk(body) <==>
            && (Result(body, "LSM_ALREADY_ACTIVE") || Result(body, "LSM_ENABLED"))
            && BpfListed(TextOf(Get(body, StockLsm))) && CmdlineBpf(TextOf(Get(body, Cmdline)))
  {
  }

  /** And what the live files are taken for. */
  lemma LiveStockMeans(probe: Fields, boot: string)
    ensures LiveStockBpf(probe, boot).Some? <==> OfBoot(probe, boot) && BpfListed(TextOf(Get(probe, EnabledLsm)))
    ensures LiveStockBpf(probe, boot).Some? ==> Copies(probe, LiveStockBpf(probe, boot).value, "LSM_ALREADY_ACTIVE")
  {
    FromProbeCopies(probe, "LSM_ALREADY_ACTIVE");
  }

  lemma LiveBothMean(probe: Fields, boot: string)
    ensures LiveLsmFromProbe(probe, boot).Some? <==>
            OfBoot(probe, boot) && BpfListed(TextOf(Get(probe, EnabledLsm))) && CmdlineBpf(TextOf(Get(probe, Cmdline)))
    ensures LiveLsmFromProbe(probe, boot).Some? ==> Copies(probe, LiveLsmFromProbe(probe, boot).value, "LSM_ENABLED")
  {
    FromProbeCopies(probe, "LSM_ENABLED");
    ConfirmMeans(FromProbe(probe, "LSM_ENABLED"));
  }

  /** The report says what the live files say, and this result. */
  ghost predicate Copies(probe: Fields, body: Fields, result: string) {
    && Get(body, BootId) == Get(probe, BootId) && Result(body, result)
    && TextOf(Get(body, StockLsm)) == TextOf(Get(probe, EnabledLsm)) && TextOf(Get(body, Cmdline)) == TextOf(Get(probe, Cmdline))
  }

  lemma FromProbeCopies(probe: Fields, result: string)
    ensures Copies(probe, FromProbe(probe, result), result)
  {
  }

  // ----- the guest -----

  datatype Call = ReadBoot | GuardCase | PullRows | ReadSerial(boot: string) | Probe

  /** `rows` None is a rows file that is missing or malformed; `probe` is empty when its output holds no object. */
  datatype Reply = Reply(rc: int, out: string, rows: Option<Fields>, serialText: bool, probe: Fields)

  datatype Event = Event(call: Call, reply: Reply)

  type Trace = seq<Event>

  class Guest {
    const oracle: (Trace, Call) -> Reply
    const settling: nat // how many polls the first wait has time for
    const patience: nat // and a wait for a reboot
    var trace: Trace

    constructor (oracle: (Trace, Call) -> Reply, settling: nat, patience: nat)
      ensures this.oracle == oracle && this.settling == settling && this.patience == patience && trace == []
    {
      this.oracle := oracle;
      this.settling := settling;
      this.patience := patience;
      trace := [];
    }

    method Send(c: Call) returns (r: Reply)
      modifies this
      ensures r == oracle(old(trace), c) && trace == old(trace) + [Event(c, r)]
    {
      r := oracle(trace, c);
      trace := trace + [Event(c, r)];
    }
  }

  /** A boot id a wait may return: text of one line, and another one than `before` when there is one. */
  predicate BootReady(before: Option<string>, boot: string) {
    boot != "" && '\n' !in boot && (before.Some? ==> before.value != "" && '\n' !in before.value && before.value != boot)
  }

  /** The last event is a poll that read this boot id. */
  ghost predicate JustRead(t: Trace, boot: string) {
    t != [] && t[|t| - 1].call == ReadBoot && t[|t| - 1].reply.rc == 0 && Strip(t[|t| - 1].reply.out) == boot
  }

  type Oracle = (Trace, Call) -> Reply

  /** The trace after one more question. */
  ghost function Then(oracle: Oracle, t: Trace, c: Call): Trace { t + [Event(c, oracle(t, c))] }

  ghost function Polls(oracle: Oracle, t: Trace, n: nat): Trace
    decreases n
  {
    if n == 0 then t else Polls(oracle, Then(oracle, t, ReadBoot), n - 1)
  }

  ghost predicate NamesBoot(oracle: Oracle, t: Trace, before: Option<string>) {
    var r := oracle(t, ReadBoot);
    && r.rc == 0 && Strip(r.out) != "" && '\n' !in Strip(r.out)
    && (before.Some? ==> before.value != "" && '\n' !in before.value && before.value != Strip(r.out))
  }

  /** A wait of so many polls: the boot it ends in and the trace then. */
  ghost function Wait(oracle: Oracle, t: Trace, before: Option<string>, polls: nat): Option<(string, Trace)>
    decreases polls
  {
    if polls == 0 then None
    else if NamesBoot(oracle, t, before) then Some((Strip(oracle(t, ReadBoot).out), Then(oracle, t, ReadBoot)))
    else Wait(oracle, Then(oracle, t, ReadBoot), before, polls - 1)
  }

  /** Poll `k`, counted from zero, is the first that names a boot that will do. */
  ghost predicate FirstBoot(oracle: Oracle, t: Trace, before: Option<string>, k: nat) {
    NamesBoot(oracle, Polls(oracle, t, k), before) && forall j | 0 <= j < k :: !NamesBoot(oracle, Polls(oracle, t, j), before)
  }

  ghost predicate EndsAt(oracle: Oracle, t: Trace, before: Option<string>, k: nat, boot: string, u: Trace) {
    && FirstBoot(oracle, t, before, k)
    && boot == Strip(oracle(Polls(oracle, t, k), ReadBoot).out) && u == Then(oracle, Polls(oracle, t, k), ReadBoot)
  }

  ghost predicate EndsInTime(oracle: Oracle, t: Trace, before: Option<string>, polls: nat, boot: string, u: Trace) {
    exists k: nat :: k < polls && EndsAt(oracle, t, before, k, boot, u)
  }

  /** A wait ends exactly at the first such poll, if there is one in time. */
  lemma {:induction false} WaitIff(oracle: Oracle, t: Trace, before: Option<string>, polls: nat, boot: string, u: Trace)
    ensures Wait(oracle, t, before, polls) == Some((boot, u)) <==> EndsInTime(oracle, t, before, polls, boot, u)
    decreases polls
  {
    if polls > 0 {
      if NamesBoot(oracle, t, before) {
        InTimeNow(oracle, t, before, polls, boot, u);
      } else {
        InTimeLater(oracle, t, before, polls, boot, u);
        WaitIff(oracle, Then(oracle, t, ReadBoot), before, polls - 1, boot, u);
      }
    }
  }

  lemma InTimeNow(oracle: Oracle, t: Trace, before: Option<string>, polls: nat, boot: string, u: Trace)
    requires NamesBoot(oracle, t, before) && polls > 0
    ensures EndsInTime(oracle, t, before, polls, boot, u) <==> boot == Strip(oracle(t, ReadBoot).out) && u == Then(oracle, t, ReadBoot)
  {
    EndsNow(oracle, t, before, boot, u);
  }

  lemma InTimeLater(oracle: Oracle, t: Trace, before: Option<string>, polls: nat, boot: string, u: Trace)
    requires !NamesBoot(oracle, t, before) && polls > 0
    ensures EndsInTime(oracle, t, before, polls, boot, u) <==>
            EndsInTime(oracle, Then(oracle, t, ReadBoot), before, polls - 1, boot, u)
  {
    if EndsInTime(oracle, t, before, polls, boot, u) {
      EarlierEnd(oracle, t, before, polls, boot, u);
    }
    if EndsInTime(oracle, Then(oracle, t, ReadBoot), before, polls - 1, boot, u) {
      LaterEnd(oracle, t, before, polls, boot, u);
    }
  }

  lemma EarlierEnd(oracle: Oracle, t: Trace, before: Option<string>, polls: nat, boot: string, u: Trace)
    requires !NamesBoot(oracle, t, before) && polls > 0 && EndsInTime(oracle, t, before, polls, boot, u)
    ensures EndsInTime(oracle, Then(oracle, t, ReadBoot), before, polls - 1, boot, u)
  {
    var k: nat :| k < polls && EndsAt(oracle, t, before, k, boot, u);
    EndsLater(oracle, t, before, k, boot, u);
  }

  lemma LaterEnd(oracle: Oracle, t: Trace, before: Option<string>, polls: nat, boot: string, u: Trace)
    requires polls > 0 && !NamesBoot(oracle, t, before) && EndsInTime(oracle, Then(oracle, t, ReadBoot), before, polls - 1, boot, u)
    ensures EndsInTime(oracle, t, before, polls, boot, u)
  {
    var k: nat :| k < polls - 1 && EndsAt(oracle, Then(oracle, t, ReadBoot), before, k, boot, u);
    EndsLater(oracle, t, before, k + 1, boot, u);
  }

  lemma EndsNow(oracle: Oracle, t: Trace, before: Option<string>, boot: string, u: Trace)
    requires NamesBoot(oracle, t, before)
    ensures EndsAt(oracle, t, before, 0, boot, u) <==> boot == Strip(oracle(t, ReadBoot).out) && u == Then(oracle, t, ReadBoot)
    ensures forall k: nat :: EndsAt(oracle, t, before, k, boot, u) ==> k == 0
  {
    assert Polls(oracle, t, 0) == t;
  }

  lemma EndsLater(oracle: Oracle, t: Trace, before: Option<string>, k: nat, boot: string, u: Trace)
    requires !NamesBoot(oracle, t, before)
    ensures EndsAt(oracle, t, before, k, boot, u) <==> k > 0 && EndsAt(oracle, Then(oracle, t, ReadBoot), before, k - 1, boot, u)
  {
    assert Polls(oracle, t, 0) == t;
    if k > 0 {
      FirstBootLater(oracle, t, before, k);
    }
  }

  lemma FirstBootLater(oracle: Oracle, t: Trace, before: Option<string>, k: nat)
    requires !NamesBoot(oracle, t, before) && k > 0
    ensures FirstBoot(oracle, t, before, k) <==> FirstBoot(oracle, Then(oracle, t, ReadBoot), before, k - 1)
  {
    var next := Then(oracle, t, ReadBoot);
    assert Polls(oracle, t, 0) == t;
    assert Polls(oracle, t, k) == Polls(oracle, next, k - 1);
    if FirstBoot(oracle, t, before, k) {
      forall j | 0 <= j < k - 1 ensures !NamesBoot(oracle, Polls(oracle, next, j), before) {
        assert Polls(oracle, t, j + 1) == Polls(oracle, next, j);
      }
    }
    if FirstBoot(oracle, next, before, k - 1) {
      forall j | 0 <= j < k ensures !NamesBoot(oracle, Polls(oracle, t, j), before) {
        assert j > 0 ==> Polls(oracle, t, j) == Polls(oracle, next, j - 1);
      }
    }
  }

  /** One poll: the boot it names, or "" for one that will not do. */
  method PollBoot(guest: Guest, before: Option<string>) returns (boot: string)
    modifies guest
    ensures guest.trace == Then(guest.oracle, old(guest.trace), ReadBoot)
    ensures boot == if NamesBoot(guest.oracle, old(guest.trace), before) then Strip(guest.oracle(old(guest.trace), ReadBoot).out) else ""
    ensures boot != "" ==> JustRead(guest.trace, boot) && BootReady(before, boot)
    ensures boot == "" ==> !NamesBoot(guest.oracle, old(guest.trace), before)
  {
    var r := guest.Send(ReadBoot);
    boot := Strip(r.out);
    if r.rc != 0 || !BootReady(before, boot) {
      return "";
    }
  }

  /** Polls until the guest names a boot that will do; "" when the time is up. */
  method AwaitBoot(guest: Guest, before: Option<string>, polls: nat) returns (boot: string)
    modifies guest
    ensures var w := Wait(guest.oracle, old(guest.trace), before, polls);
            if boot == "" then w == None else w == Some((boot, guest.trace))
    ensures old(guest.trace) <= guest.trace
    ensures boot != "" ==> JustRead(guest.trace, boot) && BootReady(before, boot)
  {
    ghost var t := guest.trace;
    var i := 0;
    while i < polls
      invariant 0 <= i <= polls && old(guest.trace) <= guest.trace
      invariant Wait(guest.oracle, t, before, polls) == Wait(guest.oracle, guest.trace, before, polls - i)
    {
      WaitStep(guest.oracle, guest.trace, before, polls - i);
      boot := PollBoot(guest, before);
      if boot != "" {
        return;
      }
      i := i + 1;
    }
    return "";
  }

  lemma WaitStep(oracle: Oracle, t: Trace, before: Option<string>, polls: nat)
    requires polls > 0
    ensures Wait(oracle, t, before, polls) ==
            if NamesBoot(oracle, t, before) then Some((Strip(oracle(t, ReadBoot).out), Then(oracle, t, ReadBoot)))
            else Wait(oracle, Then(oracle, t, ReadBoot), before, polls - 1)
  {
  }

  // ----- what was seen since the last wait -----

  /** Since `since` no boot was read: the wait that ended there was the last one. */
  ghost predicate NoWait(t: Trace, since: nat) {
    forall i | since <= i < |t| :: t[i].call != ReadBoot
  }

  ghost predicate SerialSeen(t: Trace, since: nat, boot: string) {
    exists i | since <= i < |t| :: t[i].call == ReadSerial(boot) && t[i].reply.serialText
  }

  /** This report came from the guest after `since`: its rows file, or its live files. */
  ghost predicate ReportAt(t: Trace, i: nat, body: Fields) {
    && i < |t|
    && (|| (t[i].call == PullRows && t[i].reply.rows == Some(body))
        || (t[i].call == Probe && (body == FromProbe(t[i].reply.probe, "LSM_ENABLED") || body == FromProbe(t[i].reply.probe, "LSM_ALREADY_ACTIVE"))))
  }

  ghost predicate Reported(t: Trace, since: nat, body: Fields) {
    exists i :: since <= i && ReportAt(t, i, body)
  }

  /** The host waited for this boot, and for no other since. */
  ghost predicate Waited(t: Trace, since: nat, boot: string) {
    since <= |t| && JustRead(t[..since], boot) && boot != "" && '\n' !in boot && NoWait(t, since)
  }

  lemma WaitedStays(t: Trace, since: nat, boot: string, e: Event)
    requires Waited(t, since, boot) && e.call != ReadBoot
    ensures Waited(t + [e], since, boot)
    ensures forall body :: Reported(t, since, body) ==> Reported(t + [e], since, body)
    ensures SerialSeen(t, since, boot) ==> SerialSeen(t + [e], since, boot)
  {
    var u := t + [e];
    assert u[..since] == t[..since];
    forall body | Reported(t, since, body) ensures Reported(u, since, body) {
      ReportStays(t, u, since, body);
    }
    if SerialSeen(t, since, boot) {
      var i :| since <= i < |t| && t[i].call == ReadSerial(boot) && t[i].reply.serialText;
      assert u[i] == t[i];
    }
  }

  lemma ReportStays(t: Trace, u: Trace, since: nat, body: Fields)
    requires Reported(t, since, body) && t <= u
    ensures Reported(u, since, body)
  {
    var i :| since <= i && ReportAt(t, i, body);
    assert u[i] == t[i];
    assert ReportAt(u, i, body);
  }

  lemma WaitedNow(t: Trace, boot: string)
    requires JustRead(t, boot) && boot != "" && '\n' !in boot
    ensures Waited(t, |t|, boot)
  {
    assert t[..|t|] == t;
  }

  datatype Guard = AlreadyActive | Enabled | EnabledFollowUp

  datatype Record = Record(hostResult: string, guard: Guard, stockBpf: bool, stockLsm: string)

  datatype Outcome<T> = Returned(value: T) | Stopped

  /** What the host knows when it accepts: the last boot waited for, its serial window and its own report. */
  ghost predicate Accepted(t: Trace, since: nat, boot: string, body: Fields) {
    && Waited(t, since, boot) && SerialSeen(t, since, boot) && Reported(t, since, body)
    && ConfirmMatchesBoot(body, boot) && BpfListed(TextOf(Get(body, StockLsm)))
  }

  /** One question to the guest that does not change what was seen before. */
  method Ask(guest: Guest, c: Call, ghost since: nat, ghost boot: string) returns (r: Reply)
    requires c != ReadBoot && Waited(guest.trace, since, boot)
    modifies guest
    ensures r == guest.oracle(old(guest.trace), c) && guest.trace == old(guest.trace) + [Event(c, r)]
    ensures Waited(guest.trace, since, boot)
    ensures forall body :: Reported(old(guest.trace), since, body) ==> Reported(guest.trace, since, body)
    ensures SerialSeen(old(guest.trace), since, boot) ==> SerialSeen(guest.trace, since, boot)
    ensures c == ReadSerial(boot) && r.serialText ==> SerialSeen(guest.trace, since, boot)
    ensures c == PullRows && r.rows.Some? ==> Reported(guest.trace, since, r.rows.value)
    ensures c == Probe ==> Reported(guest.trace, since, FromProbe(r.probe, "LSM_ENABLED"))
    ensures c == Probe ==> Reported(guest.trace, since, FromProbe(r.probe, "LSM_ALREADY_ACTIVE"))
  {
    ghost var t := guest.trace;
    r := guest.Send(c);
    WaitedStays(t, since, boot, Event(c, r));
    assert guest.trace[|t|] == Event(c, r);
    if c == PullRows && r.rows.Some? {
      assert ReportAt(guest.trace, |t|, r.rows.value);
    }
    if c == Probe {
      assert ReportAt(guest.trace, |t|, FromProbe(r.probe, "LSM_ENABLED"));
      assert ReportAt(guest.trace, |t|, FromProbe(r.probe, "LSM_ALREADY_ACTIVE"));
    }
  }

  lemma ProbeReads(probe: Fields, result: string)
    ensures var b := FromProbe(probe, result);
            && Get(b, BootId) == Get(probe, BootId) && TextOf(Get(b, StockLsm)) == TextOf(Get(probe, EnabledLsm))
            && TextOf(Get(b, Cmdline)) == TextOf(Get(probe, Cmdline))
  {
  }

  method AdoptLive(probe: Fields, boot: string) returns (body: Option<Fields>)
    ensures body.Some? ==> body.value == FromProbe(probe, "LSM_ENABLED") && LsmConfirmOk(body.value) && ConfirmMatchesBoot(body.value, boot)
    ensures body == LiveLsmFromProbe(probe, boot)
  {
    body := LiveLsmFromProbe(probe, boot);
    ProbeReads(probe, "LSM_ENABLED");
  }

  /** The stock path comes to an end: the serial window of the boot, and rows or live files that list bpf. */
  ghost predicate StockReturns(oracle: Oracle, t: Trace, rows: Fields, boot: string) {
    if StockBpfReady(rows, boot) then oracle(t, ReadSerial(boot)).serialText
    else LiveStockBpf(oracle(t, Probe).probe, boot).Some? && oracle(Then(oracle, t, Probe), ReadSerial(boot)).serialText
  }

  lemma LiveListed(probe: Fields, boot: string)
    requires LiveStockBpf(probe, boot).Some?
    ensures var body := LiveStockBpf(probe, boot).value;
            && body == FromProbe(probe, "LSM_ALREADY_ACTIVE")
            && ConfirmMatchesBoot(body, boot) && BpfListed(TextOf(Get(body, StockLsm)))
  {
    ProbeReads(probe, "LSM_ALREADY_ACTIVE");
  }

  /** The stock kernel already has bpf: its own rows say so, or its live files do. */
  method AcceptStock(guest: Guest, rows: Fields, ghost since: nat, boot: string) returns (o: Outcome<Record>, ghost body: Fields)
    requires Waited(guest.trace, since, boot) && Reported(guest.trace, since, rows)
    modifies guest
    ensures o.Returned? ==> Accepted(guest.trace, since, boot, body) && o.value.stockLsm == TextOf(Get(body, StockLsm))
    ensures o.Returned? ==> o.value.guard == AlreadyActive && o.value.stockBpf && o.value.hostResult == TextOf(Get(rows, HostResult))
    ensures o.Returned? <==> StockReturns(guest.oracle, old(guest.trace), rows, boot)
  {
    body := rows;
    var lsm := TextOf(Get(rows, StockLsm));
    if !StockBpfReady(rows, boot) {
      var r := Ask(guest, Probe, since, boot);
      var adopted := LiveStockBpf(r.probe, boot);
      if adopted.None? {
        return Stopped, body;
      }
      LiveListed(r.probe, boot);
      body := adopted.value;
      lsm := TextOf(Get(adopted.value, StockLsm));
    }
    var serial := Ask(guest, ReadSerial(boot), since, boot);
    if !serial.serialText {
      return Stopped, body;
    }
    return Returned(Record(TextOf(Get(rows, HostResult)), AlreadyActive, true, lsm)), body;
  }

  /** The report that confirms the boot after a guarded reboot, and the trace then. */
  ghost function Confirmed(oracle: Oracle, t: Trace, boot: string): Option<(Fields, Trace)> {
    var guarded := Then(oracle, Then(oracle, t, ReadSerial(boot)), GuardCase);
    var rows, pulled := oracle(guarded, PullRows).rows, Then(oracle, guarded, PullRows);
    if !oracle(t, ReadSerial(boot)).serialText || rows.None? then None
    else if ConfirmMatchesBoot(rows.value, boot) then Some((rows.value, pulled))
    else
      var live := LiveLsmFromProbe(oracle(pulled, Probe).probe, boot);
      if live.None? then None else Some((live.value, Then(oracle, pulled, Probe)))
  }

  /** After the guarded reboot: the serial window, the guest's rows, and the live files when the rows are of another boot. */
  method ConfirmBoot(guest: Guest, ghost since: nat, boot: string) returns (o: Outcome<Fields>)
    requires Waited(guest.trace, since, boot)
    modifies guest
    ensures Waited(guest.trace, since, boot)
    ensures o.Returned? ==>
              SerialSeen(guest.trace, since, boot) && Reported(guest.trace, since, o.value) && ConfirmMatchesBoot(o.value, boot)
    ensures var c := Confirmed(guest.oracle, old(guest.trace), boot);
            (o.Returned? <==> c.Some?) && (c.Some? ==> c.value == (o.value, guest.trace))
  {
    var serial := Ask(guest, ReadSerial(boot), since, boot);
    if !serial.serialText {
      return Stopped;
    }
    var guard := Ask(guest, GuardCase, since, boot);
    var pulled := Ask(guest, PullRows, since, boot);
    if pulled.rows.None? {
      return Stopped;
    }
    if ConfirmMatchesBoot(pulled.rows.value, boot) {
      return Returned(pulled.rows.value);
    }
    var r := Ask(guest, Probe, since, boot);
    var adopted := AdoptLive(r.probe, boot);
    if adopted.None? {
      return Stopped;
    }
    return Returned(adopted.value);
  }

  ghost predicate LiveReturns(oracle: Oracle, t: Trace, boot: string) {
    && oracle(t, ReadSerial(boot)).serialText
    && LiveLsmFromProbe(oracle(Then(oracle, t, ReadSerial(boot)), Probe).probe, boot).Some?
  }

  /** One more reboot comes to an end: another boot, its serial window and its live files. */
  ghost predicate FollowsUp(oracle: Oracle, t: Trace, before: string, patience: nat) {
    var w := Wait(oracle, t, Some(before), patience);
    w.Some? && LiveReturns(oracle, w.value.1, w.value.0)
  }

  /** The guest asked for one more reboot: only its live files on the new boot will do. */
  method FollowUp(guest: Guest, before: string) returns (o: Outcome<Fields>, ghost since: nat, ghost boot: string)
    modifies guest
    ensures o.Returned? ==> Accepted(guest.trace, since, boot, o.value) && LsmConfirmOk(o.value) && boot != before
    ensures o.Returned? <==> FollowsUp(guest.oracle, old(guest.trace), before, guest.patience)
  {
    since := 0;
    var later := AwaitBoot(guest, Some(before), guest.patience);
    boot := later;
    if later == "" {
      return Stopped, since, boot;
    }
    since := |guest.trace|;
    WaitedNow(guest.trace, later);
    var serial := Ask(guest, ReadSerial(later), since, later);
    if !serial.serialText {
      return Stopped, since, boot;
    }
    var r := Ask(guest, Probe, since, later);
    var adopted := AdoptLive(r.probe, later);
    if adopted.None? {
      return Stopped, since, boot;
    }
    return Returned(adopted.value), since, boot;
  }

  function RecordOf(body: Fields, guard: Guard): Record {
    Record(TextOf(Get(body, HostResult)), guard, true, TextOf(Get(body, StockLsm)))
  }

  ghost predicate Enables(word: string) { word == "LSM_ENABLED" || word == "LSM_ALREADY_ACTIVE" }

  lemma ConfirmWord(body: Fields)
    requires LsmConfirmOk(body)
    ensures Enables(TextOf(Get(body, HostResult)))
  {
  }

  /** A confirmed report ends the guarded path, or asks for one more reboot. */
  ghost predicate Settles(oracle: Oracle, t: Trace, after: string, patience: nat) {
    var c := Confirmed(oracle, t, after);
    && c.Some?
    && (LsmConfirmOk(c.value.0) || (GuardReady(c.value.0, after) && FollowsUp(oracle, c.value.1, after, patience)))
  }

  ghost predicate GuardReturns(oracle: Oracle, t: Trace, stock: string, patience: nat) {
    var w := Wait(oracle, t, Some(stock), patience);
    w.Some? && Settles(oracle, w.value.1, w.value.0, patience)
  }

  /** The path with one guarded reboot, or two. */
  method GuardedPath(guest: Guest, stock: string) returns (o: Outcome<Record>, ghost since: nat, ghost boot: string, ghost body: Fields)
    modifies guest
    ensures o.Returned? ==> Accepted(guest.trace, since, boot, body) && o.value.stockBpf && LsmConfirmOk(body)
    ensures o.Returned? ==> o.value.stockLsm == TextOf(Get(body, StockLsm)) && o.value.guard != AlreadyActive
    ensures o.Returned? ==> Enables(o.value.hostResult)
    ensures o.Returned? <==> GuardReturns(guest.oracle, old(guest.trace), stock, guest.patience)
  {
    since, boot, body := 0, "", map[];
    var after := AwaitBoot(guest, Some(stock), guest.patience);
    if after == "" {
      return Stopped, since, boot, body;
    }
    since, boot := |guest.trace|, after;
    WaitedNow(guest.trace, after);
    var confirm := ConfirmBoot(guest, since, after);
    if confirm.Stopped? {
      return Stopped, since, boot, body;
    }
    if LsmConfirmOk(confirm.value) {
      ConfirmWord(confirm.value);
      return Returned(RecordOf(confirm.value, Enabled)), since, boot, confirm.value;
    }
    if !GuardReady(confirm.value, after) {
      return Stopped, since, boot, body;
    }
    var later;
    later, since, boot := FollowUp(guest, after);
    if later.Stopped? {
      return Stopped, since, boot, body;
    }
    ConfirmWord(later.value);
    return Returned(RecordOf(later.value, EnabledFollowUp)), since, boot, later.value;
  }

  /** What the rows of the stock boot lead to. */
  ghost predicate StockAnswers(oracle: Oracle, t: Trace, stock: string, patience: nat) {
    var guarded := Then(oracle, t, GuardCase);
    var rows, pulled := oracle(guarded, PullRows).rows, Then(oracle, guarded, PullRows);
    && rows.Some?
    && if Get(rows.value, HostResult) == Str("LSM_ALREADY_ACTIVE") then StockReturns(oracle, pulled, rows.value, stock)
       else GuardReady(rows.value, stock) && GuardReturns(oracle, pulled, stock, patience)
  }

  /** The replies for which the preparation comes to an end. */
  ghost predicate Prepares(oracle: Oracle, t: Trace, settling: nat, patience: nat) {
    var w := Wait(oracle, t, None, settling);
    w.Some? && StockAnswers(oracle, w.value.1, w.value.0, patience)
  }

  /**
   Returns a record only when the accepted report is of the boot last waited for, that boot's
   serial window was read, and bpf is a token of its own in the LSM list; after a guarded reboot
   it is one in the command line too.
   */
  method PrepareLabLsm(guest: Guest) returns (o: Outcome<Record>, ghost since: nat, ghost boot: string, ghost body: Fields)
    modifies guest
    ensures o.Returned? ==> Accepted(guest.trace, since, boot, body) && o.value.stockBpf
    ensures o.Returned? ==> o.value.stockLsm == TextOf(Get(body, StockLsm))
    ensures o.Returned? && o.value.guard != AlreadyActive ==> LsmConfirmOk(body)
    ensures o.Returned? ==> ListsBpf(o.value.stockLsm) && (o.value.guard != AlreadyActive ==> SealedLine(TextOf(Get(body, Cmdline))))
    ensures o.Returned? ==> o.value.hostResult == "LSM_ALREADY_ACTIVE" || (o.value.guard != AlreadyActive && Enables(o.value.hostResult))
    ensures o.Returned? <==> Prepares(guest.oracle, old(guest.trace), guest.settling, guest.patience)
  {
    since, boot, body := 0, "", map[];
    var stock := AwaitBoot(guest, None, guest.settling);
    if stock == "" {
      return Stopped, since, boot, body;
    }
    since, boot := |guest.trace|, stock;
    WaitedNow(guest.trace, stock);
    var guard := Ask(guest, GuardCase, since, stock);
    var pulled := Ask(guest, PullRows, since, stock);
    if pulled.rows.None? {
      return Stopped, since, boot, body;
    }
    var rows := pulled.rows.value;
    if Get(rows, HostResult) == Str("LSM_ALREADY_ACTIVE") {
      o, body := AcceptStock(guest, rows, since, stock);
      if o.Returned? {
        BpfListedIff(o.value.stockLsm);
      }
      return;
    }
    if !GuardReady(rows, stock) {
      return Stopped, since, boot, body;
    }
    o, since, boot, body := GuardedPath(guest, stock);
    if o.Returned? {
      ConfirmedLists(body);
    }
  }

  lemma ConfirmedLists(body: Fields)
    requires LsmConfirmOk(body)
    ensures ListsBpf(TextOf(Get(body, StockLsm))) && SealedLine(TextOf(Get(body, Cmdline)))
  {
    BpfListedIff(TextOf(Get(body, StockLsm)));
    CmdlineBpfIff(TextOf(Get(body, Cmdline)));
  }

  // ----- reading the lists -----

  /** bpf counts only as a token of its own: a list holds it exactly when it can be split around it. */
  lemma {:induction false} SplitOnJoins(a: string, b: string)
    ensures SplitOn(a + "," + b, ',') == SplitOn(a, ',') + SplitOn(b, ',')
  {
    if a == "" {
      assert a + "," + b == "," + b;
      assert ("," + b)[1..] == b;
    } else {
      assert (a + "," + b)[1..] == a[1..] + "," + b;
      SplitOnJoins(a[1..], b);
    }
  }

  lemma AnyAppend<T>(x: seq<T>, y: seq<T>, p: T -> bool)
    ensures Any(x + y, p) <==> Any(x, p) || Any(y, p)
  {
    var z := x + y;
    if Any(x, p) {
      var i :| 0 <= i < |x| && p(x[i]);
      assert p(z[i]);
    }
    if Any(y, p) {
      var i :| 0 <= i < |y| && p(y[i]);
      assert p(z[|x| + i]);
    }
  }

  /** Joining two lists lists bpf exactly when one of them does: no token is made of two. */
  lemma ListedIffPartListed(a: string, b: string)
    ensures BpfListed(a + "," + b) <==> BpfListed(a) || BpfListed(b)
  {
    SplitOnJoins(a, b);
    AnyAppend(SplitOn(a, ','), SplitOn(b, ','), IsBpf);
  }
}
