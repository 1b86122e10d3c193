/**
 The order of proof phases on one guest.

 `PhaseOrderAllowed` is the scan of the source, with its flags and counters. The
 boot model below is what the scan stands for: a reboot starts a new boot, a
 compare leaves a marker that carries the boot it ran on, and a phase may run
 only if it can see the marker it needs.
 */
module PhaseOrder {

  datatype Phase =
    | Compare
    | Reboot
    | RebootPost
    | FileDeny
    | RebootPre
    | ExpiredKey
    | Uninstall
    | UninstallNegative
    | Other(name: string)

  predicate SameBoot(p: Phase) {
    p.FileDeny? || p.RebootPre? || p.ExpiredKey? || p.Uninstall? || p.UninstallNegative?
  }

  datatype Slice = Full | PreSlice | PostSlice

  function PhasesFor(s: Slice): seq<Phase> {
    match s
    case Full => [Compare, FileDeny, RebootPre, Reboot, RebootPost, Compare, ExpiredKey, Uninstall]
    case PreSlice => [Compare, FileDeny, RebootPre, Reboot]
    case PostSlice => [RebootPost, Compare, ExpiredKey, Uninstall]
  }

  // ----- the boot model -----

  datatype Marker = NoMarker | On(boot: nat)

  function Count(phases: seq<Phase>, p: Phase): nat {
    if phases == [] then 0
    else Count(phases[..|phases| - 1], p) + (if phases[|phases| - 1] == p then 1 else 0)
  }

  /** The boot a guest is on after these phases, counted from zero. */
  function Boot(phases: seq<Phase>): nat { Count(phases, Reboot) }

  /** The marker the last compare left. */
  function MarkerAfter(phases: seq<Phase>): Marker {
    if phases == [] then NoMarker
    else
      var before := phases[..|phases| - 1];
      if phases[|phases| - 1] == Compare then On(Boot(before)) else MarkerAfter(before)
  }

  /** A phase can run after these phases on a guest that started fresh. */
  predicate CanRun(before: seq<Phase>, p: Phase) {
    match p
    case Compare => true
    case Reboot => MarkerAfter(before) != NoMarker
    case RebootPost => Boot(before) > 0 && MarkerAfter(before) != On(Boot(before))
    case _ => SameBoot(p) && MarkerAfter(before) == On(Boot(before))
  }

  ghost predicate FreshLegal(phases: seq<Phase>) {
    && 1 <= Count(phases, Compare) <= 2
    && Count(phases, Reboot) <= 1
    && Count(phases, RebootPost) <= 1
    && forall i | 0 <= i < |phases| :: CanRun(phases[..i], phases[i])
  }

  /** A guest resumed after a reboot: the new boot has no marker, and one compare must come first. */
  ghost predicate ResumedLegal(rest: seq<Phase>) {
    && Count(rest, Compare) <= 1
    && Count(rest, Reboot) == 0
    && Count(rest, RebootPost) == 0
    && forall i | 0 <= i < |rest| :: CanRun(rest[..i], rest[i])
  }

  ghost predicate Legal(phases: seq<Phase>) {
    if phases != [] && phases[0] == RebootPost then ResumedLegal(phases[1..]) else FreshLegal(phases)
  }

  // ----- facts about the model -----

  lemma {:induction false} CountPrefix(phases: seq<Phase>, k: nat, p: Phase)
    requires k <= |phases|
    ensures Count(phases[..k], p) <= Count(phases, p)
    decreases |phases|
  {
    if k < |phases| {
      CountPrefix(phases[..|phases| - 1], k, p);
      assert phases[..|phases| - 1][..k] == phases[..k];
    } else {
      assert phases[..k] == phases;
    }
  }

  lemma {:induction false} CountZero(phases: seq<Phase>, p: Phase)
    ensures Count(phases, p) == 0 <==> p !in phases
  {
    if phases != [] {
      CountZero(phases[..|phases| - 1], p);
      assert phases == phases[..|phases| - 1] + [phases[|phases| - 1]];
    }
  }

  lemma Step(phases: seq<Phase>, i: nat, p: Phase)
    requires i < |phases|
    ensures Count(phases[..i + 1], p) == Count(phases[..i], p) + (if phases[i] == p then 1 else 0)
    ensures MarkerAfter(phases[..i + 1]) == if phases[i] == Compare then On(Boot(phases[..i])) else MarkerAfter(phases[..i])
  {
    assert phases[..i + 1][..i] == phases[..i];
  }

  lemma {:induction false} MarkerBounds(phases: seq<Phase>)
    ensures MarkerAfter(phases) == NoMarker <==> Count(phases, Compare) == 0
    ensures MarkerAfter(phases).On? ==> MarkerAfter(phases).boot <= Boot(phases)
  {
    if phases != [] {
      MarkerBounds(phases[..|phases| - 1]);
    }
  }

  /**
   What a visible marker is: some earlier compare with no reboot after it. This ties
   the boot numbers of the model to the positions in the sequence.
   */
  lemma {:induction false} MarkerVisible(phases: seq<Phase>)
    ensures MarkerAfter(phases) == On(Boot(phases)) <==>
            exists j | 0 <= j < |phases| :: phases[j] == Compare && Reboot !in phases[j..]
  {
    if phases != [] {
      var n := |phases| - 1;
      var before := phases[..n];
      MarkerVisible(before);
      MarkerBounds(before);
      forall j | 0 <= j < n ensures Reboot !in phases[j..] <==> Reboot !in before[j..] && phases[n] != Reboot {
        assert phases[j..] == before[j..] + [phases[n]];
      }
      assert phases[n..] == [phases[n]];
      if phases[n] == Compare {
        assert Reboot !in phases[n..];
      } else if phases[n] == Reboot {
        forall j | 0 <= j < |phases| ensures Reboot in phases[j..] {
          assert phases[j..][n - j] == Reboot;
        }
      } else {
        if exists j | 0 <= j < n :: before[j] == Compare && Reboot !in before[j..] {
          var j :| 0 <= j < n && before[j] == Compare && Reboot !in before[j..];
          assert phases[j] == Compare && Reboot !in phases[j..];
        }
        if j :| 0 <= j < |phases| && phases[j] == Compare && Reboot !in phases[j..] {
          assert before[j] == Compare && Reboot !in before[j..];
        }
      }
    }
  }

  lemma PrefixOf(phases: seq<Phase>, i: nat)
    requires i < |phases|
    ensures FreshLegal(phases) || ResumedLegal(phases) ==> CanRun(phases[..i], phases[i])
  {
  }

  ghost predicate RunsInOrder(phases: seq<Phase>) {
    forall i | 0 <= i < |phases| :: CanRun(phases[..i], phases[i])
  }

  /** Appending a phase that can run keeps the order runnable, and moves the counts and the marker. */
  lemma Grow(phases: seq<Phase>, p: Phase)
    requires RunsInOrder(phases) && CanRun(phases, p)
    ensures RunsInOrder(phases + [p])
    ensures Count(phases + [p], Compare) == Count(phases, Compare) + (if p == Compare then 1 else 0)
    ensures Count(phases + [p], Reboot) == Count(phases, Reboot) + (if p == Reboot then 1 else 0)
    ensures Count(phases + [p], RebootPost) == Count(phases, RebootPost) + (if p == RebootPost then 1 else 0)
    ensures MarkerAfter(phases + [p]) == if p == Compare then On(Boot(phases)) else MarkerAfter(phases)
  {
    assert (phases + [p])[..|phases|] == phases;
    forall i | 0 <= i < |phases + [p]| ensures CanRun((phases + [p])[..i], (phases + [p])[i]) {
      assert (phases + [p])[..i] == phases[..i];
      assert phases[..|phases|] == phases;
    }
  }

  // ----- the scan -----

  method ResumedOrderAllowed(rest: seq<Phase>) returns (ok: bool)
    ensures ok <==> ResumedLegal(rest)
  {
    CountZero(rest, Reboot);
    CountZero(rest, RebootPost);
    if Reboot in rest || RebootPost in rest {
      return false;
    }
    if rest != [] && rest[0] != Compare {
      assert !CanRun(rest[..0], rest[0]);
      return false;
    }
    var seenCompare := false;
    for i := 0 to |rest|
      invariant Count(rest[..i], Compare) <= 1 && Count(rest[..i], Reboot) == 0
      invariant seenCompare <==> Count(rest[..i], Compare) == 1
      invariant MarkerAfter(rest[..i]) == if seenCompare then On(0) else NoMarker
      invariant forall k | 0 <= k < i :: CanRun(rest[..k], rest[k])
    {
      Step(rest, i, Compare);
      Step(rest, i, Reboot);
      CountPrefix(rest, i + 1, Compare);
      if rest[i] == Compare {
        if seenCompare {
          return false;
        }
        seenCompare := true;
        continue;
      }
      if !SameBoot(rest[i]) || !seenCompare {
        assert !CanRun(rest[..i], rest[i]);
        return false;
      }
    }
    assert rest[..|rest|] == rest;
    return true;
  }

  /** The flags and counters of the scan. */
  datatype Flags = Flags(reboot: bool, compare: bool, since: bool, compares: nat, posts: nat)

  /** What the flags say of the phases scanned so far. */
  ghost predicate Scanned(before: seq<Phase>, f: Flags) {
    && f.compares == Count(before, Compare) <= 2 && f.posts == Count(before, RebootPost) <= 1
    && Boot(before) == (if f.reboot then 1 else 0) && (f.compare <==> f.compares > 0)
    && MarkerAfter(before) == (if !f.compare then NoMarker else On(if f.since then 1 else 0))
    && (f.since ==> f.reboot && f.compare) && RunsInOrder(before)
  }

  predicate Takes(f: Flags, p: Phase) {
    if p == Reboot then !f.reboot && f.compare
    else if p == Compare then f.compares < 2
    else if p == RebootPost then f.posts < 1 && f.reboot && !f.since
    else SameBoot(p) && f.compare && (f.reboot ==> f.since)
  }

  function After(f: Flags, p: Phase): Flags {
    if p == Reboot then f.(reboot := true, since := false)
    else if p == Compare then f.(compares := f.compares + 1, compare := true, since := f.reboot)
    else if p == RebootPost then f.(posts := f.posts + 1)
    else f
  }

  lemma TakesIff(before: seq<Phase>, f: Flags, p: Phase)
    requires Scanned(before, f)
    ensures Takes(f, p) <==>
            && CanRun(before, p) && (p == Compare ==> f.compares < 2) && (p == Reboot ==> !f.reboot) && (p == RebootPost ==> f.posts < 1)
  {
  }

  lemma Taken(before: seq<Phase>, f: Flags, p: Phase)
    requires Scanned(before, f) && Takes(f, p)
    ensures Scanned(before + [p], After(f, p))
  {
    TakesIff(before, f, p);
    Grow(before, p);
  }

  lemma Refused(phases: seq<Phase>, i: nat, f: Flags)
    requires i < |phases| && Scanned(phases[..i], f) && !Takes(f, phases[i])
    ensures !FreshLegal(phases)
  {
    TakesIff(phases[..i], f, phases[i]);
    Step(phases, i, phases[i]);
    CountPrefix(phases, i + 1, phases[i]);
    PrefixOf(phases, i);
  }

  /** The scan accepts a sequence exactly when the boot model does. */
  method PhaseOrderAllowed(phases: seq<Phase>) returns (ok: bool)
    ensures ok <==> Legal(phases)
  {
    if phases == [RebootPost] {
      assert phases[1..] == [];
      return true;
    }
    if phases != [] && phases[0] == RebootPost {
      ok := ResumedOrderAllowed(phases[1..]);
      return;
    }
    ok := FreshOrderAllowed(phases);
  }

  method FreshOrderAllowed(phases: seq<Phase>) returns (ok: bool)
    ensures ok <==> FreshLegal(phases)
  {
    var seenReboot, seenCompare, seenCompareSinceReboot := false, false, false;
    var compares, rebootPosts := 0, 0;
    for i := 0 to |phases|
      invariant compares >= 0 && rebootPosts >= 0
      invariant Scanned(phases[..i], Flags(seenReboot, seenCompare, seenCompareSinceReboot, compares, rebootPosts))
    {
      var phase := phases[i];
      ghost var f := Flags(seenReboot, seenCompare, seenCompareSinceReboot, compares, rebootPosts);
      assert phases[..i + 1] == phases[..i] + [phase];
      if Takes(f, phase) {
        Taken(phases[..i], f, phase);
      } else {
        Refused(phases, i, f);
      }
      if phase == Reboot {
        if seenReboot || !seenCompare {
          return false;
        }
        seenReboot := true;
        seenCompareSinceReboot := false;
        continue;
      }
      if phase == Compare {
        compares := compares + 1;
        if compares > 2 {
          return false;
        }
        seenCompare := true;
        if seenReboot {
          seenCompareSinceReboot := true;
        }
        continue;
      }
      if phase == RebootPost {
        rebootPosts := rebootPosts + 1;
        if rebootPosts > 1 || !seenReboot || seenCompareSinceReboot {
          return false;
        }
        continue;
      }
      if !SameBoot(phase) {
        return false;
      }
      if !seenCompare || (seenReboot && !seenCompareSinceReboot) {
        return false;
      }
    }
    assert phases[..|phases|] == phases;
    return seenCompare;
  }

  /** Every planned slice is a legal order, so `public_plan` never refuses one. */
  method PlannedSlicesAllowed(s: Slice) returns (ok: bool)
    ensures ok
  {
    var phases := PhasesFor(s);
    SliceLegal(s);
    ok := PhaseOrderAllowed(phases);
  }

  lemma ReachReboot() returns (a: seq<Phase>)
    ensures a == [Compare, FileDeny, RebootPre, Reboot] && RunsInOrder(a)
    ensures Count(a, Compare) == 1 && Count(a, Reboot) == 1 && Count(a, RebootPost) == 0 && MarkerAfter(a) == On(0)
  {
    var a0: seq<Phase> := [];
    var a1 := a0 + [Compare];
    Grow(a0, Compare);
    var a2 := a1 + [FileDeny];
    Grow(a1, FileDeny);
    var a3 := a2 + [RebootPre];
    Grow(a2, RebootPre);
    a := a3 + [Reboot];
    Grow(a3, Reboot);
  }

  lemma ReachEnd(a: seq<Phase>) returns (b: seq<Phase>)
    requires RunsInOrder(a)
    ensures b == a + [Compare] + [ExpiredKey] + [Uninstall] && RunsInOrder(b)
    ensures Count(b, Compare) == Count(a, Compare) + 1
    ensures Count(b, Reboot) == Count(a, Reboot) && Count(b, RebootPost) == Count(a, RebootPost)
  {
    var b1 := a + [Compare];
    Grow(a, Compare);
    var b2 := b1 + [ExpiredKey];
    Grow(b1, ExpiredKey);
    b := b2 + [Uninstall];
    Grow(b2, Uninstall);
  }

  /** Each planned slice is legal in the boot model. */
  lemma SliceLegal(s: Slice)
    ensures Legal(PhasesFor(s))
  {
    match s {
      case PreSlice => var a := ReachReboot();
      case Full => FullLegal();
      case PostSlice => PostLegal();
    }
  }

  lemma FullLegal()
    ensures FreshLegal(PhasesFor(Full))
  {
    var a := ReachReboot();
    Grow(a, RebootPost);
    var b := ReachEnd(a + [RebootPost]);
    assert b == PhasesFor(Full);
  }

  lemma PostLegal()
    ensures Legal(PhasesFor(PostSlice))
  {
    var none: seq<Phase> := [];
    var b := ReachEnd(none);
    assert b == PhasesFor(PostSlice)[1..];
  }
}
