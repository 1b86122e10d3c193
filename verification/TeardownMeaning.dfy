/**
 What the teardown's classifiers, id shapes and tag tests say, in literal codes, tags and characters.
 */
module TeardownMeaning {
  import opened PyJson
  import opened Texts
  import opened Teardown

  // ----- error codes -----

  /** The code ends in NotFound or NotFoundException. */
  ghost predicate SaysNotFound(code: string) {
    exists head: string :: code == head + "NotFound" || code == head + "NotFoundException"
  }

  lemma NotFoundIff(code: string)
    ensures NotFoundCode(code) <==> SaysNotFound(code)
  {
    EndsWithIff(code, "NotFound");
    EndsWithIff(code, "NotFoundException");
  }

  ghost predicate SaysDenied(code: string) {
    || code == "AccessDenied" || code == "AccessDeniedException" || code == "UnauthorizedOperation"
    || code == "UnauthorizedException" || code == "NotAuthorized" || code == "AuthFailure"
  }

  /** A failed call is denied when its code says so, or its text does; never when the code says not found. */
  lemma DeniedIff(r: Result)
    ensures Denied(r) <==> r.rc != 0 && !SaysNotFound(r.code) && (SaysDenied(r.code) || r.saysDeny)
  {
    NotFoundIff(r.code);
    assert DenyCode(r.code) <==> SaysDenied(r.code);
  }

  /** The code decides; the text is searched only when the code says neither denied nor not found. */
  lemma DependencyIff(r: Result)
    ensures DependencyViolation(r) <==>
            || (r.rc != 0 && r.code == "DependencyViolation")
            || (r.rc != 0 && r.saysDependency && !SaysNotFound(r.code) && !SaysDenied(r.code) && !r.saysDeny)
  {
    NotFoundIff(r.code);
    DeniedIff(r);
  }

  lemma DryRunIff(r: Result)
    ensures ClassifyDryRun(r) == DryNotFound <==> SaysNotFound(r.code)
    ensures ClassifyDryRun(r) == DryDenied <==> r.rc != 0 && !SaysNotFound(r.code) && (SaysDenied(r.code) || r.saysDeny)
    ensures ClassifyDryRun(r) == DryAllowed <==>
            || (r.rc == 0 && !SaysNotFound(r.code))
            || (r.rc != 0 && r.code == "DryRunOperation" && !r.saysDeny)
  {
    NotFoundIff(r.code);
    DeniedIff(r);
    NotFoundEnds(r.code);
    assert r.code == "DryRunOperation" ==> r.code[14] == 'n' && |r.code| == 15;
  }

  lemma NotFoundEnds(code: string)
    ensures SaysNotFound(code) ==> code != "" && (code[|code| - 1] == 'd' || |code| >= 17)
  {
    if head: string :| code == head + "NotFound" || code == head + "NotFoundException" {
      assert code == head + "NotFound" ==> code[|code| - 1] == 'd';
    }
  }

  // ----- tags and ids -----

  ghost predicate Tagged(tags: Tags, key: string, value: string) { key in tags && tags[key] == value }

  ghost predicate LabTags(tags: Tags) {
    && Tagged(tags, "vantio:program", "w3-clean-host-lab") && Tagged(tags, "vantio:lifecycle", "lab")
    && Tagged(tags, "vantio:destroyable", "true") && Tagged(tags, "vantio:environment", "lab")
  }

  lemma LabTagsIff(tags: Tags)
    ensures HasTags(tags, LAB_TAGS) <==> LabTags(tags)
  {
    assert forall k | k in LAB_TAGS :: k in tags && tags[k] == LAB_TAGS[k] <==> Tagged(tags, k, LAB_TAGS[k]);
    if HasTags(tags, LAB_TAGS) {
      assert "vantio:program" in LAB_TAGS && "vantio:lifecycle" in LAB_TAGS;
      assert "vantio:destroyable" in LAB_TAGS && "vantio:environment" in LAB_TAGS;
    }
  }

  lemma VolumeTagsIff(tags: Tags)
    ensures HasTags(tags, VOLUME_TAGS) <==> LabTags(tags) && Tagged(tags, "vantio:owned-by", "transaction")
  {
    LabTagsIff(tags);
    if HasTags(tags, VOLUME_TAGS) {
      assert "vantio:owned-by" in VOLUME_TAGS;
      assert forall k | k in LAB_TAGS :: k in VOLUME_TAGS && VOLUME_TAGS[k] == LAB_TAGS[k];
    }
    if HasTags(tags, LAB_TAGS) && Tagged(tags, "vantio:owned-by", "transaction") {
      assert forall k | k in VOLUME_TAGS :: k == "vantio:owned-by" || k in LAB_TAGS;
    }
  }

  const HEX: string := "0123456789abcdef"

  lemma HexIff(c: char)
    ensures Hex(c) <==> c in HEX
  {
    if '0' <= c <= '9' {
      assert HEX[c as int - '0' as int] == c;
    } else if 'a' <= c <= 'f' {
      assert HEX[10 + (c as int - 'a' as int)] == c;
    }
  }

  /** The prefix and then eight to seventeen hex digits. */
  ghost predicate IdOf(prefix: string, id: string) {
    exists digits: string :: id == prefix + digits && 8 <= |digits| <= 17 && forall c | c in digits :: c in HEX
  }

  lemma ShapeIff(prefix: string, id: string)
    ensures HasIdShape(prefix, id) <==> IdOf(prefix, id)
  {
    if prefix <= id {
      var digits := id[|prefix|..];
      assert id == prefix + digits;
      forall i | |prefix| <= i < |id| ensures Hex(id[i]) <==> digits[i - |prefix|] in HEX {
        HexIff(id[i]);
      }
      assert HasIdShape(prefix, id) <==> 8 <= |digits| <= 17 && forall i | 0 <= i < |digits| :: digits[i] in HEX;
    }
    if digits: string :| id == prefix + digits && 8 <= |digits| <= 17 && forall c | c in digits :: c in HEX {
      assert id[|prefix|..] == digits;
    }
  }

  // ----- what a reply shows -----

  ghost predicate Answers(e: Event, cmd: Command) { e.Called? && e.cmd == cmd && e.result.rc == 0 }

  /** A volume is ours when the describe call succeeded and lists it with all five tags, and free when available and unattached. */
  lemma VolumeShown(e: Event, id: string)
    ensures Shows(e, OurVolume(id)) <==>
            && Answers(e, DescribeVolumes(id)) && e.result.payload.Some? && e.result.payload.value.volume.Some?
            && LabTags(e.result.payload.value.volume.value.tags)
            && Tagged(e.result.payload.value.volume.value.tags, "vantio:owned-by", "transaction")
    ensures Shows(e, FreeVolume(id)) <==>
            && Answers(e, DescribeVolumes(id)) && e.result.payload.Some? && e.result.payload.value.volume.Some?
            && e.result.payload.value.volume.value.state == "available" && e.result.payload.value.volume.value.attachments == 0
  {
    if e.Called? && e.result.payload.Some? && e.result.payload.value.volume.Some? {
      VolumeTagsIff(e.result.payload.value.volume.value.tags);
    }
  }

  lemma AddressShown(e: Event, id: string)
    ensures Shows(e, OurAddress(id)) <==>
            && Answers(e, DescribeAddresses(id)) && e.result.payload.Some? && e.result.payload.value.address.Some?
            && LabTags(e.result.payload.value.address.value.tags)
    ensures Shows(e, FreeAddress(id)) <==>
            && Answers(e, DescribeAddresses(id)) && e.result.payload.Some? && e.result.payload.value.address.Some?
            && e.result.payload.value.address.value.association == ""
  {
    if e.Called? && e.result.payload.Some? && e.result.payload.value.address.Some? {
      LabTagsIff(e.result.payload.value.address.value.tags);
    }
  }

  lemma InstanceShown(e: Event, id: string)
    ensures Shows(e, OurInstance(id)) <==>
            && Answers(e, DescribeInstances(id)) && e.result.payload.Some? && e.result.payload.value.instance.Some?
            && LabTags(e.result.payload.value.instance.value.tags)
  {
    if e.Called? && e.result.payload.Some? && e.result.payload.value.instance.Some? {
      LabTagsIff(e.result.payload.value.instance.value.tags);
    }
  }

  lemma GroupShown(e: Event, id: string)
    ensures Shows(e, OurGroup(id)) <==>
            && Answers(e, DescribeGroups(id)) && e.result.payload.Some? && e.result.payload.value.group.Some?
            && LabTags(e.result.payload.value.group.value.tags) && e.result.payload.value.group.value.name != "default"
    ensures Shows(e, KeyExists(id)) <==> Answers(e, DescribeKeyPairs(id))
  {
    if e.Called? && e.result.payload.Some? && e.result.payload.value.group.Some? {
      LabTagsIff(e.result.payload.value.group.value.tags);
    }
  }

  // ----- the order of the run -----

  /** Instances come before volumes, volumes before addresses, addresses before groups, groups before key pairs. */
  lemma RankIs(cmd: Command)
    ensures Rank(cmd) == 0 <==> cmd.DescribeInstances? || cmd.TerminateInstances?
    ensures Rank(cmd) == 1 <==> cmd.DescribeVolumes? || cmd.DetachVolume? || cmd.DeleteVolume?
    ensures Rank(cmd) == 2 <==> cmd.DescribeAddresses? || cmd.ReleaseAddress? || cmd.DisassociateAddress?
    ensures Rank(cmd) == 3 <==> cmd.DescribeGroups? || cmd.DeleteGroup?
    ensures Rank(cmd) == 4 <==> cmd.DescribeKeyPairs? || cmd.DeleteKeyPair?
  {
  }
}
