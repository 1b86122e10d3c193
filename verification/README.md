# Verified models of the evidence and lab tooling

This project models the decision and protocol cores of the repository in Dafny and proves what
they promise. Every outside party (AWS, a guest VM, a command runner, the filesystem) is an
oracle that may answer anything of the right type; the calls made form a trace, and the
theorems are about every trace. `dafny verify dfyconfig.toml` checks everything.

| file | what it models |
|---|---|
| `Canonical.dfy`, `CanonicalReader.dfy` | the canonical JSON printer: evidence text identifies its value, and a JSON reader gives it back |
| `Scoring.dfy` | strict and discovery scoring over multisets |
| `PhaseOrder.dfy` | the phase-order checker against a model of boots and markers |
| `TreeRemoval.dfy` | the iterative evidence removal, on a filesystem with links, against the recursive delete |
| `TarMember.dfy` | the tar member check and what extraction then does |
| `Teardown.dfy`, `TeardownMeaning.dfy` | the settle-first teardown against an adversarial EC2 |
| `SshIngress.dfy`, `SshIngressMeaning.dfy` | authorize, stamp, release, reopen, revoke, and recovery from the stamp |
| `PhaseRow.dfy`, `PhaseSchedule.dfy` | the phase batteries: the host's grade, and the time-budgeted run |
| `PhaseScheduleMeaning.dfy` | where each fact of a phase row comes from, and the deadline in numbers |
| `PhaseRowMeaning.dfy` | the sanitiser's table of types and ranges, and the order of a row's objections |
| `PhaseRowCut.dfy` | passing rows of all three phases, and the list whose stored form passes |
| `RestartRows.dfy`, `RestartRowsMeaning.dfy` | the crash-recovery rows and their grade |
| `Hostcheck.dfy`, `HostcheckGates.dfy` | the 21-row host check, and what a recorded row means |
| `HostcheckMeaning.dfy`, `HostcheckResults.dfy` | the names, facts, stops and reasons of each check in literal terms |
| `HostcheckAllow.dfy`, `HostcheckAllowMeaning.dfy` | its separately maintained allowlist, and what it lets through |
| `HuTranscript.dfy` | the H-U transcript: print, re-grade, publish |
| `Lifecycle.dfy`, `Launch.dfy` | the launch planner, the sweeper and the launch itself |
| `Lsm.dfy` | the confirmation of the lab's LSM boot |
| `PyJson.dfy`, `Texts.dfy` | decoded JSON, dict and list sanitising, the text helpers they share, and what those mean |

Python exceptions are results: a `finally` block is code that runs on every path, and a value
that cannot be hashed raises where the source looks it up in a set.

Some promises turned out to hold only under a condition. Each has its exact condition and a
concrete input:

- The stamp does not cover the rule inside `reopen_ssh` (`scripts/aws/w3_lab_steps.py:1805-1808`).
  `EnterpriseThenClose`: a close that returns leaves the rule open if and only if a reopen's
  authorize was reported as failed and took effect, and the battery's last revoke did not take
  effect. `ReopenHole` is a run of a battery with one reboot that ends so.
- Removing an evidence path with nothing refused removes the tree if and only if the path does
  not lead through a link in the tree itself (`NothingRefusedRemovesAll`); a path without links
  above it never does (`PlainRootAnchored`), and `UnanchoredStays` is a path that does.
- A launch that aborts after the group exists sends `delete-security-group` exactly when the
  group id is not itself a refused text (`scripts/aws/w3_lab_auto.py:835-849`). `RefusedGroupId`
  gives a well-formed id that is, and `GroupStays` a launch that is handed it and leaves the group.
- The false-positive list is as long as `strict_fp` only when no over-predicted key was expected
  at all (`FalsePositiveCount`); `ListedTwice` is a report where it is longer.
- A stored phase list can pass where the raw list does not, exactly because it was cut to three
  entries (`StoredPassIffFirstThreePass`); `CutMakesPass` is such a list.
- A retry is skipped exactly when less than its need is left after the first call
  (`PhaseSshCase`). The reserve rules that out, and nothing less does (`LessThanReserve`). A phase
  ends strictly before its deadline, but comes as close to it as one likes (`EndsJustBefore`).
- Grading restart rows before sanitising them gives other grades, in both directions
  (`RawGradeRefusesMore`, `RawGradeHoldsMore`); the source sanitises first.
- `accept_transcript` says that reordered H-U lines are STOP. A reordering of a passing text
  passes if and only if the item lines kept their order among themselves (`ReorderedPassIff`);
  `ReorderedPasses` is a print-out with its verdict and JSON line in front that passes.

## Model

| member | source | states |
|---|---|---|
| Canonical.CanonicalTextIdentifiesValue | packages/optics-evidence-contract/src/canonical.py:4-48 | two supported values print to the same text if and only if they are the same value, dict order aside |
| CanonicalReader.CanonicalTextReadsBack | packages/optics-evidence-contract/src/canonical.py:4-48 | a JSON reader written from RFC 8259 gives back the printed value, dict order aside, with the members of every object in code point order |
| CanonicalReader.ReadBack | packages/optics-evidence-contract/src/canonical.py:8-22 | the same in front of any delimiter, by induction over the value |
| CanonicalReader.EscapeIsShortest | packages/optics-evidence-contract/src/canonical.py:25-48 | no text that reads as a character is shorter than the one printed for it, and escapes are in lower case |
| CanonicalReader.RaisesIff | packages/optics-evidence-contract/src/canonical.py:8-22 | the printer raises exactly when something inside the value is of no JSON type |
| CanonicalReader.LessIsBefore | packages/optics-evidence-contract/src/canonical.py:20-20 | keys are ordered by their first difference in code points, a text before any longer one it starts |
| Canonical.PrintInjective | packages/optics-evidence-contract/src/canonical.py:8-22 | equal text means the same value, by induction over both values |
| Canonical.PrintSeparable | packages/optics-evidence-contract/src/canonical.py:8-22 | a printed value followed by a delimiter can be told apart from any other, although integers are not prefix-free |
| Canonical.SamePrints | packages/optics-evidence-contract/src/canonical.py:8-22 | values that differ only in the order of dict entries print alike |
| Canonical.InsertionOrderIrrelevant | packages/optics-evidence-contract/src/canonical.py:19-21 | the text of a dict does not depend on insertion order |
| Canonical.SortByKeySorts | packages/optics-evidence-contract/src/canonical.py:20-21 | the entries come out in code point order and none is lost or added |
| Canonical.SortedUnique | packages/optics-evidence-contract/src/canonical.py:20-21 | two sorted entry lists with the same members are equal |
| Canonical.JoinInjective | packages/optics-evidence-contract/src/canonical.py:17-21 | a comma-joined, bracketed list can be split back into its parts |
| Canonical.Quote | packages/optics-evidence-contract/src/canonical.py:25-48 | the character loop returns the quoted text |
| Canonical.QuoteInjective | packages/optics-evidence-contract/src/canonical.py:25-48 | quoted text determines the string and where it ends |
| Canonical.QuotedIsSafe | packages/optics-evidence-contract/src/canonical.py:25-48 | no raw control character, and the first unescaped quote is the closing one |
| Canonical.EscapePrefixFree | packages/optics-evidence-contract/src/canonical.py:27-46 | no escape is a prefix of another one |
| Canonical.DecimalRoundTrip | packages/optics-evidence-contract/src/canonical.py:13-14 | decimal digits read back as the number |
| Scoring.ScoreReport | scripts/gap-t3/proof_inventory_accuracy.py:303-341 | the report's counts, ratios and lists are those of the multisets of expected and in-population predicted keys, at both levels |
| Scoring.Matches | scripts/gap-t3/proof_inventory_accuracy.py:313-314 | summing the minimum of two counts gives the size of the multiset intersection |
| Scoring.Discover | scripts/gap-t3/proof_inventory_accuracy.py:317-322 | the discovery counter is the projection of the strict one |
| Scoring.Partition | scripts/gap-t3/proof_inventory_accuracy.py:304-312 | rows outside the population are set apart, in order; the rest are counted |
| Scoring.CollectFalseNegatives | scripts/gap-t3/proof_inventory_accuracy.py:339-339 | the false-negative list is exactly the multiset difference, so it has strict_fn entries |
| Scoring.CollectFalsePositives | scripts/gap-t3/proof_inventory_accuracy.py:338-338 | each over-predicted key is listed as often as it was predicted |
| Scoring.FalsePositiveCount | scripts/gap-t3/proof_inventory_accuracy.py:338-338 | the false-positive list is at least strict_fp long, and exactly that long if and only if no over-predicted key was expected at all |
| Scoring.ListedTwice | scripts/gap-t3/proof_inventory_accuracy.py:303-341 | a report with strict_fp 1 whose false-positive list has two entries |
| Scoring.LevelTotalsAgree | scripts/gap-t3/proof_inventory_accuracy.py:303-341 | tp+fp is the predicted total and tp+fn the expected total, at both levels |
| Scoring.Conservation | scripts/gap-t3/proof_inventory_accuracy.py:313-316 | every expected and every predicted key is counted once, as a match or as a miss |
| Scoring.StrictBelowDiscovery | scripts/gap-t3/proof_inventory_accuracy.py:313-326 | strict matches never exceed discovery matches |
| Scoring.DiscoveryNeverLower | scripts/gap-t3/proof_inventory_accuracy.py:297-341 | discovery precision and recall are never below the strict ones |
| Scoring.PerfectScoreIffEqual | scripts/gap-t3/proof_inventory_accuracy.py:297-341 | strict precision and recall are both 1 if and only if the two multisets are equal |
| PhaseOrder.PhaseOrderAllowed | scripts/gcp/enforcement_proof.py:236-284 | the flag scan accepts a sequence if and only if the boot model does: same-boot phases see a marker of the current boot, one reboot after a compare, reboot-post once and first, compares bounded |
| PhaseOrder.FreshOrderAllowed | scripts/gcp/enforcement_proof.py:255-284 | the scan of a sequence that starts fresh, flag by flag |
| PhaseOrder.ResumedOrderAllowed | scripts/gcp/enforcement_proof.py:238-254 | the start state of sequences that begin with reboot-post, against the same model |
| PhaseOrder.MarkerVisible | scripts/gcp/enforcement_proof.py:236-284 | the marker is of the current boot exactly when a compare ran since the last reboot |
| PhaseOrder.SliceLegal | scripts/gcp/enforcement_proof.py:209-233 | every planned slice is legal in the boot model |
| PhaseOrder.PlannedSlicesAllowed | scripts/gcp/enforcement_proof.py:209-284 | the checker accepts every slice the planner makes |
| TreeRemoval.RemoveEvidencePath | scripts/gcp/offline_deliver_2.py:788-820 | for every set of links and refused operations: exactly the reached nodes of the tree at the root's own place are tried, once each, descendants before ancestors; nothing outside that tree is touched wherever its links lead; what is left is what the recursive delete leaves, or at least the top when the way to the root leads through the tree |
| TreeRemoval.Walk | scripts/gcp/offline_deliver_2.py:795-810 | the worklist visits each reachable node once, parents first, and follows no link although iterdir would |
| TreeRemoval.AttemptOne | scripts/gcp/offline_deliver_2.py:811-820 | one removal: the entry itself, never what a link leads to, and only an empty directory |
| TreeRemoval.FollowStable | scripts/gcp/offline_deliver_2.py:811-820 | removing nodes never makes a path lead anywhere new: it leads where it did, or to nothing |
| TreeRemoval.SurvivesUnfolds | scripts/gcp/offline_deliver_2.py:788-820 | the closed form of what survives satisfies the recursive delete's own equation |
| TreeRemoval.NothingRefusedRemovesAll | scripts/gcp/offline_deliver_2.py:788-820 | with no filesystem error the tree is gone and all else untouched if the way to the root does not lead through the tree, and its top stays if it does |
| TreeRemoval.PlainRootAnchored | scripts/gcp/offline_deliver_2.py:788-820 | a root with no link above it is never in the second case, wherever the links below it lead |
| TreeRemoval.UnanchoredStays | scripts/gcp/offline_deliver_2.py:788-820 | a concrete filesystem in the second case: what the removal leaves of it, nothing refused, and the directory stays |
| TreeRemoval.AncestorsFirst | scripts/gcp/offline_deliver_2.py:795-810 | an ancestor is recorded before its descendants |
| TarMember.CheckTarMember | scripts/lab/stage_lab_trust.py:366-414 | an archive is accepted if and only if its members have distinct plain paths, no file is above another member, and the two pinned files are there with the right bytes |
| TarMember.Collect | scripts/lab/stage_lab_trust.py:379-391 | the two dictionaries are filled exactly when names are plain and distinct, and index the members |
| TarMember.ParentsAreDirs | scripts/lab/stage_lab_trust.py:392-397 | a member passes exactly when no listed parent of it is a file |
| TarMember.NormalIdempotent | scripts/lab/stage_lab_trust.py:354-363 | normalising a normalised name changes nothing |
| TarMember.NormalIdentifiesPath | scripts/lab/stage_lab_trust.py:354-363 | two names normalise alike exactly when they mean the same path |
| TarMember.AcceptedExtracts | scripts/lab/stage_lab_trust.py:366-414 | an accepted archive extracts in any order without one member overwriting another or passing through a file |
| TarMember.NothingElseExtracted | scripts/lab/stage_lab_trust.py:366-414 | the extracted tree holds the members and their parent directories only |
| TarMember.AcceptedHoldsPinnedBytes | scripts/lab/stage_lab_trust.py:398-414 | after extraction the archive path holds bytes with the pinned digest and signature.json the checked record |
| Teardown.CheckDestructive | scripts/aws/verify_w3_lab_teardown.py:1112-1151 | over every sequence of replies: each destructive call is justified by the describe just before it and a tag match, at most one detach, steps in order, at most 790 s of sleep, each reported pass is an accepted delete, and every call and wait is the one the steps call for, each step skipped exactly without its id |
| Teardown.SafeDeletes | scripts/aws/verify_w3_lab_teardown.py:753-1109 | (reader's aid) in a safe trace the call before delete-volume shows the volume available and unattached, the call before release-address shows no association, a detach follows 24 vain polls, and disassociate is never sent |
| Teardown.SafeAt | scripts/aws/verify_w3_lab_teardown.py:753-1109 | in a safe trace every call, wherever it stands, is justified by what came before it |
| Teardown.WaitInstanceTerminated | scripts/aws/verify_w3_lab_teardown.py:683-710 | describes every five seconds until one shows the instance terminated or not found, sixty times at most |
| Teardown.CloseInstance | scripts/aws/verify_w3_lab_teardown.py:852-870 | an id of the right shape is described, and terminated exactly if the reply shows all lab tags; a pass is an accepted terminate |
| Teardown.PollVolumeFree | scripts/aws/verify_w3_lab_teardown.py:753-776 | it ends with the first describe of a free, missing or unlisted volume, or after all polls with the last state seen; which of them is exact |
| Teardown.RemoveVolume | scripts/aws/verify_w3_lab_teardown.py:779-783 | one delete-volume, and a pass exactly when it is accepted |
| Teardown.DetachVolumeLastResort | scripts/aws/verify_w3_lab_teardown.py:804-849 | one detach; if that is accepted, twelve polls and a delete exactly if the last one shows the volume free |
| Teardown.CloseVolume | scripts/aws/verify_w3_lab_teardown.py:873-920 | a volume of ours is deleted at once if it is free, else after polling, by way of a detach exactly when it was last seen in-use or available; any other is left alone |
| Teardown.PollAddressFree | scripts/aws/verify_w3_lab_teardown.py:1017-1039 | it ends with the first describe that shows no association, not found or not listed, or after 24 |
| Teardown.CloseAddress | scripts/aws/verify_w3_lab_teardown.py:1049-1109 | an address of ours is released at once if it has no association, else exactly if polling saw it lose that; a pass is an accepted release |
| Teardown.DeleteGroupWithRetries | scripts/aws/verify_w3_lab_teardown.py:941-974 | the delete is sent again after each dependency violation, 5, 10, 15, 20 and then 20 seconds later, twelve times at most and within 190 s; a pass is the accepted delete |
| Teardown.CloseGroup | scripts/aws/verify_w3_lab_teardown.py:923-974 | the group is deleted exactly after a describe that shows the lab tags and another name than default |
| Teardown.CloseKeyPair | scripts/aws/verify_w3_lab_teardown.py:977-991 | the one authorized key pair is deleted exactly after a describe that succeeded; a pass is the accepted delete |
| Teardown.BackoffBound | scripts/aws/verify_w3_lab_teardown.py:654-658 | the back-off total in closed form, growing with the number of attempts |
| Teardown.NotFoundIsNotDenial | scripts/aws/verify_w3_lab_teardown.py:152-240 | a not-found code is never read as a denial, and a dry run is denied exactly when the reply is a denial |
| TeardownMeaning.DeniedIff | scripts/aws/verify_w3_lab_teardown.py:152-169 | a denial in its codes and words: never a success, never a code that ends in NotFound or NotFoundException |
| TeardownMeaning.DependencyIff | scripts/aws/verify_w3_lab_teardown.py:661-670 | a dependency violation is decided by the code, and by the text only when the code is neither a denial nor not found |
| TeardownMeaning.DryRunIff | scripts/aws/verify_w3_lab_teardown.py:226-240 | how a dry run is read |
| TeardownMeaning.VolumeShown | scripts/aws/verify_w3_lab_teardown.py:733-750 | what a reply has to show for a volume to be ours and free: the five tags, available, no attachment |
| TeardownMeaning.InstanceShown | scripts/aws/verify_w3_lab_teardown.py:201-223 | the four tags an instance must have |
| TeardownMeaning.ShapeIff | scripts/aws/verify_w3_lab_teardown.py:86-89 | an id is its prefix and 8 to 17 hexadecimal digits in lower case |
| SshIngress.OpenSsh | scripts/aws/w3_lab_steps.py:410-484 | on every exit the last ingress mutation is a revoke, and at every point an open rule is covered by the stamp; the actions are two dry runs, key, stamp, authorize, connection, revoke, cut short exactly where one of them fails |
| SshIngress.Finish | scripts/aws/w3_lab_steps.py:478-484 | the finally block revokes first; the stamp is cleared only after a revoke that went through |
| SshIngress.RevokeQuietly | scripts/aws/w3_lab_steps.py:398-407 | returns exactly when the rule was revoked or already absent |
| SshIngress.CloseSsh | scripts/aws/w3_lab_steps.py:2396-2410 | if the stamp covers what is open, a close that returns leaves no rule; an authorized stamp makes it return exactly when the revoke succeeded or found nothing, and bad names make it raise |
| SshIngress.OpenThenClose | scripts/aws/w3_lab_steps.py:410-484 | any exit of the open path followed by a close that returns leaves the rule absent |
| SshIngress.RunWithFreshKey | scripts/aws/w3_lab_steps.py:1061-1081 | at most four tries of a key push and a connection, two seconds apart, another one exactly after a failure worth it; none of them changes the rule or the stamp, and what returns is the reply of the last connection |
| SshIngress.RemoteBootId | scripts/aws/w3_lab_steps.py:1139-1146 | the boot id is the text of the last SSH reply if that is one line of at most 80 characters, else empty |
| SshIngress.Leave | scripts/aws/w3_lab_steps.py:1492-1496 | the known boot id is what the last SSH reply before the release said |
| SshIngress.ReleaseSsh | scripts/aws/w3_lab_steps.py:1800-1803 | release revokes before it clears the stamp |
| SshIngress.ReopenSsh | scripts/aws/w3_lab_steps.py:1805-1808 | reopen authorizes before it stamps: the one place where a rule can be open and unstamped |
| SshIngress.WaitForReboot | scripts/aws/w3_lab_steps.py:1468-1524 | no SSH or key push between release and the end of the quiet budget, one reopen at most and before any later SSH; the id that returns is what the last SSH reply says, is not empty and is not the id the last SSH reply before the release said |
| SshIngress.TryReturn | scripts/aws/w3_lab_steps.py:1512-1522 | a look at a running guest pushes a key, sends a command and asks for the boot id, and yields that id unless it is the known one |
| SshIngress.StayQuiet | scripts/aws/w3_lab_steps.py:1495-1502 | describes every five seconds until the budget is over or one fails or shows the guest leaving; no SSH |
| SshIngress.LookOnce | scripts/aws/w3_lab_steps.py:1504-1523 | a look describes the guest, and when it runs reopens unless that has happened, and tries to get in |
| SshIngress.RebootStep | scripts/aws/w3_lab_steps.py:1648-2393 | a reboot in a battery waits 70 s in quiet and 240 s for the return, and sends one more command exactly after a timeout |
| SshIngress.EnterpriseBody | scripts/aws/w3_lab_steps.py:1648-2393 | the body authorizes first, ends at the first step that raises, and otherwise does them all |
| SshIngressMeaning.BootTextIs | scripts/aws/w3_lab_steps.py:1139-1146 | the boot id in an output: without outer white space, one line, at most 80 characters |
| SshIngress.EnterpriseRows | scripts/aws/w3_lab_steps.py:1648-2393 | on every exit the last mutation is a revoke; what is left open is covered by the stamp unless a reopen and the final revoke both failed; a failed reopen is the entry just before that revoke, and then the rule is open exactly if that authorize took effect and the revoke did not |
| SshIngress.EnterpriseThenClose | scripts/aws/w3_lab_steps.py:2376-2410 | a later close that returns leaves the rule open if and only if the reply to a failed reopen says it took effect and the reply to the battery's last revoke says that did not |
| SshIngress.ReopenHole | scripts/aws/w3_lab_steps.py:1805-1808 | the exception is reachable: a battery of one reboot, against a concrete guest and AWS, whose trace shows the failed but effective reopen, the last revoke without effect and no later one, ends with the rule open after a close that returned |
| PhaseSchedule.RunPhaseBatteries | scripts/gcp/offline_deliver_4.py:712-744 | three rows in order; each phase starts exactly if the host was ready, no earlier one failed to start or to be cleaned up, and the reserve is left; one that starts ends before the deadline with its row, or with the exception that broke it; any other makes no call and says why |
| PhaseSchedule.RunOnePhase | scripts/gcp/offline_deliver_4.py:648-709 | a phase started with the reserve left ends strictly before the deadline, with exactly one uninstall after all guest work whenever it yields a row, a verified row means that uninstall was clean, and the row is the sanitised form of what the settled call, the pull, the uninstall and the disk said |
| PhaseSchedule.EndsJustBefore | scripts/gcp/offline_deliver_4.py:648-709 | for every gap, however small, there is a guest whose phase starts with exactly the reserve left and ends this much before the deadline |
| PhaseSchedule.PhaseSshCase | scripts/gcp/offline_deliver_4.py:623-645 | the one retry is skipped if and only if it is needed and less than its need is left after the first call, never with the reserve at hand; a dead tunnel is settled by a second call after an answered probe, or by the whole wait passing without one |
| PhaseSchedule.LessThanReserve | scripts/gcp/offline_deliver_4.py:623-645 | with less than the reserve left there is a guest whose retry is skipped, so the reserve is the least that will do |
| PhaseSchedule.SshReady | scripts/gcp/offline_deliver_2.py:638-651 | the wait ends within its budget plus one probe; true means an answered probe, false means the whole wait passed |
| PhaseSchedule.PhaseDeadline | scripts/gcp/offline_deliver_4.py:560-568 | the deadline is within both limits less the margin and attains one of them; an invalid life gives 0 |
| PhaseSchedule.PhaseTurn | scripts/gcp/offline_deliver_4.py:726-743 | a phase runs exactly when nothing blocks it and the reserve is left; its calls, its row and what it blocks are stated for each case |
| PhaseSchedule.UninstallAndGrade | scripts/gcp/offline_deliver_4.py:675-709 | uninstall first, then at most a look at the boot disk; the row carries the uninstall's own result |
| PhaseSchedule.PullBody | scripts/gcp/offline_deliver_4.py:665-672 | the rows are fetched within their timeout unless the tunnel never came back |
| PhaseSchedule.PassMeansVerified | scripts/gcp/offline_deliver_4.py:518-744 | a passing row means its phase ran and left a clean, verified uninstall as its last guest work |
| PhaseScheduleMeaning.DeadlineIs | scripts/gcp/offline_deliver_4.py:560-568 | the deadline in numbers: the guest's minutes or 105, whichever is less, after its creation or else the start, less five minutes |
| PhaseScheduleMeaning.MinutesIff | scripts/gcp/offline_deliver_4.py:560-568 | the minutes are an int, or decimal digits with white space around them, from 1 to 120 |
| PhaseScheduleMeaning.RequireIff | scripts/gcp/offline_deliver_4.py:648-709 | a post-kill row is required exactly of a tamper body that names its probe and was killed after the swap |
| PhaseSchedule.NotRunNeverPasses | scripts/gcp/offline_deliver_4.py:358-361 | a row for a phase that did not run never passes, however it is sanitised |
| PhaseRow.AllowPhaseRow | scripts/gcp/offline_deliver_4.py:430-515 | filling the kept dict key by key and grading it gives the specified row, or drops it, or raises on an unhashable result |
| PhaseRow.AllowIdempotent | scripts/gcp/offline_deliver_4.py:430-515 | sanitising a stored row gives the same row and the same grade |
| PhaseRow.AllowMapSwapIdempotent | scripts/gcp/offline_deliver_4.py:202-226 | the map-swap record is a fixed point of its sanitiser |
| PhaseRow.GuestFlagsOnlyVeto | scripts/gcp/offline_deliver_4.py:229-342 | given the same host facts as a passing row, a row passes if and only if the guest's own flags raise no objection |
| PhaseRow.TamperPassEvidence | scripts/gcp/offline_deliver_4.py:285-320 | a tamper pass has three fresh map ids, no new incoming pin left, every seen pin owned by the sole loader, and a post-kill row of the probe pid |
| PhaseRow.TamperPassIff | scripts/gcp/offline_deliver_4.py:229-342 | a tamper row passes if and only if it carries the claim word for word, the swap record shows fresh ids, no new pin and one owner, the errnos are the expected ones, the post-kill row is the probe's, the guest raises no objection and the uninstall was verified |
| PhaseRow.KeptReads | scripts/gcp/offline_deliver_4.py:430-500 | each typed key is kept exactly when its value fits |
| PhaseRow.SanitisedPassesAgain | scripts/gcp/offline_deliver_4.py:518-526 | rewriting up to three rows never changes whether all phases pass |
| PhaseRow.StoredPassIffFirstThreePass | scripts/gcp/offline_deliver_1.py:1078-1090 | a stored list can pass where the raw one does not exactly when it was cut to a passing first three |
| PhaseRowCut.CutPasses | scripts/gcp/offline_deliver_1.py:1078-1090 | three passing rows followed by anything fail as a raw list and pass in stored form |
| PhaseRowCut.CutMakesPass | scripts/gcp/offline_deliver_1.py:1078-1090 | such a list, with its performance, tamper and distro rows written out |
| PhaseRowCut.ComposedIsKept | scripts/gcp/offline_deliver_4.py:430-515 | a row whose facts all fit is kept as it is |
| PhaseRow.PerformancePassIff | scripts/gcp/offline_deliver_4.py:229-282 | a performance row passes if and only if its result is PASS without a harness error, the run took at most 900 s on one host, all 100 samples were denied, the revoke errno is 13, nothing failed open and the uninstall was verified |
| PhaseRowMeaning.VerdictIff | scripts/gcp/offline_deliver_4.py:229-259 | for each verdict, the rows that get it: the first objection among name, result word (FAIL, HOLD, NOT_GRADED, NOT_RUN or any other text), harness error, claim, host numbers and uninstall |
| PhaseRowMeaning.PerformanceCauseIff | scripts/gcp/offline_deliver_4.py:262-282 | which number of a performance row is the first wrong one |
| PhaseRowMeaning.TamperCauseIff | scripts/gcp/offline_deliver_4.py:285-320 | which fact of a tamper row is the first wrong one |
| PhaseRowMeaning.DistroCauseIff | scripts/gcp/offline_deliver_4.py:323-342 | which fact of a distro row is the first wrong one |
| PhaseRowMeaning.AcceptsIff | scripts/gcp/offline_deliver_4.py:430-508 | the sanitiser keeps a key exactly when a table of flags, ranges, words and patterns has it with such a value |
| PhaseRowMeaning.SwapKeyIs | scripts/gcp/offline_deliver_4.py:202-226 | what the sanitiser keeps of each key of a map-swap record |
| PhaseRowMeaning.PinsKept | scripts/gcp/offline_deliver_4.py:168-174 | a pin list is kept whole, or not at all |
| PhaseRowMeaning.LockdownIs | scripts/gcp/offline_deliver_4.py:430-508 | which lockdown texts are kept, without outer white space |
| PhaseRow.PinPidIff | scripts/gcp/offline_deliver_4.py:127-134 | a pin's pid is what follows its last _incoming_, when that is digits alone and positive |
| PhaseRow.DistroPassIff | scripts/gcp/offline_deliver_4.py:229-342 | a distro row passes if and only if its result is PASS without a harness error and image, seal, kernel facts, a bpf token, the probe's errnos, RECORDED and the verified uninstall all say so, each written out |
| RestartRows.CrashHeldIff | scripts/gcp/offline_deliver_2.py:1179-1205 | a crash recovery is held if and only if all measured facts of the raw body say so |
| RestartRows.CrashHeldEvidence | scripts/gcp/offline_deliver_2.py:1179-1205 | held means errno 13 on both sides, a strictly larger count within 15 s, row pid equal to probe pid, and one anchor before and after |
| RestartRows.CrashRaisesIff | scripts/gcp/offline_deliver_2.py:1179-1205 | the word is an exception exactly when a side has an unhashable cause or a wait too large for a float |
| RestartRows.RowsHeldIff | scripts/gcp/offline_deliver_2.py:1141-1157 | the sanitised rows have no cause against them if and only if the raw sides hold and the anchor carried over |
| RestartRows.SideHeldIff | scripts/gcp/offline_deliver_2.py:1104-1138 | the grade of a sanitised side, as a condition on what the guest sent |
| RestartRows.AllowRestartSide | scripts/gcp/offline_deliver_2.py:1034-1075 | the key-by-key sanitiser and its derived keys give the specified side, or raise |
| RestartRows.AllowSideIdempotent | scripts/gcp/offline_deliver_2.py:1034-1075 | a sanitised side is a fixed point, derived keys included |
| RestartRows.AllowRowsIdempotent | scripts/gcp/offline_deliver_2.py:1078-1087 | so are both sides together |
| RestartRows.CauseAndLatenessStable | scripts/gcp/offline_deliver_2.py:1141-1167 | rewriting stored rows changes neither the cause nor the lateness |
| RestartRows.LatenessBounds | scripts/gcp/offline_deliver_2.py:1160-1167 | lateness is above 5 s and at most 15 s, and absent for held rows exactly when both waits are prompt |
| RestartRows.RawGradeRefusesMore | scripts/gcp/offline_deliver_2.py:1034-1138 | (reader's aid) grading before sanitising would refuse a side that is held |
| RestartRows.RawGradeHoldsMore | scripts/gcp/offline_deliver_2.py:1034-1138 | (reader's aid) and would hold a side that is refused |
| RestartRowsMeaning.SideCauseIff | scripts/gcp/offline_deliver_2.py:1104-1138 | for each cause, exactly which sides get it, over their keys and numbers |
| RestartRowsMeaning.RowsCauseIff | scripts/gcp/offline_deliver_2.py:1141-1157 | which cause both sides together get: the first that applies |
| RestartRowsMeaning.LatenessIs | scripts/gcp/offline_deliver_2.py:1160-1167 | the lateness is the longer wait of those above 5 and at most 15 seconds |
| RestartRowsMeaning.LatencyIs | scripts/gcp/offline_deliver_2.py:1013-1026 | the latency is that of the ledger's own stamp if it is within a day of the probe, else of the host's |
| RestartRowsMeaning.AllowSideIs | scripts/gcp/offline_deliver_2.py:1034-1075 | a side that is no dict is absent; it raises for a wait no float can hold, and then for a cause that cannot be looked up |
| RestartRowsMeaning.AcceptsIff | scripts/gcp/offline_deliver_2.py:1034-1075 | which key of a side is kept, with what values |
| RestartRowsMeaning.CrashWordIff | scripts/gcp/offline_deliver_2.py:1179-1205 | the word of a crash recovery, for each of its conditions |
| RestartRowsMeaning.UpgradeWordIff | scripts/gcp/offline_deliver_2.py:1209-1247 | the word of an upgrade cycle |
| RestartRowsMeaning.SampleIff | scripts/gcp/offline_deliver_2.py:929-942 | when a sample after the kill counts as held |
| RestartRowsMeaning.OverflowIff | scripts/gcp/offline_deliver_2.py:1160-1167 | an int is too large for a float from 2^1024 - 2^970 on, where rounding would reach 2^1024 |
| Hostcheck.RunHostcheck | scripts/lab/hostcheck_rows.py:324-516 | for every runner: 21 rows in order, the commands run are exactly those of the rows not marked NOT_RUN, each row is made from its own answer, nothing runs after the first stop and later rows name it, the container name given to a command is the one the container check showed, the pe_name error is unreachable, RECORDED_FOR_GRADING if and only if all rows are RECORDED |
| Hostcheck.OneRow | scripts/lab/hostcheck_rows.py:351-499 | one turn keeps the report tidy and makes no call after a stop |
| Hostcheck.DecideOutcomes | scripts/lab/hostcheck_rows.py:359-499 | which outcomes each check can have; RECORDED only with return code 0 |
| Hostcheck.VerdictMeans | scripts/lab/hostcheck_rows.py:500-506 | the verdict said of the rows alone |
| Hostcheck.ReadUnit | scripts/lab/hostcheck_rows.py:438-446 | the loop over unit lines against its recursive scan |
| Hostcheck.ReadJson | scripts/lab/hostcheck_rows.py:276-298 | the loop over JSON keys leaves one fact per listed key |
| HostcheckGates.RecordedIff | scripts/lab/hostcheck_rows.py:257-499 | for each of the 21 checks, the exact condition on its answer under which the row is RECORDED |
| HostcheckGates.GradingMeansAllGates | scripts/lab/hostcheck_rows.py:324-516 | a recorded row of a run comes from an answer of its own command that met that condition |
| HostcheckGates.PartsAreTheLine | scripts/lab/hostcheck_rows.py:384-394 | the container line is split exactly when it is name, image and status |
| HostcheckGates.UnitRecordedIff | scripts/lab/hostcheck_rows.py:438-454 | the unit row is recorded exactly when the five properties appear once each with known values and are not active, failed or unsuccessful |
| HostcheckResults.RecordedExactly | scripts/lab/hostcheck_rows.py:257-499 | the same for each check in literal names, paths, lines and keys |
| HostcheckResults.RecordedShows | scripts/lab/hostcheck_rows.py:324-516 | a recorded row of a run comes from an answer of its own command that showed this |
| HostcheckResults.GivenNameWasShown | scripts/lab/hostcheck_rows.py:204-210 | the container the environment checks look into is the one named by the container check's only line |
| HostcheckResults.EnvResult | scripts/lab/hostcheck_rows.py:395-413 | the result of the environment check: which stop, in order, and the facts kept with it |
| HostcheckResults.UnitResultIs | scripts/lab/hostcheck_rows.py:438-454 | the result of the unit check: unexpected line, missing key, stale unit, or the facts |
| HostcheckResults.HealthFileResult | scripts/lab/hostcheck_rows.py:479-488 | the health file stops the run exactly when its state is OPTED_OUT or HOLD_OFF |
| HostcheckResults.StateFileResult | scripts/lab/hostcheck_rows.py:479-488 | the state file stops the run exactly when it says released |
| HostcheckResults.Ipv6Result | scripts/lab/hostcheck_rows.py:462-478 | the result of an ip6tables read, with the absent-IPv6 line that is kept |
| HostcheckResults.ClassifyIs | scripts/lab/hostcheck_rows.py:312-321 | how an ip6tables read is classified: the first error line, in any letter case, that says there is no IPv6 |
| HostcheckResults.JsonFactIs | scripts/lab/hostcheck_rows.py:276-298 | what a boot-hold file leaves of one key: its truth value, its word, or only that it is there |
| HostcheckResults.CountsAre | scripts/lab/hostcheck_rows.py:284-288 | the counts of a file: keys, unlisted keys, and whether one names a signature in any letter case |
| HostcheckResults.JsonWordIff | scripts/lab/hostcheck_rows.py:118-118 | a word is one to four runs of at most 32 letters, joined by - or _ |
| HostcheckMeaning.HostNameIs | scripts/lab/hostcheck_rows.py:257-273 | the host's facts: its exact name, or that name with the pinned zone and project, and nothing else |
| HostcheckMeaning.ZoneIff | scripts/lab/hostcheck_rows.py:146-146 | a zone is two words of 2 to 12 letters, one or two digits and a letter |
| HostcheckMeaning.ProjectIff | scripts/lab/hostcheck_rows.py:145-145 | a lab project's name |
| HostcheckMeaning.PeNameIff | scripts/lab/hostcheck_rows.py:113-113 | a container's name: the prefix and 1 to 64 letters or digits |
| HostcheckMeaning.EnvNameIff | scripts/lab/hostcheck_rows.py:114-114 | an environment variable's name |
| HostcheckMeaning.RuleFactsAre | scripts/lab/hostcheck_rows.py:301-309 | the facts of a rule listing: the chain, its drop rule, the jump to it |
| HostcheckMeaning.EnvFactsAre | scripts/lab/hostcheck_rows.py:395-413 | the facts of the environment: how many names, and which of the four are among them |
| HostcheckMeaning.BackendIs | scripts/lab/hostcheck_rows.py:249-254 | which backend an iptables version names |
| HostcheckMeaning.AuditIs | scripts/lab/hostcheck_rows.py:489-499 | the audit row: which lines mention apply-boot with HELD or FAILED |
| HostcheckAllow.AllowHostcheck | scripts/gcp/offline_deliver_1.py:1228-1270 | the row loop and the summary loop give the specified report, or raise |
| HostcheckAllow.AllowIdempotent | scripts/gcp/offline_deliver_1.py:1228-1270 | on arbitrary input a kept report is a fixed point |
| HostcheckAllow.AllowLosesNothing | scripts/gcp/offline_deliver_1.py:1095-1270 | every row, fact and summary field of any report the producer can emit survives unchanged |
| HostcheckAllow.RunAndAllow | scripts/lab/hostcheck_rows.py:324-516 | run, then sanitise: with small numbers and the pinned digest the evidence is the report |
| HostcheckAllow.DecideFits | scripts/gcp/offline_deliver_1.py:1105-1178 | every fact any check can emit has a kind in the separately kept tables |
| HostcheckAllow.AbsentLineSays | scripts/lab/hostcheck_rows.py:312-321 | the stripped IPv6 error line still matches the pattern the allowlist asks for |
| HostcheckAllow.StripKeepsWord | scripts/lab/hostcheck_rows.py:312-321 | stripping a line keeps any word that neither starts nor ends in space |
| HostcheckAllowMeaning.FactOkIff | scripts/gcp/offline_deliver_1.py:1095-1225 | in which rows a fact may stand, and with what value, key by key |
| HostcheckAllowMeaning.RowKeptIff | scripts/gcp/offline_deliver_1.py:1228-1251 | a row is kept exactly when its id, outcome and reason are the producer's and its return code is small |
| HostcheckAllowMeaning.KeptRowIs | scripts/gcp/offline_deliver_1.py:1228-1251 | what is kept of a row: its words as they are, and of its facts those that may stand there |
| HostcheckAllowMeaning.RowRaisesIff | scripts/gcp/offline_deliver_1.py:1228-1251 | an entry raises exactly when it names a row and its outcome is a list or a dict |
| HostcheckAllowMeaning.ReportIs | scripts/gcp/offline_deliver_1.py:1228-1270 | a report is dropped, raises, or is kept with its rows in order and its allowed summary fields |
| HostcheckAllowMeaning.ReasonIff | scripts/gcp/offline_deliver_1.py:1179-1188 | the reasons let through are exactly those the producer writes |
| HostcheckAllowMeaning.SummaryOkIff | scripts/gcp/offline_deliver_1.py:1252-1270 | which summary fields are let through |
| HostcheckAllow.UnitValuesAgree | scripts/gcp/offline_deliver_1.py:1125-1143 | both tables of unit values are the same |
| HostcheckAllow.JsonKeysAgree | scripts/gcp/offline_deliver_1.py:1160-1168 | both tables of file keys are the same |
| HuTranscript.RoundTrip | scripts/lab/host_evidence_hu.py:124-183 | the host passes the guest's own transcript if and only if the facts grade PASS and the printed expectation is the asked one, and then holds the guest's row |
| HuTranscript.PassIff | scripts/lab/host_evidence_hu.py:134-183 | on any text, PASS is exactly: within 200000 characters, no other H-U line, the six named items in order and passing, one PASS verdict, and one JSON line of at most 65536 with the schema and facts that re-grade to PASS with the asked expectation |
| HuTranscript.AcceptIs | scripts/lab/host_evidence_hu.py:134-183 | the row of any text: no passing item when the shape is wrong, else the grade of its facts, stopped unless every line agrees |
| HuTranscript.WellShapedIff | scripts/lab/host_evidence_hu.py:134-166 | which lines make the shape right: six items, one verdict, one JSON line within its size, and no other line of the kind |
| HuTranscript.ReorderedPassIff | scripts/lab/host_evidence_hu.py:134-183 | a reordering of a passing text passes if and only if its item lines kept their order, and is otherwise the missing row |
| HuTranscript.OnlyItemOrderMatters | scripts/lab/host_evidence_hu.py:134-183 | any reordering of any text that keeps the order of its item lines is read as the same row |
| HuTranscript.VerdictFirstSame | scripts/lab/host_evidence_hu.py:124-183 | moving the verdict and the JSON line of any print-out to the front changes nothing |
| HuTranscript.ReorderedPasses | scripts/lab/host_evidence_hu.py:65-183 | the repository's own passing facts, printed with those lines in front, pass |
| HuTranscript.AcceptTranscript | scripts/lab/host_evidence_hu.py:134-183 | the line scan and its checks compute that reader |
| HuTranscript.ScanLines | scripts/lab/host_evidence_hu.py:138-151 | the lines are sorted by kind, and an unknown H-U line ends the scan |
| HuTranscript.OversizedIsStop | scripts/lab/host_evidence_hu.py:136-166 | (reader's aid) a text or a JSON line over its size limit is the missing row |
| HuTranscript.AcceptRaisesIff | scripts/lab/host_evidence_hu.py:134-183 | it raises exactly on a well-shaped text whose facts carry an unhashable expectation |
| HuTranscript.GradePassIff | scripts/lab/host_evidence_hu.py:85-121 | exactly which facts grade PASS, over the fact keys alone: mounts, stores, states, findings, trust documents and their flags, signer |
| HuTranscript.ResultsIff | scripts/lab/host_evidence_hu.py:85-121 | for each of the six items, exactly which facts pass it |
| HuTranscript.RowIs | scripts/lab/host_evidence_hu.py:85-121 | what else the row carries: the mounts, the paths found and the word on an empty store |
| HuTranscript.PassingFactsSurvive | scripts/lab/host_evidence_hu.py:398-433 | facts that pass print as facts with the same row |
| HuTranscript.PublicTrustIs | scripts/lab/host_evidence_hu.py:398-433 | what is printed of the trust store |
| HuTranscript.PublicStatesAre | scripts/lab/host_evidence_hu.py:398-433 | a state is printed as one of three words |
| HuTranscript.CleanMountsLoop | scripts/lab/host_evidence_hu.py:436-452 | the rebuilt mount rows are the given ones, all or none |
| HuTranscript.AcceptedIsPublic | scripts/lab/host_evidence_hu.py:236-286 | the public file's filter returns every document the reader can produce unchanged |
| HuTranscript.ReadItemsLoop | scripts/lab/host_evidence_hu.py:246-254 | the item loop: a bad entry raises, a later entry of a name replaces an earlier one |
| HuTranscript.PublicIdempotent | scripts/lab/host_evidence_hu.py:236-286 | filtering any accepted payload twice equals filtering it once |
| HuTranscript.DocumentFixed | scripts/lab/host_evidence_hu.py:236-286 | any row of the right kind is read back from its own document |
| Lifecycle.SweptExactlyAtExpiry | scripts/aws/w3_lab_auto.py:324-475 | what is made from an accepted plan is kept exactly before the whole second at the planning time plus 60 times the minutes asked for (or their default) and in a delete action at every time from then on |
| Lifecycle.PlanTagsOwned | scripts/aws/w3_lab_auto.py:288-314 | the planner's tags are owned by the sweeper, with the planned life |
| Lifecycle.PlanShape | scripts/aws/w3_lab_auto.py:324-420 | every accepted spec gives a plan whose minutes are within the limit of its shape and life, with the values its readers found |
| Lifecycle.SoakNeverDeleted | scripts/aws/w3_lab_auto.py:284-475 | (reader's aid) a soak-tagged resource is never deleted |
| Lifecycle.SoakPlanIsSoakTagged | scripts/aws/w3_lab_auto.py:324-420 | and every soak plan is so tagged |
| Lifecycle.DeletionMonotone | scripts/aws/w3_lab_auto.py:423-475 | once in a delete action, always in one; any change over time is to a delete action |
| Lifecycle.DeletesOnlyOwned | scripts/aws/w3_lab_auto.py:302-475 | deletion needs the lab's tags, the region, a good id, and no denylist entry or soak tag |
| Lifecycle.SweeperIff | scripts/aws/w3_lab_auto.py:423-475 | exactly which resources are deleted and which are kept, over their tags and times written out |
| Lifecycle.SkipIff | scripts/aws/w3_lab_auto.py:423-456 | which check skips a resource: the first that fails, in order |
| Lifecycle.ReasonIff | scripts/aws/w3_lab_auto.py:456-475 | which reason a deletion has: the first that applies, in order |
| Lifecycle.CostNeverRefuses | scripts/aws/w3_lab_auto.py:210-223 | within its minutes the credit-funded shape never reaches the cost ceiling |
| Lifecycle.PlanIff | scripts/aws/w3_lab_auto.py:324-420 | the planner gives exactly the plan a spec asks for, field by field and tag by tag, and gives none to any other spec |
| Lifecycle.PlanAcceptsIff | scripts/aws/w3_lab_auto.py:324-420 | exactly which specs the planner accepts, in the spec's own values; its cost refusal never applies |
| Lifecycle.MinutesIff | scripts/aws/w3_lab_auto.py:226-234 | minutes are an int, or decimal digits with white space around them, from 1 to the limit |
| Lifecycle.RefusedIff | scripts/aws/w3_lab_auto.py:324-345 | which refused specs are blamed on the instance type and which on the life |
| Lifecycle.RefusedTimesIff | scripts/aws/w3_lab_auto.py:346-362 | which on the minutes |
| Lifecycle.RefusedRestIff | scripts/aws/w3_lab_auto.py:363-380 | which on the name, the purpose or the address flag |
| Launch.ExecuteLaunch | scripts/aws/w3_lab_auto.py:921-999 | nothing is sent before the gate, the identity and a plan; run-instances at most once, with the image, name and user data asked for, and left out exactly for a refused text or egress not closed; with close_egress only right after a describe showing the group closed; no instance means the group's delete is the last thing sent, unless its id is a refused text |
| Launch.RunOnce | scripts/aws/w3_lab_auto.py:963-978 | the one run, with what was asked for, sent unless one of its texts is refused; the launched instance is the first one, if its id is well-formed and not denied; otherwise the rollback |
| Launch.LaunchInGroup | scripts/aws/w3_lab_auto.py:962-978 | closing egress, running and rolling back, once the group exists; without a run a text was refused or a closing call failed |
| Launch.DenyDefaultEgress | scripts/aws/w3_lab_auto.py:1277-1321 | the dry run, the two revokes and the describe in order, each only after a good answer; success if and only if all four were answered well, the last showing no open egress |
| Launch.RevokeAll | scripts/aws/w3_lab_auto.py:1284-1300 | the dry run and the two revokes, stopping at the first bad answer |
| Launch.AllClosed | scripts/aws/w3_lab_auto.py:1259-1321 | the permission loops find an open rule if there is one |
| Launch.Rollback | scripts/aws/w3_lab_auto.py:1324-1330 | the delete is sent if and only if the group id is not a refused text, and the outcome says whether it was answered |
| Launch.RefusedGroupId | scripts/aws/w3_lab_auto.py:835-849 | a well-formed group id that carries a refused text exists, and its delete is never sent |
| Launch.GroupStays | scripts/aws/w3_lab_auto.py:921-999 | every launch that starts against an AWS handing out that id makes a group, ends without an instance, and sends no delete |
| Launch.StaysBehind | scripts/aws/w3_lab_auto.py:835-999 | whatever AWS answers, a group whose id is a refused text outlives its launch |
| Launch.PlansAreAccepted | scripts/aws/w3_lab_auto.py:579-645 | run_instances_args never refuses a plan of the planner |
| Launch.ClosingOkIff | scripts/aws/w3_lab_auto.py:1246-1321 | which answers closing egress goes on with, in the words and fields of a reply |
| Launch.HexIdIff | scripts/aws/w3_lab_auto.py:960-978 | an id is its prefix and 8 to 17 hexadecimal digits in lower case, and perhaps a final newline |
| Launch.NameIs | scripts/aws/w3_lab_auto.py:288-314 | the group is named by the plan's Name tag, the name that was asked for |
| Lsm.PrepareLabLsm | scripts/gcp/offline_deliver_3.py:777-941 | it returns if and only if the replies carry the stock path or the guarded path to its end; then the accepted report is of the boot last waited for, that boot's serial window was read, the returned LSM list has bpf as a token of its own, and after a guarded reboot the command line has it too |
| Lsm.GuardedPath | scripts/gcp/offline_deliver_3.py:841-941 | after the guard asked for a reboot it returns if and only if another boot came, its serial window and a report of it were read, and the report lists bpf in both places, or asks for one more reboot that comes to the same end |
| Lsm.WaitIff | scripts/gcp/offline_deliver_2.py:678-709 | a wait ends in a boot exactly when its first poll naming one that will do comes in time, and in that one |
| Lsm.AwaitBoot | scripts/gcp/offline_deliver_2.py:678-709 | it returns the boot the wait ends in, or nothing when there is none: the last id read, one line, and not a known earlier one |
| Lsm.ConfirmBoot | scripts/gcp/offline_deliver_3.py:849-904 | after the reboot it passes a report on if and only if the serial window was read and the rows or else the live files are of that boot |
| Lsm.ReportsMean | scripts/gcp/offline_deliver_3.py:522-600 | what each test of a report asks for, in the report's keys |
| Lsm.LiveBothMean | scripts/gcp/offline_deliver_3.py:564-586 | what the live files have to say after a guarded reboot, and the report made of them |
| Lsm.FollowUp | scripts/gcp/offline_deliver_3.py:905-925 | the follow-up reboot is confirmed if and only if another boot came and its serial window and live files say so |
| Lsm.AcceptStock | scripts/gcp/offline_deliver_3.py:824-840 | the stock path accepts if and only if the rows, or else the live files, of the waited boot list bpf and its serial window was read |
| Lsm.BpfListedIff | scripts/gcp/offline_deliver_3.py:401-402 | bpf is listed if and only if it stands alone, white space aside, between two commas or a comma and an end |
| Lsm.CmdlineBpfIff | scripts/gcp/offline_deliver_3.py:405-409 | the command line is sealed if and only if one of its words is lsm= and such a list |
| Lsm.ListedIffPartListed | scripts/gcp/offline_deliver_3.py:401-402 | a joined list lists bpf exactly when a part does: no token is made of two |

## Left out

- Subprocess, gcloud, aws, ssh, scp, HTTP and environment plumbing: replaced by oracles and traces.
- Local file failures: stamps, evidence and user-data files are written when the source writes them.
- Text and JSON decoding: models start from decoded values, split lines and classified replies. JSON printing and parsing are taken as inverse of each other, and a malformed-JSON exception out of `aws_json` is not modelled.
- Time text: stamps arrive as numbers or as unreadable; the expiry text of a whole second reads back as that second.
- Clocks: times are real numbers of seconds that never run backwards, and computing takes no time; only calls and sleeps do. A call never outlasts its own timeout.
- Wall-clock time of AWS calls in the teardown: its 790 s bound counts sleeps only.
- Rounding of seconds and Python's float arithmetic: real arithmetic, with rounding a parameter where a rounded value is stored.
- Unicode digits, letter case beyond ASCII and surrogates: digits and case are ASCII; Python's full set of white space is modelled.
- SHA-256 and timestamp patterns are parameters.
- `allow_record` as a whole, redaction, report texts, cost gates and pin comparisons: flat key lists and single-branch checks that would add only easy members.
- `execute_sweep` and the census it sweeps: the decision is modelled, the deletion loop is not.
- The text of launch arguments and user data, and image selection: a launch call carries only the texts that the command filter can refuse.
- `launch_from_env`, describe-only runs and the slot check before a launch.
- Polling intervals in the LSM waits: a wait has time for some number of polls.
- Boot evidence that is only printed, and the mapping of records to evidence files.
- PhaseSchedule.RunPhaseBatteries: the creation time is a parameter; the call that reads it is not part of the run.
- `scripts/release`, `scripts/gcp/redteam_*`, `scripts/aws/enterprise_bundle.py`, `scripts/gap`, the egress drills and the editor extension: linear I/O with equality tests, or user interface.
- TreeRemoval.RemoveEvidencePath: link targets are absolute paths without "..", and a path follows a bounded number of links; hard links and changes made by others meanwhile are not modelled.
- Names of hostcheck facts: producer and allowlist share one datatype, so fact names are not compared as text; row ids, outcomes and reasons are.
- CanonicalReader.ReadJson: reads compact JSON without fractions, exponents or surrogate pairs; canonical text has none of them.
- PhaseRow.PerformancePassIff: rows are sanitised before they are graded, so that Python's 1 == True and 1 == 1.0 do not arise.
