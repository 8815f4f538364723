# A verified model of dashdiag's shared state, diagnosis and verdicts

dashdiag (`dsd`) examines a host, derives insights from what its collectors read, diagnoses from the insights,
and reports verdicts as text, JSON and exit codes. This project models the parts of it that share state, run
concurrently, aggregate in an order Go leaves open, or compute the same verdict in two places, and proves what
they promise.

`dafny verify dfyconfig.toml` checks everything.

## What is modelled

| modules | subject |
|---|---|
| `McpPipeline`, `McpTable`, `McpSafety`, `McpRelease`, `McpStrays`, `McpGaps`, `McpRender`, `McpCaptured`, `McpUnlocked`, `ProcessState`, `ReplaySession` | the MCP tool handlers: a transition system over any number of concurrent calls with program counters, defer stacks, reads and abandoned collectors; and the replay transactions on mutable fields |
| `Heuristics`, `HealthRun`, `Diagnosis`, `Insights`, `Sequences` | from collector results to insights: prescan, injection, SELinux deduplication, hints; what the report holds, and why completion order does not matter |
| `Correlate`, `DiagnosisContents`, `CoOccurrence`, `SampleReadings`, `Evidence`, `UnreadSignals`, `DeepRules` | the index of worst levels, the sixteen rules and what their diagnoses rest on, and two rules on raw collector data |
| `InstallHints`, `InstallPattern`, `InstallMatching`, `InstallRewrites`, `InstallForms`, `HostHints` | the install pattern, the rewrites that use it, and the hint on each host |
| `ExitCode` | the pending exit code and the run verdict |
| `Certify`, `StatusWords`, `Migration`, `DiffLines` | certification of one migration and of a wave, from two snapshots to the exit code |
| `Consequences`, `Categories`, `Bullets`, `FixGroups`, `FixCommands`, `Compare`, `Majority`, `Capture`, `Fixtures` | aggregations over Go maps, grouping of fixes, the host matrix, capture and mock |
| `Tls`, `TlsReports` | the two TLS verdicts, and what the scans report |
| `Watch`, `WatchDiff`, `StableSort` | watch mode: channels, countdowns, printed changes |
| `Text`, `Wrappers` | strings as `strings` treats them, `Option` and `Result` |

A Go map that is ranged over is a set from which an arbitrary element is taken next (`:|`), and an unstable sort
is any list the comparator allows; so each result about such code holds for every order.

Code that updates fields, arrays or local structures step by step is a class or a method with loops, proved
against a function or a quantified specification; the lemmas are about that specification. For the functions at the
centre a lemma says what they yield without naming them: positions, fields, words and bounds are written out.

## Where the code differs from its comments

The model follows the code. For each difference there is a lemma with an input or a run that shows it, and one that
says exactly when the code does what the comment says.

- `cmd/mcp.go:188-202` says the mutex keeps one call's collectors from reading through, or teeing into, another's
  source. A collector that ignores its deadline is abandoned, not stopped, and its later reads go through whatever
  is then active. `LockDoesNotStopStrays`, `LockDoesNotStopMisreads`; `ContaminationIffStray`.
- `cmd/mcp.go:346` says dsd_replay returns the verdict for the captured host. Its rendering runs after the captured
  identity and platform were undone, so it carries the server's host name and OS; `cmd/replay.go:153-156` pins them
  again for this reason. `ReplayRendersServer`; `RenderSeesReportedIff`.
- `internal/runner/runner.go:33-41` says the mark NotRecorded tells whether the collector itself hit a gap. Reads of an
  abandoned collector count, too. `MisattributionHappens`; `NotRecordedMeans`, `MisattributionIffStray`.
- `cmd/exitcode.go:72-76` says the recorded code is kept in lockstep with the run verdict. A needs-root insight
  raises the first and not the second. `CodesDisagreeWithoutRoot`; `CodesAgreeIff`.
- `internal/analysis/correlate.go:156-163` says confirmedNot is true only when the signal was actually checked. An insight
  that says it could not be read counts, too. `UnreadSwapIsNotConfirmed`, `FailedSwapCollectorDiagnosed`;
  `ConfirmedUnreadIff`, `RestsOnUnreadIff`.
- `cmd/migrate.go:241-249` says an absence is unconfirmed when the destination could not confirm it. The flag is
  that of the source snapshot. `VanishedWarningPasses`; `AbsenceFlagIsTheSources`.
- `cmd/explain.go:98-99` says fixes are deduplicated by check and command. They are by `check|command`, which a
  check name with a bar can make ambiguous. `BarLosesCommand`; `NothingLostIffNoCollision`.
- `internal/collectors/tls.go:150-155` says a certificate that expired less than a day ago must not have 0 days left.
  That is so for endpoints; `cmd/tls.go:296` gives a file 0 days. `FreshlyExpiredDiffers`; `FileMatchesEndpointIff`.
- `cmd/capture.go:269-270` gives `Sysctl: swappiness` as an example of a prefix match for `Sysctl`.
  `SwappinessIsMissed`; `BelongsIff`.
- `cmd/mock.go:202-209` calls the replay faithful. The unverified mark is not captured, so the verdict can change.
  `ReplayLosesVerdict`; `ReplayKeepsVerdictIff`.
- `cmd/compare.go:311` speaks of the host that diverges most from the majority. A host scores by standing alone, with
  or without a majority. `NoMajorityNamesTheFirst`, `SharedMinorityNamesNobody`; `AloneIsDivergingIff` for a check,
  `ScoresMajorityIff` for all, on the frequencies of the rows. That the named host diverges most
  (`OutlierDivergesMost`) has this as a sufficient condition only.

Three more results are about code whose comments promise nothing:

- The two verdicts of `dsd tls` agree only for sound thresholds. `UnsoundThresholdsDisagree`;
  `AgreementIffSoundThresholds`, `CriticalImpliesExitTwoIff`, `ExitTwoImpliesCriticalIff`.
- Where other rules need an insight filed under a signal to rule it out, the rule for I/O-driven load
  (`internal/analysis/correlate.go:379-402`) takes a missing one for a low steal, as documented.
  `IODrivenNeedsNoStealReading`.
- `cmd/consequences.go:87-88` lists `KernelSec` for security, but the case before it takes every name that starts with
  `Kernel`: such a check counts as patches. `CategoryIff`.

## Assumptions

- The individual checks are an arbitrary function of a payload and the thresholds. `FailedCollectorFloorsVerdict`
  assumes that a KernelSec denial is at least a warning.
- `DiagnosisIgnoresCompletionOrder` assumes that results which speak to one value agree on it (`NoCompetition`):
  package manager, load, CPU limit, hints of the Hardening verdict. `OneResultPerTypeIgnoresOrder` derives this from
  one result per model type, given that the checks of one type alone emit the Hardening denial, as
  `internal/analysis/heuristics_security.go:586-610` does, and that no collector error reads like one. So one health
  run has one Hardening verdict at most, and `LosesNoHintIff` says that it loses no hint.
- The model of the MCP handlers does not assume that collectors stop before their call returns. A read through a
  bundle may be refused or not; which, is left open.
- Watch mode needs a positive interval, as the ticker does.

## Model

| member | source | states |
|---|---|---|
| `McpTable.StepFollowsTable` | cmd/mcp.go:224-468 | each instruction of each of the five handlers (seven control flows) takes a call from one row of the table of expected globals, undo stacks and held restores to the next |
| `McpTable.ReplayFollowsTable` | cmd/replay.go:109-134 | the same for the body of replayBundle, for either bundle of a diff |
| `McpTable.ReturnRestores` | cmd/mcp.go:224-468 | wherever a handler can return, early errors included, its LIFO defers give back the globals it found and release the mutex last and once |
| `McpTable.LeaveRestores` | cmd/replay.go:109-134 | when replayBundle returns, its four defers give back the caller's globals, because no gap counter was installed on entry |
| `McpSafety.NextKeepsInv` | cmd/mcp.go:188-202 | every step of every interleaving keeps the invariant: who holds the mutex, what the globals are then, what every past read saw |
| `McpSafety.FreeMutexMeansStartupGlobals` | cmd/mcp.go:188-202 | in every reachable state in which the mutex is free, source, gap counter, identity and platform have their startup values |
| `McpSafety.MutualExclusion` | cmd/mcp.go:188-202 | two calls past the lock and not finished are the same call, and it holds the mutex |
| `McpSafety.ReadsAreOwn` | cmd/mcp.go:224-468 | in every run every read that a call issues itself, rendering included, sees exactly what this call has in force at that point, and nothing of another call |
| `McpRender.RenderSeesReportedIff` | cmd/mcp.go:346-376 | in every run the rendering of each tool sees the identity and platform of the host it reports on; in dsd_replay it sees the captured host, field by field, iff the server itself runs under those fields |
| `McpRender.RenderShowsReportedIff` | internal/render/json.go:166-167 | the same of the host name and OS that are shown, where an empty override leaves the live value |
| `McpRender.ReplayRendersServer` | cmd/mcp.go:362-363 | a run of dsd_replay over a bundle captured on "db1", on any server of another name, whose rendering sees the server |
| `McpRender.SnapshotShowsServerOS` | cmd/share.go:205-223 | a shared snapshot is rendered under its host name and the OS of the server |
| `McpCaptured.ReplayedReadsSeeCapturedHost` | cmd/replay.go:109-134 | in every run a read inside a replay goes to the bundle of that replay and sees, in each of host, OS, distro ID, init system and GOOS, the field of that manifest without its control characters, and as it is where it has none |
| `McpCaptured.RenderingsSee` | cmd/mcp.go:346-468 | in every run a shared bundle is rendered under the fields of its manifest, a shared snapshot under its host name and no OS, everything else under those of the server, never from a bundle; an empty field shows as the live one |
| `McpCaptured.CollectsFromIff` | cmd/mcp.go:346-468 | dsd_replay and dsd_share collect from their bundle, dsd_diff from both of its, no other tool from any |
| `ProcessState.PinnedIsCapturedHost` | internal/platform/identity.go:51-92 | pinning a manifest sets each of the five fields to the printable characters of its own string |
| `McpSafety.OnlyStraysContaminate` | cmd/mcp.go:188-202 | a read that goes into or through another call's source was issued by an abandoned collector |
| `McpRelease.HolderReleases` | cmd/mcp.go:224-468 | in every interleaving a call that holds the mutex throughout takes at most a fixed number of steps and always has one to take: under every schedule that does not starve it, it lets go |
| `McpRelease.MutexIsReleased` | cmd/mcp.go:224-468 | from every such state the holder alone can run to the release, abandoning nothing |
| `McpStrays.NoStrayNoContamination` | cmd/mcp.go:188-202 | with no abandoned collector outstanding and none newly abandoned, no read is recorded into, or answered from, a foreign bundle |
| `McpStrays.StrayReads` | internal/collectors/collector.go:46-99 | an abandoned collector reads through whatever is active next: a Recorder that tees it, or a Replay that answers or refuses it |
| `McpStrays.ContaminationIffStray` | cmd/mcp.go:188-202 | exact condition, for tees into a foreign Recorder, for reads through a foreign Replay, and for either: from a reachable state it can happen if and only if an abandoned collector is outstanding |
| `McpStrays.TimeoutLeavesStray` | internal/runner/runner.go:77-131 | such states are reachable: a collector that ignores its deadline outlives its call |
| `McpStrays.LockDoesNotStopStrays` | cmd/mcp.go:188-202 | a run, with the lock, in which a capture records a read of another call |
| `McpStrays.LockDoesNotStopMisreads` | cmd/mcp.go:188-202 | a run, with the lock, in which a read is answered from the bundle that another call replays |
| `McpGaps.GapsRise` | internal/source/replay.go:13-27 | the counter rises over a stretch of a run iff some read in it was refused by that replay |
| `McpGaps.NotRecordedMeans` | internal/runner/runner.go:33-60 | in every run a collector is marked iff it or an abandoned one was refused an input while it ran; so the mark says that the collector itself hit a gap iff no abandoned one did instead |
| `McpGaps.MisattributionIffStray` | internal/runner/runner.go:33-60 | exact condition: a wrong mark can follow a reachable state if and only if an abandoned collector is outstanding |
| `McpGaps.MisattributionHappens` | internal/runner/runner.go:33-60 | a run, with the lock, in which a collector that was refused nothing is marked |
| `McpUnlocked.WithoutLockRecorderLeaks` | cmd/mcp.go:269-345 | a run of two captures without the lock after which both have returned and the process goes on recording into the first one's bundle |
| `ReplaySession.Process.RunAll` | internal/runner/runner.go:44-60 | every collector sees the globals of the moment; with a gap counter each is marked iff it, or an abandoned one meanwhile, was refused an input, without one none is |
| `ReplaySession.Process.ReplayBundle` | cmd/replay.go:109-134 | every collector sees the bundle, its gap counter and, field by field, the captured host; marks as for RunAll; afterwards everything is as before, except that the gap counter is nil: the call is transparent iff it found none |
| `ReplaySession.Process.RenderCaptureDiff` | cmd/replay.go:247-256 | a bundle of another platform is refused before anything is replayed, unless forced; then first the baseline and then the current bundle is replayed, each seeing its own captured host, and the globals are unchanged |
| `ReplaySession.Process.ShareFromBundle` | cmd/share.go:180-196 | on every path the globals come back; it fails iff the bundle does not load, is of another platform or does not render; rendering sees the captured host over the live source |
| `ReplaySession.GuardRefusesIff` | cmd/replay.go:229-242 | a bundle is refused iff not forced and its GOOS, or without one the system that its OS names in any case, is another than the one running |
| `ProcessState.StripControlPicks` | internal/platform/identity.go:24-40 | what is left of a manifest string are the characters at exactly the positions without a control character, in their order |
| `Heuristics.PrescanContext` | internal/analysis/heuristics.go:205-269 | the loop computes the last word on package manager, load and CPU limit and any sighting of enforcing SELinux, pools and swapping |
| `Heuristics.PrescanResult` | internal/analysis/heuristics.go:205-269 | what one result contributes to the prescan |
| `Heuristics.Inject` | internal/analysis/heuristics.go:27-62 | in place, exactly the results that carry a payload the prescan informs are changed, and as specified |
| `Heuristics.Collect` | internal/analysis/heuristics.go:64-81 | failed collectors become unverified INFO insights with their reason, the others their checks' insights, marked where not recorded |
| `Heuristics.MarkNotRecorded` | internal/analysis/heuristics.go:1222-1236 | only unverified insights get the not-recorded reason |
| `Heuristics.DedupeSELinuxDenials` | internal/analysis/heuristics.go:96-138 | the three loops compute the specified deduplication |
| `Heuristics.AdaptHints` | internal/analysis/heuristics.go:145-184 | in place, the hints of every insight are replaced by their rewrites, in order, dropped ones left out |
| `Heuristics.ApplyThresholds` | internal/analysis/heuristics.go:27-83 | the whole pass computes `Analyzed`; `HealthRun` says what that is |
| `HealthRun.ReportFollowsResults` | internal/analysis/heuristics.go:27-83 | for all results, thresholds, checks and rewrites: the report is the contributions of the results in order, without Hardening verdicts where a KernelSec verdict stands, with only hints changed: merged there, rewritten everywhere; a contribution is what the check says of the informed payload, or the failure |
| `HealthRun.ChecksAreTold` | internal/analysis/heuristics.go:27-62 | a Systemd, Sysctl or CPU payload reaches its check with each flag set iff some result shows that condition and with the last CPU limit; every check gets the last package manager and load |
| `HealthRun.SightingsMean` | internal/analysis/heuristics.go:205-269 | which payloads show enforcing SELinux, pools and swapping |
| `HealthRun.SayingMeans` | internal/analysis/heuristics.go:205-269 | which payloads speak to package manager, load and CPU limit |
| `HealthRun.NeverBothVerdicts` | internal/analysis/heuristics.go:81-83 | no report holds both verdicts on the SELinux denials |
| `HealthRun.DroppedHintsAreReported` | internal/analysis/heuristics.go:96-138 | with one Hardening verdict every KernelSec verdict of the report carries its hints, rewritten |
| `Diagnosis.PrescanIgnoresOrderIff` | internal/analysis/heuristics.go:205-269 | exact condition: the prescan of every completion order is the same iff the results that speak to one value agree on it |
| `Diagnosis.OneResultPerTypeAgrees` | internal/analysis/heuristics.go:205-269 | one result for each of the three model types whose values are copied is enough |
| `Diagnosis.OneResultPerTypeCompetesNot` | internal/analysis/heuristics.go:205-269 | one result per model type is enough, also for the Hardening hints, where the checks of one type alone emit the Hardening denial |
| `Diagnosis.OneResultPerTypeIgnoresOrder` | cmd/health.go:614-618 | hence, with one result per model type, insights up to order, diagnoses, recorded exit code and verdict are the same for every completion order |
| `Diagnosis.CompetitionShows` | internal/analysis/heuristics.go:205-269 | two results with different package managers give different thresholds in the two orders |
| `Diagnosis.DiagnosisIgnoresCompletionOrder` | cmd/health.go:614-618 | for every completion order: a permutation of the same insights, the same diagnoses, the same recorded exit code and the same verdict |
| `Diagnosis.SameInsightsSameOutcome` | internal/analysis/correlate.go:43-102 | diagnoses and both exit codes depend only on which insights there are |
| `Diagnosis.DedupeConserves` | internal/analysis/heuristics.go:96-138 | everything except Hardening denials survives in order with level, check, message and flags; denials go only where a KernelSec denial stays |
| `Diagnosis.DedupeLeavesNoPair` | internal/analysis/heuristics.go:96-138 | the two SELinux verdicts never both remain |
| `Diagnosis.DedupeIdempotent` | internal/analysis/heuristics.go:96-138 | deduplicating twice is deduplicating once |
| `Diagnosis.FoldedKeepsHints` | internal/analysis/heuristics.go:96-138 | folding only appends: the old hints are a prefix, the new ones are all there and new |
| `Diagnosis.DedupeKeepsDroppedHints` | internal/analysis/heuristics.go:96-138 | with one Hardening verdict every hint of a dropped insight is in the remaining one |
| `Diagnosis.LosesNoHintIff` | internal/analysis/heuristics.go:96-138 | exact condition: no hint of a dropped insight is lost iff each is in the last Hardening denial or in the KernelSec denials already |
| `Diagnosis.SecondHardeningVerdictHidesFirst` | internal/analysis/heuristics.go:96-138 | with two different Hardening denials, which one health run cannot produce, the hints of the first are lost |
| `Diagnosis.FailedCollectorFloorsVerdict` | internal/render/verdict.go:43-54 | a failed collector keeps both exit codes at 1 or more even where the verdict sees only the insights, through deduplication and every hint rewrite |
| `ExitCode.ExitStatus.constructor` | cmd/exitcode.go:59-59 | a command starts with no pending code |
| `ExitCode.ExitStatus.Record` | cmd/exitcode.go:61-66 | the pending code is raised, never lowered |
| `ExitCode.ExitStatus.RecordWorstInsight` | cmd/exitcode.go:77-89 | the pending code becomes the maximum of itself and the worst insight's code |
| `ExitCode.WorstCodeIsMaximum` | cmd/exitcode.go:77-89 | that code is a maximum over the insights, attained |
| `ExitCode.Verdict` | internal/render/verdict.go:55-99 | all counts are those of the insights and results, NotRun and Skipped count checks, and the level is that of the quantified specification |
| `ExitCode.CodesAgreeIff` | cmd/exitcode.go:68-89 | exact condition: the recorded code and the verdict agree unless a run reports nothing but unread root-only sources; the comment says they are in lockstep |
| `ExitCode.CodesMeaning` | cmd/exitcode.go:68-89 | both codes on levels and marks: 2 iff some insight is CRIT, 0 iff none is CRIT, WARN or, for the verdict unless it needs root, unverified, and no collector failed |
| `ExitCode.CodesDisagreeWithoutRoot` | cmd/exitcode.go:68-89 | a concrete insight on which they differ |
| `Correlate.BuildIndex` | internal/analysis/correlate.go:112-126 | the nested loops compute the index function |
| `Correlate.IndexHoldsFirstWorst` | internal/analysis/correlate.go:112-138 | an index entry is the first of the highest-ranking insights filed under its key |
| `Correlate.ReportedIsMaximum` | internal/analysis/correlate.go:112-138 | what the index reports is the maximum rank over all insights filed under the key |
| `Correlate.SignalTests` | internal/analysis/correlate.go:141-175 | atLeast, exact and confirmedNot are thresholds on that severity; confirmedNot also needs a reading |
| `Correlate.FiresIffWarranted` | internal/analysis/correlate.go:183-677 | each of the 16 rules fires exactly on its condition over reported severities, said without the index |
| `Correlate.Correlate` | internal/analysis/correlate.go:43-102 | the 16 tests in order yield the fired rules; an empty list yields none |
| `DiagnosisContents.DiagnosesMeaning` | internal/analysis/correlate.go:43-102 | the list holds one diagnosis for each rule whose condition the reported severities meet, in the order of the rules, each with the name, level and checks these severities call for |
| `DiagnosisContents.DiagnosisSays` | internal/analysis/correlate.go:183-677 | for each of the 16 rules, in terms of what is reported: its name, its level, and that an optional check is listed iff its signal reaches the level of the rule |
| `DiagnosisContents.FiledUnderIff` | internal/analysis/correlate.go:112-138 | an insight is filed under its check and under what stands before the first slash of it, in any case |
| `Correlate.NothingDiagnosedFromNothing` | internal/analysis/correlate.go:43-46 | the early return for no insights agrees with the rules |
| `Correlate.ParentRanksAtLeast` | internal/analysis/correlate.go:131-138 | a parent key ranks at least as high as each of its sub-checks |
| `Correlate.LoadDominates` | internal/analysis/correlate.go:379-419 | so the CPU Load conjunct of the iowait and steal rules is implied by their sub-check conjunct |
| `Correlate.DiagnosesIgnoreOrder` | internal/analysis/correlate.go:43-126 | diagnoses depend only on which insights there are, although rank-0 index entries depend on their order |
| `Correlate.MoreInsightsReportMore` | internal/analysis/correlate.go:112-138 | adding insights never lowers a reported severity |
| `Correlate.AddedInsightsRetract` | internal/analysis/correlate.go:183-677 | adding insights retracts a fired rule exactly when its own negative signal reaches the excluded level; eleven rules have none |
| `Correlate.ContradictionsNeverCoOccur` | internal/analysis/correlate.go:164-677 | the contradictory pairs of diagnoses never fire on one insight list |
| `CoOccurrence.CoOccurIffNotExcluded` | internal/analysis/correlate.go:164-677 | exactly these pairs: for every other pair of rules some insight list fires both |
| `Correlate.RuledOutMeansReported` | internal/analysis/correlate.go:164-175 | every "confirmed not" conjunct of a fired rule has an insight filed under the signal, and none at the excluded level |
| `UnreadSignals.ConfirmedUnreadIff` | internal/analysis/correlate.go:156-167 | exact condition for confirmedNot to hold of a signal that was not read: insights are filed under it, all unverified, the worst not at the level |
| `UnreadSignals.RestsOnUnreadIff` | internal/analysis/correlate.go:183-677 | exact condition for a rule to fire on a signal that was not read: its positive conjuncts hold, each signal it rules out has insights, below the excluded level, and one of them only unverified ones |
| `UnreadSignals.ReadSignalsAreConfirmed` | internal/analysis/correlate.go:156-167 | where no ruled-out signal has only unverified insights, every fired rule has a measured insight for each |
| `UnreadSignals.UnreadSwapIsNotConfirmed` | internal/analysis/heuristics_resources.go:253-265 | three literal insights, one that swap was not measured: "Hard OOM Event" is diagnosed |
| `UnreadSignals.FailedSwapCollectorDiagnosed` | internal/analysis/heuristics.go:64-72 | through the whole pass, for every threshold and hint rewrite: the swap collector fails and "Hard OOM Event" is diagnosed |
| `Correlate.IODrivenNeedsNoStealReading` | internal/analysis/correlate.go:379-402 | the I/O-driven rule is the exception: it fires although nothing is filed under steal |
| `Evidence.DiagnosesAreTheFired` | internal/analysis/correlate.go:43-102 | the list of diagnoses holds what the sixteen rules give and nothing else |
| `Evidence.EvidenceIsReported` | internal/analysis/correlate.go:183-677 | every check that a diagnosis lists is reported by an insight at WARN or above, or is an active GPU |
| `Evidence.CriticalRestsOnCritical` | internal/analysis/correlate.go:183-677 | a critical diagnosis rests on a critical insight under a check it lists, except from the steal and entropy rules |
| `Evidence.StealEscalates` | internal/analysis/correlate.go:404-432 | the exception is real: one warning makes a critical diagnosis |
| `DeepRules.CountKills` | internal/analysis/correlate.go:814-866 | the map holds the number of kills of each named process |
| `DeepRules.ServiceMemoryLeak` | internal/analysis/correlate.go:814-866 | for every order of the map's keys: reported iff some process was killed twice, and then the leakiest one with its count |
| `DeepRules.LeakiestIsUnique` | internal/analysis/correlate.go:814-866 | most kills, then smallest name, singles out one process |
| `DeepRules.LeakIgnoresEventOrder` | internal/analysis/correlate.go:814-866 | the report does not depend on the order of the kill records |
| `DeepRules.SingleDeviceDegradation` | internal/analysis/correlate.go:774-812 | the loop reports the one degraded device and the number of its healthy peers |
| `DeepRules.SingleDegradedMeaning` | internal/analysis/correlate.go:774-812 | a device is reported iff it is the only slow one and some other is quick, with the number of quick ones; the limits are written out |
| `DeepRules.DegradationIgnoresDeviceOrder` | internal/analysis/correlate.go:774-812 | and gives the same answer for every order of the devices |
| `DeepRules.SelectKeepsCounts` | internal/analysis/correlate.go:774-812 | classifying devices neither loses nor duplicates one |
| `InstallPattern.FindsLeftmostLongest` | internal/analysis/heuristics.go:565-572 | the matcher finds a package iff the pattern of rePkgInstall fits somewhere, and then the longest name at the leftmost place |
| `InstallPattern.FitsOnce` | internal/analysis/heuristics.go:565-572 | at one place the pattern captures one name: the order of the keywords does not matter |
| `InstallHints.DistroifyInstallHints` | internal/analysis/heuristics.go:627-652 | in place, every hint becomes its rewrite |
| `InstallRewrites.TransactionalOutputNeverMatches` | internal/analysis/heuristics.go:706-715 | no output of the transactional rewrite matches the pattern again, for every hint |
| `InstallRewrites.OstreeOutputNeverMatches` | internal/analysis/heuristics.go:732-743 | no output of the ostree rewrite matches the pattern again, for every hint |
| `InstallRewrites.ImmutableHostsNeverInstallLive` | internal/analysis/heuristics.go:145-184 | on an immutable host, for every hint and every NixOS and platform rewrite, the platform rewrite gets a hint without a package-manager install, or the hint is dropped |
| `HostHints.ImmutableRunsNeverInstallLive` | internal/analysis/heuristics.go:27-83 | for all results, checks and thresholds, every hint of every insight of a run on an immutable host is the platform form of a hint without a package-manager install |
| `InstallRewrites.ImmutableFormIsFinal` | internal/analysis/heuristics.go:152-176 | after the immutable rewrites the package-manager stage changes nothing |
| `InstallRewrites.DistroKeepsPackageAndTail` | internal/analysis/heuristics.go:640-666 | the dnf, tdnf and zypper rewrite keeps the package it found and the action after `&&` |
| `InstallRewrites.DistroFixIdempotent` | internal/analysis/heuristics.go:640-666 | and is idempotent on every string |
| `InstallRewrites.RewriteIdempotentIff` | internal/analysis/heuristics.go:640-683 | exact condition for rewrites whose output does not match: the carried-over tail installs nothing else |
| `InstallRewrites.GentooIdempotentIff` | internal/analysis/heuristics.go:668-683 | that condition for the emerge rewrite |
| `InstallRewrites.PacmanApkIdempotentIff` | internal/analysis/heuristics.go:640-666 | that condition for pacman and apk |
| `InstallRewrites.OtherHintsPassThrough` | internal/analysis/heuristics.go:145-184 | a hint without an install suggestion reaches the platform rewrite unchanged on every host but NixOS |
| `InstallRewrites.AdaptingTwice` | internal/analysis/heuristics.go:145-184 | on a plain dnf, tdnf or zypper host adapting the install hints twice is adapting them once |
| `InstallForms.InstallHintOnHost` | internal/analysis/heuristics.go:145-184 | to the letter, by distro ID: "to fix: ", the install command of the host (tdnf, zypper, dnf, pacman or apk), the package at the leftmost place of the pattern and what follows `&&`; the emerge, transactional-update or rpm-ostree form; or the hint as it is |
| `InstallForms.InstallHintOnReadOnlyGentoo` | internal/analysis/heuristics.go:145-184 | there the emerge form comes first, and an install in what it carries over is adapted in its place |
| `InstallForms.OtherHintOnHost` | internal/analysis/heuristics.go:145-184 | a hint in which the pattern fits nowhere stays as it is, and one that the NixOS stage drops is dropped |
| `InstallForms.ManagerIff` | internal/analysis/heuristics.go:595-625 | which distro IDs get which install command, by the words they mention in any case |
| `InstallForms.TailIsCarriedOver` | internal/analysis/heuristics.go:640-652 | what is carried over starts at the first `&&` and ends before the blanks at the end |
| `Consequences.CollectHosts` | cmd/consequences.go:23-43 | each category and level holds the union of the hosts of its issues |
| `Consequences.DropSubsumed` | cmd/consequences.go:23-52 | deleting while ranging over the map, in any order, keeps exactly CRIT and the WARNs without CRIT |
| `Consequences.FleetConsequences` | cmd/consequences.go:23-74 | the bullets are the first five of some sort, allowed by the comparator, of the surviving entries |
| `Consequences.SortsAgreeOnLevelsAndCounts` | cmd/consequences.go:53-65 | all sorts the comparator allows agree on the sequence of levels and counts |
| `Consequences.BulletsAreDetermined` | cmd/consequences.go:23-74 | so two runs over the same issues show the same levels and counts, whatever the map order and the sort |
| `Consequences.BulletsAreTruthful` | cmd/consequences.go:23-74 | one severity per category, counts are sizes of host sets, CRIT first, counts falling within a level, nothing omitted below five |
| `Bullets.BulletsMeaning` | cmd/consequences.go:23-74 | on the issues: at most five bullets, one per category, at CRIT iff the category has a CRIT issue, counting each host of those issues once, CRIT first, more hosts first, and below five no category missing |
| `Categories.CategoryIff` | cmd/consequences.go:76-100 | which words at the start of a check name give which category; the order of the cases matters for two words only, "Pressure" and "KernelSec" |
| `Consequences.UnknownLevelLeavesOrderOpen` | cmd/consequences.go:53-65 | with an unknown level the comparator allows sorts that disagree: levels in {CRIT, WARN} are needed |
| `Certify.CertifyVerdict` | cmd/migrate.go:250-278 | the loop with its early continues and raised verdict computes a join over the entries |
| `Certify.CertifyEntry` | cmd/migrate.go:250-278 | one round of it joins one entry's contribution |
| `Certify.CertifiedAppend` | cmd/migrate.go:250-278 | certification is a homomorphism: concatenated diffs give the joined verdict and the concatenated lists |
| `Certify.CertifiedMeaning` | cmd/migrate.go:250-278 | the verdict is the worst contribution and the lists hold exactly the entries that count |
| `Certify.ListsMeaning` | cmd/migrate.go:250-278 | regressions are the entries that got worse or became unmeasurable, unconfirmed those that vanished with the flag set, each in the order of the diff |
| `StatusWords.SeverityMeaning` | cmd/migrate.go:199-212 | which words, in any case and between blanks, have which severity |
| `StatusWords.AbsentMeaning` | cmd/migrate.go:250-278 | which tokens say that a check is not there |
| `StatusWords.FirstTokenMeaning` | cmd/migrate.go:214-220 | where the first token of a text starts and ends |
| `Certify.FailIffNewlyCritical` | cmd/migrate.go:250-278 | FAIL iff some present entry became critical from below |
| `Certify.PassIffNothingReported` | cmd/migrate.go:250-278 | PASS iff both lists are empty |
| `Certify.CertifyWave` | cmd/migrate_wave.go:108-160 | each pair is certified or, where it does not load, failed |
| `Certify.WaveWorstVerdict` | cmd/migrate_wave.go:163-185 | with its early return the loop still computes the join |
| `Certify.WorstMeaning` | cmd/migrate_wave.go:163-185 | that join is a maximum, attained |
| `Certify.WaveIsOneCertification` | cmd/migrate_wave.go:131-185 | a wave's verdict is that of certifying the concatenation of its pairs; one load error forces FAIL |
| `Certify.EmitWave` | cmd/migrate_wave.go:251-297 | the counters partition the wave, the verdict is the join, the exit code is 2 for FAIL, 1 for WARN, 0 for PASS, and they agree with each other |
| `Certify.VerdictMatchesCounts` | cmd/migrate_wave.go:251-297 | FAIL iff a pair failed, PASS iff none failed or warned |
| `Migration.ComputeDiff` | internal/baseline/baseline.go:321-410 | the bucketing over two maps computes the specified diff |
| `Migration.DiffMembers` | internal/baseline/baseline.go:321-410 | the diff has an entry for each check of the later snapshot and each vanished problem, and no other |
| `DiffLines.DiffMeaning` | internal/baseline/baseline.go:321-410 | on the two snapshots: first what got worse, then problems that are gone, then what got better, then the rest, each in its order, with the status, value and flag of both sides |
| `Migration.FirstTokenRoundTrip` | cmd/migrate.go:210-220 | the status that ComputeDiff wrote before a value is read back, whatever the value |
| `Migration.StatusRoundTrip` | cmd/migrate.go:199-220 | for every known status the textual round trip keeps the severity |
| `Migration.CertifiedMigration` | cmd/migrate.go:250-278 | end to end, on snapshots: FAIL iff a check is critical and was not; PASS iff nothing got worse and no vanished problem was unverified |
| `Migration.AbsenceFlagIsTheSources` | internal/baseline/baseline.go:380-402 | an absence is unconfirmed iff the source's reading was unverified; the comment of certifyVerdict speaks of the destination's |
| `Migration.VanishedWarningPasses` | internal/baseline/baseline.go:380-402 | two literal snapshots that differ in the source's flag alone: one passes, one does not |
| `FixGroups.HealthFixGroups` | cmd/explain.go:100-132 | the loops with idx, seen and groups compute the grouping |
| `FixGroups.AddFix` | cmd/explain.go:100-132 | one command keeps the three structures in step |
| `FixGroups.GroupedLists` | cmd/explain.go:100-132 | a command is listed under a check iff it is the first with its key; check names are distinct |
| `FixGroups.NothingLostIffNoCollision` | cmd/explain.go:100-132 | exact condition: no command is lost iff no two different fixes share the key check|command |
| `FixGroups.NoBarNoCollision` | cmd/explain.go:100-132 | names without a bar are enough |
| `FixGroups.BarLosesCommand` | cmd/explain.go:100-132 | a concrete pair of fixes of which one is lost |
| `FixGroups.OnlyFixesListed` | cmd/explain.go:100-132 | nothing is listed that is not a fix of the run |
| `FixGroups.FixesAreClean` | cmd/explain.go:79-132 | every listed command comes from a "to fix:" hint of a WARN or CRIT insight of its check and is clean |
| `FixCommands.CommandIff` | cmd/explain.go:88-116 | a hint asks for a command iff it starts with "to fix:" and something else than margins follows; the command is that text with a blank for each control character |
| `FixCommands.FixesMeaning` | cmd/explain.go:100-132 | the fixes of a run are the commands of all hints of its WARN and CRIT insights, each once, in report order |
| `FixGroups.CommandsAreClean` | cmd/explain.go:79-97 | no control character, no blank at either end, not empty |
| `FixGroups.SanitizeKeepsIffClean` | cmd/explain.go:88-97 | sanitizing leaves a command as it is iff it is clean or empty, so a second time changes nothing |
| `FixGroups.GroupsAreGood` | cmd/explain.go:100-132 | groups are non-empty and free of repeated commands |
| `FixGroups.GroupOrderIsFirstSeen` | cmd/explain.go:100-132 | later insights only append groups and commands |
| `Compare.CollectCheckNames` | cmd/compare.go:248-261 | the names of all hosts, each once, in ascending order |
| `Compare.AscendingIsUnique` | cmd/compare.go:248-261 | that list is determined by the set of names |
| `Compare.BuildStatusMatrix` | cmd/compare.go:263-279 | each row holds the first status every host reports, or the absence mark |
| `Compare.StatusIsFirst` | cmd/compare.go:263-279 | a host shows the status of its first entry of the name, and a dash where it has none |
| `Compare.AbsenceDiffers` | cmd/compare.go:263-279 | a host that lacks a check differs from every host that has it with a known status |
| `Compare.StatusesDiffer` | cmd/compare.go:281-292 | true iff two entries differ |
| `Compare.CountDiverging` | cmd/compare.go:190-205 | the headline is the number of checks on which two hosts differ |
| `Compare.Frequencies` | cmd/compare.go:318-328 | a frequency is 1 iff no other entry is the same |
| `Compare.ScoreHosts` | cmd/compare.go:318-334 | the array ends with each host's number of checks on which it stands alone |
| `Compare.OutlierAnalysis` | cmd/compare.go:312-347 | below three hosts none is named; otherwise the least index of the positive maximum, with its score |
| `Compare.ScoreWithinDiverging` | cmd/compare.go:312-347 | a host never differs on more checks than the headline counts |
| `Compare.ReorderingPermutesScores` | cmd/compare.go:312-347 | permuting the hosts permutes the scores |
| `Compare.OutlierIgnoresHostOrderIff` | cmd/compare.go:336-347 | exact condition: the same host is named in every order iff the maximum is unique |
| `Majority.AloneIsDivergingIff` | cmd/compare.go:318-334 | exact condition on the frequencies of a row for the comment to hold on a check: beside a majority every shown status occurs once, without one none does |
| `Majority.ScoresMajorityIff` | cmd/compare.go:311-334 | for every host the checks it scores on are those on which it diverges from the majority, iff the frequencies of every row fit |
| `Majority.ScoreIsDivergenceIff` | cmd/compare.go:311-334 | the numbers agree for every host iff its status occurs once on as many checks without a majority as it is a minority shared with others |
| `Majority.OutlierDivergesMost` | cmd/compare.go:336-347 | where the frequencies of every row fit, the score is the divergence and the named host diverges most; sufficient only |
| `Majority.NoMajorityNamesTheFirst` | cmd/compare.go:311-347 | OK, WARN, CRIT on three hosts: there is no majority and the first host is named |
| `Majority.SharedMinorityNamesNobody` | cmd/compare.go:311-347 | three OK and two CRIT: two hosts diverge from the majority and none scores |
| `Majority.EvenSplitNamesNobody` | cmd/compare.go:311-347 | two OK and two CRIT: a check without a majority on which score and divergence agree, as nobody stands alone |
| `Capture.IndexFindings` | cmd/capture.go:180-187 | the map holds, for each check, the first of its highest-ranking insights |
| `Capture.BestIsFirstWorst` | cmd/capture.go:180-187 | what that means without the loop |
| `Capture.SearchByPrefix` | cmd/capture.go:271-284 | for every order of the map's keys: a highest-ranking insight of a sub-check, or none iff there is none |
| `Capture.BuildFixtureRow` | cmd/capture.go:252-294 | a row is one of those its check and the map order allow |
| `Capture.RankIgnoresMapOrder` | cmd/capture.go:271-284 | the severity of a row's insight is the same for all of them |
| `Capture.ColonIsMissed` | cmd/capture.go:269-277 | in particular no check whose name goes on with a colon belongs to the row |
| `Capture.SwappinessIsMissed` | cmd/capture.go:269-271 | so the example of the comment, "Sysctl: swappiness" for "Sysctl", is no match |
| `Capture.BuildInputFixtureRows` | cmd/capture.go:179-213 | rows are those of the displayed names in display order, then of the other checks in report order |
| `Fixtures.CaptureMeaning` | cmd/capture.go:179-213 | every row holds, in the terms of the report, the name, the raw data of the six disk checks, the inline text of a check that is fine, and else its status in upper case and a worst finding of its name or of a sub-check |
| `Fixtures.SelectedMeaning` | cmd/capture.go:190-213 | which checks get a row, and where: for each displayed name the last check of that name, then the others in report order |
| `Capture.EveryCheckHasARowIff` | cmd/capture.go:190-213 | exact condition: the rows are a permutation of the checks iff no displayed name occurs twice |
| `Capture.ResolveMockInsights` | cmd/mock.go:210-243 | the captured insights, or one per row where there are none, without OK and with levels in upper case |
| `Fixtures.RowsAreReplayed` | cmd/mock.go:225-243 | without captured findings: one insight for each row that is not fine, in order, with the level, name, message and hints of that row |
| `Fixtures.FindingsAreReplayed` | cmd/mock.go:210-224 | with captured findings: one insight for each that is not fine, in order, with its fields |
| `Capture.FindingsRoundTrip` | cmd/capture.go:299-310 | capture then mock is the identity on an insight list iff every insight survives |
| `Capture.RoundTripIff` | cmd/mock.go:202-243 | the same for a whole report, whatever its rows say; a report without insights comes back empty iff its checks are OK |
| `Capture.ReplayIgnoresMapOrder` | cmd/mock.go:202-243 | captures that differ by map order replay to the same insights |
| `Capture.ReplayKeepsVerdictIff` | cmd/mock.go:210-243 | the trip drops the unverified mark: the verdict is kept iff that mark was not all that kept the run from OK |
| `Capture.ReplayLosesVerdict` | cmd/mock.go:210-243 | one literal insight whose run has code 1 and whose replay has code 0 |
| `Tls.ScanCertFile` | cmd/tls.go:266-334 | one error per certificate that does not parse before the first that does, in order, and that one; or the failure to read, or to find PEM |
| `TlsReports.FileIsReported` | cmd/tls.go:266-334 | one entry for each block up to the first certificate that parses; that one has the whole days of its seconds left, truncated towards zero, and CRIT or WARN exactly where the seconds are within a flag |
| `TlsReports.FileFails` | cmd/tls.go:266-334 | a file that cannot be read or holds no PEM data is one ERR entry |
| `TlsReports.ThreeDaysLeft` | cmd/tls.go:296-303 | 259200 seconds left under the default flags: 3 days, CRIT |
| `Tls.DropsOutIff` | cmd/tls.go:322-334 | a file drops out of the report iff it has PEM blocks and none is a certificate |
| `Tls.ScannedIsProduced` | cmd/tls.go:266-334 | what a file contributes has the level of its days, or ERR and a message |
| `Tls.ScanRemoteEndpoints` | cmd/tls.go:461-502 | one result for every endpoint that is not blank, in order |
| `TlsReports.EndpointsAreReported` | cmd/tls.go:461-502 | one entry for each endpoint that is not blank, in order, under its trimmed name; days as for a file, but -1 in the first expired day, and the level exactly by the seconds |
| `Tls.UnreadableDirResults` | cmd/tls.go:411-422 | every directory is an ERR result, needs-root iff unprivileged |
| `Tls.CountLevels` | cmd/tls.go:148-175 | each tally is the number of results at its level, and of needs-root errors |
| `Tls.RenderTLSResults` | cmd/tls.go:188-236 | the exit code of the text report, stated on the results |
| `Tls.BuildTLSInfo` | cmd/tls.go:505-557 | the status of the JSON document, and the counts of certificates, expired, expiring and uncheckable entries, stated on the results |
| `Tls.SoundThresholdsAgree` | cmd/tls.go:188-236 | with sound thresholds exit code 0 and status "ok" coincide on all results the scans produce |
| `Tls.AgreementIffSoundThresholds` | cmd/tls.go:505-557 | exact condition on the two flags, which the command does not check |
| `Tls.UnsoundThresholdsDisagree` | cmd/tls.go:505-557 | crit-days 30, warn-days 7, twenty days left: exit code 2 and status "ok" |
| `Tls.CriticalImpliesExitTwoIff` | cmd/tls.go:505-557 | "critical" implies exit code 2 for all results iff crit-days is at least -1 |
| `Tls.ExitTwoImpliesCriticalIff` | cmd/tls.go:505-557 | the converse holds for all results iff crit-days is negative |
| `Tls.ExitTwoIsNotCritical` | cmd/tls.go:505-557 | with the default flags, three days left: exit code 2 and status "warning" |
| `Tls.ExpiredCountsAfterADay` | cmd/tls.go:293-300 | days are truncated towards zero, so a file counts as expired a day late; an endpoint at once |
| `Tls.FileMatchesEndpointIff` | internal/collectors/tls.go:150-162 | exact condition under which one certificate is judged alike as a file and as an endpoint |
| `Tls.FreshlyExpiredDiffers` | internal/collectors/tls.go:150-162 | a certificate that expired an hour ago: "warning" from a file, "critical" from an endpoint |
| `Watch.LoopStepKeepsInv` | cmd/health.go:636-699 | each operation of the loop keeps the invariant on channels, countdowns and printed changes |
| `Watch.CountStepKeepsInv` | cmd/health.go:640-660 | so does each tick or stop of a countdown, at any time |
| `Watch.RunKeepsInv` | cmd/health.go:636-699 | hence every run does |
| `Watch.WatchIsSafe` | cmd/health.go:636-699 | in every run: no channel is closed twice, at most one countdown has an open channel, one has it exactly while the loop waits, none after the return |
| `Watch.RemainingFalls` | cmd/health.go:648-658 | in every run a countdown shows the interval less a second (10^9 ns) per tick, not below 0, and never rises |
| `Watch.ClosedStaysClosed` | cmd/health.go:683-698 | closed channels stay closed |
| `Watch.ReturnedIsFinal` | cmd/health.go:687-691 | after the return nothing is rendered and every countdown still alive can stop |
| `Watch.CountdownsCanPileUp` | cmd/health.go:692-697 | only open channels are exclusive: any number of countdowns can be alive and ticking at once |
| `Watch.ReaderKnowsEveryLevel` | cmd/health.go:662-681 | in every run a reader of the printed changes knows the level of every finding at every refresh |
| `WatchDiff.InsightChanges` | internal/render/watchdiff.go:46-74 | the two maps and three loops compute the specified changes |
| `WatchDiff.ChangesMeaning` | internal/render/watchdiff.go:46-74 | exactly what is added, resolved and changed |
| `WatchDiff.PrintedInOrder` | internal/render/watchdiff.go:68-85 | each list is in the order of severity and check, and ties are in the order of the refresh |
| `WatchDiff.LoudestFirst` | internal/render/watchdiff.go:68-85 | that is: CRIT before WARN before INFO, and within one severity by check name |
| `WatchDiff.ChangesAgreeIff` | internal/render/watchdiff.go:44-46 | exact condition: the same findings in two orders print the same iff what ties is in the same order in both |
| `WatchDiff.ChangesIgnoreCompletionOrder` | internal/render/watchdiff.go:44-46 | so the order in which collectors complete does not show, as long as the findings of each check keep theirs |
| `WatchDiff.OrderWithinACheckShows` | internal/render/watchdiff.go:44-46 | two new findings of one check and level are printed as they come |
| `StableSort.SortedIsStable` | internal/render/watchdiff.go:70-85 | the model of sort.SliceStable gives a permutation in order that keeps ties in place |
| `StableSort.OneStableSort` | internal/render/watchdiff.go:70-85 | there is only one such list, so no sorting algorithm can give another |
| `WatchDiff.ReaderFollows` | internal/render/watchdiff.go:46-74 | the changes lead from the earlier levels to the later ones, in whatever order they are printed |
| `WatchDiff.ReaderFollowsIff` | internal/render/watchdiff.go:46-74 | exact condition: they do for every earlier refresh iff no signature occurs at two levels |
| `WatchDiff.FollowsIsAFunction` | internal/render/watchdiff.go:46-74 | what a reader knows is determined by what was printed |
| `WatchDiff.NoChangeIff` | internal/render/watchdiff.go:100-118 | "no change" is printed iff every level is what it was |
| `WatchDiff.EscalationIsAChange` | internal/render/watchdiff.go:27-33 | a change of level is a change, never a resolved and a new finding |

## Left out

- Collectors, command execution, files, archives, JSON and YAML encoding, flags and terminal output: what they deliver are parameters.
- The individual threshold checks (`applyOne`): flat branches, any function here.
- Payloads are values. `ApplyThresholds` writes through a pointer payload; that two results which share one struct see each other's write is not captured. All such writes are of the same values.
- Loads, percentages and thresholds are reals; NaN and rounding are not modelled.
- The `Details` field of an insight, which the modelled code never reads, and the wording of correlations (Summary, Action). No rule reads the message of an index entry.
- Case mapping outside ASCII, except for the two letters whose upper case is ASCII; invalid UTF-8.
- Heuristics.AdaptHints: hints are rewritten by an arbitrary function that may drop them; the NixOS and init-system rewrites are not modelled themselves, because they are flat tables of commands.
- McpTable.StepFollowsTable: creating a Recorder around the active source and installing it is one step, because only the holder of the mutex writes the source. Panics inside a handler are not modelled; defers run for them as for a return.
- Reads that go neither through the active source nor through an override, such as toolCapture's detection of container, cloud and profile before it installs its Recorder.
- The checks of bundle paths in `cmd/mcp.go` and the redaction of JSON: operations that may fail, and nothing more.
- `ruleIOWaitCulprit`, `ruleSysctlNotPersisted`, `ruleDockerOOMCascade` and `findTimedDockerOOM`: single-pass searches that would only add easy members.
- `waveConsequences`: its comparator is not asymmetric for load errors, so its order means nothing; its counts are like those of `fleetConsequences`.
- The regular expression of the signature in `internal/render/watchdiff.go`: the results hold for every signature.
- Consequences.FleetConsequences: the text of a bullet, a function of category, level and count.
- Capture.BuildInputFixtureRows: the display order is a parameter; EveryCheckHasARowIff needs that it names no check twice, which holds of the list in `internal/render/health.go`.
- Tls.ScanCertFile: the decoding of PEM and X.509, and the fields of a result that neither verdict reads.
- Compare.OutlierAnalysis: reading snapshots and printing the matrix.
- Certify.CertifyWave: loading bundles and the platform guard are one outcome, a diff or an error.
