# Towbar: verified models of its hardest parts

This project models six parts of Towbar in Dafny and proves what they promise. Each part has a
specification on values (functions and, where there are crash points, a machine of atomic steps),
theorems about it over all inputs, runs or histories, and, where the source works by changing
things step by step, methods or classes with the source's own loops and early exits that are proved
to do what the specification says. `dafny verify dfyconfig.toml` checks everything.

**Persistent volumes** (`AppStorage*.dfy`). The storage script of a deployment is a machine whose
steps are single Docker commands and file operations. A step may succeed, fail, or be cut short by a
signal, before or after its effect; a hard crash is a run of which only the first steps happened.
`AppStorage` is the machine, `AppStorageSafety` its invariant, `AppStorageRecovery` termination and
completion, `AppStorageCleanup` what is taken away again, `AppStorageOwnership` what is never touched and where
new volumes get their data, `AppStorageHistory` sequences of deployments, `AppStorageScript` the script as a class.
A signal between publishing a marker and noting it makes the clean-up delete the volume; the theorems
say that this is the only way a marker loses its volume, and give a concrete run.

**Upgrade broker** (`Upgrade*.dfy`). Two durable files per job, the admission row of the database, the
in-memory job and the execute thread, under requests, progress, resumes, failing saves, lost database
replies, deaths and restarts in any order. `UpgradeBroker` is the specification, `UpgradeSafety` the
invariant and its consequences, `UpgradeOutcomes` what is achieved, `UpgradeRefusals` what is refused and what
failures leave, `UpgradeRecords` the order of the two files, `UpgradeThread` the execute thread on its own,
`UpgradeRunner` the class.

**Alert conditions** (`Scout*.dfy`, `StableSort.dfy`). The sustained-breach evaluation, the two-pointer
restart window and the traffic window, each against a declarative specification. `ScoutMeaning` says what verdicts
and traffic counts mean in terms of the readings and samples, `ScoutCounters` what a window of restarts means in
terms of the counters of its containers. Times are integers, counts are integers, readings are reals.

**Job logs** (`JobLogs.dfy`, `JobRedaction.dfy`). Bounded capture, the prefix table that finds a secret
cut off by the bound, what is left of such a secret, and the replacement of secrets.

**Monitoring agent** (`Analytics*.dfy`, `SampleNames.dfy`, `SampleQueue.dfy`, `SendLoop.dfy`,
`AgentSender.dfy`). The capped table of analytics cells, the buffer of samples on disk with its file
names, and the sender with its backoff; conservation, bounds and pacing over whole runs.

**Configuration** (`JsonText.dfy`, `StableStringify.dfy`, `KeyOrder.dfy`, `Reconciliation.dfy`,
`Environment*.dfy`, `Dictionary.dfy`, `ConfigTree.dfy`, `EnvFile.dfy`, `EnvRoundTrip.dfy`, `Runtime*.dfy`). The canonical
printer, the convergence of reconciliation, the merge of environments and what a resolved manifest
depends on, and the installer's configuration with its environment file. `EnvironmentInheritance` says where the
parts of an entity come from, `EnvironmentAcceptance` which files are accepted, `EnvReading` how lines are read,
`RuntimeAddresses` which addresses are derived and `RuntimeSettings` how values are written. Digests are known by
the text that is hashed.

Where the code does not do what one would expect, the model follows the code, proves the exact condition
and names an input:

- a marker can lose its volume (`MarkerWithoutVolumeIffGap`; the run in `SignalInGapLosesVolume`);
- a secret can be spelled by the marker that replaces it or another one (`SecretIsGoneIff`; the secret "E" in `LetterOfMarkerSurvives`, and a text for every secret that can be in `OverlapSurvives`);
- some of a secret that the bound cut off can be left (`BeginningIsRemovedIff`; two secrets in `LongerSecretLeavesBeginning`);
- a rendered value with a line break is not read back (`ParseInvertsRender`, `RenderedIsReadBack`; an accepted configuration in `LineSeparatorIsNotReadBack`);
- admissible declarations are not enough where the name of a helper is taken by the helper of another volume (`UninterruptedRunCompletes`; a storage in `TakenNameFails`);
- an API address that is given is derived all the same (`ReadsBackIffDerivable`; accepted configurations in `GivenApiIsNotEnough`).

## Model

| member | source | states |
|---|---|---|
| `AppStorageSafety.StepKeepsInv` | packages/towbar-deployer/src/app-storage.ts:72-157 | Every single step of the script, successful, failing or interrupted before or after its effect, keeps the storage sound: a volume with a ready marker holds complete data, and one without is claimed by a pending file equal to its initializer label |
| `AppStorageSafety.ExecKeepsInv` | packages/towbar-deployer/src/app-storage.ts:58-157 | Wherever a run stops, after any number of steps with any faults, the storage is sound and what its program point promises holds |
| `AppStorageSafety.ReadyVolumeIsUntouched` | packages/towbar-deployer/src/app-storage.ts:81-111 | A volume whose marker was there when a run began stays exactly as it was, present or missing, wherever the run stops |
| `AppStorageSafety.MissingVolumeStopsTheRun` | packages/towbar-deployer/src/app-storage.ts:96-97 | A run that declares a volume with a marker but without the volume never completes, so nothing recreates it empty |
| `AppStorageSafety.MarkerWithoutVolumeIffGap` | packages/towbar-deployer/src/app-storage.ts:149-157 | A run leaves a marker without its volume if and only if it was interrupted between publishing the marker and noting it, and its clean-up then went through |
| `AppStorageSafety.CrashKeepsVolumes` | packages/towbar-deployer/src/app-storage.ts:72-157 | A hard crash after any number of steps never leaves a marker without its volume |
| `AppStorageRecovery.EveryRunHalts` | packages/towbar-deployer/src/app-storage.ts:72-157 | Whatever fails, a run over n volumes is over after at most 18 n + 3 steps |
| `AppStorageRecovery.StopsOnlyAfterValidation` | packages/towbar-deployer/src/app-storage.ts:72-105 | The serving container is only stopped, and work only begun, by a run whose declarations all pass validation against the storage it found |
| `AppStorageRecovery.DoneMeansComplete` | packages/towbar-deployer/src/app-storage.ts:106-157 | A run that completes, whatever commands failed on the way, leaves every declared volume ready, existing and complete: untouched if it was ready before, filled from its declared source otherwise |
| `AppStorageRecovery.UninterruptedRunCompletes` | packages/towbar-deployer/src/app-storage.ts:72-157 | A run without faults completes if and only if its declarations are admissible for the storage it finds and the names of the helpers it has to make are free or held by helpers that its validation removes |
| `AppStorageCleanup.NoHelperIsLeft` | packages/towbar-deployer/src/app-storage.ts:124-155 | However a run ends, whatever failed on the way, it leaves no helper container that it did not find, if the removal in its clean-up reaches Docker |
| `AppStorageCleanup.NoUnfilledVolumeIsLeft` | packages/towbar-deployer/src/app-storage.ts:122-157 | Nor does it leave a volume that it began and could not fill, if its clean-up goes through: every volume without a marker was there before, as it is |
| `AppStorageCleanup.UnfinishedIsCleared` | packages/towbar-deployer/src/app-storage.ts:73-95 | When validation is over, whatever an earlier run left of a declared volume is gone as a whole: the volume, the pending file and the helper that it named |
| `AppStorageCleanup.DoneMeansRetired` | packages/towbar-deployer/src/app-storage.ts:147-152 | A run that completes leaves neither a pending nor a temporary file of a volume that it initialised |
| `AppStorageOwnership.UndeclaredIsUntouched` | packages/towbar-deployer/src/app-storage.ts:72-157 | A volume that is not declared, its marker and its files stay exactly as they were, from any storage and under any faults |
| `AppStorageOwnership.ForeignVolumeIsUntouched` | packages/towbar-deployer/src/app-storage.ts:77-85 | So does a declared volume of somebody else, or an unfinished one that no matching pending file claims, and the run does not complete |
| `AppStorageOwnership.StrangerIsSpared` | packages/towbar-deployer/src/app-storage.ts:86-91 | A container that is not one of our stopped helpers stays, unless it bears the name of a helper that the run makes |
| `AppStorageOwnership.OthersAreServed` | packages/towbar-deployer/src/app-storage.ts:92-105 | Volumes that other containers use are there as long as they were, and the serving container is at most stopped, and only where volumes are declared or it has storage |
| `AppStorageOwnership.OldIsStoppedFirst` | packages/towbar-deployer/src/app-storage.ts:103-142 | Nothing is created, copied or published while the previous release still runs |
| `AppStorageOwnership.ForeignPreviousStopsAll` | packages/towbar-deployer/src/app-storage.ts:58-61 | A previous container of somebody else stops the run before it does anything |
| `AppStorageOwnership.AdmitsBySource` | packages/towbar-deployer/src/app-storage.ts:62-101 | A declaration is admissible exactly when its volume is ours or absent, is there if it has a marker, and otherwise has a source: stated where there is a previous release, anything but that release where there is none, which previews never ask for |
| `AppStorageOwnership.FilledAsAsked` | packages/towbar-deployer/src/app-storage.ts:62-142 | A completed run has filled every new volume from the previous release where a declaration of it asks for that and there is one, from the image otherwise |
| `AppStorageHistory.LifeIsSound` | packages/towbar-deployer/src/app-storage.ts:72-157 | Over any sequence of deployments, each interrupted anywhere, the storage stays sound |
| `AppStorageHistory.ReadyVolumeOutlives` | packages/towbar-deployer/src/app-storage.ts:81-95 | A ready volume keeps its data through any sequence of later deployments |
| `AppStorageHistory.ReadyMeansComplete` | packages/towbar-deployer/src/app-storage.ts:106-157 | At every step of every run after any history, a volume that exists and has its ready marker holds completely populated data |
| `AppStorageHistory.LifeStaysBackedIffGapAvoided` | packages/towbar-deployer/src/app-storage.ts:149-157 | Over a whole life every marker has its volume if and only if no run was interrupted in the gap and cleaned up |
| `AppStorageHistory.CrashesKeepVolumes` | packages/towbar-deployer/src/app-storage.ts:72-157 | Nor does any sequence of deployments that each crash somewhere or complete |
| `AppStorageHistory.OneGoodRunRecovers` | packages/towbar-deployer/src/app-storage.ts:81-112 | However many runs crashed, one run that nothing interrupts completes if and only if the sources of new volumes are there, and then every declared volume is ready and complete, provided no earlier run lost a volume in the gap and each belonged to another deployment or declared no other volumes; that names of helpers are usable follows from the latter |
| `AppStorageHistory.LostVolumeBlocksForever` | packages/towbar-deployer/src/app-storage.ts:96-97 | Without that proviso recovery fails for good: after a marker has lost its volume no later deployment that declares it completes |
| `AppStorageHistory.SignalInGapLosesVolume` | packages/towbar-deployer/src/app-storage.ts:149-157 | A concrete run: the first deployment of one volume, stopped by a signal after its marker is published and before that is noted, ends with the marker of a volume that no longer exists |
| `AppStorageHistory.TakenNameFails` | packages/towbar-deployer/src/app-storage.ts:106-130 | A concrete storage: after the same deployment was killed while filling another volume, a run with admissible declarations does not complete even without faults |
| `AppStorageScript.Host.PrepareStorage` | packages/towbar-deployer/src/app-storage.ts:72-157 | The script written with its loops, early exits and clean-up does exactly what the step machine says, for every sequence of faults |
| `UpgradeSafety.RunKeepsInv` | infra/upgrade-runner/runner.py:159-179 | Over all interleavings of requests, steps of the execute thread, resumes, failed saves, lost database replies, deaths and restarts the broker keeps its invariant |
| `UpgradeSafety.AdmissionIsSafe` | infra/upgrade-runner/runner.py:113-130 | The admission row is held only by the job that job.json names, in a state that is not final, and what job.json says about admission is true |
| `UpgradeSafety.RowIsNeverForeign` | infra/upgrade-runner/runner.py:323-351 | Neither the execute thread nor a resume ever finds the row held by another job |
| `UpgradeSafety.OneThreadAtATime` | infra/upgrade-runner/runner.py:204-208 | While an execute thread has steps left no request is accepted |
| `UpgradeSafety.AtMostOneLaunch` | infra/upgrade-runner/runner.py:210-240 | For each request identifier execute is launched at most once, over all repetitions, partial saves, crashes and restarts |
| `UpgradeSafety.RunCountsLaunches` | infra/upgrade-runner/runner.py:210-240 | The launch count of the state is the number of requests answered by launching execute |
| `UpgradeOutcomes.UpgradeCompletes` | infra/upgrade-runner/runner.py:242-295 | An accepted upgrade that meets no failure ends as succeeded, recorded in both files, with admission open, whatever progress it reports |
| `UpgradeOutcomes.BusyUpgradeIsBlocked` | infra/upgrade-runner/runner.py:246-255 | Pending work turns an upgrade away and leaves admission open |
| `UpgradeOutcomes.ResumeAfterAnyCrash` | infra/upgrade-runner/runner.py:323-351 | After any history in which the process stopped, restarting it and resuming on a healthy host frees the row and settles the job as recovered |
| `UpgradeOutcomes.PartialRequestIsFoundAgain` | infra/upgrade-runner/runner.py:171-179 | A request whose first record was written before the process died is found again as interrupted, and repeating it starts nothing |
| `UpgradeRefusals.KnownRequest` | infra/upgrade-runner/runner.py:216-221 | A request with a known identifier launches nothing and changes nothing: it is answered with its job, or refused as a conflict when its plan or its actor differs |
| `UpgradeRefusals.NewRequest` | infra/upgrade-runner/runner.py:222-240 | An unknown one is refused without any change while the service restarts, after a job that did not succeed, was not blocked and was not recovered, or when its plan is not current; otherwise it is launched unless it cannot be saved |
| `UpgradeRefusals.RowStaysHeld` | infra/upgrade-runner/runner.py:323-332 | Through any requests, deaths, boots and resumes on an unhealthy host a row that is held while nothing runs stays held |
| `UpgradeRefusals.RecoveredNeedsHealth` | infra/upgrade-runner/runner.py:323-342 | Over every run without a resume on a healthy host no file and no memory comes to show a job as recovered |
| `UpgradeRefusals.RowChangesWhenDue` | infra/upgrade-runner/runner.py:242-290 | The row is taken only when the thread pauses admission, and freed only by the thread after job.json says so or by a resume on a healthy host, each time for the job of job.json |
| `UpgradeRefusals.FailedUpgradeStaysPaused` | infra/upgrade-runner/runner.py:256-308 | A release that is not found, an upgrade command that fails and a release that is not the one installed each leave the job failed in both files, with admission paused and the row held |
| `UpgradeRefusals.FailedRestartIsReported` | infra/upgrade-runner/runner.py:291-308 | A service that does not restart leaves the upgrade failed with admission open |
| `UpgradeRefusals.FailedResume` | infra/upgrade-runner/runner.py:335-350 | A resume that cannot install the runner leaves the job failed with admission unknown and the row as it was, one that cannot restart the service leaves it failed with admission open |
| `UpgradeRefusals.ForeignRowIsKept` | infra/upgrade-runner/runner.py:113-130 | Neither the thread nor a resume frees a row of another job; both report that admission is unknown |
| `UpgradeRefusals.BootAdopts` | infra/upgrade-runner/runner.py:159-165 | A new process takes over the job of job.json as it is, unless that was active: then both files say that it was interrupted; the row is untouched |
| `UpgradeRecords.ThreadRecordsFirst` | infra/upgrade-runner/runner.py:171-179 | Whatever the thread puts into job.json, and however its save fails, the record of the job already says the same |
| `UpgradeRecords.SettledStaysRecorded` | infra/upgrade-runner/runner.py:171-179 | Over every run a job that job.json shows as no longer active has a record under its identifier |
| `UpgradeRunner.Runner.Save` | infra/upgrade-runner/runner.py:58-70 | A save leaves the old or the new contents, and dies or raises accordingly |
| `UpgradeRunner.Runner.Persist` | infra/upgrade-runner/runner.py:171-179 | The two records are written in opposite orders for a new job and a later state, and memory follows only when both are saved |
| `UpgradeRunner.Runner.Start` | infra/upgrade-runner/runner.py:210-240 | The method with its early returns and its exception handler does what the specification's request does |
| `UpgradeRunner.Runner.Execute` | infra/upgrade-runner/runner.py:242-308 | Each resumption of the execute thread does the specification's step |
| `UpgradeRunner.Runner.ExecuteAll` | infra/upgrade-runner/runner.py:242-308 | The whole try statement with its early return, its loop over the progress lines and its handler, for any faults, ends where the step machine ends |
| `UpgradeThread.StepsAreARun` | infra/upgrade-runner/runner.py:242-308 | The actions of the thread on its own are one of the interleaved runs, so that what holds over all runs holds of them |
| `UpgradeRunner.Runner.RecordFailure` | infra/upgrade-runner/runner.py:310-321 | A failure that cannot be saved is still reported by memory |
| `UpgradeRunner.Runner.Resume` | infra/upgrade-runner/runner.py:323-351 | The method with its exception handler does what the specification's resume does |
| `UpgradeRunner.Runner.Boot` | infra/upgrade-runner/runner.py:159-165 | A new process adopts the current job and marks an active one interrupted |
| `UpgradeRunner.Runner.Serve` | infra/upgrade-runner/runner.py:204-351 | Any sequence of events takes the object through exactly the specification's run |
| `ScoutCondition.Scan` | packages/towbar-contracts/src/scout-alerts.ts:352-373 | The backward scan finds the start of the longest unbroken run of breaches that ends at the latest reading |
| `ScoutCondition.Evaluate` | packages/towbar-contracts/src/scout-alerts.ts:319-382 | Unknown exactly without a fresh finite latest reading, healthy exactly when that does not breach, otherwise judged by the whole unbroken run that ends there; of several readings of one time, the code's choice counts |
| `ScoutCondition.FiresIffSustained` | packages/towbar-contracts/src/scout-alerts.ts:324-381 | With a positive duration it fires if and only if the latest reading is fresh and some unbroken run of breaches up to it spans the duration |
| `ScoutCondition.VerdictIgnoresOrder` | packages/towbar-contracts/src/scout-alerts.ts:324-382 | Unless readings of one time differ, neither order nor repetition of the readings changes the result, the choice of the latest reading and the unknown verdict included |
| `ScoutCondition.FiringIsMonotone` | packages/towbar-contracts/src/scout-alerts.ts:343-381 | What fires keeps firing, since no later a time, when the threshold is easier to reach |
| `ScoutMeaning.ChainFires` | packages/towbar-contracts/src/scout-alerts.ts:333-381 | Readings that all reach the threshold, each at most 45 seconds or one and a half check intervals after the one before, up to the latest reading and with none left out between them, make the condition fire when they span the duration and the latest is at most 90 seconds, or half a minute more than an interval, old |
| `ScoutMeaning.FiringHasChain` | packages/towbar-contracts/src/scout-alerts.ts:333-381 | Conversely, what fires has such readings from the time since which it does |
| `ScoutMeaning.LatestAlone` | packages/towbar-contracts/src/scout-alerts.ts:324-350 | Unknown exactly when the latest reading is not finite or too old, healthy exactly when it is not and has not reached the threshold; without a duration it decides alone |
| `ScoutRestarts.Buckets` | packages/towbar-contracts/src/scout-alerts.ts:428-448 | One bucket per time, in order, with the restarts that samples of that time witness relative to the previous sample of the same container, complete when all of them could be compared |
| `ScoutRestarts.Windows` | packages/towbar-contracts/src/scout-alerts.ts:448-467 | The two-pointer window equals the naive sum over (at - window, at] at every point |
| `ScoutRestarts.RestartObservations` | packages/towbar-contracts/src/scout-alerts.ts:424-468 | The same from unordered samples |
| `ScoutRestarts.NaiveBySum` | packages/towbar-contracts/src/scout-alerts.ts:452-466 | The naive window value is decided by the running total and the running number of incomplete buckets of the two pointers |
| `ScoutRestarts.WindowTelescopes` | packages/towbar-contracts/src/scout-alerts.ts:431-466 | For one container with a counter that never falls and gaps of at most 90 s, the window reports the last count minus the count just before the window |
| `ScoutCounters.WindowReports` | packages/towbar-contracts/src/scout-alerts.ts:431-466 | Of any containers: a window reports a number exactly when it has enough points and every sample in it has a usable counter and follows a usable one of its container by at most 90 s; the number is the sum of what the counters rose from sample to sample |
| `ScoutCounters.ResetsAreNoRestarts` | packages/towbar-contracts/src/scout-alerts.ts:423-445 | Where no counter is ever above the previous one of its container, every value is none or zero |
| `ScoutCounters.InterleavedGains` | packages/towbar-contracts/src/scout-alerts.ts:431-466 | However the samples of several containers interleave, when no counter falls a reported window is the sum over the containers of the last counter in the window minus the last one before it |
| `ScoutTraffic.TrafficObservation` | packages/towbar-contracts/src/scout-alerts.ts:471-511 | A number exactly when the latest sample is fresh and the samples from the last one at or before the boundary are contiguous, ready, of one dropped counter and safe |
| `ScoutTraffic.SumFrom` | packages/towbar-contracts/src/scout-alerts.ts:492-509 | The scan sums exactly the counts after the baseline, or finds the samples unusable |
| `ScoutTraffic.NumberIsSumAfterBoundary` | packages/towbar-contracts/src/scout-alerts.ts:487-510 | That number is the sum over all samples strictly after the boundary, in whatever order they came |
| `ScoutTraffic.NoHoleInWindow` | packages/towbar-contracts/src/scout-alerts.ts:491-508 | Every moment of a covered window lies between two consecutive samples at most 45 s apart |
| `ScoutMeaning.TrafficReported` | packages/towbar-contracts/src/scout-alerts.ts:481-510 | A number is reported exactly when the latest sample is at most 90 s old and there is a sample at most 45 s before the window from which on all samples are ready, whole and exact in number, at most 45 s apart and of one dropped counter |
| `JobLogs.Capture` | packages/towbar-deployer/src/app-job.ts:121-140 | Capture keeps exactly the first min(limit, n) bytes and reports truncation exactly when there were more |
| `JobLogs.PrefixTable` | packages/towbar-deployer/src/app-job.ts:150-157 | The table filled in place holds the longest border of every prefix |
| `JobLogs.PartialLength` | packages/towbar-deployer/src/app-job.ts:148-158 | The last entry of the table is the longest border of the secret, a separator and the end of the text |
| `JobLogs.CutLengthIsLongestPartial` | packages/towbar-deployer/src/app-job.ts:146-160 | For any text and any nonempty secret without NUL that is exactly the longest beginning of the secret that ends the text |
| `JobRedaction.BeginningIsRemovedIff` | packages/towbar-deployer/src/app-job.ts:146-160 | Where the text was cut off, before whole secrets are replaced: of secrets that cannot overlap the marker, the captured beginning of one is removed whole if and only if the first secret that was cut, longest first, has a beginning at the end of the text that is at least as long |
| `JobRedaction.LoneBeginningIsRemoved` | packages/towbar-deployer/src/app-job.ts:146-160 | There it is removed whole whenever the text ends in the beginning of no other secret |
| `JobRedaction.LongerSecretLeavesBeginning` | packages/towbar-deployer/src/app-job.ts:143-162 | A concrete input where it is not: of "zzabY" the captured "zzab" leaves "zz" in the redacted text, as the longer "abXXXXX" is looked at first |
| `JobRedaction.Redact` | packages/towbar-deployer/src/app-job.ts:146-162 | The two loops compute the cuts and replacements of all nonempty secrets, longest first, for any secrets and any text |
| `JobRedaction.ReplaceKeepsTheRest` | packages/towbar-deployer/src/app-job.ts:161-162 | Replacement changes the occurrences of a secret and nothing else |
| `JobRedaction.RedactedHasNoSecret` | packages/towbar-deployer/src/app-job.ts:143-162 | A secret that cannot overlap the marker is gone from the redacted text, and a truncated text does not end in the beginning of it, whatever the other values are |
| `JobRedaction.SharingNothingIsEnough` | packages/towbar-deployer/src/app-job.ts:160-162 | Secrets that share no character with the marker cannot overlap it |
| `JobRedaction.SecretIsGoneIff` | packages/towbar-deployer/src/app-job.ts:143-162 | A secret is gone whatever the other values and the text if and only if it cannot overlap the marker |
| `JobRedaction.OverlapSurvives` | packages/towbar-deployer/src/app-job.ts:161-162 | For every secret that can overlap the marker another secret and a text whose redaction contains it |
| `JobRedaction.SecretSurvivesIff` | packages/towbar-deployer/src/app-job.ts:161-162 | A secret that is the only one is left in some text if and only if it can be spelled around the marker, a condition on the secret alone |
| `JobRedaction.LetterOfMarkerSurvives` | packages/towbar-deployer/src/app-job.ts:161-162 | A concrete input: the secret "E" is still there after redaction |
| `JobRedaction.LongestIsReplacedWhole` | packages/towbar-deployer/src/app-job.ts:143-162 | A text that is the longest of the secrets is redacted to the marker alone, whatever shorter secrets it contains |
| `JobRedaction.SliceContainsNoSecret` | packages/towbar-deployer/src/app-job.ts:163-164 | The final bound on the length uncovers no secret |
| `JobRedaction.Report` | packages/towbar-deployer/src/app-job.ts:121-164 | From the output of a job to its reported log: at most the limit, marked as truncated exactly when something was cut, and without any secret that cannot overlap the marker, whatever the other values are |
| `AnalyticsTable.RunConserves` | apps/towbar-monitoring-agent/analytics.go:143-168 | At every moment of every run on a monotone clock, events rejected at ingress plus events that reached the table equal dropped plus pending plus sent |
| `AnalyticsTable.CellsAreSums` | apps/towbar-monitoring-agent/analytics.go:143-168 | At every moment of every such run each cell has the number of the events of its kind and dimensions that wait, the sums of their bytes and durations, how many lie in each latency range and the longest visible time; those that wait are events that reached the table, each counted once |
| `AnalyticsTable.AddTakesUnlessFull` | apps/towbar-monitoring-agent/analytics.go:143-157 | An event joins those that wait unless its cell holds ten million or would be the 513th, and only events older than a minute are given up for it |
| `AnalyticsTable.AfterFlushStartsAnew` | apps/towbar-monitoring-agent/analytics.go:170-200 | After a flush that was queued the first event is taken whenever it comes, and it is not given up in the minute that follows |
| `AnalyticsTable.FlushKeeps` | apps/towbar-monitoring-agent/analytics.go:170-200 | A flush hands over exactly the pending events, none older than a minute, at most 512 cells that the receiver accepts; a failed one loses and duplicates nothing |
| `AnalyticsTable.MergeIsAcceptable` | packages/towbar-contracts/src/analytics.ts:102-154 | Every merge keeps the receiver's counting rules: count between 1 and 10,000,000, histogram summing to it for requests and all zero otherwise |
| `AnalyticsTable.BucketIsRange` | apps/towbar-monitoring-agent/analytics.go:222-228 | The histogram buckets are the ranges [0, 10), [10, 50], (50, 100] and so on |
| `AnalyticsTable.IngressIsBounded` | apps/towbar-monitoring-agent/analytics.go:422-436 | Of the calls of a new second exactly the first thousand are let in and every other counts as dropped |
| `AnalyticsCollector.Collector.Add` | apps/towbar-monitoring-agent/analytics.go:143-168 | The method that updates the table under its lock does what the specification's addition does |
| `AnalyticsCollector.Collector.Flush` | apps/towbar-monitoring-agent/analytics.go:170-200 | The same for a flush, for a queue that accepts or refuses the sample |
| `AnalyticsCollector.Collector.AllowIngress` | apps/towbar-monitoring-agent/analytics.go:422-436 | The same for the ingress counter |
| `AnalyticsCollector.Collector.ExpirePending` | apps/towbar-monitoring-agent/analytics.go:438-449 | The same for giving up events older than a minute |
| `SampleNames.NamesInOrder` | apps/towbar-monitoring-agent/queue.go:126 | For times of the years 0 to 9999, calendar and leap years included, the order of the file names is the order of the times, and names are equal exactly when the times are |
| `SampleNames.DateOfDay` | apps/towbar-monitoring-agent/queue.go:126 | The date in a name is the one of the Gregorian calendar that comes so many days after the first of January of the year 0 |
| `SampleNames.NameIs` | apps/towbar-monitoring-agent/queue.go:126 | A name is year, month and day, a T, hour, minute and second, a dot, nine digits of the fraction and the suffix |
| `SampleQueue.QueueIsBounded` | apps/towbar-monitoring-agent/queue.go:110-149 | After every add and every read the buffer holds at most its bound of bytes, whatever the clock does |
| `SampleQueue.KeepsLongestSuffix` | apps/towbar-monitoring-agent/queue.go:54-97 | With modification times in name order pruning keeps exactly the longest suffix that is unexpired and leaves the reserve |
| `SampleQueue.QueueStaysChronological` | apps/towbar-monitoring-agent/queue.go:40-149 | Files that are sorted by name stay so over every add and read, and a read yields one collected no later than any other |
| `SampleQueue.PutReplaces` | apps/towbar-monitoring-agent/queue.go:110-128 | A file that is written takes the place of the one of the same time, if there is one, and of no other |
| `SampleQueue.AddKeepsAging` | apps/towbar-monitoring-agent/queue.go:110-128 | While collection times and the clock advance, modification times stay in name order |
| `AgentSender.Buffer.Prune` | apps/towbar-monitoring-agent/queue.go:54-97 | The deletion loop does what the specification's pruning does |
| `AgentSender.Buffer.Add` | apps/towbar-monitoring-agent/queue.go:110-128 | The method prunes, refuses an oversized sample and writes the file in its place |
| `AgentSender.Buffer.Next` | apps/towbar-monitoring-agent/queue.go:129-149 | The method prunes and yields the first file, or drops it when it is oversized |
| `SendLoop.NothingDisappears` | apps/towbar-monitoring-agent/main.go:142-191 | Until the credential is revoked, samples found at the start and offered since equal delivered plus queued plus the increase of the dropped counter plus those replaced by one of the same collection time |
| `SendLoop.ConcludesByStatus` | apps/towbar-monitoring-agent/main.go:163-188 | By status code: 200 to 299 delivers the oldest sample, 401 and 403 revoke and clear the buffer, 400, 413 and 422 drop the oldest sample and pause for 30 s, everything else keeps it and waits |
| `SendLoop.OffersInTime` | apps/towbar-monitoring-agent/main.go:144-158 | A snapshot is looked at every thirty seconds at most, and offered exactly when it is not larger than a mebibyte, new, less than a minute old and less than a minute ahead |
| `SendLoop.RunIsPaced` | apps/towbar-monitoring-agent/main.go:180-187 | The backoff stays between one second and five minutes over every run |
| `SendLoop.SenderBacksOff` | apps/towbar-monitoring-agent/main.go:142-189 | In any run of the loop: after a delivery and k attempts that are to be repeated (no answer, or any such status that does not ask for a longer wait), whatever comes between them, the backoff is min(2^k, 300) seconds, and the next such attempt is followed by a wait of that length |
| `SendLoop.RetryableAttempt` | apps/towbar-monitoring-agent/main.go:179-188 | An attempt that may be repeated changes only the schedule; the next one is one second to five minutes away, after the wait the receiver asked for where that is longer than the backoff |
| `SendLoop.RunIsAged` | apps/towbar-monitoring-agent/main.go:142-191 | While the clock and the collection times of offered samples advance, modification times stay in name order over a whole run |
| `SendLoop.RunKeepsLongestSuffix` | apps/towbar-monitoring-agent/queue.go:54-97 | So whenever the buffer is pruned after any such run, it keeps exactly the longest suffix that is unexpired and leaves the reserve |
| `AgentSender.Loop.Conclude` | apps/towbar-monitoring-agent/main.go:163-189 | The four outcomes of an upload do what the specification says |
| `AgentSender.Loop.Serve` | apps/towbar-monitoring-agent/main.go:142-191 | The loop takes the sender through exactly the specification's run |
| `JsonText.ParseInverts` | packages/towbar-core/src/manifest-values.ts:125-138 | A parser reads back every printed value and leaves what follows it; strings are escaped as in section 7 of RFC 8259 |
| `JsonText.EscapeIsShortest` | packages/towbar-core/src/manifest-values.ts:125-138 | Every character is printed in the shortest form that section 7 of RFC 8259 allows for it |
| `StableStringify.StringifyIsRawNormal` | packages/towbar-core/src/manifest-values.ts:125-138 | Printing with keys sorted at every level prints the normal form of the value |
| `StableStringify.ParseInvertsStringify` | packages/towbar-core/src/manifest-values.ts:125-138 | Reading the canonical text back gives a value that differs at most in the order of keys |
| `StableStringify.EqualTextsIffEqualValues` | packages/towbar-core/src/manifest-values.ts:121-138 | Canonical and injective: two texts are equal if and only if the values are equal up to the order of object keys |
| `Reconciliation.Reconcile` | packages/towbar-core/src/reconciliation.ts:65-114 | One action for every declared entity and one archive for every other active one, in order of identity |
| `Reconciliation.UpdatedIffDifferent` | packages/towbar-core/src/reconciliation.ts:90-97 | An active entity is updated if and only if its declared configuration differs as a value |
| `Reconciliation.ActionsByStore` | packages/towbar-core/src/reconciliation.ts:65-114 | An entity is created exactly when the store lacks it, restored exactly when it is archived there, archived exactly when it is active and not declared, updated exactly when it is active and its digest differs |
| `Reconciliation.EveryEntityHasItsAction` | packages/towbar-core/src/reconciliation.ts:65-114 | There is an action for exactly the declared and the active entities |
| `Reconciliation.StoreAfterwards` | apps/towbar-api/src/areas/sources/environment-materialization.ts:78-198 | Storing the outcome leaves the declared entities as declared and everything else archived |
| `Reconciliation.ReconcilingAgainChangesNothing` | packages/towbar-core/src/reconciliation.ts:65-114 | Reconciling again finds every declared entity unchanged, archives nothing and changes nothing |
| `EnvironmentMerge.MergeEnvironmentConfiguration` | packages/towbar-core/src/manifest-v2.ts:193-209 | The loop that fills a fresh object computes the recursive merge |
| `EnvironmentMerge.MergedAt` | packages/towbar-core/src/manifest-v2.ts:193-209 | The merge at every path: the override's value where it has a non-object or the defaults have no object, the default where the override says nothing, the merge of both where both have objects |
| `EnvironmentMerge.MergingAgain` | packages/towbar-core/src/manifest-v2.ts:193-209 | Applying the same override again changes nothing |
| `EnvironmentResolution.Resolve` | packages/towbar-core/src/manifest-v2.ts:213-337 | The loop over the files, with its early refusals, accepts exactly the inputs that meet the declarative conditions and then assembles the selected entities in order of path |
| `EnvironmentResolution.ResolveEntity` | packages/towbar-core/src/manifest-v2.ts:298-318 | Merging, inheriting the build server and validation of one entity |
| `EnvironmentInheritance.BuildServerIsFirstGiven` | packages/towbar-core/src/manifest-v2.ts:298-307 | The build server of an app is the first one given by its file, the selected environment and the root, in this order; null stands for none |
| `EnvironmentInheritance.OthersAreOwn` | packages/towbar-core/src/manifest-v2.ts:298-307 | Everything else, and everything of the other kinds, is what the file gives for the environment, or by default, or both merged |
| `EnvironmentInheritance.EnvironmentHidesRoot` | packages/towbar-core/src/manifest-v2.ts:301-304 | An environment with a build server of its own, even a null one, makes that of the root irrelevant |
| `EnvironmentInheritance.FileIsTakenApart` | packages/towbar-core/src/manifest-v2.ts:250-296 | Environments and secrets are kept apart from what an entity is merged from |
| `EnvironmentInheritance.PreviewsAreDropped` | packages/towbar-core/src/manifest-v2.ts:309-317 | Only apps of an environment without previews lose something of what their schema gives: their preview |
| `EnvironmentAcceptance.FilesAccepted` | packages/towbar-core/src/manifest-v2.ts:236-295 | The files are accepted exactly when each is allowed (size, reserved keys, id, secrets, declared environments that say nothing of the entity as a whole), no two share a path or an identity, and they have at most 8 MiB |
| `EnvironmentAcceptance.AcceptedInput` | packages/towbar-core/src/manifest-v2.ts:219-247 | What resolves has a usable root, a declared environment, at most a thousand files, and only allowed ones |
| `EnvironmentAcceptance.AcceptsInput` | packages/towbar-core/src/manifest-v2.ts:219-247 | Conversely such an input resolves, if normalisation refuses nothing |
| `EnvironmentAcceptance.SafeHasNoReservedKey` | packages/towbar-core/src/manifest-v2.ts:181-191 | No object at any depth of an accepted file has a reserved key |
| `EnvironmentAcceptance.UnsafeHasReservedKey` | packages/towbar-core/src/manifest-v2.ts:181-191 | And what is refused for that has one |
| `EnvironmentAcceptance.SecretsAreDemanded` | packages/towbar-core/src/manifest-v2.ts:283-318 | The manifest demands the secrets of every selecting file under the kind and the id of its entity |
| `EnvironmentAcceptance.ViewsInOrder` | packages/towbar-core/src/manifest-v2.ts:237-239 | Entities are taken in order of the paths of their files |
| `EnvironmentIndependence.OnlyTheSelectedEnvironmentMatters` | packages/towbar-core/src/manifest-v2.ts:211-337 | Two accepted inputs that agree on the root defaults, the selected environment's settings and the files that select it resolve to the same manifest, whatever other environments and other files say |
| `EnvironmentIndependence.FileOrderIsIrrelevant` | packages/towbar-core/src/manifest-v2.ts:236-238 | Neither acceptance nor the manifest depends on the order in which the files are listed |
| `EnvFile.ParseEnv` | infra/runtime_config.py:99-133 | The reading loop refuses or collects exactly what the line by line specification does |
| `EnvFile.Render` | infra/runtime_config.py:470-479 | The rendering loop writes one line per setting, quoted unless it is plain |
| `EnvRoundTrip.LineReadsBack` | infra/runtime_config.py:104-133 | Any value, whatever quotes, backslashes, number signs and dollar signs it has, is read back from its rendered line |
| `EnvRoundTrip.ParseInvertsRender` | infra/runtime_config.py:470-479 | Parsing a rendered file gives back the settings in their order if and only if no value contains a character at which texts are split into lines |
| `EnvReading.LinesAreSplit` | infra/runtime_config.py:101 | Every line break ends a line, a carriage return together with the newline after it |
| `EnvReading.SpacesAroundEquals` | infra/runtime_config.py:105-108 | White space around the equals sign belongs to neither key nor value |
| `EnvReading.CommentIsCut` | infra/runtime_config.py:129 | What follows a number sign after white space is a comment, for every value; a number sign elsewhere belongs to the value |
| `EnvReading.InterpolationIsRefused` | infra/runtime_config.py:129-131 | A dollar sign in a value without quotes refuses the line |
| `EnvReading.SingleQuotes` | infra/runtime_config.py:115-118 | In single quotes nothing but a backslash before a single quote is special |
| `EnvReading.OtherKeys` | infra/runtime_config.py:109-114 | An unknown key refuses the line whatever its value, and the obsolete one is skipped where that is asked for |
| `EnvReading.WrittenPlain` | infra/runtime_config.py:474-478 | A value is written without quotes exactly when all of its characters are letters, digits or one of nine others |
| `RuntimeConfig.ComputeEnv` | infra/runtime_config.py:299-336 | The loop over the fields collects the settings of an accepted configuration, with the derived domains |
| `RuntimeConfig.ComputeConfig` | infra/runtime_config.py:167-194 | The loop over the fields rebuilds a configuration, refusing conflicts, and completes it |
| `RuntimeConfig.Compare` | infra/runtime_config.py:482-495 | The comparison accepts exactly a file with the same keys and the same values |
| `RuntimeAddresses.ApiBesideApp` | infra/runtime_config.py:197-203 | The address of the API is derived from that of the application by adding "-api" to the first label of its host |
| `RuntimeAddresses.OnlyThenDerived` | infra/runtime_config.py:197-203 | It is derived of no other address, but for the local one |
| `RuntimeAddresses.GatewayOfMode` | infra/runtime_config.py:206-212 | A local installation has an empty gateway, any other exactly the host of an application that is an exact https origin |
| `RuntimeAddresses.DomainsAccepted` | infra/runtime_config.py:320-334 | The addresses of a configuration are accepted exactly when it is local with the local API, or public with a separate API at an exact https origin, and the application has a gateway |
| `RuntimeSettings.UnknownIsRefused` | infra/runtime_config.py:272-296 | A configuration is refused when anything in it lies at a path that no setting has |
| `RuntimeSettings.NothingFollowsAnObject` | infra/runtime_config.py:145-152 | A mapping is read as it was written, and refused when anything follows it |
| `RuntimeSettings.ZerosDropped` | infra/runtime_config.py:141-144 | Leading zeros of a number do not count |
| `RuntimeFields.TableHolds` | infra/runtime_config.py:30-96 | The 83 fields of the installer have distinct legal keys, none of them reserved, and paths that do not lead through each other but for the notifications, which is all that is used of the table |
| `ConfigTree.SetKeepsOthers` | infra/runtime_config.py:156-164 | Setting a path leaves every path apart from it as it was, and as free as it was |
| `ConfigTree.GetWhatWasSet` | infra/runtime_config.py:234-242 | What was set at a free path is found there |
| `RuntimeReadBack.RenderedIsReadBack` | infra/runtime_config.py:470-479 | For every accepted configuration, parsing the rendered file returns exactly its settings if and only if none of them contains a line break |
| `RuntimeUnreadable.BrokenCallbackIsNotReadBack` | infra/runtime_config.py:470-479 | A family of accepted configurations whose rendered file is not read back: a GitLab callback with a line break other than the two that are refused |
| `RuntimeUnreadable.LineSeparatorIsNotReadBack` | infra/runtime_config.py:470-479 | A concrete one, with a line separator between two letters |
| `RuntimeReadBack.ComparesAfterRendering` | infra/runtime_config.py:482-495 | Comparing succeeds on the file just rendered |
| `RuntimeReadBack.ReadsBackIffDerivable` | infra/runtime_config.py:187-202 | Reading back the environment of an accepted configuration succeeds if and only if an API address can be derived from the application's, even when one is given |
| `RuntimeReadBack.ReadBackAgrees` | infra/runtime_config.py:167-194 | And then it agrees with the configuration on every field and every notification setting, except for the moved GitLab callback and the API address that is filled in |
| `RuntimeUnreadable.GivenApiIsNotEnough` | infra/runtime_config.py:187-202 | A family of accepted configurations, with their API address given, whose environment is not read back |

## Left out

- SecretSurvivesIff: is about a single secret; with others beside it the condition is that of `SecretIsGoneIff`.
- CutLengthIsLongestPartial: assumes a secret without NUL, which an environment variable cannot contain.
- WindowTelescopes: is about one container; several are the subject of `InterleavedGains`.
- AppStorageCleanup.NoUnfilledVolumeIsLeft: assumes that a command that creates a volume and reports failure has not created it; such a volume is outside the clean-up of the script and removed by the next run.
- AppStorageCleanup.NoHelperIsLeft: assumes that the removal in the clean-up reaches Docker, as the script ignores its failure.
- AppStorageOwnership.FilledAsAsked: of several declarations of one volume says that it is filled as one of them asks.
- EnvironmentAcceptance.AcceptsInput: normalisation is an arbitrary function, whose refusals are not modelled.
- NothingDisappears: assumes that file operations of the buffer succeed; that its bound holds does not depend on it being so.
- RunConserves: counts events of one each and assumes a monotone clock; the filters before the table (unknown service, excluded path) are not modelled.
- Reconcile: assumes that declared identities are distinct, which validation of the manifest guarantees; the counts per action in the summary are not modelled.
- EqualTextsIffEqualValues: assumes that the comparison of keys is a strict total order, and covers values without undefined leaves and without lone surrogates.
- OnlyTheSelectedEnvironmentMatters: field validation, YAML parsing, path classification and normalisation are arbitrary functions; which of several faults is reported first is not modelled.
- OneGoodRunRecovers: two runs of one deployment identifier that declare different volumes are left to `UninterruptedRunCompletes`, whose condition on helper names then matters.
- ReadBackAgrees: holds of any table of fields with distinct keys and paths that do not lead through each other; `TableHolds` shows that the table of the installer is one.
- EnvFile.ParseEnv: how a value in double quotes is decoded is an arbitrary function, as the renderer never writes one; JSON texts are read in the compact form in which they are written.
- BeginningIsRemovedIff: is about secrets that cannot overlap the marker, none of them empty, given in the order in which they are looked at.
- AnalyticsCollector.Collector.Flush: the attached readiness of services, tunnel peers and geolocation data of a sample are omitted.
- AgentSender.Buffer.Prune: temporary files, the durable copy of the dropped counter and failing file operations are omitted.
- AgentSender.Buffer.Add: failing directory and file operations are omitted.
- AgentSender.Buffer.Next: a file that cannot be inspected or read is omitted.
- Reconciliation.StoreAfterwards: the refusals of materialization (unknown server or integration, storage, change of type) are omitted; it is about an outcome that is stored.
- UpgradeRunner.Runner.ExecuteAll: follows one thread from its start without other requests between its actions; `Execute` and `Serve` cover those.
- UpgradeRunner.Runner.Execute: a call of the database by the execute thread, and each of its saves, is one atomic action, as no other action can change the job or the row while it is under way; the last statement, which clears the restarting flag without the lock, is a step of its own and may follow a resume.
- PrepareStorage: copying into a volume is one step, so a crash in its middle is not told from one before it; neither leaves a marker.
- Docker, SSH, file permissions, symbolic links and flushing to disk are replaced by atomic steps that may fail.
- The upgrade command, the published releases, the query for pending work and the installation of the runner are arbitrary answers; job messages, stages and timestamps are omitted.
- No database commit lands after the crash that interrupted it, and starting the thread succeeds.
- `scoutGaugeObservations`: a grouping by time with a maximum or minimum, settled by reading it.
- The decoding of the captured bytes as UTF-8, the time limit of a job and the collection of its exit code.
- NamesInOrder: times outside the years 0 to 9999 are not modelled; a sample whose time is outside them has no JSON form and is refused on reading.
- The deployment digests of `deployment-inputs.ts`, which add little to the canonical printer.
- The conversion of a legacy environment file beyond reading it, and the ownership and mode of configuration files.
