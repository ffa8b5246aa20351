# picolet, modelled and proved in Dafny

picolet is a GitOps agent: it brings a Host to what a git repository declares, restarts what changed, remembers
what it still owes, and guards its own restart. These modules model the parts of it that decide and remember, and
prove what those parts promise over every input, every run and every interleaving.

The interfaces to systemd, Podman, the operating system and the secret providers are parameters: a function or a
value says what each call answers, nothing is assumed of it beyond what a lemma's `requires` names. Maps the
source ranges over in no fixed order are visited in any order.

## The modules

- `Guard`, with `Mounts`, `MountSpecs`, `Paths`, `PodmanArgs` and `FlagsInSight`: the self-restart guard. `MountSpecs`
  says option by option what a unit's mounts are. A container is seen at one path: its mounts, what each shows
  there, and the image beneath. Targets with systemd specifiers may lie anywhere. `Guard`
  proves the syntactic check of `sameView`, asked about the changes made since the running container was started,
  equivalent to the semantic statement: every placement of those targets shows the credential file alike before and
  after the restart. The source asks it about the last changeset only, and `GuardSound` says exactly when that is
  enough.
- `Hooks` and `PendingHooks`: the two hook passes with their dedup map, the pending hooks merged from them, and the
  retry budget over every run of ticks.
- `Restarts` and `Disposal`: image builds with tag rollback, and the path each changed unit takes afterwards. The
  trace of systemd calls is a ghost field of `Applier`; each method is proved equal to a specification of the
  trace, `Disposal` counts over it, and `RestartCalls` says which call each unit gets, and when. `HookRestarts` joins the hook pass to them: what becomes of a unit that the
  hooks put in the restart set.
- `UnitRecords`, `Health`, `HealthExact`, `HealthRuns` and `RetryPath`: the pending units of an apply, one pass of the
  health loop and what it does with each unit, runs of both, with clocks, process restarts and cooldowns, and which failed restarts the loop retries.
- `ShaGate`: the failed-SHA gate, over one commit that keeps failing and over any history of commits.
- `Machine`, `Runner`, `Outcomes`, `AgentRestarts`, `RestartsOwed`, `Convergence`, `Isolation`, `Planning`, `Fleet`,
  `PlanExact`, `StepCalls`, `Evaluate`, `Topology`: the Machine bootstrap. `Machine` has the state of a Machine, the documented contracts of `HostOps`,
  the checks and the fact cache; `Runner` has the step runner as a class, proved equal over a whole run to a runner
  without a cache, and the other modules prove convergence, idempotence, isolation and restarts of that one.
  `Planning` and `Fleet` prove that a Fleet accepted by `validateTopology` yields a plan these apply to, `PlanExact`
  what that plan holds for each Host and what a run leaves of it, and `StepCalls` which calls each step makes.
- `Checkout`: opening the Fleet checkout to every user. `Redaction`: hiding secrets in provider errors.
- `Reconnect`: the D-Bus reconnect protocol as a state machine over the steps of any number of callers.

## What the proofs found

Where the code does not do what its comments say, the code is modelled as it is, a lemma gives an input, and the
exact condition is proved.

- The guard compares mounts against the changeset at hand. A secret or volume unit written by an earlier changeset,
  which restarted nothing, is taken as what the running container shows; a later changeset is then accepted although
  the next start reads the new content (`EarlierSecretAccepted`). An accepted credential reads the same exactly when
  no changeset since the container was started wrote the secret or volume unit of a mount that may hold it
  (`GuardSound`).
- The comment of `podmanArgsValues` says flags are read wherever they appear. Behind another flag's separate value
  that looks like a flag, a real flag is missed (`BareFlagHidesNext`); so it is after an empty `-v=`
  (`EmptyEqualsHidesNext`). The arguments have neither of the two exactly when no continuation of them can lose a
  flag (`NeverMissesExact`).
- The redaction always hides a secret, in every message and beside every other secret, exactly when no overlap of
  it with the marker agrees (`HiddenExact`, of secrets that leave some visible letter unused). One that is part of
  the marker shows in exactly the messages that hold any secret (`MarkerPartAlwaysShown`); one with an angle bracket
  can be spelt by the text around a marker (`BracketSecretReappears`).
- `MakeWorldReadable` guards hard-linked regular files only. A hard-linked pipe, socket or device in the checkout
  is opened with its link outside (`SpecialFileOpensOutside`, exact in `OpensTreeOnly`).
- A triggered build that needs another triggered build's image is run as a build and restarted as a consumer
  (`BuildOfBuildIsRestarted`, exact in `BuildRestartedExact`), although builds are meant to be started only. When
  that restart fails, the build is recorded as restarted and as failed (exact in `OutcomesOnce`), the failures
  counted before are forgotten, and the health loop drops its record without a retry (`BuildLosesRetry`).
- An incomplete apply counts on the health loop to retry its failed units. The next pass that gets an answer about
  such a unit restarts it, or waits its cooldown out with the record kept, exactly when it sees the unit failed, not
  as an activator or a job systemd runs itself, and no build, manifest, data file or secret names it; any other
  answer drops the record, and no answer keeps it (`FailureRetriedExact`). So a failed build has
  no retry; nor has a timer's job that a restart hook names and the commit did not write (`TriggeredJobLosesRetry`,
  an apply in `HookRestartsTimersJob`); nor a consumer of a rebuilt image whose status could not be read and that is
  found up, on its old image (`UnreadConsumerLosesRetry`, an apply in `ConsumerUnread`).
- A restart hook's unit is put in the restart set, which is not the same as being restarted: a timer's one-shot
  written in the same commit is left to its timer, with nothing pending (`TimersJobNotRestarted`). A unit in the
  set is restarted by one call exactly when it has a turn that does not leave it alone (`RestartSetDisposed`).
- A deferred stop should give way to a deferred restart of the same unit. It does not when the restart is one of a
  build's consumer (`RenamedAgentIsStopped`, exact in `StopAndRestartExact`).
- A restart owed for a written credential file is owed within one run only. Whatever ended that run before the
  restart, an interruption or a failure, a later run that finds every credential content of the Host in place
  neither marks the Host nor restarts its Agent (`NothingMissingNothingRestarted`, for all runs;
  `InterruptedRestartIsNotResumed` is one). A run without failures restarts the Agent exactly when some content was
  missing at its turn in that run (`RestartedExact`).

## What the guard takes as unchanged

`Replaces` says what may differ between the running container and the next, in the terms of the mounts themselves.
Both are started from the mounts of the unit on disk. A secret or volume-unit mount shows what its store holds when
the container is created, and the stores may differ exactly in secrets that a changeset since then created or
updated and in volume units it changed in any way. A tmpfs or anonymous volume is empty when the container is
created and may hold anything later; an image mount may show anything in either container. Any other mount shows what
is at its source on the Host, which no changeset touches. The image beneath is compared by the `Image=` lines.

## Assumptions of the Machine bootstrap

- `MeetsContract` holds what `pkg/machine/hostops.go:70-147` documents of each successful write, and that no
  successful write changes an existing directory or credential file of the plan other than its own target, which the
  per-Host bootstrap and the Agent do not write either. Any other file may appear, change or go: `ContractsAreMet`
  gives operations that meet it and whose bootstrap rewrites its state file. A failing write may leave anything of
  its own Host's account. `OpensCheckout` is the part about `MakeWorldReadable`, with a failing one leaving the
  checkout's readability as it was.
- The accounts of different users share no files, and no home lies in the rootful Host's directories. The Fleet
  checkout lies apart from all of them: opening it changes no directory or credential file, and no write to an
  account changes the checkout.
- `ReadsAnswer`: run as root, every question is answered. `TreeReadSteady`: whether the checkout's state can be
  read does not depend on that state. Only the lemmas that name them need them.

## Model

| member | source | states |
|---|---|---|
| Guard.FrozenChanges | pkg/agent/selfconfig.go:287-307 | no change is listed exactly when every frozen `[Container]` key, the config path and every unlisted `[Service]` key agree |
| Guard.FrozenKeepsMounts | pkg/agent/selfconfig.go:232-259 | units that agree on the frozen lines have the same mounts and the same `--volumes-from`: mounts are read from frozen keys only |
| Guard.FrozenAgrees | pkg/agent/selfconfig.go:287-327 | with nothing frozen changed both containers read their config at one path, and of `[Service]` only when and how it is restarted can change |
| Guard.BaseExact | pkg/agent/selfconfig.go:440-449 | a change is matched to a volume unit by what follows its path's last slash |
| Guard.GuardSound | pkg/agent/selfconfig.go:355-400 | an accepted file credential reads the same in the next container, wherever the unplaced mounts lie, exactly when no changeset since the running container's start, before the accepted one, wrote the secret or volume unit of a mount that may hold it |
| Guard.EarlierSecretAccepted | pkg/agent/selfconfig.go:386-405 | a secret an earlier changeset wrote: the next changeset is accepted and the next container can show other content |
| Guard.SameViewExact | pkg/agent/selfconfig.go:355-400 | asked about a set of changes, the guard accepts a file credential if and only if every placement shows it alike in both containers, whatever secrets and volumes hold but for what the changes leave alone |
| Guard.RefusedOutright | pkg/agent/selfconfig.go:366-395 | accepted paths are absolute; an absolute directory is always accepted; an accepted file has no `--volumes-from` beside it and no empty and no image mount that may hold it |
| Guard.FreshShowsOther | pkg/agent/selfconfig.go:386-400 | a fresh mount that may hold the path can show other content after the restart |
| Guard.ImageShowsThrough | pkg/agent/selfconfig.go:366-380 | with no placed mount over the path a changed image can show through |
| Mounts.ListUnitMounts | pkg/agent/unitmounts.go:35-53 | lists the mounts and `--volumes-from` values of every key and flag, in order |
| Mounts.PodmanArgsMounts | pkg/agent/unitmounts.go:57-76 | the mounts set through `PodmanArgs=` |
| Mounts.UnitMountsClean | pkg/agent/unitmounts.go:79-137 | every absolute target reported is in the spelling `path.Clean` gives |
| Mounts.UnitMountsOneSource | pkg/agent/unitmounts.go:79-137 | every mount reported is filled from one source: empty, an image, a secret, a volume unit or the Host |
| MountSpecs.UnitMountsExact | pkg/agent/unitmounts.go:35-76 | a mount is reported if and only if a line of the unit's keys, the last `VolatileTmp=`, or a flag of `PodmanArgs=` sets it |
| MountSpecs.VolumesFromExact | pkg/agent/unitmounts.go:57-76 | exactly the `--volumes-from` options are returned apart |
| MountSpecs.VolumeReported | pkg/agent/unitmounts.go:79-89 | source:target with or without options: empty without a source, a volume unit's in Quadlet when the source ends in .volume |
| MountSpecs.TargetAloneReported | pkg/agent/unitmounts.go:79-124 | a target alone, and a tmpfs whatever its options, starts empty |
| MountSpecs.MountReported | pkg/agent/unitmounts.go:91-118 | the fields in any order and spelling, the last of each counting: what starts empty, what is an image's, what a volume unit's |
| MountSpecs.SecretAloneReported | pkg/resolver/agent.go:71-85 | a value without a comma is the secret's name, mounted below /run/secrets |
| MountSpecs.SecretReported | pkg/resolver/agent.go:78-109 | a secret with options: not mounted unless its type is mount, else at its target or name, below /run/secrets when relative |
| Mounts.MayHoldPass | pkg/agent/unitmounts.go:149-165 | the single pass that restarts its group at each longer target returns all placed mounts of the deepest holding target, then all unplaced ones |
| Mounts.MayHoldExact | pkg/agent/unitmounts.go:149-171 | a mount is returned if and only if some placement of the unplaced mounts shows the path from it |
| Paths.RenderRoundTrip | pkg/agent/unitmounts.go:140-145 | rendering clean components and reading them back is the identity, so cleaning a path twice is cleaning it once |
| Paths.CompsNext | pkg/agent/unitmounts.go:79-124 | what one more element does to a cleaned path: nothing, one component less, or one more |
| Paths.UnderIsPrefix | pkg/agent/unitmounts.go:140-145 | the spelling test decides whether one path's components begin the other's |
| Paths.SameLengthSameTarget | pkg/agent/unitmounts.go:149-165 | two targets of one length that hold the same path are one target, which is why comparing lengths finds the deepest |
| PodmanArgs.PodmanArgsValues | pkg/agent/unitmounts.go:203-240 | the index loop reports exactly the flags and values of the recursive reading |
| PodmanArgs.FlagAgrees | pkg/agent/unitmounts.go:245-267 | one argument is read as podman run reads it: the same flag with the same value, or none |
| PodmanArgs.NoFlagMissed | pkg/agent/unitmounts.go:199-240 | without a flag-like separate value and without an empty `-v=`, every flag a left-to-right `podman run` parse reads is reported with its value, in order |
| FlagsInSight.NeverMissesExact | pkg/agent/unitmounts.go:33-34 | no continuation of the arguments, itself in sight, loses a flag if and only if no other flag's separate value is a bare flag of the spec and no `-v=` is empty |
| FlagsInSight.OutOfSightLoses | pkg/agent/unitmounts.go:199-267 | arguments with such a value have a complete prefix after which a flag podman run reads is not reported |
| PodmanArgs.BareFlagHidesNext | pkg/agent/unitmounts.go:199-240 | the claim fails on `--env --volume --mount spec` and all its kind |
| PodmanArgs.EmptyEqualsHidesNext | pkg/agent/unitmounts.go:245-267 | an empty `-v=` hides the flag after it |
| Hooks.KeyIsSideEffect | pkg/applier/applier.go:1095-1105 | two hooks have one execution key exactly when they have one side effect |
| Hooks.HookPass.RunOneHook | pkg/applier/applier.go:1019-1037 | the reloader runs unless the key ran before, and the outcome is recorded |
| Hooks.HookPass.DispatchHookResult | pkg/applier/applier.go:1041-1064 | success, skip, fallback restart and retryable failure each leave their own record |
| Hooks.HookPass.RunHooksWithPending | pkg/applier/applier.go:963-1015 | both passes: triggered hooks in config order, then pending names not yet attempted |
| Hooks.AttemptedOnce | pkg/applier/applier.go:956-1015 | every triggered hook and every pending name is attempted exactly once, the triggered ones first, names no longer configured included |
| Hooks.ReloadedOnce | pkg/applier/applier.go:1019-1037 | the reloader runs at most once per side effect |
| Hooks.NothingLost | pkg/applier/applier.go:956-1064 | the dedup loses no hook's change: a reload of its side effect was answered as working, is still pending, or its unit is in the restart set |
| Hooks.TurnExact | pkg/applier/applier.go:1019-1064 | what a hook's turn adds to each record, by how its unit and its reload answer |
| Hooks.FailedReloadOwed | pkg/applier/hook.go:84-153 | the first reload of a side effect, of a unit not restarted anyway: with the unit down or the reload failing the hook ends pending, or its unit in the restart set when it says so; a working one adds neither |
| HookRestarts.RestartSetDisposed | pkg/applier/applier.go:434-447 | a unit in the restart set is a build, left to its pod or has a turn, and is restarted by one call, synchronous or deferred, exactly when it has a turn that does not leave it alone |
| HookRestarts.HookReaches | pkg/applier/applier.go:434-447 | a triggered or pending hook's reload worked, is owed, or its unit is built, left to its pod, restarted by one call, or left alone by its turn |
| HookRestarts.TimersJobNotRestarted | pkg/applier/applier.go:845-867 | a timer's one-shot written with the secret its restart hook names is not restarted, and nothing is pending |
| Hooks.PassInvHolds | pkg/applier/applier.go:963-1064 | after any items: executed keys are those of the reloads, pending names those of the failed ones, given-up effects have their unit restarted |
| PendingHooks.MergePendingHooks | pkg/agent/agent.go:999-1022 | unattempted names keep their count, failed ones get one more, the rest go |
| PendingHooks.EnforceRetryBudget | pkg/agent/agent.go:1142-1168 | the budget's loops drop what its specification drops |
| PendingHooks.EnforceExact | pkg/agent/agent.go:1130-1168 | a hook is dropped exactly when the last configured hook of its name has had its attempts, 10 unless it sets them; no count changes |
| PendingHooks.MergedAreTheFailed | pkg/agent/agent.go:991-1022 | after a pass the pending map is exactly the failed hooks, each with its old count plus one |
| PendingHooks.BudgetKept | pkg/agent/agent.go:1096-1168 | over every run, after a reconciliation each pending name is a configured hook with a count from 1 to its limit less one, the limit 10 unless set |
| PendingHooks.CountGrows | pkg/agent/agent.go:999-1022 | each reconciliation that leaves a hook pending raises its count by one |
| PendingHooks.GivesUpInTime | pkg/agent/agent.go:1130-1168 | a hook whose attempts all fail outlives fewer reconciliations than its limit still allows |
| Restarts.Applier.RestoreTags | pkg/applier/build.go:148-170 | puts the tags back one after the other |
| Restarts.RestoreAllRestores | pkg/applier/build.go:148-170 | every tag whose image calls succeed names its old image again, also where two tags name one reference |
| Restarts.CanonicalExact | pkg/applier/podman.go:185-195 | a reference has a tag exactly when a colon comes after its last slash; without one it is that of :latest |
| Restarts.Applier.RunBuilds | pkg/applier/build.go:114-131 | a failed build leaves every tag naming the image it named before and records the builds before it; success records every build |
| Restarts.Applier.RestartUnits | pkg/applier/applier.go:770-797 | it succeeds exactly when the reload, the reading of the tags and every build do; after a failed one nothing is activated, restarted or deferred; otherwise the calls are those of the specification, in order |
| Restarts.Applier.RestartChangedUnits | pkg/applier/applier.go:801-829 | one turn per unit in order, the Agent's own units returned instead |
| Restarts.Applier.RestartConsumer | pkg/applier/build.go:200-219 | a consumer is restarted alone while it runs, with its dependencies when down, and left when systemd activates it |
| Restarts.Applier.ScheduleSelfUnitOps | pkg/applier/applier.go:914-932 | every own restart, then every own stop without one, is deferred |
| Disposal.SyncRestartsExact | pkg/applier/applier.go:801-867 | a unit is restarted synchronously once or never: exactly when it is not the Agent's own and its ordinary or consumer turn does not leave it alone |
| RestartCalls.ConsumerCallExact | pkg/applier/build.go:177-219 | a unit that needs a rebuilt image: restarted alone exactly when its state is active, activating or reloading, with its dependencies exactly when not, unless systemd starts it itself; and what is recorded |
| RestartCalls.OrdinaryCallExact | pkg/applier/applier.go:801-867 | any other changed unit: restarted with its dependencies and never alone, unless a one-shot of this apply that a timer fires or that cannot be read; and what is recorded |
| RestartCalls.ActivationsExact | pkg/applier/applier.go:770-797 | the calls after the builds begin with the activations, each with its operation, in order, and hold no other |
| RestartCalls.BuildsExact | pkg/applier/build.go:114-131 | every build is run once, in order |
| RestartCalls.CallsInOrder | pkg/applier/applier.go:770-797 | activations, then ordinary restarts, then consumers', then everything deferred |
| Disposal.DeferredRestartsExact | pkg/applier/applier.go:914-943 | a unit of the Agent's own with a turn is restarted by exactly one deferred call |
| Disposal.StopAndRestartExact | pkg/applier/applier.go:912-928 | a unit is both stopped and restarted exactly when it is a deleted own unit that consumes a rebuilt image |
| Disposal.DisposedOnce | pkg/applier/applier.go:770-797 | each changed unit is a build, left to its pod, a consumer or ordinary, in one way only unless a build consumes a build |
| Disposal.BuildRestartedExact | pkg/applier/build.go:177-194 | a triggered build is restarted exactly when it needs another triggered build and its turn does not leave it alone |
| Disposal.OutcomesOnce | pkg/applier/applier.go:770-841 | over builds and restarts: a unit is recorded as both restarted and failed exactly when it is a triggered build that fails as a consumer; every unit once at most exactly when no triggered build is a consumer that systemd does not start itself |
| Disposal.PodHasTurn | pkg/applier/applier.go:663-702 | the pod of a member whose restart is dropped has a turn of its own |
| Disposal.PodIsRestarted | pkg/applier/applier.go:690-702 | that pod is restarted by one call, deferred if it is the Agent's own, and left out only for a timer's one-shot or an unreadable or self-started consumer; failures are recorded |
| Disposal.BuildOfBuildIsRestarted | pkg/applier/build.go:177-194 | a build of a build is run and restarted |
| Disposal.RenamedAgentIsStopped | pkg/applier/applier.go:912-928 | the renamed Agent's deferred stop and restart are both issued |
| UnitRecords.MergePendingUnits | pkg/agent/agent.go:1031-1055 | cleanly restarted units go, failed ones are added or counted again |
| UnitRecords.PrunePendingUnits | pkg/agent/agent.go:1060-1077 | exactly the units still managed are kept |
| UnitRecords.State.UpdateState | pkg/agent/agent.go:1310-1322 | the managed files and service names after a changeset |
| UnitRecords.State.RecordApply | pkg/agent/agent.go:985-993 | the pending units after an apply, all of them managed |
| UnitRecords.ServiceNamesExact | pkg/agent/agent.go:1310-1322 | one unit per path, and every path's own unit |
| UnitRecords.ChangesetUnitNames | pkg/agent/agent.go:1234-1244 | the units the changes other than deletions name |
| UnitRecords.ManagedAgree | pkg/agent/agent.go:1234-1244 | the units the incomplete check counts are exactly those the state records |
| UnitRecords.IncompleteApplyIsRecorded | pkg/agent/agent.go:1262-1278 | each unit behind an incomplete apply has a record with this commit, one failure more than before, or the first when it was recorded as restarted too, the first failure's time kept and this one's cut to the second; every record is of a managed unit |
| RetryPath.FailureRetriedExact | pkg/health/health.go:130-215 | for every next pass over a failed unit of an incomplete apply: no answer keeps the record; an answer leads to a restart or to waiting with a record exactly when the unit is seen failed, not as systemd's own job, and no never-retried file names it; any other drops the record and restarts nothing |
| RetryPath.TriggeredJobLosesRetry | pkg/health/health.go:183-186 | a failed ordinary restart of a unit then seen as systemd's own job loses its record |
| RetryPath.HookRestartsTimersJob | pkg/applier/applier.go:434-447 | an apply in which a restart hook brings such a unit about |
| RetryPath.UnreadConsumerLosesRetry | pkg/applier/build.go:200-205 | an unread consumer is recorded as failed with no restart call, and cleared when next seen up |
| RetryPath.ConsumerUnread | pkg/applier/build.go:177-205 | an apply in which that happens |
| RetryPath.BuildLosesRetry | pkg/agent/agent.go:1248-1260 | a triggered build that fails as another's consumer starts counting at one and then loses its record without a retry |
| RetryPath.BuildOfBuildFails | pkg/applier/build.go:177-219 | an apply in which that happens |
| Health.Checker.RestoreCooldowns | pkg/health/health.go:97-114 | unmanaged units are forgotten, and the persisted attempt of the others restored unless the process remembers one |
| Health.Checker.Enforce | pkg/health/health.go:87-125 | one pass does to each managed unit what its own status asks, in any order, and forgets every other unit |
| HealthExact.AttemptExact | pkg/health/health.go:130-265 | a unit is attempted if and only if it is seen broken, is not systemd's own job, no file behind it forbids it, and five minutes have passed since the last attempt remembered |
| HealthExact.AttemptRemembered | pkg/health/health.go:244-265 | an attempt's time is remembered, and a failed one recorded with its commit, count and times to the second |
| HealthExact.ReportExact | pkg/health/health.go:130-265 | in which lists of the result each managed unit appears, and how often |
| HealthExact.FailedDaemonRestarted | pkg/health/health.go:175-215 | a failed unit behind network, volume, container, kube, pod or systemd files, out of its cooldown, is attempted with a pending record or without, and listed as restarted exactly when that succeeds |
| Health.AllFailedExact | pkg/health/health.go:40-47 | AllFailed holds exactly when a unit is managed and every status query errored |
| Health.PendingExact | pkg/health/health.go:130-215 | a unit is pending after a pass exactly when it is managed and its record could not be cleared or its restart just failed |
| HealthRuns.StepIsEnforce | pkg/health/health.go:87-125 | the step of a run is what `Enforce` does to the two maps, and the only such step |
| HealthRuns.CooldownKept | pkg/health/health.go:244-265 | two restarts of a unit that stays managed, in one process, are a cooldown apart |
| HealthRuns.CooldownSurvivesRestart | pkg/health/health.go:269-282 | across Agent restarts the gap after a recorded failure is the cooldown less at most a second |
| HealthRuns.BuildNeverRestarted | pkg/health/health.go:194-215 | no pass of any run restarts a build's service |
| HealthRuns.ImageRestartRetries | pkg/health/health.go:130-215 | an image's service is restarted only within a chain that began with a failed apply, or with a failed health restart at a pass that found no image file behind the unit, the unit never seen up or at rest since |
| ShaGate.State.Tick | pkg/agent/agent.go:554-613 | the gate is closed, armed and cleared as specified |
| ShaGate.FirstThreeAtOnce | pkg/agent/agent.go:554-558 | the first three ticks of a failing commit are all attempted |
| ShaGate.AttemptsSpaced | pkg/agent/agent.go:554-566 | from the third failure on, every later attempt starts an hour or more after it |
| ShaGate.WindowBound | pkg/agent/agent.go:554-613 | any window from the first tick to the start of an attempt holds three attempts and one per hour at most, that attempt included |
| ShaGate.HeldBackExact | pkg/agent/agent.go:554-613 | over any history of commits a tick is held back exactly when its commit failed at its last three tries or more, nothing else tried in between, the last less than an hour ago |
| ShaGate.StartsAfresh | pkg/agent/agent.go:595-613 | after a success, or a try of another commit, a tick is attempted, its failure counts as the first, and a success clears the gate |
| Topology.ValidateTopology | pkg/config/topology.go:16-50 | the collisions reported, in order |
| Topology.NoClashExact | pkg/config/topology.go:10-50 | none is reported exactly when no two Hosts share a hostname, or a Machine whatever the case of its name and on it a user or a port |
| Topology.ClashesExact | pkg/config/topology.go:16-50 | each of the three collisions is reported for exactly the Hosts whose key an earlier one has, with the first one's directory and its own |
| Topology.MachineKeyExact | pkg/config/host.go:81-87 | Machines are one exactly when their names are, letters compared without case |
| Machine.HostFacts.FindUser | pkg/machine/evaluate.go:109-118 | the cached lookup, and what it leaves cached |
| Machine.HostFacts.CheckUserManager | pkg/machine/evaluate.go:218-232 | the cached manager check |
| Machine.HostFacts.CheckStep | pkg/machine/evaluate.go:133-155 | through a fresh cache a check is the check without one, and leaves the cache fresh |
| Machine.CacheCoherent | pkg/machine/evaluate.go:79-127 | every kind of check agrees with its uncached form |
| Machine.DoneIsGoal | pkg/machine/evaluate.go:172-361 | with every question answered, a check is done exactly when the step's end state holds |
| Machine.DoneMeansGoal | pkg/machine/evaluate.go:172-361 | done is never said wrongly, whatever cannot be answered |
| Machine.ContractsAreMet | pkg/machine/hostops.go:70-147 | the documented contracts can be met together, by a bootstrap that rewrites files of its own |
| Evaluate.Evaluate | pkg/machine/evaluate.go:61-77 | the dry run reports each step's uncached check in plan order, unknown where it needs privileges, and aborts at the first that breaks |
| Runner.StepRunner.ApplyUser | pkg/machine/run.go:264-286 | a user-level step's write, its user looked up first |
| Runner.StepRunner.PlaceCredential | pkg/machine/run.go:290-306 | content or owner and mode alone, with the Host's owner |
| Runner.StepRunner.BootstrapHost | pkg/machine/hostbootstrap.go:81-129 | bootstrap, restart of a marked Host's Agent, health wait; each only after the last succeeded |
| Runner.StepRunner.Step | pkg/machine/run.go:193-222 | one step, with its facts forgotten after an apply |
| StepCalls.StepCallsExact | pkg/machine/run.go:193-306 | the calls of each kind of step are the first of those it wants, up to the first that fails; the Host goes on exactly when all are made and succeed |
| StepCalls.OtherwiseNoCall | pkg/machine/run.go:193-206 | a step of a stopped Host, one whose end state holds and one whose check fails make no call and change nothing |
| StepCalls.ErrorFromRead | pkg/machine/evaluate.go:172-361 | a check fails only with an error of a read, and needs privileges only when a read does |
| Runner.StepRunner.RunPhases | pkg/machine/run.go:63-77 | the run phase by phase until an interruption; on distinct Hosts equal to the run with no cache |
| Runner.CachedRunIsPlain | pkg/machine/run.go:193-222 | over every run, interrupted or not, the fact cache changes no check, call or outcome |
| Outcomes.OneOutcomePerStep | pkg/machine/run.go:193-222 | each step of an uninterrupted run gets one outcome; a step is skipped exactly when an earlier step of its Host failed, and the errors are those of the failed steps |
| Outcomes.StoppedHostIsLeftAlone | pkg/machine/run.go:195-198 | after a failure no call is made for the Host and its account is untouched |
| AgentRestarts.RestartsExact | pkg/machine/run.go:224-232 | a Host is marked exactly when its credential content was written, its Agent restarted only then, and always once its bootstrap is applied |
| RestartsOwed.NothingMissingNothingRestarted | pkg/machine/run.go:189-232 | any run that starts with every credential content of a Host in place, whatever an earlier run owed, neither marks the Host nor restarts its Agent |
| RestartsOwed.RestartedExact | pkg/machine/run.go:224-232 | a run without failures restarts a Host's Agent exactly when some credential content of the Host was missing at its turn |
| AgentRestarts.InterruptedRestartIsNotResumed | pkg/machine/run.go:189-192 | a restart owed by one interrupted run is not made by the run that completes it |
| Convergence.RunConverges | pkg/machine/run.go:37-47 | from any state, so after any interruption, a run without failures ends with every end state but the bootstraps' |
| Convergence.SecondRunOnlyBootstraps | pkg/machine/run.go:37-47 | the next run applies only per-Host bootstraps and restarts no Agent |
| Convergence.BringsSpares | pkg/machine/plan.go:316-341 | a successful step keeps every earlier end state its place in the plan spares |
| Isolation.EachHostAlone | pkg/machine/run.go:41-43 | each Host's account, calls, outcomes and restart are those of a run over its own steps, up to who opens the checkout, whatever the writes to accounts do |
| Planning.OneSourcePerPath | pkg/machine/plan.go:278-289 | no error exactly when the paths are distinct; else the path and the two sources |
| Planning.CredentialSteps | pkg/machine/credentials.go:20-58 | one step per entry, in order, or an error for a file that cannot be read; what each step holds is PlanExact.PlanHoldsExact |
| Planning.HostCredentialSteps | pkg/machine/plan.go:233-251 | directory files, token and bootstrap: files of a Host, unless one cannot be read or two place one path; when is PlanExact.PlaceableExact |
| Planning.New | pkg/machine/plan.go:202-228 | a plan exactly when every Host's credentials can be placed, phase by phase; its contents are PlanExact.PlanHoldsExact |
| PlanExact.PlaceableExact | pkg/machine/plan.go:233-289 | a Host's credentials can be placed exactly when everything below its directory can be read and no name comes from two places |
| PlanExact.PlanHoldsExact | pkg/machine/plan.go:202-341 | a plan holds, per Host, exactly its session, socket, directories and checkout, one file with its content per entry of --secrets-dir, the token without a block, one reference per block file, and one bootstrap |
| PlanExact.PlanNothingTwice | pkg/machine/plan.go:202-341 | and each of them once |
| PlanExact.PlanInTurn | pkg/machine/plan.go:202-341 | each Host's steps in order: user, ids, lingering, manager, socket, directories, checkout, credentials, bootstrap |
| PlanExact.UnresolvedExact | pkg/machine/plan.go:256-275 | reported as not placed are exactly the block files whose reference has no value, as hostname/file |
| PlanExact.CredentialsInPlace | pkg/machine/run.go:37-47 | after a run without failures every given file, token and resolved block file is in place at its Host, with its content, mode 0600 and owner |
| Planning.PlanOrdered | pkg/machine/plan.go:202-341 | no later step of a plan undoes an earlier one |
| Fleet.MachinePlan.Resolve | pkg/machine/plan.go:256-275 | fills values in, in place, and drops exactly the steps whose reference has none |
| Fleet.ResolvedExact | pkg/machine/plan.go:256-275 | each step without a reference is left as it is and each whose reference has a value gets that value; the others are listed as unresolved |
| Fleet.PlanOrderIsRunOrder | pkg/machine/run.go:63-71 | the run's phase loops visit the plan in its own order |
| Fleet.PlanIsSound | pkg/machine/plan.go:202-275 | a Fleet without clashes gives a plan of distinct Hosts that never undoes itself and ends with the bootstraps |
| Fleet.MachineSettles | pkg/machine/run.go:37-47 | for such a Fleet: convergence of the first run and idempotence of the second |
| Fleet.HostsAreIsolated | pkg/machine/run.go:41-43 | for such a Fleet: Host isolation |
| Checkout.OnlyAddsReadAndSearch | pkg/machine/hostops_os.go:275-287 | the wanted mode adds read and search for others and nothing else |
| Checkout.OSHostOps.UnsearchableAncestor | pkg/machine/hostops_os.go:258-272 | the first directory above that denies search, if any |
| Checkout.OSHostOps.WorldReadableTree | pkg/machine/hostops_os.go:228-252 | true exactly when the ancestors grant search and every entry is readable |
| Checkout.TreeReadableExact | pkg/machine/hostops_os.go:228-287 | in mode bits: search for others on every directory above, read on every entry but links, and search on directories and executables |
| Checkout.OSHostOps.WorldReadableChanges | pkg/machine/hostops_os_write.go:313-333 | the changes and the hard-linked files the walk finds |
| Checkout.OSHostOps.MakeWorldReadable | pkg/machine/hostops_os_write.go:273-308 | nothing changes when an ancestor denies search or a linked file needs a change; success makes the tree readable; only o+rX is added |
| Checkout.OpensTreeOnly | pkg/machine/hostops_os_write.go:313-333 | no inode named outside the tree is opened exactly when no special file that needs a change is |
| Checkout.SpecialFileOpensOutside | pkg/machine/hostops_os_write.go:322-328 | a hard-linked pipe is opened outside the tree |
| Checkout.ReadableTreeNeedsNothing | pkg/machine/hostops_os_write.go:313-333 | on a readable tree there is nothing left to change |
| Redaction.Redact | pkg/machine/provider.go:136-146 | the output holds no secret that cannot overlap the marker, whatever the other secrets and the overlaps among them |
| Redaction.HiddenExact | pkg/machine/provider.go:136-146 | a secret is hidden in every message and beside every other secret if and only if no overlap of it with the marker agrees |
| Redaction.UntouchedIsHidden | pkg/machine/provider.go:136-146 | the same in any order of replacement, for one secret among many |
| Redaction.OccurrenceComesFromInput | pkg/machine/provider.go:136-146 | a replacement reveals no secret: what occurs after it occurred before, clear of the replaced text |
| Redaction.PlainSecretNeverTouches | pkg/machine/provider.go:142-143 | a secret without angle brackets that is no part of `redacted` cannot overlap the marker |
| Redaction.MarkerPartAlwaysShown | pkg/machine/provider.go:142-143 | a secret that is part of the marker shows in exactly the messages that hold a secret |
| Redaction.RedactionComplete | pkg/machine/provider.go:136-146 | in any order every secret clear of the marker is hidden, a message without secrets is unchanged, one with such a secret is not |
| Redaction.SecretReplacedWhole | pkg/machine/provider.go:138-139 | longest first: the first occurrence of a secret becomes one marker, the text on either side redacted by itself, whatever shorter secrets it holds or overlaps, unless another as long occurs in the message |
| Redaction.BracketSecretReappears | pkg/machine/provider.go:142-143 | a secret with a bracket reappears |
| Reconnect.DBusSystemdManager.Renew | pkg/applier/systemd.go:108-137 | under the mutex: another caller's connection, the cooldown's error, or a dial |
| Reconnect.ConnectionReplacedOnce | pkg/applier/systemd.go:98-137 | in every interleaving a connection is successfully replaced once at most |
| Reconnect.DialsSpaced | pkg/applier/systemd.go:112-128 | every dial after a failed one starts 30 seconds later or more |
| Reconnect.RunsAtMostTwice | pkg/applier/systemd.go:98-137 | a call runs its function once or twice, the second time on a later connection |
| Reconnect.RunsAgainExact | pkg/applier/systemd.go:98-137 | from its first run on: when a call runs again, on which connection, when it dials, and when it gives up |
| Reconnect.OneDialer | pkg/applier/systemd.go:108-137 | one call at most dials at a time |
| Reconnect.TurnedAwayInCooldown | pkg/applier/systemd.go:112-124 | a caller is turned away exactly when its connection is current and the last dial failed within the cooldown |

## Left out

- pkg/agent/selfconfig.go: `checkNextConfig`, `agentConfigFile`, `checkLostSources` and `runningUnitPaths`, which choose the files the modelled checks are applied to.
- The INI and argument splitting of unit files: a unit maps keys to trimmed values, and `Parser` gives the split words.
- Mounts.MayHoldExact: for a unit's mounts as listed; that podman mounts what the unit says is taken as given.
- `parseMount` and `podmanFlag` are recursive functions here, not loops over fields and letters.
- `applyPhase` writing files, `triggeredBuilds` with `buildunit.Resolve`, and the classification of raw units: the phase they yield is an input, but for `recordChangedUnit`, which Disposal.PodHasTurn models.
- Disposal.SyncRestartsExact: does not cover raw-unit activations and fallback restarts, which do not test for the Agent's own units in the source either.
- Deferred operations run after the apply has returned; the trace holds the order in which they are deferred.
- Hooks.HookPass.RunHooksWithPending: the reloader's HTTP and signal calls are one answer per hook.
- Errors of saving the state file, and hook attempts of an apply that fails fatally, which the source discards too.
- ShaGate.State.Tick: covers reconciliations that apply or fail; one that finds nothing to change leaves the gate as it is. ShaGate's bounds are for one process; the gate is cleared when the Agent starts.
- HealthRuns.CooldownSurvivesRestart: for a unit whose record is kept; a pruned or cleared record loses its cooldown in the source as well.
- Timer statistics, metrics, status events, logging and the printed summary of a bootstrap run.
- EnableLinger starts the user's manager in its own time; here the write itself may have started it or not.
- Convergence.RunConverges: the write side is a function of the account, so a state that changes on its own between two steps is not modelled.
- Planning.New: `machineHosts` sorting by hostname and the choice of the error shown, and the warning for a Host without credential files; Fleet.PlanIsSound holds for the Hosts in any order.
- Topology.MachineKeyExact: `strings.ToLower` on the letters of a hostname label, which are ASCII.
- The layout of `WalkDir`: the entries below a Host's secrets directory are an input, each with its path there, so a path is the directory, a slash and that path.
- `resolveRefs`, `batchRefs` and `readBatch`: which references a provider resolves is the map Fleet.MachinePlan.Resolve takes.
- Checkout.OSHostOps.MakeWorldReadable: the races the source defends against (`openat`, symlinks swapped during the walk).
- Reconnect.RunsAtMostTwice: contexts that end and `isConnectionDead` are the nondeterministic answer of a run.
- The D-Bus, Podman, HTTP, MQTT, git and secret-provider clients, template resolution, SOPS, diffing and rollback, configuration loading, dashboard and command line.
