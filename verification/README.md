# SwirlEvo, modelled and proved in Dafny

SwirlEvo manages Docker hosts and compose stacks. This project models the parts of it that decide
something and proves what those parts promise:

- the **addon wizard**, which writes labels and resource limits into a compose document and reads
  them back (`AddonSpec`, `AddonInjector` and the laws in `LabelLaws`, `ServiceLaws`,
  `ResourceLaws`, `AddonLaws`, `DocumentLaws`, `AddonPromises`, on the trees of `YamlTree` and the nodes of `YamlNode`);
- the **self-deploy protocol**, by which the running instance hands its own replacement to a
  sidekick container through a lock file, `job.json` and `state.json` (`SelfDeploySpec`,
  `SelfDeployLaws`, `SelfDeployEvents`, the primary's `SelfDeploy` and the sidekick's
  `DeployAgent`), with its logs (`LogFrames`, `LogTail`);
- the **backup store**: containers, key sources, the status cache, recovery, retention and the
  scheduler (`BackupCrypto`, `BackupKeys`, `BackupSpec`, `BackupLaws`, `BackupSchedule`, `BackupStore`);
- the **version history** of compose stacks (`StackHistorySpec`, `StackHistoryLaws`, `StackHistory`);
- the **network topology** graph (`TopologySpec`, `TopologyLaws`, `TopologyPromises`, `NetworkTopology`);
- the **registry-cache rewriter** of image references (`ImageSpec`, `ImageLaws`, `ImageRewriter`).

## How the model is laid out

A `...Spec` module gives each operation a meaning on values: a function from the state before to the
state after. The module with the source's own shape (`AddonInjector`, `SelfDeploy`, `DeployAgent`,
`BackupStore`, `StackHistory`, `NetworkTopology`, `ImageRewriter`, `LogFrames`, `LogTail`, `BackupKeys`) holds classes
and loops that change fields, nodes and slices in place; every method there is proved to end in the
state its function names. A `...Laws` module proves the properties, for every input and over whole
runs. A `...Promises` module says what an operation does to the reader of its result, with names and
constants written out, so that it does not rest on how a `...Spec` module puts it; elsewhere such
statements stand among the laws, or in the `ensures` of the method beside the state it names. Where Go
ranges over a map, the loops take the keys in any order, so that reaching one named result is also the
proof that the order has no effect.

Calls that reach Docker, the clock, the network or random numbers are parameters: whether there is a
Docker client and whether its daemon answers, how a spawn goes, which id or nonce comes, what time it is. Sidekick containers and
their steps are part of the protocol's state. YAML text, JSON, gzip, key derivation and encryption
stay abstract; what is assumed of them is written down as `Lawful` in `BackupCrypto`, `BackupSchedule`
and `ImageSpec`.

`dafny verify dfyconfig.toml` checks the whole project.

## What the code does not promise after all

Some promises hold only under a condition. The condition is stated exactly, with a run that breaks
the promise outside it.

- **One deploy at a time** (comments in `biz/self_deploy_job.go`, `docs/self-deploy.md`). Two things break
  it. The sidekick removes the lock and writes `state.json` again after its result is in, without
  looking whose lock it is, so a deploy that starts in that window loses its lock. And an inspection
  that fails counts as a sidekick that is gone: a client is made without contacting the daemon, and when
  the daemon is silent the reclaim of a deploy, a boot hook or a reset, like the watchdog, takes the lock
  from a sidekick at work (without any client the reclaims spare it, the watchdog does not). `Careful`
  says what each step must avoid. Exclusion holds over all careful runs (`MutualExclusion`), and each part of that care
  is exact: any other step keeps exclusion if and only if it is careful (`CareIsExact`, for the watchdog
  spelled out in `BlindWatchdogBreaksExclusion`), and a deploy that is not leads, for every behaviour of
  Docker, to a run with two sidekicks at work (`ClearIsExact`).
- **One audit event per outcome** (`EventPublished`). The same late writes reset the flag, and a job
  declared failed too early is reported again when its sidekick ends. The exact condition is the same
  care, and that polls wait for finished sidekicks to exit (`PatienceIsExact`, `ClearIsExactForEvents`). A
  failed spawn and a reclaimed `recovery` are reported twice in any case (`FailedSpawnTellsTwice`,
  `RecoveryTellsTwice`).
- **`CanReset` means that a reset helps.** The offer looks at the job in `state.json`, the refusal at the
  one in `job.json`. With a daemon that answers, the reset takes the offer away if and only if the lock is
  still there and the sidekick of `job.json` is not running (`CanResetMeansReset`, `AnsweredResetHelps`).
  After a deploy was overtaken the reset can be offered and refused at once (`OfferedResetIsRefused`); in
  careful runs it is not refused (`CarefulResetIsNotRefused`), but a deploy that ended in `recovery`
  leaves the offer on for good (`ResetWithoutLock`).
- **"Compatible" backups decrypt.** True exactly for key schedules in which no key comes back after
  another was configured (`StatusSoundness`): the cache stays pinned to an old key while recoveries
  under a newer one mark their records in it.
- **A backup key of at least 16 characters.** A shorter one from the provider is refused once and then
  served from the cache (`ShortPassphraseIsUsedFromCache`). Over all runs, a key is made of a passphrase
  that is too short exactly while the environment has none and an answer of the installed provider that
  was too short, but not empty, is less than 300 seconds old (`ShortKeyIsServed`).
- **A scheduled backup every configured day.** A run that ends after midnight uses up the next day
  (`LateFinishSkipsNextDay`). Over all runs of ticks and saves, a tick on a configured hour passes over a
  schedule exactly if a run of it has ended on that day (`ConfiguredTickRuns`), and the day gets its
  backup exactly if no run of an earlier day ended in it (`ConfiguredDayIsServed`).
- **At most one scheduled backup a day.** Deleting a schedule makes it forget; deletions keep the promise
  exactly on days on which the schedule has not run (`CalmIsExact`).
- **The wizard shows what was saved.** Exactly when the labels fit the node they are written to:
  a `labels:` that is neither a mapping nor a list swallows them, and a list cannot carry a key with
  an equals sign (`PutGet`, `GetPut`).

## Model

| member | source | states |
|---|---|---|
| Text.SortedKeys | biz/compose_stack_addons_yaml.go:483-513 | a set of label keys has an ascending enumeration that holds each key once |
| Text.SortedKeysUnique | biz/compose_stack_addons_yaml.go:483-513 | there is only one such enumeration, so sorting removes the choice that map iteration leaves |
| Text.FirstDifferenceDecides | biz/compose_stack_addons_yaml.go:483-513 | keys ascend by the first character in which they differ, a shorter key before the longer ones that begin with it |
| YamlTree.GetPut | biz/compose_stack_addons_yaml.go:319-352 | a field that was written is the field that is found |
| YamlTree.GetPutOther | biz/compose_stack_addons_yaml.go:319-352 | writing one field leaves every other field as it was |
| YamlTree.PutSwap | biz/compose_stack_addons_yaml.go:156-176 | writes to two different fields commute |
| YamlTree.GetDrop | biz/compose_stack_addons_yaml.go:357-368 | with unique keys a dropped field is gone, and the other fields stay |
| YamlTree.PutInPlace | biz/compose_stack_addons_yaml.go:334-352 | a written field that was there keeps its place and its key, a new one comes last; all other entries stay |
| YamlTree.DropInPlace | biz/compose_stack_addons_yaml.go:357-368 | a dropped field leaves the other entries in their order |
| YamlNode.Node.Field | biz/compose_stack_addons_yaml.go:319-330 | finds the node of the first field of that name, or tells that there is none |
| YamlNode.Node.EnsureMapping | biz/compose_stack_addons_yaml.go:334-352 | afterwards the field holds a mapping: the one that was there, or an empty one in its place; nothing else moves |
| YamlNode.Node.RemoveField | biz/compose_stack_addons_yaml.go:357-368 | the node loses the first field of that name and nothing else |
| YamlNode.Node.SetOrRemoveScalar | biz/compose_stack_addons_yaml.go:795-814 | the field holds the text, or is gone when the text is empty |
| YamlNode.Node.ScalarValue | biz/compose_stack_addons_yaml.go:870-886 | the text of a scalar field, nothing for any other field |
| YamlNode.Node.OnlyChildMoved | biz/compose_stack_addons_yaml.go:430-455 | an edit below one child of a node leaves the values of all its other children alone |
| AddonInjector.HasAnyPrefix | biz/compose_stack_addons_yaml.go:457-464 | a key is owned if and only if one of the prefixes begins it |
| AddonInjector.SplitSeqLabel | biz/compose_stack_addons_yaml.go:469-478 | a list item is split at its first equals sign |
| AddonInjector.StripPrefixes | biz/compose_stack_addons_yaml.go:430-455 | in place, a labels node keeps exactly the labels outside the prefixes, in order, in both shapes |
| AddonInjector.WriteLabels | biz/compose_stack_addons_yaml.go:483-513 | in place, the new labels are appended in ascending key order, in both shapes |
| AddonInjector.CollectLabels | biz/compose_stack_addons_yaml.go:518-539 | reads the labels of a node of either shape on top of those already read |
| AddonInjector.PurgeService | biz/compose_stack_addons_yaml.go:405-416 | both places a service keeps labels in are purged, and nothing else of it changes |
| AddonInjector.InjectServiceLabels | biz/compose_stack_addons_yaml.go:156-171 | after purging both places the labels are written to the one the mode asks for, made if absent |
| AddonInjector.BuildLabels | biz/compose_stack_addons_yaml.go:560-614 | the labels of one addon are its own namespace of the settings, plus the switch when it is on |
| AddonInjector.ApplyDeployResources | biz/compose_stack_addons_yaml.go:762-790 | the blocks below `deploy.resources` get the settings; empty settings clear them, and an emptied `deploy` goes |
| AddonInjector.ApplyServiceResources | biz/compose_stack_addons_yaml.go:737-760 | the legacy fields go and `deploy.resources` takes over; `AddonPromises.FieldsAfterSave` names the seven fields and keeps all others |
| AddonInjector.Plan | biz/compose_stack_addons_yaml.go:125-154 | whatever order the four maps are visited in, each service gets the purge list and the labels of all its addons |
| AddonInjector.LabelServices | biz/compose_stack_addons_yaml.go:156-171 | whatever order the services are visited in, the same mapping results |
| AddonInjector.ResourceServices | biz/compose_stack_addons_yaml.go:737-760 | the same for resources |
| AddonInjector.InjectAddonLabels | biz/compose_stack_addons_yaml.go:106-183 | the node tree after a save is the injection function of the tree before; an empty document is refused |
| AddonInjector.CfgFromLabels | biz/compose_stack_addons_yaml.go:633-716 | one addon's settings are its namespace of the labels, with `enable=true` folded into the switch, in any order of the labels |
| AddonInjector.CollectService | biz/compose_stack_addons_yaml.go:268-271 | the labels of a service come from both places, those of `deploy` on top |
| AddonInjector.ResourcesFromService | biz/compose_stack_addons_yaml.go:824-866 | field by field, `deploy.resources` first and the legacy fields where it says nothing |
| AddonInjector.ExtractAddonConfig | biz/compose_stack_addons_yaml.go:237-294 | the settings read from a document are the extraction function of its tree |
| LabelLaws.StripWrite | biz/compose_stack_addons_yaml.go:430-513 | purging undoes writing: what is stripped after a write is what was stripped before it |
| LabelLaws.CollectWrite | biz/compose_stack_addons_yaml.go:483-539 | labels that were written are read back, on top of the others |
| ServiceLaws.PrefixesApart | biz/compose_stack_addons_yaml.go:88-93 | no key belongs to two addons |
| ServiceLaws.ReadBack | biz/compose_stack_addons_yaml.go:156-171 | after purge and write, owned labels read as written and all others as before, over both places together |
| ServiceLaws.NotReadBack | biz/compose_stack_addons_yaml.go:469-513 | labels that do not fit their node lose a key: the other half of the condition |
| ResourceLaws.ResourcesPutGet | biz/compose_stack_addons_yaml.go:737-866 | the resources read after a save are the ones saved, with no legacy field shining through |
| ResourceLaws.ResourcesSettled | biz/compose_stack_addons_yaml.go:737-790 | applying the same resources again changes nothing |
| AddonLaws.ServiceLastSaveWins | biz/compose_stack_addons_yaml.go:156-176 | on one service, two saves leave the label nodes of the second alone, if it covers the namespaces of the first |
| AddonLaws.LabelKeysStayUnique | biz/compose_stack_addons_yaml.go:430-513 | a labels mapping with unique keys keeps unique keys |
| DocumentLaws.PutGet | biz/compose_stack_addons_yaml.go:106-294 | after a save every addon of a service reads the canonical form of what was saved, or the old answer where nothing was, if and only if the labels fit |
| DocumentLaws.PutGetResources | biz/compose_stack_addons_yaml.go:737-866 | resources come back field by field, in both modes and whatever shape the labels have |
| DocumentLaws.GetPut | biz/compose_stack_addons_yaml.go:106-294 | saving what was read leaves what is read unchanged, if and only if the labels of every service fit, also when labels move between places or legacy fields are lifted |
| DocumentLaws.Idempotent | biz/compose_stack_addons_yaml.go:106-183 | a second save of the same settings leaves the tree as it is |
| DocumentLaws.LastSaveWins | biz/compose_stack_addons_yaml.go:156-176 | in a document, the label nodes after two saves are those of the second alone |
| DocumentLaws.Frame | biz/compose_stack_addons_yaml.go:119-176 | other fields of the document, the order of the services and every service not named stay |
| DocumentLaws.LabelFrame | biz/compose_stack_addons_yaml.go:376-455 | in a named service other labels keep order and value in both places, and no owned label is left outside the mode's place |
| DocumentLaws.KeysStayUnique | biz/compose_stack_addons_yaml.go:119-176 | where the keys of a service and of both its label nodes were unique they still are after a save |
| DocumentLaws.InjectNothing | biz/compose_stack_addons_yaml.go:106-109 | settings that name nothing change nothing, so the early return agrees with the long way |
| AddonPromises.FieldsAfterSave | biz/compose_stack_addons_yaml.go:737-760 | of a service with saved resources exactly the seven legacy fields go, of others none; every field but these, `labels` and `deploy` has the value it had |
| AddonPromises.DeployAfterSave | biz/compose_stack_addons_yaml.go:762-790 | everything below `deploy` but `labels` and `resources` is as before |
| AddonPromises.ResourcesAfterSave | biz/compose_stack_addons_yaml.go:762-814 | each of the four settings stands at its own place below `deploy.resources`, an empty one nowhere; four empty ones leave no `resources` and no empty `deploy` |
| AddonPromises.OtherResourcesStay | biz/compose_stack_addons_yaml.go:762-790 | other blocks below `deploy.resources`, and other fields of the two blocks, are as before |
| AddonPromises.ResourcesAreRead | biz/compose_stack_addons_yaml.go:824-866 | the resources shown for a service, by the places in its tree: limits and reservations first, then `cpus`, `mem_limit` and `mem_reservation`, each for its own setting |
| AddonPromises.SettingsAreLabels | biz/compose_stack_addons_yaml.go:633-716 | what is shown for an addon is what the labels of its namespace say, the last one of a key and `deploy.labels` before `labels`; the switch is on exactly for `enable=true`; nothing is shown exactly when there are none |
| AddonPromises.LabelsAfterSave | biz/compose_stack_addons_yaml.go:156-171 | after a save that fits, each key of a saved namespace says what the save says, and every other key what it said |
| AddonPromises.OtherLabelsStay | biz/compose_stack_addons_yaml.go:430-455 | labels outside the saved namespaces keep place, order, key and value in both nodes, and the place not written to holds nothing else |
| AddonPromises.NewLabelsAscend | biz/compose_stack_addons_yaml.go:483-513 | in the node written to, the saved labels come last, in ascending order of their keys |
| SelfDeploy.SelfDeployBiz.AcquireLock | biz/self_deploy_job.go:242-260 | exactly one caller creates the file; a held lock and a file that cannot be made are told apart |
| SelfDeploy.SelfDeployBiz.ReclaimStaleLock | biz/self_deploy_job.go:281-367 | files and answer after a reclaim, for every state of the lock, the state file and the sidekick, with no client, a silent daemon and one that answers |
| SelfDeploy.SelfDeployBiz.TriggerDeploy | biz/self_deploy.go:648-728 | every state the deploy passes through, in order, and how it returns, for every outcome of its writes, its calls to Docker and the spawn; what the files, watchdogs and events are after each kind of return |
| SelfDeploy.SelfDeployBiz.SpawnSidekick | biz/self_deploy.go:848-925 | create then start; a container that does not start is removed again |
| SelfDeploy.SelfDeployBiz.CleanupExitedSidekicks | biz/self_deploy.go:815-842 | exactly the sidekicks that do not run are gone, none if the daemon is silent |
| SelfDeploy.SelfDeployBiz.WatchSidekickBoot | biz/self_deploy.go:760-805 | gives up on a job only while its state is still pending and its sidekick is not seen running |
| SelfDeploy.SelfDeployBiz.PublishTerminalEvent | biz/self_deploy.go:1113-1142 | one event for a terminal phase that is not marked yet, and the mark |
| SelfDeploy.SelfDeployBiz.Status | biz/self_deploy.go:960-1005 | publishes first, then tells phase, liveness and whether a reset is offered: for a stored job that is not seen running, in exactly the six phases written out |
| SelfDeploy.SelfDeployBiz.ResetLock | biz/self_deploy.go:1084-1110 | refused while the sidekick of `job.json` is seen running, else a reclaim and its event, whichever of the two inspections is answered |
| SelfDeploy.SelfDeployBiz.BootHook | biz/self_deploy.go:126-143 | a new primary reclaims and cleans up; the watchdogs of the old one are gone |
| DeployAgent.StateWriter.constructor | cmd/deploy_agent/state_writer.go:60-85 | a sidekick that boots writes a pending, unpublished state for its job at once |
| DeployAgent.StateWriter.SetPhase | cmd/deploy_agent/state_writer.go:90-96 | the phase goes on in memory; the file waits for the flusher |
| DeployAgent.StateWriter.FlushIfDirty | cmd/deploy_agent/state_writer.go:205-242 | a tick writes the state in memory, publication mark cleared, when something changed |
| DeployAgent.StateWriter.Finish | cmd/deploy_agent/state_writer.go:124-183 | the one result goes to memory and file together |
| DeployAgent.StateWriter.DropLock | cmd/deploy_agent/agent.go:115-119 | the lock goes, whoever holds it |
| DeployAgent.StateWriter.Close | cmd/deploy_agent/state_writer.go:187-200 | after the lock is gone the state is written once more over whatever the file holds |
| DeployAgent.Proceed | cmd/deploy_agent/lifecycle.go:80-126 | the phases are passed one after the other, up to the one reached; lock, events and other containers stay |
| DeployAgent.RunAgent | cmd/deploy_agent/agent.go:51-144 | a whole undisturbed run leaves the lock free and its result unpublished in `state.json`; without a job it leaves both alone |
| SelfDeployLaws.NamesDiffer | biz/self_deploy.go:1011-1016 | two jobs with ids of at most eight characters have differently named sidekicks |
| SelfDeployLaws.SidekickComesLast | biz/self_deploy.go:648-728 | at every point of a deploy, the new id is in `state.json` only after it is in `job.json`, and the sidekick is there only once the lock and both files are |
| SelfDeployLaws.ResultsFitProgress | cmd/deploy_agent/lifecycle.go:80-166 | which result is written after which phases, written out: failure before the pull, rollback or recovery from the pull on, success after the health check |
| SelfDeployLaws.TriggerIsSafe | biz/self_deploy.go:648-728 | a crash after any inner step of a deploy leaves a safe state |
| SelfDeployLaws.StepIsSafe | biz/self_deploy_job.go:281-367 | every step of primary and sidekick keeps the invariant: a running sidekick is the one named in both files, and while it works the lock stands and its phase is in progress |
| SelfDeployLaws.MutualExclusion | biz/self_deploy.go:648-728 | in every state of every careful run from the start at most one sidekick is unfinished, and while one is the lock exists and `state.json` names its job in progress |
| SelfDeployLaws.CareIsExact | biz/self_deploy_job.go:323-366 | for every safe state a step of watchdog, reset, boot hook, poll or sidekick keeps exclusion if and only if no inspection that decides over an unfinished sidekick goes unanswered |
| SelfDeployLaws.ClearIsExact | cmd/deploy_agent/agent.go:113-135 | for every behaviour of Docker, a state keeps exclusion through every run that starts with a deploy if and only if it is clear; otherwise there is one in which two sidekicks work at once |
| SelfDeployLaws.BlindWatchdogBreaksExclusion | biz/self_deploy.go:776-805 | the watchdog keeps exclusion if and only if Docker answers or it is not waiting for an unfinished sidekick |
| SelfDeployLaws.ReclaimFrees | biz/self_deploy_job.go:281-367 | exactly when a reclaim leaves the lock free, and that it reports just that |
| SelfDeployLaws.OfferMatchesReclaim | biz/self_deploy.go:960-1031 | whenever a reclaim would declare a job failed a reset is offered, and where one is offered a reclaim that has a client and a lock does just that |
| SelfDeployLaws.Recoverable | biz/self_deploy_job.go:281-367 | from every state of every run, crashes anywhere included, once the named sidekick is down one reclaim with a client frees the lock and the next deploy starts |
| SelfDeployLaws.CanResetMeansReset | biz/self_deploy.go:960-1110 | in every state, and whatever Docker does in the three inspections, an offered reset takes the offer away if and only if it is let through, there is a lock, and Docker is there and does not show the sidekick |
| SelfDeployLaws.AnsweredResetHelps | biz/self_deploy.go:960-1110 | with a daemon that answers: if and only if there is a lock and the sidekick of `job.json` is not running |
| SelfDeployLaws.CarefulResetIsNotRefused | biz/self_deploy.go:1084-1098 | in careful runs an offered reset is never refused, so the lock alone decides |
| SelfDeployLaws.OfferedResetIsRefused | biz/self_deploy.go:1084-1098 | a legal run that ends with the lock held, a reset offered and the reset refused |
| SelfDeployLaws.ResetWithoutLock | biz/self_deploy.go:1020-1031 | a run after which a reset is offered for ever |
| SelfDeployEvents.AtMostOneOutcome | biz/self_deploy.go:1113-1142 | over all patient runs of polls, watchdogs, reclaims and crashes, a spawned job that never needs recovery has at most one outcome event |
| SelfDeployEvents.PatienceIsExact | cmd/deploy_agent/state_writer.go:187-242 | for every step but a deploy, the care taken and the waiting of polls for finished sidekicks are necessary and sufficient: without them some run that is patient afterwards reports an outcome twice |
| SelfDeployEvents.ClearIsExactForEvents | biz/self_deploy.go:648-728 | the same for deploys, for every behaviour of Docker |
| SelfDeployEvents.HastyPollsTellTwice | cmd/deploy_agent/agent.go:113-135 | two polls around a late write of the sidekick report its outcome twice |
| SelfDeployEvents.FailedSpawnTellsTwice | biz/self_deploy.go:706-717 | a failed spawn is reported at once and by the next poll |
| SelfDeployEvents.RecoveryTellsTwice | biz/self_deploy.go:1020-1031 | a job in recovery is reported, and again once its lock is reclaimed |
| LogTail.TailIsNewest | biz/self_deploy_job.go:371-377 | appending line by line keeps the newest 200 of all lines |
| LogTail.TailHoldsLast | biz/self_deploy_job.go:371-377 | a log that starts empty holds its last 200 lines |
| LogTail.LogRing.Append | cmd/deploy_agent/state_writer.go:111-119 | the ring takes in one more line and stays the newest 500 |
| LogTail.LogRing.Snapshot | cmd/deploy_agent/state_writer.go:247-261 | unrolled, the ring is the newest 500 of all lines ever logged, oldest first |
| LogFrames.SplitJoins | biz/self_deploy.go:1036-1077 | every stream is a list of frames and an incomplete rest, with nothing lost |
| LogFrames.SplitIsUnique | biz/self_deploy.go:1036-1077 | in only one way |
| LogFrames.OneFrame | biz/self_deploy.go:1051-1077 | the wire format of one frame, byte by byte, and that its payload is read exactly if it has at most 2^20 bytes |
| LogFrames.Reader.ReadFull | biz/self_deploy.go:1058-1071 | all bytes asked for or an error at the end of the stream |
| LogFrames.FetchLogs | biz/self_deploy.go:1036-1077 | for every stream the loop ends with exactly the payloads of at most 1 MiB of its complete frames, in order |
| LogFrames.DecodingInvertsFraming | biz/self_deploy.go:1051-1077 | on encoded frames it yields their eligible payloads |
| LogFrames.CompleteFits | biz/self_deploy.go:1051-1077 | which frames of a cut stream are complete: they fit and the next does not |
| LogFrames.TruncationKeepsCompleteFrames | biz/self_deploy.go:1051-1077 | on a stream cut anywhere it yields the eligible payloads of the complete frames only |
| BackupCrypto.AtRestRoundTrip | biz/backup_crypto.go:183-241 | the key opens an at-rest archive, any other key fails, and auto-detection agrees whatever the passphrase |
| BackupCrypto.PortableRoundTrip | biz/backup_crypto.go:279-348 | the passphrase opens a portable archive, others fail, and auto-detection agrees whatever the master key |
| BackupCrypto.ContainersAreDisjoint | biz/backup_crypto.go:226-348 | no archive opens as both kinds, and auto-detection picks the right one for every input |
| BackupCrypto.Layout | biz/backup_crypto.go:183-348 | the layout of both containers: their four letters, salt, nonce and sealed content; the key at rest uses the fixed salt |
| BackupKeys.KeySource.FetchFromProvider | biz/backup_crypto.go:151-171 | what the provider answers is cached for five minutes, whatever its length |
| BackupKeys.KeySource.MasterKey | biz/backup_crypto.go:126-147 | environment, then live cache, then provider; the key made of each, the length of 16 it must have and the 300 seconds it is cached |
| BackupKeys.KeySource.KeyStatus | biz/backup_crypto.go:93-115 | the diagnostic answer, with the same effect on the cache |
| BackupKeys.KeySource.SetProvider | biz/backup_crypto.go:66-76 | a new provider drops the cached passphrase |
| BackupKeys.StatusAgreesWithKey | biz/backup_crypto.go:83-147 | the two answers agree if and only if no passphrase that is too short sits in a live cache |
| BackupKeys.ShortKeyIsCached | biz/backup_crypto.go:126-147 | a key is made of a passphrase that is too short if and only if the environment has none and one sits in a live cache |
| BackupKeys.ShortKeyIsServed | biz/backup_crypto.go:126-171 | over all runs of calls, changing and newly installed providers: if and only if the provider gave such an answer less than 300 seconds ago |
| BackupKeys.ShortPassphraseIsUsedFromCache | biz/backup_crypto.go:126-171 | such a passphrase is refused once and used afterwards |
| BackupKeys.RotationIsSeenAfterExpiry | biz/backup_crypto.go:126-171 | a rotated passphrase takes effect when the cache expires, and not before |
| BackupStore.BackupBiz.CreateBackup | biz/backup.go:363-436 | the new archive opens under the key to the exported document; its record has the given source, or `manual`, the time and the fingerprint of the key; everything else stays; without a key an error |
| BackupStore.BackupBiz.DeleteBackup | biz/backup.go:438-468 | record, archive and cached status go together |
| BackupStore.BackupBiz.VerifyBackup | biz/backup.go:581-640 | the answer for every kind of record, when a trial decryption decides, the fingerprint it fills in, the cache |
| BackupStore.BackupBiz.VerifyAllBackups | biz/backup.go:645-685 | the cache holds a verdict for every record, the counts are those of the cache, and with a key they add up to the total |
| BackupStore.BackupBiz.RecoverBackup | biz/backup.go:692-752 | every refusal; after a success the archive opens under the current key to what the old passphrase opened, and only its record and status change |
| BackupStore.BackupBiz.Remember | biz/backup.go:756-765 | an unpinned cache is pinned to the current key, a pinned one stays where it is |
| BackupStore.BackupBiz.ListBackups | biz/backup.go:265-313 | every record is listed: with its cached status while the cache is of the current key, else by comparing fingerprints, unknown without a key |
| BackupStore.BackupBiz.ApplyRetention | biz/backup.go:825-848 | the newest `max` records of the source stay, none older than any that goes; the number deleted; archives and statuses of the deleted go, everything else stays |
| BackupStore.BackupBiz.SaveSchedule | biz/backup.go:773-798 | an invalid schedule is refused, and the last run survives a save that leaves it out |
| BackupStore.BackupBiz.DeleteSchedule | biz/backup.go:800-808 | the schedule and its last run are gone, the others stay |
| BackupStore.BackupBiz.RunScheduled | biz/backup.go:810-823 | a run stamps its schedule; of its source the newest records, the new one included in the choice, stay as the retention asks, with their archives; the new archive opens to the export; other sources are untouched |
| BackupStore.BackupBiz.Tick | backup/backup.go:66-91 | in any order of the schedules, a tick runs exactly the due ones and stamps them; each leaves the newest records of its source with their archives, the new one opening to its export; other sources are untouched |
| BackupLaws.GoodIsSound | biz/backup.go:265-313 | while the cache is pinned as it should be, "compatible" means that the current key opens the archive |
| BackupLaws.SessionIsGood | biz/backup.go:363-765 | every operation under one key keeps that |
| BackupLaws.StatusSoundness | biz/backup.go:265-313 | over all runs with given key rotations, what is listed as compatible decrypts under the current key, if and only if no key returns after another |
| BackupLaws.RecoveryKeepsData | biz/backup.go:692-752 | after a recovery the current key opens the archive to the plaintext the old key gave; the old key no longer does; other records stay |
| BackupLaws.VerifyAllIsShown | biz/backup.go:645-685 | right after a full pass each record is listed as the pass judged it |
| BackupSchedule.TickKeeps | backup/backup.go:66-91 | a tick runs nothing twice on one day, even if an earlier run ended after midnight |
| BackupSchedule.TickRunsExactly | biz/backup.go:1591-1634 | a tick runs a schedule exactly if it is enabled, the hour and the day, by week or by month, are its own, it has not run on that day and its export succeeds; those it runs are stamped, the others stay |
| BackupSchedule.AtMostOnceADay | biz/backup.go:1591-1634 | over any run of ticks, saves that leave the last run unset and deletions of schedules that have not run that day, each schedule runs at most once per calendar day |
| BackupSchedule.DeletedScheduleRunsAgain | biz/backup.go:800-808 | a schedule deleted on a day on which it has run can be saved and run again on that day |
| BackupSchedule.CalmIsExact | biz/backup.go:800-808 | a deletion keeps every schedule to one run a day, whatever follows, if and only if the schedule has not run on the present day |
| BackupSchedule.ConfiguredTickRuns | biz/backup.go:1591-1634 | after any run of ticks and saves, a tick on a configured hour and day runs the schedule if and only if no run of it has ended on that day |
| BackupSchedule.ConfiguredDayIsServed | biz/backup.go:1591-1634 | after such a tick the day has had its run if and only if no run of an earlier day ended in it |
| BackupSchedule.LateFinishSkipsNextDay | biz/backup.go:1591-1634 | a run that ends after midnight keeps the schedule from running on that next day |
| StackHistory.ComposeStackBiz.VersionList | dao/bolt/compose_stack_version.go:18-40 | the versions of a stack, newest first, cut to the limit |
| StackHistory.ComposeStackBiz.VersionPrune | dao/bolt/compose_stack_version.go:80-98 | the table without the versions past the limit, deleted one at a time |
| StackHistory.ComposeStackBiz.VersionGet | dao/bolt/compose_stack_version.go:42-51 | the version with that id, if there is one |
| StackHistory.ComposeStackBiz.StackUpdate | dao/bolt/compose_stack.go:16-26 | the record is replaced, an empty status keeps the old one, a missing record is an error |
| StackHistory.ComposeStackBiz.SnapshotIfChanged | biz/compose_stack_version.go:27-57 | a changed text leaves a numbered version of the old one and at most 20 versions |
| StackHistory.ComposeStackBiz.SaveWithReason | biz/compose_stack.go:282-311 | after a save the record is the one given, only an empty status becomes `inactive` or stays the old one; a changed text leaves the old one as the newest version under that reason; other stacks stay; both errors change nothing |
| StackHistory.ComposeStackBiz.SaveWithAddons | biz/compose_stack.go:318-335 | an injection that changes the content is saved under its own reason, one that fails saves nothing; the stored record and the outcome for every case |
| StackHistory.ComposeStackBiz.RestoreVersion | biz/compose_stack_version.go:113-162 | refused exactly for missing stacks and for versions that are not of the stack, nothing for an equal text; else the record gets the text of the version and what it replaced becomes the newest version |
| StackHistory.ComposeStackBiz.MigrateRecord | biz/compose_stack.go:988-1099 | a stopped stack moves to another host, anything else is turned down; its text and history stay |
| StackHistory.ComposeStackBiz.RemoveRecord | biz/compose_stack.go:635-684 | a removed stack takes its versions with it, and no other stack's |
| StackHistoryLaws.ListFalls | dao/bolt/compose_stack_version.go:18-40 | every list goes from newer to older revisions |
| StackHistoryLaws.ListHolds | dao/bolt/compose_stack_version.go:18-40 | and holds exactly the versions of its stack |
| StackHistoryLaws.PruneKeepsNewest | dao/bolt/compose_stack_version.go:80-98 | pruning leaves the newest `keep` of one stack and the lists of all others |
| StackHistoryLaws.SnapshotIsNewest | biz/compose_stack_version.go:27-57 | a snapshot is the newest version of its stack, with the replaced text, the number of changes so far plus one, and its reason |
| StackHistoryLaws.HistoryRefinesEdits | biz/compose_stack_version.go:27-57 | every run of creates, saves, restores, migrations and removals keeps the stored versions equal to the end of the edit trace |
| StackHistoryLaws.StoredVersionsAreLastEdits | biz/compose_stack_version.go:27-57 | after n changes the versions are the last min(20, n) replaced texts with revisions n, n-1, ..., neighbours differ, and the newest differs from the current text |
| StackHistoryLaws.LastWriteStands | biz/compose_stack.go:282-311 | over every run, the text of a stack is the one last created, saved or restored, or there is none after a removal |
| StackHistoryLaws.RestoreUndoesRestore | biz/compose_stack_version.go:113-162 | a restore moves only the text, and restoring the newest version afterwards brings the whole record back |
| NetworkTopology.BuildContainer | biz/network.go:526-565 | exposed if some published port is bound beyond loopback, local if all are loopback |
| NetworkTopology.ResolveAttachments | biz/network.go:313-349 | in any order of the endpoints, the attached networks are found by id or else by name |
| NetworkTopology.NetworkEdges | biz/network.go:397-411 | each attached network gives one edge, duplicates are skipped |
| NetworkTopology.ContainerEdges | biz/network.go:397-443 | the edges of one container, and the keys of no other container are taken |
| NetworkTopology.BuildTopology | biz/network.go:202-499 | the graph of the included containers and all networks, well formed whenever network ids are distinct; `TopologyPromises` says what its nodes and edges tell |
| TopologyLaws.NodeIdsAreUnique | biz/network.go:202-499 | no two nodes share an id |
| TopologyLaws.EdgesJoinNodes | biz/network.go:202-499 | every edge joins nodes of the graph |
| TopologyLaws.NoPairRepeats | biz/network.go:397-411 | no network-container pair occurs twice |
| TopologyLaws.PairsAreAttachments | biz/network.go:313-411 | the pairs are exactly the attachments of the included containers |
| TopologyLaws.UnusedMeansNoContainer | biz/network.go:461-476 | a network is flagged as unused if and only if it is not a system network and no pair starts at it |
| TopologyLaws.ExposedMeansOneRedLine | biz/network.go:351-443 | a container is flagged as exposed if and only if exactly one host edge flagged as exposed leads to it; otherwise none does |
| TopologyLaws.GraphIsWellFormed | biz/network.go:202-499 | all of these together, for distinct ids |
| TopologyPromises.ResolvedMeans | biz/network.go:318-349 | an endpoint leads to the network of its id if there is one, else to the last network of the name it is listed under, else nowhere |
| TopologyPromises.ReachableMeans | biz/network.go:313-349 | a container is exposed exactly if a published port is bound beyond loopback, it uses the network of the host, or it has an endpoint on a macvlan, ipvlan or host network |
| TopologyPromises.ContainerNodeTells | biz/network.go:351-395 | the id, the title and each flag of a container node, in terms of its ports, networks and state |
| TopologyPromises.NetworkNodeTells | biz/network.go:226-281 | the same for a network node |
| TopologyPromises.HostNodeTells | biz/network.go:446-459 | and for the host |
| TopologyPromises.PairsMean | biz/network.go:397-411 | the network-container edges are exactly one for each included container and network it hangs off |
| TopologyPromises.HostContainersTell | biz/network.go:412-443 | the host has an edge to exactly the containers that are attached to nothing or reachable, flagged in the second case |
| TopologyPromises.HostNetworksTell | biz/network.go:461-496 | and one to exactly the networks that are not internal |
| TopologyPromises.IncludedMeans | biz/network.go:284-300 | all containers, or exactly those that run, in the order of the report |
| ImageRewriter.Evaluate | biz/compose_stack_registry_rewrite.go:160-219 | an image is kept exactly for a preserved digest, a text that does not parse or the domain of the mirror, each with its reason; else the new text is mirror, domain if asked for, path and the parsed tag, or `latest` without one |
| ImageRewriter.RewriteService | biz/compose_stack_registry_rewrite.go:146-229 | in place, the image of a service and the comment above it after one turn, and its action |
| ImageRewriter.RewriteServices | biz/compose_stack_registry_rewrite.go:146-229 | the same for all services of a document, with the actions in document order |
| ImageRewriter.RewriteImages | biz/compose_stack_registry_rewrite.go:111-242 | nothing happens unless the settings ask for it; else the tree is the rewritten tree, the actions are those of its services, and text is produced anew only if some action rewrote |
| ImageLaws.MirroredIsKept | biz/compose_stack_registry_rewrite.go:176-190 | a reference that starts with the mirror is never rewritten, for any host name and port |
| ImageLaws.DecisionMeans | biz/compose_stack_registry_rewrite.go:160-207 | which references stay and what the others become, written out in parts of the reference |
| ImageLaws.ActionMeans | biz/compose_stack_registry_rewrite.go:155-229 | what each action tells: service, original, and either a reason or the new text with its upstream |
| ImageLaws.ServiceAfterPass | biz/compose_stack_registry_rewrite.go:160-229 | after a pass an image that has to move is its mirrored text with a marker that names the original, and no other field of the service changes |
| ImageLaws.DocumentAfterPass | biz/compose_stack_registry_rewrite.go:111-242 | so for every service of the document in place; nothing outside the services changes |
| ImageLaws.WhenItRuns | biz/compose_stack_registry_rewrite.go:65-103 | the settings under which a pass runs at all, mode by mode |
| ImageLaws.PortIsWritten | biz/compose_stack_registry_rewrite.go:138 | ports are written in decimal without leading zeros |
| ImageLaws.ChangedMeansRewritten | biz/compose_stack_registry_rewrite.go:160-229 | a service changes if and only if its action says so |
| ImageLaws.SecondPassRewritesNothing | biz/compose_stack_registry_rewrite.go:111-242 | a second pass rewrites no image, changes no comment and looks at as many images |
| ImageLaws.RewritingIsIdempotent | biz/compose_stack_registry_rewrite.go:111-242 | rewriting a document twice is rewriting it once |
| ImageLaws.OneActionPerImage | biz/compose_stack_registry_rewrite.go:142-219 | the actions are those of the services with an image to look at, one each, in document order |
| ImageLaws.MarkersDoNotStack | biz/compose_stack_registry_rewrite.go:219-229 | the marker is there after a rewrite, and no later rewrite under any settings adds another |

## Left out

- ImageRewriter.RewriteImages: says nothing about comments; `ImageRewriter.RewriteServices` states them for every service.
- BackupStore.BackupBiz.CreateBackup: one key seals the archive and gives the fingerprint; the source looks the key up for each, so a cache that expires or a key that changes in between could pair an archive with the fingerprint of another key. `BackupStore.BackupBiz.RecoverBackup`, `BackupStore.BackupBiz.VerifyBackup` and the runs of one `BackupStore.BackupBiz.Tick` likewise see one key.
- SelfDeploy.SelfDeployBiz.TriggerDeploy: starts after `prepareJob`; the preflight checks and the cleared error message of the source stack are not modelled.
- NetworkTopology.BuildTopology: asks for distinct container ids without a bar, as Docker's are; tooltips (IPAM, ports, addresses, stack labels) are not modelled.
- StackHistory.ComposeStackBiz.MigrateRecord: the checks of the two hosts and the name conflict come before it and are not modelled.
- Atomic steps: a primary operation is one step apart from the inner steps of `TriggerDeploy`, so two primaries or a poll between the read and the write of another are not interleaved.
- Time stamps, operators, log lines and error texts of states, versions and records.
- Failing storage writes, other than the three files of a deploy; failing removals of containers, and calls that time out but take effect.
- YAML text, anchors, tags and scalar styles; the tree a parser would build is the input.
- JSON, gzip, scrypt, AES-GCM and HMAC, beyond the laws stated for them.
- The parsing of `HH:MM` and day lists in schedules; schedules carry the parsed values.
- Where an archive is stored (file, database, Vault) and moves between these.
- The sidekick's own work on containers and its history directory; its steps on the shared files are modelled.
- Export and import of documents, uploads, the HTTP layer, Vault, Keycloak, LDAP and federation.
- Deploying, starting and stopping stacks, apart from what they write to the stack record.
- The registry preview, host-extract input building and drift checks of secrets.
