# OpenLIT, modelled and verified in Dafny

This project models the stateful protocols and the transformations of OpenLIT and proves what they keep, undo and
refine. `dafny verify dfyconfig.toml` (Dafny 4.11) takes the whole project.

Protocols are step relations over whole runs (any interleaving, any failures), and next to each of them stands the
code in its own imperative form: classes whose methods update fields, loops with invariants, each proved equal to the
step or function that the laws are about. Every law is stated for all inputs; where the code falls short of what it
promises, the exact condition is proved together with a run or an input beyond it.

| files | what they model |
|---|---|
| `Workload`, `StopStart`, `ApiClient`, `Decimal` | Several controllers scale, stop, start and roll out one Kubernetes workload by GET-modify-PUT loops against a server with resource versions; a stale version is answered 409 (section 15.5.10 of RFC 9110) |
| `Supervisor`, `ObiManager` | The OBI process supervisor: Start, Stop and Restart, one wait goroutine per child, backoff goroutines |
| `OpAmp`, `OpAmpServer` | The OpAMP server: compressed status reports, sequence gaps, delivery of the remote configuration, the table of agents (OpAMP specification, section "Agent Status Compression") |
| `ContainerSwap` | Replacing a Docker container with rollback, against a daemon that may refuse any call or lose any reply |
| `EnvEdits`, `ResourceAttrs`, `SdkInjection`, `SdkRuntime`, `OpenlitNames`, `Preflight` | Injecting the Python SDK into a container's environment, labels and binds and taking it out again; the check made before |
| `Patterns`, `Registry`, `Engine` | The engine's services, instrumentation patterns and the running OBI configuration |
| `Words`, `Orders`, `JsonValues`, `JsOrder`, `CodeUnits`, `CanonicalJson`, `Fingerprint`, `FingerprintLaws`, `FingerprintKey`, `VersionCache` | The agent-version fingerprint of the TypeScript SDK: canonical JSON, what is hashed, the cache key and the least-recently-used memo |
| `Utf8`, `Mojibake` | Repair of text whose UTF-8 bytes were misread as Windows-1252 |
| `ConfigFile`, `ConfigFileLaws` | The CLI's configuration file, written and read back |
| `ProcNet`, `ConnScan`, `Hosts` | The scan for established connections to known endpoints, and the refresh of the kernel map |
| `Transcript`, `Pricing` | Turns of a coding-agent transcript and their tiered cost, over the reals |
| `Base`, `Text` | Option and distinctness, and the functions of Go's strings package |

How the model reads the outside world: requests to the Kubernetes server and the Docker daemon follow a script that may
interleave foreign writes, refuse a call or lose its reply; process exits, clocks and lock order are the events of a
run; name resolution, `/proc` contents, hashes (SHA-1, SHA-256) and JSON reading and writing are parameters, with the
hypotheses a law needs of them stated in its `requires`.

Where code and documentation disagree, the model follows the code:

- `tools/fix_mojibake.py` says at its top that the five bytes undefined in Windows-1252 are lost; the code recovers them
  (`Mojibake.RepairUndoesCorruption`), as the comment inside `_to_original_bytes` says.
- `connscan.go` says that a mapped IPv6 address starts with two zero groups; the code does not look at them
  (`ProcNet.ParseMapped`).
- `cc_pricing.py` says that the breakdown sums to the cost; a rate with cache prices alone is broken down but costs
  nothing (`Pricing.BreakdownIsCostIff`).
- `helpers.ts` calls the cache key stable for its inputs; a bar in the prompt, the tools or the model can make two
  different calls share it, and so can commas between providers (`FingerprintKey.BarsCollide`,
  `FingerprintKey.CommasCollide`, `VersionCache.BarsGoStale`).
- `container.go` describes a Start that restores the saved count; a second Start may read after the first deleted it
  (`StopStart.LaterStartKeepsCountIff`, `StopStart.CommandsKeepCountIff`).

## Model

| member | source | states |
|---|---|---|
| `Workload.StepKeepsInv` | openlit/openlit-controller/internal/engine/container.go:493-604 | Every step of every interleaving (GETs, version-checked PUTs, 409s, failed requests, lost replies, foreign writers) keeps: the object is the replay of the accepted updates, each of them had something to write where it stands, and every controller knows its own place in that history |
| `Workload.Serializable` | openlit/openlit-controller/internal/engine/container.go:443-604 | For any number of controllers and any interleaving the workload is what a serial run of the successful PUTs gives: no scale, saved count or rollout stamp is lost |
| `Workload.ConflictMeansInterference` | openlit/openlit-controller/internal/engine/container.go:536-546 | A 409 means another write was accepted between this GET and this PUT; giving up after 3 attempts means three such writes and nothing written by the command |
| `Workload.Undisturbed` | openlit/openlit-controller/internal/engine/container.go:493-604 | There is a run in which a command has its pure effect at the first attempt, or reports that there is nothing to do |
| `Workload.AloneCommandsApply` | openlit/openlit-controller/internal/engine/container.go:493-604 | In every run with nobody else at work and no failure, a command that ends has had its pure effect at the first attempt, or reported that there is nothing to do |
| `Workload.BumpWrites` | openlit/openlit-controller/internal/engine/container.go:575-604 | A rollout puts its value under its key of the pod template and changes nothing else; it fails exactly without a template and finds nothing to do exactly if the value is there |
| `Workload.ScaleWrites` | openlit/openlit-controller/internal/engine/container.go:504-534 | A scale sets the count and nothing else but the key: dropped on the way up, and on the way to zero set to the positive count left; it fails exactly without a spec and finds nothing to do exactly if count and key are as wanted |
| `Workload.SavedReplicasReads` | openlit/openlit-controller/internal/engine/container.go:552-569 | A printed positive count is read as itself, a missing one as 1, and nothing below 1 |
| `Workload.CommandsAreRun` | openlit/openlit-controller/internal/engine/lifecycle.go:183-297 | Over all interleavings every controller carries the operation of the command it has begun, the stamp of a rollout included |
| `Workload.StampIsLastLanded` | openlit/openlit-controller/internal/engine/container.go:575-604 | Without foreign writes, after any interleaving of any commands, the pod template is the original one with the stamp of the last landed rollout |
| `StopStart.StopDecisions` | openlit/openlit-controller/internal/engine/container.go:504-534 | A Stop takes a running workload to 0 with its count saved, and is idempotent on a stopped one |
| `StopStart.StoppingStep` | openlit/openlit-controller/internal/engine/lifecycle.go:183-232 | Stops and rollouts, interleaved anyhow, only ever leave the workload running as before or stopped with its count saved |
| `StopStart.StopsSaveCount` | openlit/openlit-controller/internal/engine/lifecycle.go:183-232 | From r > 0 replicas, after any interleaving of Stops and rollouts in which some Stop has returned nil at any point, the workload is at 0 replicas with a saved count that reads back as r, nothing else changed |
| `StopStart.StartingStep` | openlit/openlit-controller/internal/engine/lifecycle.go:274-297 | While one Start runs among rollouts, the workload is stopped with the count saved until its PUT lands and running as before afterwards |
| `StopStart.StartRestoresCount` | openlit/openlit-controller/internal/engine/lifecycle.go:274-297 | The next single Start that returns nil restores exactly r replicas, removes the saved count and leaves all other annotations; one that gives up leaves the workload stopped with the count still saved |
| `StopStart.StartsDecideCount` | openlit/openlit-controller/internal/engine/container.go:493-569 | After any interleaving of any number of Starts with rollouts from a stopped workload: stopped with its count saved if no Start has landed, else running with r replicas if the last Start that landed had read the saved count, and with 1 if it had read after another one deleted it |
| `StopStart.LaterStartKeepsCountIff` | openlit/openlit-controller/internal/engine/container.go:559-562 | So over such runs the count is kept, saved or running, exactly when it is 1 or the last Start that landed had not read late |
| `StopStart.EarlyStartsKeepCount` | openlit/openlit-controller/internal/engine/container.go:552-569 | It is kept whenever every Start reads before the first of them lands |
| `StopStart.TwoStartsLoseTheCount` | openlit/openlit-controller/internal/engine/container.go:552-569 | A run of one Stop and two Starts, all reporting success, that ends with 1 of 3 replicas |
| `StopStart.CommandsDecideCount` | openlit/openlit-controller/internal/engine/container.go:493-604 | After any interleaving of any number of Stops, Starts and rollouts the workload runs with, or is stopped with saved, exactly the count that the last landed Start had read, or the original one, and nothing else has changed |
| `StopStart.CommandsKeepCountIff` | openlit/openlit-controller/internal/engine/container.go:552-569 | So over all these the original count is kept exactly when that is it |
| `StopStart.StoppedReadersKeepCount` | openlit/openlit-controller/internal/engine/container.go:552-569 | In particular when every Start reads while the workload is stopped, whatever is stopped and started in between |
| `ApiClient.ApiServer.GetWorkload` | openlit/openlit-controller/internal/engine/container.go:360-396 | What a GET returns is what the server holds then |
| `ApiClient.ApiServer.PutWorkload` | openlit/openlit-controller/internal/engine/container.go:443-478 | A PUT is accepted only at the version held; 409 and success say which; an error may hide an accepted write |
| `ApiClient.ApiServer.AtomicScaleWithAnnotation` | openlit/openlit-controller/internal/engine/container.go:493-547 | Against a server with other writers between any two requests: nil means the update or its idempotent case, a conflict result means three foreign writes and none of its own, an error at most one own write, the last |
| `ApiClient.ApiServer.BumpRolloutAnnotation` | openlit/openlit-controller/internal/engine/container.go:575-604 | The same accounting for the rollout stamp |
| `ApiClient.ApiServer.ReadSavedReplicas` | openlit/openlit-controller/internal/engine/container.go:552-570 | The saved count as it stands at some moment of the call |
| `ApiClient.ApiServer.StopControlled` | openlit/openlit-controller/internal/engine/lifecycle.go:183-232 | Stop is one accounted scale to zero |
| `ApiClient.ApiServer.StartControlled` | openlit/openlit-controller/internal/engine/lifecycle.go:274-297 | A Start scales to the count saved at a moment of its own run, before which only others wrote, with the same account of its writes for every outcome |
| `ApiClient.ApiServer.PrepareScale` | openlit/openlit-controller/internal/engine/container.go:504-534 | What one attempt to scale makes of the object fetched |
| `ApiClient.ApiServer.PrepareBump` | openlit/openlit-controller/internal/engine/container.go:580-594 | What one attempt to stamp makes of it |
| `ApiClient.ApiServer.PutDecision` | openlit/openlit-controller/internal/engine/container.go:535-549 | The rest of an attempt: what is written, the outcome, and that only a 409 lets it be tried again |
| `ApiClient.ApiServer.LandedAsWanted` | openlit/openlit-controller/internal/engine/container.go:493-604 | Once its write has landed, or is not needed, the object is as the command wants it |
| `Decimal.ScanFormat` | openlit/openlit-controller/internal/engine/container.go:529-566 | A count printed with %d is scanned back as itself, exactly while it fits 64 bits |
| `Decimal.ScanSigned` | openlit/openlit-controller/internal/engine/container.go:560-566 | A sign counts, and what follows the digits does not |
| `Supervisor.StepKeepsInv` | openlit/openlit-controller/internal/engine/obi.go:53-241 | Every step of Start, Stop, wait and backoff goroutines keeps the relation of children, stops and backoffs to the shared fields, unless it ends a Stop whose child has not been reaped |
| `Supervisor.AtMostOneLiveChild` | openlit/openlit-controller/internal/engine/obi.go:53-188 | In every interleaving in which, until shutdown, no Stop ends before its child has been reaped, at most one child lives, and until shutdown it is the one in m.cmd with running true |
| `Supervisor.OlderGoroutinesKeepHands` | openlit/openlit-controller/internal/engine/obi.go:99-112 | In these, no wait goroutine of an older child and no Stop that ends after its child was reaped clears the fields of a newer one |
| `Supervisor.StoppedChildStaysStopped` | openlit/openlit-controller/internal/engine/obi.go:115-131 | In these, a child that some Stop found running never causes a restart, also when it exits before the cancel |
| `Supervisor.TriesAreCounted` | openlit/openlit-controller/internal/engine/obi.go:209-241 | In every interleaving the attempts recorded of a backoff are the Start calls it made |
| `Supervisor.BackoffIsBounded` | openlit/openlit-controller/internal/engine/obi.go:203-241 | In every interleaving one unexpected exit causes at most 5 Start attempts, each delay at most 60 s, together at most 62 s |
| `Supervisor.StaysDownIff` | openlit/openlit-controller/internal/engine/obi.go:134-143 | With nothing running, OBI stays down until a caller starts it exactly when no backoff goroutine is left or about to be left |
| `Supervisor.IdleStopCancelsNothing` | openlit/openlit-controller/internal/engine/obi.go:136-143 | A Stop that finds nothing running leaves such a goroutine as it is |
| `Supervisor.StopEndsSafelyIff` | openlit/openlit-controller/internal/engine/obi.go:158-181 | After the end of a Stop no orderly continuation reaches two live children exactly when its child has been reaped by then or shutdown has begun; that the child is dead is not enough |
| `Supervisor.OneLiveChildIff` | openlit/openlit-controller/internal/engine/obi.go:53-188 | Over all interleavings: two live children are out of reach of orderly continuations all along exactly when no Stop ends, before shutdown, while its child has yet to be reaped |
| `Supervisor.PatientRunsAreOrderly` | openlit/openlit-controller/internal/engine/obi.go:158-170 | That holds of every interleaving in which no Stop gives up waiting |
| `Supervisor.GivingUpAllowsTwoChildren` | openlit/openlit-controller/internal/engine/obi.go:104-170 | A run with a Stop that gives up, which ends with two live children |
| `Supervisor.ExitRestartsIff` | openlit/openlit-controller/internal/engine/obi.go:99-127 | In every orderly interleaving a wait goroutine that returns leaves a backoff exactly when no Stop found its child running and there is no shutdown; it is to sleep 2 s and then start OBI with the configuration the child was started with |
| `Supervisor.TryEndsIff` | openlit/openlit-controller/internal/engine/obi.go:209-241 | A backoff ends with a try exactly if that starts a child or is the fifth; otherwise it sleeps on for 4, 8, 16, 32 s |
| `Supervisor.ExitIsFollowedByRestart` | openlit/openlit-controller/internal/engine/obi.go:99-241 | From every orderly run with a live child that nobody stopped, before shutdown, its exit can be followed, nobody else acting, by a child with the same configuration that it caused |
| `ObiManager.ScheduleIsBounded` | openlit/openlit-controller/internal/engine/obi.go:203-213 | A backoff on schedule waits 2, 4, 8, 16, 32 s: no wait above 60 s, all together at most 62 s |
| `ObiManager.OBIManager.Start` | openlit/openlit-controller/internal/engine/obi.go:53-94 | The fields after Start in each of its outcomes; it fails when a child runs or none can be spawned |
| `ObiManager.OBIManager.StopBegin` | openlit/openlit-controller/internal/engine/obi.go:134-152 | The first critical section of Stop, and the child it will wait for |
| `ObiManager.OBIManager.StopEnd` | openlit/openlit-controller/internal/engine/obi.go:174-181 | The last critical section of Stop: it clears the fields of its own child, or of none |
| `ObiManager.OBIManager.Reap` | openlit/openlit-controller/internal/engine/obi.go:99-113 | The critical section of the wait goroutine |
| `ObiManager.OBIManager.RestartWithBackoff` | openlit/openlit-controller/internal/engine/obi.go:209-241 | For every interference by others: the waits follow the schedule, every attempt but the last failed, and it ends by a started child, five failures, the context or a child of somebody else |
| `OpAmp.RunKeepsConfig` | openlit/src/opamp-server/data/agent.go:245-377 | Over all runs of reports, set and loaded configs: a stored status implies a remote config, a remote config is body and hash of the current custom config, and every watcher asked for is waiting or was taken, once |
| `OpAmp.AnswerCarriesConfigIff` | openlit/src/opamp-server/data/agent.go:278-295 | An answer carries the config exactly when none had been calculated or the last reported hash differs from its hash |
| `OpAmp.NothingResentAfterEcho` | openlit/src/opamp-server/data/agent.go:278-295 | Once the hash is echoed, and until the config changes or the agent reports another hash, no answer carries it again |
| `OpAmp.CompressionMirrors` | openlit/src/opamp-server/data/agent.go:147-239 | When an agent omits only unchanged fields and nothing is lost, the stored description, health and remote-config status are its own after every report, and so is the effective config exactly when it is the first one or the last one with a map |
| `OpAmp.EffectiveConfigStoredIff` | openlit/src/opamp-server/data/agent.go:220-239 | A reported effective config replaces the stored one exactly when it has a map, nothing is stored yet, or it is the same |
| `OpAmp.PackageStatusesFrozen` | openlit/src/opamp-server/data/agent.go:206-218 | Package statuses and capabilities stay those of the first report |
| `OpAmp.CurrentOrAsked` | openlit/src/opamp-server/data/agent.go:245-276 | Whatever reports are lost, after each delivered one the declared fields are current or a full state has been asked for and has not come yet |
| `OpAmp.InSequenceIsNotAsked` | openlit/src/opamp-server/data/agent.go:250-276 | A report that follows without a gap is not asked about |
| `OpAmp.LostRequestIsNotRepeated` | openlit/src/opamp-server/data/agent.go:250-276 | So when the answer with the request is lost, a stale health stays stale, and is never asked for, however many reports that leave it out follow in sequence |
| `OpAmp.HealthLost` | openlit/src/opamp-server/data/agent.go:250-276 | A run that gets there |
| `OpAmp.GapIsAnswered` | openlit/src/opamp-server/data/agent.go:250-276 | After a sequence gap full state is asked for exactly when a declared field is missing; otherwise the declared fields are current |
| `OpAmp.OutstandingIff` | openlit/src/opamp-server/data/agent.go:250-276 | Over all runs with losses: full state is asked for and has not come exactly when some incomplete report came first or after a lost one and no complete one has come since |
| `OpAmp.DescriptionCurrentIff` | openlit/src/opamp-server/data/agent.go:256-269 | The description is outside that check: over all runs with losses the stored one is current exactly when the last description sent is the last that arrived, and a stale one goes unnoticed exactly when, besides, no full state is asked for |
| `OpAmp.DescriptionLostUnnoticed` | openlit/src/opamp-server/data/agent.go:256-269 | A run in which a lost description stays unnoticed |
| `OpAmp.ConfigSetPushes` | openlit/src/opamp-server/data/agent.go:308-346 | Over all runs, setting a configuration that is news (the first event, or another text than the last one set or loaded) sends it to the agent with its hash and keeps the watcher for the next report; setting any other sends nothing and tells the watcher at once |
| `OpAmp.OthersDoNotPush` | openlit/src/opamp-server/data/agent.go:116-145 | No other event sends a configuration unasked, and a report takes the waiting watchers in order |
| `OpAmp.ReportsFollow` | openlit/src/opamp-server/data/agent.go:187-197 | The stored start time is that of the last report of a healthy agent, and the stored description the last one reported |
| `OpAmp.SettingsOfferedIff` | openlit/src/opamp-server/data/agent.go:245-306 | Connection settings are offered in answer to the first report, and to every one with a new description |
| `OpAmp.AskedIff` | openlit/src/opamp-server/data/agent.go:250-276 | Full state is asked for exactly of a report that follows a gap and leaves out a kind of state that the stored capabilities declare |
| `OpAmpServer.Agent.UpdateAgentDescription` | openlit/src/opamp-server/data/agent.go:147-185 | What a report does to sequence number, description and remote-config status, and when it counts as a changed description |
| `OpAmpServer.Agent.UpdateHealth` | openlit/src/opamp-server/data/agent.go:187-197 | The reported health, and the start time of a healthy agent, are taken over; an omitted one is kept |
| `OpAmpServer.Agent.UpdateRemoteConfigStatus` | openlit/src/opamp-server/data/agent.go:199-204 | The same for the remote-config status |
| `OpAmpServer.Agent.UpdateStatusField` | openlit/src/opamp-server/data/agent.go:206-218 | Everything of a report but its effective config, merged into the stored status |
| `OpAmpServer.Agent.UpdateEffectiveConfig` | openlit/src/opamp-server/data/agent.go:220-239 | The effective config is replaced only by one with a map |
| `OpAmpServer.Agent.CalcRemoteConfig` | openlit/src/opamp-server/data/agent.go:348-377 | The remote config becomes that of the custom config; the result says whether its body changed |
| `OpAmpServer.Agent.ProcessStatusUpdate` | openlit/src/opamp-server/data/agent.go:245-306 | One report: the whole new state and the answer to it |
| `OpAmpServer.Agent.UpdateStatus` | openlit/src/opamp-server/data/agent.go:116-145 | The same, with the waiting watchers taken and notified in order |
| `OpAmpServer.Agent.SetCustomConfig` | openlit/src/opamp-server/data/agent.go:308-346 | A changed config is pushed and its watcher kept for the next report; otherwise the watcher is told at once |
| `OpAmpServer.Agent.LoadPersistedConfig` | openlit/src/opamp-server/data/agents.go:105-151 | A persisted YAML object counts as set config; a file that is missing or unreadable changes nothing, and a corrupted one is to be removed |
| `OpAmpServer.Agents.FindOrCreateAgent` | openlit/src/opamp-server/data/agents.go:81-102 | A new agent starts from its persisted config and is indexed under this connection; a known one stays where it is |
| `OpAmpServer.Agents.RemoveConnection` | openlit/src/opamp-server/data/agents.go:30-38 | Exactly the agents indexed under the connection go |
| `OpAmpServer.SurvivesIff` | openlit/src/opamp-server/data/agents.go:30-38 | An agent survives a removed connection exactly when it is indexed under another one |
| `ContainerSwap.RecreateDockerContainer` | openlit/openlit-controller/internal/engine/python_sdk_runtime.go:219-301 | For every daemon state and every pattern of refused calls and lost replies: names stay unique, other containers untouched; it succeeds exactly when stop, rename, create and start are served and the backup name is free, and then the replacement is in the place of the original, which stays only if its removal is refused; for every error, by the fates of the calls, whether the replacement is left, the original has its name and runs, and every rollback step was answered; an error whose compensations succeeded leaves everything as it was, or the original started, exactly unless the lost reply was that of the stop of a running original (it is left down) or that of the rename to a free backup name (it is left running under the backup name) |
| `ContainerSwap.StepAside` | openlit/openlit-controller/internal/engine/python_sdk_runtime.go:219-255 | Stop and rename, undone by a restart when the rename fails |
| `ContainerSwap.SwapIn` | openlit/openlit-controller/internal/engine/python_sdk_runtime.go:256-301 | From the renamed original: it succeeds exactly when create and start are served and the name is free, and removes the original unless that is refused; what each failure leaves |
| `ContainerSwap.CreateReplacement` | openlit/openlit-controller/internal/engine/python_sdk_runtime.go:244-264 | A create that fails restores the original; a replacement created without an answer keeps the name taken, which the rename back shows |
| `ContainerSwap.RestoredIff` | openlit/openlit-controller/internal/engine/python_sdk_runtime.go:219-243 | The exact condition for the first half to be undone |
| `ContainerSwap.DropReplacement` | openlit/openlit-controller/internal/engine/python_sdk_runtime.go:270-290 | A replacement that does not start is removed and the original restored |
| `ContainerSwap.RestoreOriginal` | openlit/openlit-controller/internal/engine/python_sdk_runtime.go:256-290 | Rename back and start |
| `ContainerSwap.StartReplacement` | openlit/openlit-controller/internal/engine/python_sdk_runtime.go:266-300 | The replacement is started and the original removed, or the replacement removed and the original restored, with what each refused or unanswered call leaves |
| `ContainerSwap.RenameOrRestart` | openlit/openlit-controller/internal/engine/python_sdk_runtime.go:229-240 | The rename, or the restart when it fails, with the exact state after each fate |
| `ContainerSwap.FinishSwap` | openlit/openlit-controller/internal/engine/python_sdk_runtime.go:242-300 | The second half in terms of the state before the first |
| `EnvEdits.Commute` | openlit/openlit-controller/internal/engine/python_sdk_runtime.go:640-765 | Edits of different environment keys commute when the second brings nothing in |
| `EnvEdits.Compose` | openlit/openlit-controller/internal/engine/python_sdk_runtime.go:640-765 | Two edits of one key are one edit |
| `EnvEdits.UndoAll` | openlit/openlit-controller/internal/engine/python_sdk_runtime.go:324-381 | A list of edits followed by a list of removals is one list of edits, each with the removal of its key |
| `EnvEdits.LookupAfterAll` | openlit/openlit-controller/internal/engine/python_sdk_runtime.go:324-381 | The value of each key after a list of edits; keys stay distinct |
| `ResourceAttrs.MergeResourceAttrValue` | openlit/openlit-controller/internal/engine/python_sdk_runtime.go:656-683 | The loop is the pure merge |
| `ResourceAttrs.RemoveResourceAttrKey` | openlit/openlit-controller/internal/engine/python_sdk_runtime.go:699-719 | The loop is the pure removal |
| `ResourceAttrs.PiecesOfMerge` | openlit/openlit-controller/internal/engine/python_sdk_runtime.go:656-683 | For every value: a merge puts its pair, cut at commas, in the place of the old ones or at the end and keeps every other pair |
| `ResourceAttrs.RemoveAfterMergeIff` | openlit/openlit-controller/internal/engine/python_sdk_runtime.go:656-719 | Removing a merged key gives what removing it from the old value would, exactly when nothing but blanks and pairs of the key come after the first comma of the value |
| `ResourceAttrs.MergeTwiceIff` | openlit/openlit-controller/internal/engine/python_sdk_runtime.go:656-683 | Merging a pair again changes nothing exactly when nothing but blanks come after the first comma of the value |
| `ResourceAttrs.CommaLeavesResidue` | openlit/openlit-controller/internal/engine/python_sdk_runtime.go:656-719 | For instance of a value "a,b" the second half stays; the workload keys of Docker containers have no comma |
| `ResourceAttrs.MergeHolds` | openlit/openlit-controller/internal/engine/python_sdk_runtime.go:656-683 | After a merge the pair is among the attributes, its value up to the first comma, and so is every attribute of another key |
| `ResourceAttrs.RemoveLeaves` | openlit/openlit-controller/internal/engine/python_sdk_runtime.go:699-719 | A removal leaves the attributes of other keys in order, and an empty value exactly if there are none |
| `SdkInjection.PathSurvivesIff` | openlit/openlit-controller/internal/engine/python_sdk_runtime.go:565-577 | A PYTHONPATH survives enable and disable exactly when it is absent, or not empty and not headed by the managed path |
| `SdkInjection.AttributesSurviveIff` | openlit/openlit-controller/internal/engine/python_sdk_runtime.go:656-735 | Of the resource attributes disable after enable leaves what disable alone would, exactly when the workload key has nothing of its own after a comma |
| `SdkInjection.RemovalUndoesInjectionIff` | openlit/openlit-controller/internal/engine/python_sdk_runtime.go:324-381 | Disable after enable gives back the environment, up to OTEL_SERVICE_NAME and tidied resource attributes, exactly when the container has nothing of its own under a managed name and the workload key nothing of its own after a comma |
| `SdkInjection.RoundTripAppendsServiceName` | openlit/openlit-controller/internal/engine/python_sdk_runtime.go:362-372 | For a container without service name and untidy attributes: the same environment with one entry appended |
| `SdkInjection.EnableIsIdempotentIff` | openlit/openlit-controller/internal/engine/python_sdk_runtime.go:324-352 | Enabling twice is enabling once exactly when only blanks come after a comma of the workload key |
| `SdkInjection.EnabledValues` | openlit/openlit-controller/internal/engine/python_sdk_runtime.go:325-352 | After enable every variable has its own setting: mode, service name, endpoint, environment and the disabled list always, protocol, the signal endpoints and headers if given and else what was there; the path has the managed one, the attributes the workload key, and all other keys their values |
| `SdkInjection.DisabledValues` | openlit/openlit-controller/internal/engine/python_sdk_runtime.go:361-372 | After disable the variables of the controller are gone, the path has lost the managed head, the attributes the workload key, and the service name and all other keys keep their values |
| `SdkRuntime.UpsertEnvString` | openlit/openlit-controller/internal/engine/python_sdk_runtime.go:640-654 | Replaces the first entry of the key or appends one |
| `SdkRuntime.MergeOtelResourceAttr` | openlit/openlit-controller/internal/engine/python_sdk_runtime.go:685-697 | Merges a pair into the first resource-attributes entry or appends one |
| `SdkRuntime.RemoveOtelResourceAttr` | openlit/openlit-controller/internal/engine/python_sdk_runtime.go:721-735 | Takes a pair out of the first such entry, and the entry when nothing is left |
| `SdkRuntime.RemoveEnvString` | openlit/openlit-controller/internal/engine/python_sdk_runtime.go:737-747 | Drops every entry of the key |
| `SdkRuntime.RewritePythonPath` | openlit/openlit-controller/internal/engine/python_sdk_runtime.go:749-765 | Takes the managed path off the head of every PYTHONPATH entry, dropping emptied ones |
| `SdkRuntime.DockerManagedPythonPath` | openlit/openlit-controller/internal/engine/python_sdk_runtime.go:565-577 | The managed path put before the existing one, once |
| `SdkRuntime.UpsertBindMount` | openlit/openlit-controller/internal/engine/python_sdk_runtime.go:767-774 | One bind for the target, an existing one kept |
| `SdkRuntime.RemoveBindMount` | openlit/openlit-controller/internal/engine/python_sdk_runtime.go:776-785 | No bind for the target, all others kept in order |
| `SdkRuntime.InjectEnv` | openlit/openlit-controller/internal/engine/python_sdk_runtime.go:324-352 | The environment after enable, for every list: the path set first, then the other edits in order |
| `SdkRuntime.EnabledListIsEnabled` | openlit/openlit-controller/internal/engine/python_sdk_runtime.go:324-352 | With distinct keys that is the list of edits that the laws are about |
| `SdkRuntime.RemoveFromEnv` | openlit/openlit-controller/internal/engine/python_sdk_runtime.go:362-372 | The environment after disable, for every list: all entries of the managed keys dropped, the pair and the managed path taken out |
| `SdkRuntime.DisabledListIsDisabled` | openlit/openlit-controller/internal/engine/python_sdk_runtime.go:362-372 | With distinct keys that is the list of removals that the laws are about |
| `SdkRuntime.BuildCreatePayload` | openlit/openlit-controller/internal/engine/python_sdk_runtime.go:303-387 | Environment, labels and binds of the create payload, enabling and disabling; everything else copied |
| `SdkRuntime.ContainerRoundTrip` | openlit/openlit-controller/internal/engine/python_sdk_runtime.go:303-387 | A container without managed variables, labels or mount comes back from enable and disable with its labels and binds, and its environment up to the residue |
| `SdkRuntime.FilledIsFirst` | openlit/openlit-controller/internal/engine/python_sdk_runtime.go:565-577 | In a list that repeats the path its first entry that is not empty counts |
| `SdkRuntime.EnabledContainer` | openlit/openlit-controller/internal/engine/python_sdk_runtime.go:355-360 | The three labels are set and all others kept, and the mount is bound: an existing bind of its target is kept, or the volume appended |
| `SdkRuntime.DisabledContainer` | openlit/openlit-controller/internal/engine/python_sdk_runtime.go:373-378 | The three labels and the binds of the mount go, all others stay |
| `OpenlitNames.OpenlitIsWellNamed` | openlit/openlit-controller/internal/engine/python_sdk_runtime.go:325-352 | The names the source uses are distinct and as the laws need them |
| `OpenlitNames.OpenlitIsWellProbed` | openlit/openlit-controller/internal/engine/python_sdk.go:797-848 | The names the preflight looks for do not clash with the managed ones |
| `OpenlitNames.OpenlitKeys` | openlit/openlit-controller/internal/engine/python_sdk_runtime.go:325-352 | Which name each variable goes by |
| `Preflight.DockerInspectEnv` | openlit/openlit-controller/internal/engine/python_sdk_runtime.go:579-588 | The environment as a map, a later entry winning |
| `Preflight.InjectedIsAdopted` | openlit/openlit-controller/internal/engine/python_sdk.go:797-812 | An injected container is always classified as adopt/controller_managed, whatever its command and the policy |
| `Preflight.AppliedAgain` | openlit/openlit-controller/internal/engine/python_sdk.go:797-848 | A container classified as apply under the default policy is so again after enable and disable |
| `Preflight.LastEntryCounts` | openlit/openlit-controller/internal/engine/python_sdk_runtime.go:579-588 | In the map of a list that repeats a key the last entry counts |
| `Preflight.DecisionIff` | openlit/openlit-controller/internal/engine/python_sdk.go:797-848 | The exact conditions of the four decisions in terms of the entries of the list: marks of the controller first, then those of an SDK of its own, then those of another OpenTelemetry under the blocking policy |
| `Patterns.InstrumentPatternEqual` | openlit/openlit-controller/internal/engine/engine.go:356-375 | Decides equality of all ten fields |
| `Patterns.DerivedSelectors` | openlit/openlit-controller/internal/engine/engine.go:297-354 | A derived pattern selects by executable and command line exactly when the event identifies no process and no Kubernetes workload, and never two kinds of workload at once |
| `Patterns.ExtractScriptArg` | openlit/openlit-controller/internal/engine/engine.go:379-390 | The base name of the first argument after the command that is no flag |
| `Patterns.BaseNameOf` | openlit/openlit-controller/internal/engine/engine.go:379-390 | The base name of a path is its last element, whatever slashes follow |
| `Patterns.ScriptArgIs` | openlit/openlit-controller/internal/engine/engine.go:379-390 | The script of a command line is the base name of the first word after the command that is no flag |
| `Patterns.DerivedOwner` | openlit/openlit-controller/internal/engine/engine.go:301-320 | A workload of Kubernetes is selected by its namespace and its owner, as DaemonSet, StatefulSet or else Deployment, or by its pod if it has none |
| `Patterns.DerivedProcess` | openlit/openlit-controller/internal/engine/engine.go:321-332 | Under Docker and Linux a known process is selected by its pid alone |
| `Patterns.DerivedExecutable` | openlit/openlit-controller/internal/engine/engine.go:334-354 | What is left is selected by the interpreter of its runtime, or else its executable, and by the script it runs |
| `Registry.StepKeepsConsistentIff` | openlit/openlit-controller/internal/engine/engine.go:172-294 | Every operation, with its rebuild failing or not, and every exit of OBI keeps: a service has a pattern exactly when it is instrumented, the pattern is the derived one, and a running OBI has these selectors and the providers of these services; except exactly uninstrumenting a service without a pattern under a failing rebuild with others left, and a backoff goroutine starting OBI with a configuration that is not the current one any more |
| `Registry.ZeroPatternBreaks` | openlit/openlit-controller/internal/engine/engine.go:217-231 | That operation always leaves a pattern for a service that is not instrumented |
| `Registry.RunKeepsConsistentIff` | openlit/openlit-controller/internal/engine/engine.go:172-294 | Over all runs of instrument, uninstrument, events, pruning, configuration, exits and backoff restarts, whatever rebuilds fail: consistent all along exactly when neither of the two happens |
| `Registry.StepKeepsPatternsIff` | openlit/openlit-controller/internal/engine/engine.go:172-294 | The table of patterns alone, also with a stale OBI: an operation keeps it matching the instrumented services exactly when it is not the first of the two |
| `Registry.RunKeepsPatternsIff` | openlit/openlit-controller/internal/engine/engine.go:172-294 | So over all runs, stale restarts among them, it matches all along exactly when that one operation does not happen |
| `Registry.RunWithoutExitsIff` | openlit/openlit-controller/internal/engine/engine.go:172-294 | Without exits of OBI table and configuration are consistent all along exactly when that one operation does not happen, whatever rebuilds fail |
| `Registry.NextRevivalHarmlessIff` | openlit/openlit-controller/internal/engine/obi.go:209-241 | The next wake-ups are harmless exactly when OBI runs or every sleeping backoff has the current configuration |
| `Registry.RevivalsHarmlessIff` | openlit/openlit-controller/internal/engine/obi.go:209-241 | Over all continuations without further exits, what sleeps is harmless exactly when nothing sleeps |
| `Registry.StaysDownIff` | openlit/openlit-controller/internal/engine/obi.go:134-143 | An OBI that is down is started by no backoff goroutine that wakes exactly when none sleeps |
| `Registry.RunsWithNothingInstrumented` | openlit/openlit-controller/internal/engine/engine.go:217-227 | A run that ends with OBI running although nothing is instrumented: stopping an OBI that has exited does not cancel its backoff |
| `Registry.RunningIffInstrumented` | openlit/openlit-controller/internal/engine/engine.go:208-254 | While rebuilds succeed and OBI does not exit by itself it runs exactly when some service is instrumented, with the configuration of the current registry |
| `Registry.RegistryFollows` | openlit/openlit-controller/internal/engine/engine.go:172-294 | Over all runs without a zero pattern: the services known are those seen and not pruned since, with what was last said of each and all its providers; those instrumented are exactly the ones whose instrumentation succeeded and was not taken back |
| `Registry.RunningConfiguration` | openlit/openlit-controller/internal/engine/engine.go:208-354 | Over all runs in which nothing breaks the registry, a running OBI has one selector for each instrumented service, derived from what was last said of it and restricted to containers under Docker, exactly the providers these were seen with, and the last settings |
| `Engine.MergeProviders` | openlit/openlit-controller/internal/engine/events.go:286-299 | A list without repetition of both lists' elements |
| `Engine.MergeGrowsIff` | openlit/openlit-controller/internal/engine/events.go:66-95 | Merging one provider changes the length of the list exactly when the provider is new |
| `Engine.Engine.EnabledProvidersForPatterns` | openlit/openlit-controller/internal/engine/engine.go:284-294 | The union of the providers of the services with a pattern |
| `Engine.Engine.RebuildObi` | openlit/openlit-controller/internal/engine/engine.go:236-282 | OBI runs with the configuration of the current registry, or not at all |
| `Engine.Engine.InstrumentService` | openlit/openlit-controller/internal/engine/engine.go:172-205 | The step Instrument of the registry, rolled back on failure |
| `Engine.Engine.UninstrumentService` | openlit/openlit-controller/internal/engine/engine.go:208-234 | The step Uninstrument; it fails for an unknown service, and when a rebuild that others need fails |
| `Engine.Engine.HandleEvent` | openlit/openlit-controller/internal/engine/events.go:66-122 | The step Observe for an event whose workload is known |
| `Engine.Engine.PruneStaleServices` | openlit/openlit-controller/internal/engine/engine.go:532-555 | The step Prune: exactly the stale services that are not instrumented go |
| `Engine.Engine.ObiExits` | openlit/openlit-controller/internal/engine/obi.go:115-131 | An unexpected exit, as the engine sees it |
| `Engine.Engine.BackoffWakes` | openlit/openlit-controller/internal/engine/obi.go:209-241 | A backoff goroutine that wakes up: it gives up, starts OBI or sleeps again |
| `Engine.Engine.Configure` | openlit/openlit-controller/internal/engine/engine.go:449-501 | A change of what OBI reads of the settings rebuilds a running OBI, and nothing else does here |
| `Words.NormalizeIff` | openlit/sdk/typescript/src/helpers.ts:610-611 | Two prompts normalise alike exactly when they have the same words |
| `Words.NormalizeKeeps` | openlit/sdk/typescript/src/helpers.ts:610-611 | Normalising keeps every letter that is no blank |
| `JsonValues.SortIsStable` | openlit/sdk/typescript/src/helpers.ts:685-685 | The sort orders the names and keeps, for each name, its values in their order |
| `JsonValues.InOrderUnique` | openlit/sdk/typescript/src/helpers.ts:685-685 | An ordered list is determined by the values of each name |
| `JsOrder.LessIsStrict` | openlit/sdk/typescript/src/helpers.ts:678-685 | The order of UTF-16 code units is a strict total order |
| `JsOrder.KeyLessIsStrict` | openlit/sdk/typescript/src/helpers.ts:615-621 | So is the order in which an object lists its keys: index keys by value, then the others |
| `CanonicalJson.FillSorted` | openlit/sdk/typescript/src/helpers.ts:616-620 | An object filled in the sorted order of its keys lists them index keys first, without a key __proto__: the canonical object |
| `CanonicalJson.CanonicalIff` | openlit/sdk/typescript/src/helpers.ts:613-623 | Two values have the same canonical form exactly when they differ only in the order of keys, and in properties named __proto__, at any depth |
| `CanonicalJson.CanonicalIdempotent` | openlit/sdk/typescript/src/helpers.ts:613-623 | The canonical form is its own canonical form |
| `Fingerprint.RoundTo3` | openlit/sdk/typescript/src/helpers.ts:625-630 | Rounding to three decimals moves a number by at most 0.0005, halves up |
| `Fingerprint.PayloadInjective` | openlit/sdk/typescript/src/helpers.ts:691-706 | The hashed value loses nothing of prompt, tools, model, numbers and provider |
| `Fingerprint.PayloadHolds` | openlit/sdk/typescript/src/helpers.ts:691-706 | The hashed value is an object with the normal form of the prompt, the model, the tools as name and schema, and the rounded numbers and the provider, each under its key |
| `Fingerprint.SchemaIs` | openlit/sdk/typescript/src/helpers.ts:665-679 | The schema of a tool is its parameters, or else its input_schema, or else its schema, or else null |
| `Fingerprint.NamelessIff` | openlit/sdk/typescript/src/helpers.ts:665-669 | A definition counts exactly if it is an object with a name that is a text and not empty |
| `Fingerprint.RoundedToThousandths` | openlit/sdk/typescript/src/helpers.ts:625-630 | Temperature and top_p are rounded to the nearest thousandth |
| `Fingerprint.TruncatedTowardZero` | openlit/sdk/typescript/src/helpers.ts:632-637 | The token limit is cut off toward zero |
| `FingerprintLaws.PayloadIff` | openlit/sdk/typescript/src/helpers.ts:609-706 | Two calls hash the same value exactly when they have the same words of the prompt, the same tools (per name, in order, up to schema key order), model, rounded numbers and provider |
| `FingerprintLaws.ReorderedTools` | openlit/sdk/typescript/src/helpers.ts:664-685 | Distinctly named tools count in any order |
| `FingerprintLaws.ReorderedProviders` | openlit/sdk/typescript/src/helpers.ts:688-699 | Providers count in any order |
| `FingerprintLaws.PresentationIsIrrelevant` | openlit/sdk/typescript/src/helpers.ts:650-706 | Reordering distinctly named tools and providers and passing the tools as JSON text instead of an array changes nothing |
| `FingerprintKey.KeyDeterminesPayload` | openlit/sdk/typescript/src/helpers.ts:731-756 | Equal cache keys mean equal hashed values when no bar is in the instructions, the tools text or the model, and no comma in a provider that matters |
| `FingerprintKey.BarsCollide` | openlit/sdk/typescript/src/helpers.ts:752-752 | Every call with a bar in one of those shares its key with a call that hashes another value |
| `FingerprintKey.CommasCollide` | openlit/sdk/typescript/src/helpers.ts:740-752 | Every call whose provider is the first of several shares its key with the call that names their join as one provider, and hashes another value |
| `FingerprintKey.ProviderIs` | openlit/sdk/typescript/src/helpers.ts:688-690 | The provider hashed is the configured one, or else the least of those given that are not empty |
| `VersionCache.Helper.ComputeAgentVersionHash` | openlit/sdk/typescript/src/helpers.ts:598-718 | The memo after one call, and the hash returned |
| `VersionCache.LastUsesFacts` | openlit/sdk/typescript/src/helpers.ts:600-606 | The used keys, each once, in the order of their last uses |
| `VersionCache.MemoHoldsRecent` | openlit/sdk/typescript/src/helpers.ts:598-718 | After every run of calls the memo holds exactly the (at most 256) most recently used keys, by last use |
| `VersionCache.EntriesAreStored` | openlit/sdk/typescript/src/helpers.ts:598-718 | Every entry was computed by an earlier call of that key |
| `VersionCache.Transparent` | openlit/sdk/typescript/src/helpers.ts:598-718 | If equal keys have equal hashes every call of a run returns the uncached hash |
| `VersionCache.DelimitedCallsAreTransparent` | openlit/sdk/typescript/src/helpers.ts:598-756 | So it is for all runs of calls with delimiter-free parts |
| `VersionCache.BarsGoStale` | openlit/sdk/typescript/src/helpers.ts:598-756 | And for every call with a bar there is one that is then answered with the wrong call's hash |
| `Utf8.DecodeEncoded` | tools/fix_mojibake.py:63-63 | Decoding undoes UTF-8 encoding (section 3 of RFC 3629), whatever bytes follow |
| `Utf8.EncodeDecode` | tools/fix_mojibake.py:63-63 | Encoding undoes decoding on well-formed bytes |
| `Utf8.DecodeIsExactIff` | tools/fix_mojibake.py:63-63 | Decoding with replacement loses nothing exactly on well-formed bytes (section 4 of RFC 3629), which are exactly the encodings of texts |
| `Utf8.MalformedShows` | tools/fix_mojibake.py:63-63 | Bytes that are not well-formed leave a replacement character in the text |
| `Mojibake.NoByteIff` | tools/fix_mojibake.py:46-55 | A character has no byte exactly when it is above U+00FF and no byte is misread as it |
| `Mojibake.ToOriginalBytes` | tools/fix_mojibake.py:32-55 | The loop gives the byte of every character, or None if one has none |
| `Mojibake.Repair` | tools/fix_mojibake.py:58-64 | The repaired text, or the text itself with ok false |
| `Mojibake.RepairUndoesCorruption` | tools/fix_mojibake.py:58-64 | For every sequence of Unicode scalar values: encode, misread as Windows-1252 with undefined bytes passed through, repair gives the text back with ok true |
| `Mojibake.RefusedIff` | tools/fix_mojibake.py:46-62 | Repair refuses, leaving the text alone, exactly when some character above U+00FF is no misread byte |
| `Mojibake.CorruptedIff` | tools/fix_mojibake.py:33-42 | The corrupted texts are those of misread bytes whose bytes are well-formed UTF-8 |
| `Mojibake.RepairIsExactIff` | tools/fix_mojibake.py:58-64 | Corrupting the result gives the input back exactly when the input is such a text |
| `Mojibake.AsciiIsKept` | tools/fix_mojibake.py:44-46 | ASCII text is returned as it is |
| `Orders.SortStrings` | openlit/cli/internal/config/config.go:515-522 | The in-place insertion sort gives an ordered permutation |
| `Orders.OrderedUnique` | openlit/cli/internal/config/config.go:515-522 | Distinct names have one ordered listing |
| `ConfigFile.Config.ReadConfigFile` | openlit/cli/internal/config/config.go:387-424 | The settings of the allow-listed lines, later ones winning; none for a missing file; an error without a home directory, when the file cannot be opened, or on a line the scanner gives up on |
| `ConfigFile.Config.ApplyUpdates` | openlit/cli/internal/config/config.go:442-451 | The old settings overlaid with the allow-listed updates, empty ones deleting |
| `ConfigFile.Config.SortedKeys` | openlit/cli/internal/config/config.go:460-464 | Every key once, in order |
| `ConfigFile.Config.Save` | openlit/cli/internal/config/config.go:429-474 | The file becomes the rendering of the old settings overlaid with the updates; a failed save leaves it alone, or cut if the write itself failed |
| `ConfigFileLaws.CleanIff` | openlit/cli/internal/config/config.go:412-414 | What a value survives reading: no line break, no blank or quote at either end |
| `ConfigFileLaws.ParseWritten` | openlit/cli/internal/config/config.go:466-466 | A written line is read as its key and its value without the blanks and quotes around it |
| `ConfigFileLaws.ReadBackIff` | openlit/cli/internal/config/config.go:387-474 | Written settings are read back exactly when every value is clean and every line within the limit of the scanner |
| `ConfigFileLaws.RenderingInjective` | openlit/cli/internal/config/config.go:453-470 | Different settings without line breaks are written differently |
| `ConfigFileLaws.RenderingUnique` | openlit/cli/internal/config/config.go:453-470 | The written file is determined by the settings |
| `ConfigFileLaws.SecondSaveIsIdenticalIff` | openlit/cli/internal/config/config.go:429-474 | A second save without updates writes the same bytes exactly when every value was clean (for values without line breaks) |
| `ConfigFileLaws.CutReads` | openlit/cli/internal/config/config.go:429-474 | After a write that was cut anywhere: the first settings are read as from the whole file, then perhaps one with the head of its value, and none of the others |
| `ConfigFileLaws.SavesAccumulate` | openlit/cli/internal/config/config.go:429-474 | After any run of saves of clean values that write the file or fail without touching it, from any file with clean settings or none: reading gives what was there with all updates of the saves that landed laid over it |
| `ConfigFileLaws.CliIsWellFormed` | openlit/cli/internal/config/config.go:101-111 | The actual keys and comment lines are as the laws need them |
| `ConfigFileLaws.ParseHandWritten` | openlit/cli/internal/config/config.go:387-427 | A line written by hand sets its key to its value, whatever blanks stand before and after the key and the value |
| `ConfigFileLaws.ParsesNothing` | openlit/cli/internal/config/config.go:387-427 | Blank lines, comments behind blanks and lines without an equals sign set nothing |
| `ConfigFileLaws.SavedSettings` | openlit/cli/internal/config/config.go:429-474 | After a save each allowed key has its update, nothing if that is empty, and what was there if there is none; keys that are not allowed are ignored |
| `ProcNet.ScanTCPFileWithInodes` | openlit/openlit-controller/internal/scanner/connscan.go:207-244 | The established rows to known endpoints with a readable inode, in order; none of a file that cannot be opened |
| `ProcNet.ParseWritten` | openlit/openlit-controller/internal/scanner/connscan.go:255-294 | Every endpoint is read back as the kernel writes it, in reversed byte order |
| `ProcNet.ParseMapped` | openlit/openlit-controller/internal/scanner/connscan.go:264-275 | The same for mapped addresses of tcp6, whatever the groups before the marker |
| `ProcNet.RowMatchesIff` | openlit/openlit-controller/internal/scanner/connscan.go:207-244 | A row with a remote endpoint as the kernel writes it is a match exactly if its state is 01 and the endpoint is known, with the inode of its tenth column |
| `ConnScan.ConnScanner.UpdateEndpoints` | openlit/openlit-controller/internal/scanner/connscan.go:51-60 | The known endpoints are a copy of the resolved ones |
| `ConnScan.ConnScanner.Scan` | openlit/openlit-controller/internal/scanner/connscan.go:84-157 | The scan with its cache by namespace and its set of seen connections |
| `ConnScan.CachedIsUncached` | openlit/openlit-controller/internal/scanner/connscan.go:103-128 | It finds what a scan without the cache would, if processes of one known namespace see the same tables |
| `ConnScan.CachedIsUncachedIff` | openlit/openlit-controller/internal/scanner/connscan.go:103-154 | It does so exactly when every process owns the same connections by the tables of the first process of its namespace as by its own |
| `ConnScan.UnreadableFirstProcessHidesOthers` | openlit/openlit-controller/internal/scanner/connscan.go:111-128 | Otherwise it misses connections, for instance when the tables of the first process cannot be opened |
| `ConnScan.FoundExactlyOnce` | openlit/openlit-controller/internal/scanner/connscan.go:133-154 | Each (process, endpoint) pair that the process owns is found exactly once, and nothing else is |
| `ConnScan.ProviderIsKnown` | openlit/openlit-controller/internal/scanner/connscan.go:133-154 | Every event names the provider of the known endpoint it was found for |
| `ConnScan.OwnsIff` | openlit/openlit-controller/internal/scanner/connscan.go:113-139 | With distinct inodes a process owns an endpoint exactly when it holds open the socket of an established row to it |
| `ConnScan.EstablishedIsOwned` | openlit/openlit-controller/internal/scanner/connscan.go:113-139 | A process owns a known endpoint that an established row of its tcp or tcp6 table names with an inode it holds open |
| `ConnScan.ScanReportsIff` | openlit/openlit-controller/internal/scanner/connscan.go:84-159 | The scan reports a process with a provider exactly when it is another process than the scanner and connects to an endpoint of that provider |
| `Hosts.ResolveTargets` | openlit/openlit-controller/internal/scanner/hosts.go:141-179 | The nested loops over targets and addresses |
| `Hosts.ResolvedIff` | openlit/openlit-controller/internal/scanner/hosts.go:141-179 | An endpoint is resolved exactly when some target reaches it, and has the provider of the last such target |
| `Hosts.HostResolver.ApplyResolved` | openlit/openlit-controller/internal/scanner/hosts.go:112-135 | The kernel map and the live set after a refresh, for every pattern of failing puts and deletes |
| `Hosts.RefreshAndUpdateBoth` | openlit/openlit-controller/internal/scanner/connscan.go:298-303 | Kernel map, live set and scanner are updated from one resolution |
| `Hosts.RefreshIsExactIff` | openlit/openlit-controller/internal/scanner/hosts.go:112-135 | A refresh without failures leaves exactly the resolved endpoints if and only if no other key is neither live nor resolved |
| `Hosts.LastRefreshWins` | openlit/openlit-controller/internal/scanner/hosts.go:112-135 | After any run without failed deletes, puts failing or not, a refresh without failures makes kernel map and resolution equal |
| `Hosts.LeakedKeyStays` | openlit/openlit-controller/internal/scanner/hosts.go:124-134 | A key whose delete failed stays until it is resolved again |
| `Hosts.RefreshedAt` | openlit/openlit-controller/internal/scanner/hosts.go:112-135 | One refresh with any failures, endpoint by endpoint: what is put, what is deleted, and that everything else is as it was |
| `Pricing.LookupIsFirst` | tools/cc_pricing.py:186-196 | The first row with a pattern in the model name gives the rate; none means free |
| `Pricing.BreakdownIsCostIff` | tools/cc_pricing.py:51-107 | The tiers of the breakdown sum to the cost exactly when the rate has an input or output price or nothing is due for the cache |
| `Pricing.CostIsAdditive` | tools/cc_pricing.py:51-75 | Costs of requests add up: no premium for long contexts |
| `Pricing.CostOfEachKind` | tools/cc_pricing.py:51-75 | Each kind of token is charged its own rate by the million; cache reads and writes without a price of their own as input |
| `Pricing.BreakdownByKind` | tools/cc_pricing.py:77-107 | The parts of the breakdown are the costs of the four kinds alone |
| `Transcript.Coalesce` | tools/reconcile_session.py:121-173 | The turns of a transcript, lines that are no JSON or not the assistant's skipped, none for a missing file; it raises exactly when a line is JSON but no object |
| `Transcript.KeysIff` | tools/reconcile_session.py:145-154 | A key has a turn exactly when a line of the assistant has that key |
| `Transcript.KeysDistinct` | tools/reconcile_session.py:145-154 | One turn for each key |
| `Transcript.KeysGrow` | tools/reconcile_session.py:145-154 | Turns stay in the order their keys were first seen |
| `Transcript.RepeatIsIdleIff` | tools/reconcile_session.py:145-158 | One more fragment of a request already seen changes nothing exactly when a later one follows or it says the same as the last one |
| `Transcript.NeverClampedIff` | tools/reconcile_session.py:176-183 | The billed uncached input is what the turn says exactly when that is not negative |
| `Transcript.CostIsSumOfTiers` | tools/reconcile_session.py:210-224 | The cost of an agent is the sum over all turns of the four tiers, dropped turns included, every token counted once |
| `Transcript.TranscriptCost` | tools/reconcile_session.py:121-224 | The cost of a transcript bills each request once, at the usage of its last fragment |
| `Transcript.TurnsCarryLines` | tools/reconcile_session.py:145-173 | Every turn carries the model, the ids and the four numbers of the last line of its request |
| `Transcript.TranscriptIsBilledByLine` | tools/reconcile_session.py:121-224 | The cost of a transcript is the sum of the bills of the last line of each request, each number at its own rate |
| `Transcript.MetricsCarryTurns` | tools/reconcile_session.py:176-214 | The metrics are those of the turns with tokens, each under its request or else its uuid |
| `CodeUnits.GoLessIsByteOrder` | openlit/cli/internal/config/config.go:515-523 | The order of the written keys is that of their UTF-8 bytes |
| `CodeUnits.LessIsUnitOrder` | openlit/sdk/typescript/src/helpers.ts:678-686 | The order of names is that of their UTF-16 code units |
| `CodeUnits.IndexKeysIff` | openlit/sdk/typescript/src/helpers.ts:613-623 | Index keys are the decimal numerals below 2^32 - 1; objects list them by value, before all other keys |

## Left out

- The HTTP and Docker transports, TLS, authentication and JSON decoding of replies: a request is served, refused or loses its reply.
- The Kubernetes twin of the environment rewrite, naked pods, Linux services and bare processes: the same shape as the Docker and workload cases.
- Memory limits, rollout conditions and the scheduler of Kubernetes: only replica count, annotations and the pod template are looked at, every other field is copied.
- Writers other than the controllers are part of `Workload.Serializable`, but not of the runs of `StopStart`.
- Real time in the supervisor beyond the backoff arithmetic: that a Stop ends after its child was reaped is a hypothesis of its laws on children, and `Supervisor.OneLiveChildIff` shows that it is exactly what they need.
- An exit of OBI and its backoff restart are single steps of the engine's registry; how they interleave inside the supervisor is in `Supervisor`. OBI target display names, generated resource attributes and the YAML of its configuration are left out.
- How an event's workload is identified (`serviceID`, `buildWorkloadKey`, container and process metadata) is an input of `Engine.HandleEvent`; its lifecycle attributes are left out.
- The agent's side of a full-state request is a flag that a full report clears; connection settings, certificates and the effective-config display string of the OpAMP server are left out, and its maps are compared as maps.
- A loss of 2^64 or more consecutive reports, which no sequence number shows.
- Exporter headers come formatted; the order of `formatOTLPHeaders` is not modelled.
- Case folding beyond ASCII letters in `Text.Lower`.
- JSON values that are undefined or functions, inherited properties, lone surrogates, and circular inputs beyond "computing the key or the hash throws".
- Floating point: the fingerprint rounds rationals and the costs are real numbers.
- Configuration files that are not valid UTF-8; file modes.
- Transcript lines whose fields have unexpected types.
- `fix_mojibake.py` opens files with newline translation and reports marker counts: only the text between is modelled.
- Deleting and creating `/proc` entries during a scan: each process is read once, as it is then.
- The price table itself is a parameter of `Pricing.Lookup`; the reports, tolerances and database queries of the reconciliation tool.
- Regular expressions, host and terminal detection, metrics, the user interface, migrations and example applications.
