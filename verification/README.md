# Verified model of the deployment core

The program hosts small web apps on one machine. Each app is a compose file whose services run in containers, with its
rows (app, secrets, storage mappings, releases, operations) in SQLite and its route in a Traefik file. This project
models the parts of it that must not go wrong half way, and proves what they promise.

* **Update transaction** (`Update`, `Environment`). `UpdateRun` is one brief-downtime update with its three layers of
  undo closures; `World` holds what it changes: the app row, secrets, mappings, release rows and the container map.
  Every call to the store or to the container runtime takes its outcome from an arbitrary oracle: it works, it fails
  without effect, or it takes effect and still reports an error. Containers may vanish or exit between calls. The
  loops can stop anywhere. `UpdateRun.Update` states what the final world is for each reported status, and when a run
  must succeed or roll back. `Guarantees` draws conclusions across functions and runs: containers mount what the
  persisted mappings say, read-only where the spec says so, a rollback goes back to the release that the row pointed at
  and rebuilds the containers it had, nothing is replaced before
  the planned backup and copies are made, every update, however it ends, is a step of the app's storage history, and
  what it reports stays on its operation row. `Redaction` settles which secrets no longer show in an error text and
  when the report of a failed rollback still says so once they are removed. `Redeploy` is the second user of the planner.
* **Operation protocol and crash recovery** (`Operations`, `Reconcile`). Rows change by claim, advance, heartbeat,
  finish and interrupt steps of any number of processes in any order; an inductive invariant gives one active
  operation per app and makes the active one the newest, and what an active row reads is told by the calls made for it.
  `Server.Startup` is the restart: interrupt, then reconcile every route, dark or not.
* **Storage planning** (`Volumes`, `Paths`, `Storage`, `Backups`, `Resolver`, `StorageHistory`). The planner accepts
  or rejects a spec and picks locations independently of map order, and its plan is a function of the order in which it
  visits the services; `Backups` says exactly which storage is archived where its data is and whose data arrives at the
  planned place; the runtime's resolver, a separate piece of code, arrives at the same places;
  over any history a persisted mapping never changes, and only a restore that fails half way loses one.
* **Service ordering** (`Order`, `Compose`): the depth-first search over an arbitrary, possibly cyclic dependency
  graph.
* **Smaller cores**: the bounded build log (`BuildLog`), Traefik rendering (`Routes`), the env editor's text form
  (`EnvText`), the archive byte budget (`Archive`) and the self-updater as file-system steps (`Install`).

Code that changes state step by step is a class or a method with loops, proved against functions and predicates; the
laws are lemmas about those. A character of a string is a Unicode code point.

## What does not hold

Some promises hold only under a condition. The condition is proved, and a lemma or method shows a case where it fails.

* An app found with no container running ends idle and "stopped" after a rolled-back update exactly when its previous
  compose text parses or it has no container (`UpdateRun.IdleVerdict`). Without a parsable text zero services are
  expected, zero running containers look like "running" (`IdleAppLooksUp`), and a failed backup then starts the app.
* The operation cut off by a crash is the app's newest exactly when the clock did not run backwards between the app's
  claims (`ActiveIsNewest`); otherwise an older success can hide it (`BackwardClockHidesCrash`).
* Printing and parsing an env map is the identity exactly when keys are valid and values are single lines without
  white space at the end (`RoundTrip`, `TrailingSpaceIsLost`).
* Every router a service asks for is in the rendered file exactly when no service `x-path` with a domain stands beside
  a service `x` (`AllKeptIffNoClash`, `PathServiceClashes`).
* Restoring after a failed binary commit brings the original back unless the commit failed in its backup copy, which
  truncates the backup first; the restore then installs the truncated file (`RestoreAfterFailedBackup`).
* A failed rollback is reported as "rollback_failed" only if redaction leaves the words "rollback failed" in its
  report, where they stand behind "; " or "; secret " and before ": ". For one secret it leaves them, whatever led to
  the rollback and whatever failed, exactly when no placement of the secret overlaps the words and agrees with these
  surroundings as far as it overlaps them (`Survives`, `ReportsAreRecognisedIff`); for any other secret there is a report
  that loses them (`LostReport`), after which the operation ends as "failed" (`UpdateRun.UpdateFailure`). For several
  secrets, which are removed one after the other, it is enough that each is harmless: empty, or apart from the words in
  any text, so that neither holds the other and no end of one is a beginning of the other. Harmless values are the ones
  that keep the words in arbitrary texts (`KeepsPhraseIffHarmless`); they survive in reports, and so do some others
  (`HarmlessSurvives`, `HarmfulMaySurvive`).
* A secret no longer shows in a text it was redacted from exactly when it cannot show (`GoneIffItCannotShow`): it is not
  part of the cover "[redacted]", does not begin with an end of it, and does not end in a cover or the beginning of one
  such that what it begins with can stand, copied, before a match (`Shows`). A secret "redacted" always shows
  (`RedactedShows`). For several secrets, in whatever order they come, each one that is apart from the cover is gone
  (`UpdateRun.Redact`). If the secrets cannot be put back, the cause of that is appended after redaction.
* Containers of two apps can claim one name, because the dash between slug and service may be one inside either
  (`AppsNamesMayMeet`); slugs of one length tell them apart (`AppsNamesDiffer`).
* A storage is archived where its data is exactly when `KeepsPrevious` holds (`BackupKeepsPrevious`). It does not hold
  for a persisted bind that no old container mounts while the old checkout has a directory of that name: that
  directory is archived, and copied over the persisted bind (`KnownBindMissed`, `PersistedIsOverwrittenIff`). Nor for
  an old bind that becomes a volume (`TurnedVolumeMissed`) or is mounted read-only (`ReadOnlyBindMissed`).
* The data of a storage that the old containers mount, and that has no mapping yet, arrives at its planned place exactly
  when `CanFollow` holds (`DataArrivesIff`): it keeps its kind, and a directory outside its managed place is mounted
  writable while the old checkout is known. So a bind that becomes a volume starts empty, and so does a volume that
  becomes a writable bind: the planner takes the volume's name for the path to copy from (`TurnedBindMissed`).
* When one storage is mounted both writable and read-only, its first visited mount decides whether it is copied and what
  is archived (`FirstMountDecides`). Services are visited in map order, so two services that disagree leave it open
  (`ServiceOrderDecides`).
* A storage whose mapping was lost by a restore that failed half way is found again exactly when the mapping recorded
  the managed place, or for a volume the one the old containers use (`LostMappingMoves`). A volume adopted from an
  older deployment moves (`AdoptedVolumeMoves`).
* The comment at internal/composer/parser.go:83 promises that cycles are broken alphabetically. The code visits
  services in map order, and the model follows the code.

## Model

| member | source | states |
|---|---|---|
| Update.UpdateRun.Update | internal/deployer/update.go:70-502 | For every outcome of every call: exactly one finish request, "completed" exactly when no error is returned; rolled back only if secrets, mappings, row and runtime really are restored; a run that fails before the cut-over leaves row, mappings and containers as they were but for running flags, one that fails after it leaves only old or planned values; with every call working an admitted run with a deployable candidate completes; a single failing call leads to rolled_back if it fails the backup, and past the cut-over when there is a release to go back to |
| Update.UpdateRun.Run | internal/deployer/update.go:140-502 | The same once an operation is held; a candidate rolled back to anything but the current release means that two calls failed, if that release has a row |
| Update.UpdateRun.ReadyCandidate | internal/deployer/update.go:140-327 | Everything before the first stop: planned, recorded and built for the overlaid secrets, or ended with nothing touched |
| Update.UpdateRun.Enter | internal/deployer/update.go:71-93 | What is refused before the run is responsible for an operation changes nothing; with a claimed operation the row is the one at the call |
| Update.UpdateRun.Announce | internal/deployer/update.go:140-143 | Success sets the status to updating and clears the last error; nothing else changes |
| Update.UpdateRun.Finish | internal/deployer/update.go:94-103 | Only the first finish reaches the operation; later ones change nothing |
| Update.UpdateRun.RestoreSecretsForRollback | internal/deployer/update.go:110-121 | Succeeds exactly when the secrets are settled: never written, or put back equal to the snapshot |
| Update.UpdateRun.FailUpdate | internal/deployer/update.go:127-138 | A failed secret restore cancels any recovery claim; the run ends with secrets equal to those at the start unless it says rollback_failed; the report of a failed rollback ends as rollback_failed when the secrets are harmless, or when the only one survives in reports; unless the secrets could not be put back, no secret that can be hidden shows in the returned error, in the row's last error or in the release row's, and without secrets the error is the cause |
| Update.UpdateRun.UpdateFailure | internal/deployer/update.go:619-641 | rolled_back exactly when something was recovered, rollback_failed exactly when nothing was and the text says so; the text is returned, and stored bounded in the release row marked failed and, when nothing was recovered and the write works, in the app row; a recovered row gets the recovered status |
| Update.UpdateRun.Redact | internal/deployer/update.go:128-130 | No secret whose value is apart from the cover shows afterwards, whatever order the secrets come in, nor does a single one that cannot show; with harmless secrets the words that name a failed rollback stay in any text, and with one that survives in reports they stay in every report |
| Redaction.KeepsPhraseIffHarmless | internal/deployer/update.go:598-604 | Redacting a value keeps the words "rollback failed" in every text that has them exactly when the value is harmless |
| Redaction.ReportsAreRecognisedIff | internal/deployer/update.go:424-429 | Redacting a value keeps the words in every report of a failed rollback, whatever led to it and whatever failed, exactly when no placement of it cuts them where a report has them |
| Redaction.LostReport | internal/deployer/update.go:424-429 | For a value that cuts them: what led to the rollback and what failed it, such that the redacted report no longer says so |
| Redaction.HarmlessSurvives | internal/deployer/update.go:598-604 | A harmless value survives in every report |
| Redaction.HarmfulMaySurvive | internal/deployer/update.go:424-429 | A value that is not harmless and yet survives in every report |
| Redaction.WordsAreOld | internal/deployer/update.go:598-604 | For any text: redaction adds nothing but covers; where a phrase apart from the cover is left it stood before and no match began in it |
| Redaction.GoneIffItCannotShow | internal/deployer/update.go:598-604 | A value shows in no text from which it was redacted exactly when it cannot show |
| Redaction.ShowingText | internal/deployer/update.go:598-604 | For a value that can show: a text that still shows it once it is redacted |
| Redaction.RedactedIsGone | internal/deployer/update.go:598-604 | A value apart from the cover is gone once it is redacted |
| Redaction.GoneStaysGone | internal/deployer/update.go:128-130 | Redacting another value never brings back one that is apart from the cover |
| Redaction.ApartCannotShow | internal/deployer/update.go:603 | A value apart from the cover cannot show |
| Redaction.RedactedShows | internal/deployer/update.go:603 | The secret "redacted" still shows once it is redacted |
| Redaction.PhraseIsKept | internal/deployer/update.go:598-604 | For any text: a phrase that no occurrence of the value overlaps stays in it |
| Redaction.SpoiltText | internal/deployer/update.go:598-604 | For any value that is not harmless: some text, not necessarily a report, that has the words and loses them |
| Redaction.ForeignIsHarmless | internal/deployer/update.go:128-130 | A value without any letter of those words is harmless |
| Update.UpdateRun.RestoreStorageState | internal/deployer/update.go:250-269 | Success means the mappings, kind and reference, equal the snapshot; after a failure each mapping still there has its old or its current value; no failing call means success |
| Update.UpdateRun.RestoreAppState | internal/deployer/update.go:401-410 | Success means the row equals the one read at the start in every column but status and last error, the release pointer included; a failure leaves that row or the one before |
| Update.UpdateRun.RollbackUpdate | internal/deployer/update.go:570-596 | Success means exactly one running container per service of the old spec, made from the old mounts and the plain env overlaid by the secrets of that moment |
| Update.UpdateRun.ResumePrevious | internal/deployer/update.go:359-389 | Rolled back only if what the update stopped runs again and what it found stopped was left alone, with the matching row status; with no failing call it is rolled back; without secrets the error begins with the cause |
| Update.UpdateRun.Resume | internal/deployer/update.go:359-387 | Recovery is claimed only after the secret restore and the restart both succeeded |
| Update.UpdateRun.StopAgain | internal/deployer/update.go:443-447 | The recreated previous release is stopped again, and no container of another origin is left |
| Update.UpdateRun.RestoreAll | internal/deployer/update.go:411-421 | Every restore step is tried; the previous release is recreated with the old secrets because they are restored first |
| Update.UpdateRun.RestoreRuntime | internal/deployer/update.go:413-414 | Secrets first, then the previous release with them; no failing call means both succeed |
| Update.UpdateRun.RestoreRows | internal/deployer/update.go:415-421 | Mappings, row and pointer are restored, or keep old or planned values |
| Update.UpdateRun.RollBack | internal/deployer/update.go:411-453 | Recovery is claimed only when all steps succeeded; the text begins with the reason; any text but the report of a failed rollback means only previous containers are left |
| Update.UpdateRun.RollbackCandidate | internal/deployer/update.go:411-454 | Ends the run; rolled_back means recreated containers, restored mappings and restored row, and follows when every restore call works; a plain failure leaves previous containers only, unless secrets cut the report |
| Update.UpdateRun.Materialise | internal/deployer/update.go:144-225 | The candidate row differs from the app's only in status, release pointer and source columns, and its compose text parses |
| Update.UpdateRun.FindPrevious | internal/deployer/update.go:227-238 | When the current release can be read and has a source directory, the previous release is its own compose text and the real path of that directory, the plain source directory only if that path is empty; otherwise the row's text with the plain source directory. It can be read exactly when it has a row and the first call works |
| Update.UpdateRun.PlanUpdate | internal/deployer/update.go:239-273 | Storage is planned from the mappings at the start; the previous mounts are the persisted ones over the discovered ones |
| Update.UpdateRun.WriteRelease | internal/deployer/update.go:278-288 | Success adds exactly the release row, which tells the candidate's text, source directory, Git reference and commit, and the release before it |
| Update.UpdateRun.RecordCandidate | internal/deployer/update.go:144-288 | Success means the candidate is parsed, its storage planned from the start's mappings, and its release row written |
| Update.UpdateRun.WriteSecrets | internal/deployer/update.go:289-306 | A snapshot exists before the first write; success overlays the request's secrets, failure leaves a snapshot that can undo them |
| Update.UpdateRun.BuildImages | internal/deployer/update.go:308-327 | Images are the prepared ones for env plus secrets, and the release row records them; no container is touched |
| Update.UpdateRun.PrepareImages | internal/deployer/update.go:308-319 | Success means images for exactly the env that the containers will get |
| Update.UpdateRun.RecordImages | internal/deployer/update.go:320-327 | The stored release row gets the images and stays otherwise as planned |
| Update.UpdateRun.WriteAndBuild | internal/deployer/update.go:289-327 | Success means secrets overlaid by the request's and images built for exactly that env |
| Update.UpdateRun.PlanCandidate | internal/deployer/update.go:140-288 | A failure ends the run with containers, mappings and row as they were |
| Update.UpdateRun.BuildCandidate | internal/deployer/update.go:289-327 | A failure ends the run with containers and mappings untouched and the secrets restored unless reported otherwise |
| Update.UpdateRun.StopPrevious | internal/deployer/update.go:328-353 | The app is stopped exactly when it was not found stopped; whatever fails, only running flags and vanished containers differ |
| Update.UpdateRun.BackUp | internal/deployer/update.go:391-399 | Success means the planned locations are in the backup's manifest and the planned copies are made |
| Update.UpdateRun.StopAndBackUp | internal/deployer/update.go:328-399 | A failed backup that is rolled back leaves the runtime as found; after any failure the containers are the same ones; success means nothing runs and the storage is secured; a failing backup is rolled back unless a second call fails |
| Update.UpdateRun.BackUpOrResume | internal/deployer/update.go:359-399 | With the app down: the storage is secured, or the runtime is resumed and the run ends rolled back, unless two calls failed |
| Update.UpdateRun.StopOrReport | internal/deployer/update.go:328-399 | Ends the run with what it reports, or leaves the storage secured and nothing running |
| Update.UpdateRun.CutOver | internal/deployer/update.go:456-475 | Success means one running container per service of the new spec, still running when checked |
| Update.UpdateRun.Commit | internal/deployer/update.go:477-497 | Success means row, release row and pointer name the new release, and the candidate's mappings lie over the old ones |
| Update.UpdateRun.MoveRow | internal/deployer/update.go:486-494 | The row is the stored one or the candidate's; success means the candidate's with its pointer |
| Update.UpdateRun.CommitRows | internal/deployer/update.go:477-497 | A commit that fails leaves mappings and row with old or planned values |
| Update.UpdateRun.CommitRelease | internal/deployer/update.go:477-501 | The committed world: release, row, pointer and compose text agree, the row keeps env and settings and names the Git reference asked for, the release row names source directory and images, containers run, secrets are overlaid |
| Update.UpdateRun.TryReplace | internal/deployer/update.go:456-497 | Cut-over and commit together: success is the committed world, failure keeps the run able to roll back |
| Update.UpdateRun.Replace | internal/deployer/update.go:456-502 | Either everything is committed and "completed" is asked for, or the candidate is rolled back; not rolled back means that two calls failed, if there was a release to go back to |
| Update.UpdateRun.ReplaceOrReport | internal/deployer/update.go:456-502 | The same with the promises of each status made good |
| Update.UpdateRun.StopAndReplace | internal/deployer/update.go:328-502 | From the first stop on: completed means committed, rolled_back means restored |
| Update.UpdateRun.IdleVerdict | internal/deployer/update.go:332-353 | After a rollback an app found idle is idle exactly when its previous text parses or it has no container, and the row status says so |
| Update.UpdateRun.OwnRowIsBack | internal/deployer/update.go:401-410 | With the row read under the claim, and reading as it is stored, rolling back restores that row with its pointer |
| Update.UpdateRun.FitIsDeployable | internal/deployer/update.go:222-273 | A candidate the planner accepts, with usable volume names and absolute places, can be deployed |
| Guarantees.UpdatesAreHistory | internal/deployer/update.go:250-269 | Every update, however it ends, is a step of the app's storage history |
| Guarantees.DeployedMountsFollowPlan | internal/composer/runtime.go:288-296 | Every mount of every deployed container reads back as the planned location of its key, or the source path if it is read-only there, with the target of the spec, read-only exactly when the spec's mount is |
| Guarantees.CompletedMountsFollowStorage | internal/deployer/update.go:463-497 | After a completed update the containers mount what the persisted mappings say, read-only exactly where the spec says so |
| Guarantees.SameMappingsSameContainers | internal/composer/runtime.go:119-145 | Deploying a spec twice with the same env and agreeing mappings gives the same containers but for image tags |
| Guarantees.RollbackRebuildsTheRelease | internal/deployer/update.go:570-596 | A rollback after an earlier completed update goes back to the release the row pointed at, with its own text and source directory, and gives each container the env and mounts that update gave it |
| Guarantees.CompletedIsReleased | internal/deployer/update.go:477-501 | A completed update leaves containers made from the text and the source directory that the current release row records |
| Guarantees.WentBackToCurrent | internal/deployer/update.go:227-238 | A rollback goes back to the release the row pointed at if it could be read and has a source directory, otherwise to the row's text with the plain source directory |
| Guarantees.BuiltImagesAreOwn | internal/deployer/update.go:316-320 | The recorded and running image of a built service is tagged with its release, and no service of another release has that tag |
| Guarantees.BackupCoversStorage | internal/deployer/update.go:391-399 | An update that reached cut-over lists every persisted and discovered storage in its backup: where it was if the new spec does not mount it, and otherwise where it was exactly when KeepsPrevious holds |
| Guarantees.FoundDataArrives | internal/deployer/update.go:391-399 | By the cut-over the data of a storage found in the old containers is where the plan puts it, or has been copied there from the directory it was in, exactly when CanFollow holds, unless another storage has the same old source |
| Guarantees.VerdictIsFinal | internal/store/app_updates.go:525-552 | The one request of an update that reaches its active row makes the row read what the update reported, with a bounded error text, whatever anyone does later; a row ended by someone else stays |
| Redeploy.RedeployRun.Redeploy | internal/deployer/deployer.go:619-771 | Whatever fails, the mappings take one step of the storage history and the row keeps all but status and error; success leaves one running container per service mounted accordingly, and follows when every call works and the stored text can be deployed again |
| Redeploy.RedeployRun.Settle | internal/deployer/deployer.go:750-768 | With the containers running: mappings persisted, row running without an error, or the mappings extended by part of the plan |
| Redeploy.RedeployRun.FitIsDeployable | internal/deployer/deployer.go:649-653 | A stored text that the planner accepts, with usable volumes and absolute places, can be deployed |
| Redeploy.RedeployRun.PlanRuntimeStorage | internal/deployer/deployer.go:526-535 | The plan is made from the persisted mappings |
| Redeploy.RedeployRun.Persist | internal/deployer/deployer.go:537-550 | Even a failed write leaves the mappings extended by part of the plan only |
| Redeploy.RedeployRun.Replace | internal/deployer/deployer.go:705-750 | Success means the new containers are complete and running with env plus secrets |
| Redeploy.RedeployRun.Prepare | internal/deployer/deployer.go:649-703 | Success means the stored text parses and its storage is planned; the row is unchanged |
| Environment.World.ReplaceSecrets | internal/deployer/update.go:504-522 | Success means the secrets equal the desired map, whatever was there and in whatever order they are written |
| Environment.World.LoadRuntimeEnv | internal/store/secrets.go:127-143 | Secrets override plain env |
| Environment.World.SetSecret | internal/store/secrets.go:63-75 | Success changes that one key; an invalid key or a NUL is an error and changes nothing |
| Environment.World.DeleteSecret | internal/store/secrets.go:78-81 | Success removes that one key |
| Environment.World.GetSecrets | internal/store/secrets.go:106-121 | Success returns the secrets |
| Environment.World.GetCurrentRelease | internal/store/app_updates.go:305-309 | Success returns the release the row points at |
| Environment.World.CreateRelease | internal/store/app_updates.go:251-277 | Adds one row under a new id |
| Environment.World.UpdateRelease | internal/store/app_updates.go:391-421 | Overwrites one existing row, with the error bounded |
| Environment.World.ListAppStorage | internal/store/app_updates.go:162-179 | Success returns the mappings |
| Environment.World.BackupStorage | internal/deployer/backup.go:42-105 | Success lists every location given in a manifest |
| Environment.World.CopyDirectory | internal/deployer/update.go:395-399 | Success means the copy is made or there was nothing to copy |
| Environment.World.UpdateApp | internal/store/apps.go:172-204 | Writes every column but identity, source type, last error and invocation time, and fills in defaults; an invalid env is refused |
| Environment.World.GetAppByName | internal/store/apps.go:292-333 | Reads every column as stored, with defaults filled in; env entries are dropped exactly when invalid |
| Environment.World.UpdateAppStatusErr | internal/store/apps.go:154-162 | Writes status and bounded error, nothing else |
| Environment.World.SetCurrentRelease | internal/store/app_updates.go:441-460 | Points the row only at an existing release |
| Environment.World.ClearCurrentRelease | internal/store/app_updates.go:466-473 | Clears the pointer, nothing else |
| Environment.World.UpsertAppStorage | internal/store/app_updates.go:132-151 | Replaces one mapping |
| Environment.World.DeleteAppStorage | internal/store/app_updates.go:191-194 | Removes one mapping |
| Environment.World.PersistRuntimeStorage | internal/deployer/deployer.go:537-550 | Success lays the candidate over the mappings; any failure lays part of it over them |
| Environment.World.EachContainer | internal/composer/runtime.go:525-559 | Success means every container that did not vanish was handled and there is one; images, env and mounts never change |
| Environment.World.Handle | internal/composer/runtime.go:536-553 | One container: skipped only if it vanished, otherwise started or stopped; the others are unaffected |
| Environment.World.StopContainer | internal/composer/runtime.go:503-508 | A reply that the container is already stopped counts as stopped |
| Environment.World.Start | internal/composer/runtime.go:492-496 | Success means containers exist and all run |
| Environment.World.Stop | internal/composer/runtime.go:503-510 | Success means none runs; a failed stop starts nothing |
| Environment.World.RemoveContainers | internal/composer/runtime.go:574-605 | Success means no container is left; a failure leaves some of them, started by nothing |
| Environment.World.Discard | internal/composer/runtime.go:582-600 | One container is stopped and removed unless it has vanished; the others are unaffected |
| Environment.World.Status | internal/composer/runtime.go:608-640 | The verdict follows from the number of running containers and of services, and nothing else changes but exits |
| Environment.World.EnsureVolumes | internal/composer/runtime.go:183-224 | Success means every declared volume name is non-empty and has no slash |
| Environment.World.Prepare | internal/composer/runtime.go:95-114 | Success gives each service its image; no container is touched |
| Environment.World.ActivateService | internal/composer/runtime.go:288-344 | Success adds one running container with resolved mounts and overlaid env under a name that was free |
| Environment.World.ActivateNext | internal/composer/runtime.go:129-143 | The next service of the order gets its container; it can only fail by a failing call when its mounts can be translated |
| Environment.World.Activate | internal/composer/runtime.go:119-145 | Starting from nothing, success means exactly one container per service, each made for its service; with every call working a deployable spec ends with all of them running |
| Environment.World.Deploy | internal/composer/runtime.go:84-90 | The same from source to containers |
| Environment.IdleIsStopped | internal/composer/runtime.go:632-639 | With nothing running, "stopped" is reported exactly when there is no container or the spec has a service |
| Environment.IdleAppLooksUp | internal/composer/runtime.go:632-639 | A stopped container with no service expected looks like all up |
| Environment.UpWhenAllRun | internal/composer/runtime.go:632-639 | A deployment whose containers all run is found up |
| Environment.NamesDiffer | internal/composer/parser.go:33-40 | No two services of a parsed spec share a container name |
| Environment.AppsNamesDiffer | internal/composer/runtime.go:77-79 | Containers of apps with slugs of one length share a name only if slug and service do once sanitized |
| Environment.AppsNamesMayMeet | internal/composer/runtime.go:77-79 | A service of one app and a service of another with one container name |
| Environment.TagsAreOwn | internal/composer/runtime.go:59-75 | Services and releases with different sanitized names have different image tags |
| Environment.FullCountMeansAllRunning | internal/composer/runtime.go:632-639 | With one container per service, "running" means all of them run |
| Environment.VerifiedDeployment | internal/deployer/update.go:553-564 | A deployment found running, whatever exited meanwhile, is complete and running |
| Environment.RemainderIsOnlyFrom | internal/composer/runtime.go:503-510 | What a stop leaves of a deployment still belongs to it |
| Environment.EverythingDeployed | internal/composer/runtime.go:129-143 | Activating the whole order yields one container per service |
| Operations.StepKeepsInv | internal/store/app_updates.go:478-624 | Every step keeps unique ids, the active row last among its app's rows, and terminal rows unchanged |
| Operations.AnyInterleavingIsSafe | internal/store/app_updates.go:475-580 | Over any interleaving at most one operation per app is active and terminal rows never change |
| Operations.FirstVerdictStays | internal/store/app_updates.go:525-552 | The first terminal status asked for stays, with its error text bounded, whatever anyone asks later |
| Operations.ActiveRowTells | internal/store/app_updates.go:525-580 | Over any run, a row that is still active reads the last status and step asked for it, the time of its last sign of life and of its first step, and nothing else new |
| Operations.ClaimedRowTells | internal/store/app_updates.go:478-511 | The same from its claim on: preflighting, no step, not started, no error |
| Operations.ErrorIsKept | internal/store/app_updates.go:22-28 | A trimmed error text is stored as it is, or its first 4096 characters with a mark |
| Operations.KeptOfText | internal/store/app_updates.go:22-28 | Storing an error text shows nothing that the text does not, the mark apart |
| Operations.ActiveIsNewest | internal/store/app_updates.go:853-869 | The active operation is the newest exactly when the clock did not run backwards |
| Operations.StampedRunsAreOrdered | internal/store/app_updates.go:482-509 | Claims stamped in order keep the clock condition over any run |
| Operations.CrashIsVisible | internal/store/app_updates.go:585-624 | After the restart step the operation that was cut off is the newest, reads interrupted, and the app row reads error |
| Operations.BackwardClockHidesCrash | internal/store/app_updates.go:853-869 | Four steps from the empty store after which an older success, stamped later, hides the interruption |
| Operations.NewestIsUnique | internal/store/app_updates.go:853-855 | The newest operation of an app is unique |
| Operations.OneActive | internal/store/app_updates.go:475-477 | The invariant gives at most one active operation per app |
| Operations.OperationStore.ClaimOperation | internal/store/app_updates.go:478-511 | Conflict exactly when the app has an active operation or the id exists; otherwise one row is added, preflighting and not started, whose attempt exceeds all earlier ones |
| Operations.OperationStore.SetOperationStatus | internal/store/app_updates.go:556-567 | The active row of that id reads the status asked for, beats, and starts if it had not; every other row and column stays; not found exactly when there is no such row |
| Operations.OperationStore.SetOperationStep | internal/store/app_updates.go:570-580 | The active row of that id reads the step asked for, beats, and starts if it had not; every other row and column stays |
| Operations.OperationStore.HeartbeatOperation | internal/store/app_updates.go:877-886 | Only the sign of life of the active row of that id changes |
| Operations.OperationStore.FinishOperation | internal/store/app_updates.go:525-552 | The active row of that id gets the status, the bounded error text and its completion time; every other row stays, and only an unknown id is an error |
| Operations.OperationStore.InterruptActiveOperations | internal/store/app_updates.go:585-624 | Exactly the active rows read interrupted with the time, and exactly their apps read error |
| Operations.OperationStore.NewestOperation | internal/store/app_updates.go:853-869 | The first row of the listing: none exactly when the app has none |
| Operations.OperationStore.ActiveOperation | internal/store/app_updates.go:811-820 | The newest active row, which is the only one under the invariant |
| Reconcile.Server.Startup | internal/web/reconcile.go:22-34 | After a crash at any reachable state, interrupt plus reconcile leaves every app that was cut off without a route, except for a route with a failing call of its own; an idle app that need not be dark gets the route it should have, and if every call works it is routed exactly when containers were seen and its sync writes a file |
| Reconcile.Server.ReconcileRoutes | internal/web/reconcile.go:22-34 | Every app that must be dark ends without a route, or its route is mapped to a call that failed for it and for no other; every other app's route is as its own turn leaves it |
| Reconcile.Server.ReconcileApp | internal/web/reconcile.go:75-112 | An app with an unparsable text, or in error with an unrecovered newest operation, loses its route unless exactly the reading of its operations or the removal fails; any other keeps it when the runtime gives no answer, loses it without containers, and otherwise has what its sync writes, started first exactly when its row says running and the runtime stopped; other apps are unaffected |
| Reconcile.Server.HealRoute | internal/web/reconcile.go:92-112 | The part for an app that may be routed |
| Reconcile.Server.RoutedIffSeen | internal/web/reconcile.go:92-112 | With every call working an app is routed exactly when containers were seen and its sync writes a file, and as before without an answer |
| Reconcile.Server.LastOperationFailedUnrecovered | internal/web/reconcile.go:62-73 | True exactly when the listing call works and the newest operation failed, was interrupted or failed to roll back |
| Reconcile.Server.RemoveAppRoute | internal/web/reconcile.go:48-55 | The app's file is gone exactly when the call works; no other file is touched |
| Reconcile.Server.SyncAppRoute | internal/web/reconcile.go:109-111 | Touches only the app's own file, and a working call leaves it there exactly when the app is to be routed |
| Storage.PlanStorage | internal/deployer/update_storage.go:25-114 | The result is that of one visiting order of the services; accepts exactly the specs that satisfy an order-free condition; the candidate maps exactly the mounted names; for every mounted storage one of its mounts settles the backup and the copy, and nothing else is copied |
| Storage.PlanMount | internal/deployer/update_storage.go:58-107 | One mount is one step of the plan, refused exactly when the step is |
| Storage.PlanService | internal/deployer/update_storage.go:57-108 | One service's mounts are steps of the plan in their order |
| Storage.EveryOrderIsSound | internal/deployer/update_storage.go:57-108 | In every visiting order the plan exists exactly when the spec satisfies the order-free condition, and keeps what is promised of candidate, backups and copies |
| Storage.FirstMountDecides | internal/deployer/update_storage.go:67-107 | The first visited mount of a storage settles its backup, and its old source is copied to the planned place exactly when that mount is a writable bind and the source is elsewhere, unless another storage has that source |
| Storage.OthersLeave | internal/deployer/update_storage.go:67-73 | Later mounts of a storage and mounts of others leave its backup and its copy alone |
| Storage.FindLegacy | internal/deployer/update_storage.go:43-55 | What was discovered without a persisted mapping |
| Storage.CandidateIsUnique | internal/deployer/update_storage.go:57-97 | All visiting orders give the same candidate |
| Storage.DeclareIsSound | internal/deployer/update_storage.go:95-107 | The first mount of a storage settles its backup and its copy and disturbs no other |
| Storage.KindClash | internal/deployer/update_storage.go:67-70 | A name declared as volume and as bind is rejected in every order |
| Backups.BackupKeepsPrevious | internal/deployer/update_storage.go:95-106 | A storage whose mounts agree on read-only is archived where its data is exactly when KeepsPrevious holds |
| Backups.OldSourceIsCopied | internal/deployer/update_storage.go:98-100 | What the planner takes for the old source of a writable bind, for a discovered volume its name, is copied to the planned place, unless another storage has the same old source |
| Backups.DataArrivesIff | internal/deployer/update_storage.go:79-106 | The data of a storage found in the old containers and not yet persisted is where the plan puts it, or is copied there from the directory it is in, exactly when it keeps its kind and a directory outside its managed place is mounted writable with the old checkout known |
| Backups.PersistedIsOverwrittenIff | internal/deployer/update_storage.go:75-100 | A persisted storage stays where it is, and something is copied over it exactly when it is a writable bind and the planner sees an old source elsewhere |
| Backups.OnlyWritableBindsAreCopied | internal/deployer/update_storage.go:98-100 | Every copy is of a writable bind of the spec, from its old source to its planned place |
| Backups.MountsSettle | internal/deployer/update_storage.go:67-106 | Mounts that agree on read-only settle location, backup and copy of their storage |
| Backups.KnownBindMissed | internal/deployer/update_storage.go:98-105 | A persisted bind that no old container mounts: the old checkout is archived and copied over it |
| Backups.TurnedVolumeMissed | internal/deployer/update_storage.go:97 | An old bind that becomes a volume: the new volume is archived, and the data does not arrive |
| Backups.TurnedBindMissed | internal/deployer/update_storage.go:98-103 | An old volume that becomes a writable bind: a directory of the volume's name is copied to the new place, and the data does not arrive |
| Backups.ReadOnlyBindMissed | internal/deployer/update_storage.go:97-98 | An old bind that is mounted read-only: its managed place is archived |
| Backups.MissedSpecsAreAccepted | internal/deployer/update_storage.go:57-97 | The four specs are accepted, so such plans exist |
| Backups.ServiceOrderDecides | internal/deployer/update_storage.go:57-73 | Two services mount one storage, one writable and one read-only: one order of the services copies it and the other does not, and different places are archived |
| Resolver.ResolveBinds | internal/composer/runtime.go:445-488 | The binds of a service in mount order; refused exactly when some mount is |
| Resolver.BindReadsBack | internal/composer/runtime.go:481-485 | A bind text reads back as the place, the target and the mode of its mount, read-only exactly when the mount is, for exactly the places that are not empty and have no colon |
| Resolver.AppsAreSeparate | internal/deployer/update_storage.go:79-92 | No app is given a fresh place of another app or in its data directory, if digests are of one length |
| Resolver.PlannerAndResolverAgree | internal/composer/runtime.go:459-480 | Every mount the resolver accepts goes to the planned location, read-only source paths apart |
| Resolver.SharedKeyIsShared | internal/composer/volumes.go:69-79 | Services that mount one key share one place |
| Resolver.ContainmentOnlyRefuses | internal/composer/runtime.go:462-465 | The file-system check can refuse a mount but never redirects it |
| Resolver.PlannedMountsResolve | internal/composer/runtime.go:456-480 | With absolute places every mount the planner accepts can be translated |
| Resolver.PlannedRefsAreNonEmpty | internal/deployer/update_storage.go:79-96 | Planned locations are never empty when the recorded ones are not |
| Resolver.FreshLocationsDiffer | internal/deployer/update_storage.go:80-92 | Different new storages get different places if the digest tells their names apart |
| Resolver.BindLocation | internal/deployer/update_storage.go:87-91 | A managed bind lives at its key below the app's data directory |
| StorageHistory.StorageNeverMoves | internal/deployer/update_storage.go:32-41 | As long as no restore fails half way a persisted mapping keeps its kind and reference and never disappears, over any history |
| StorageHistory.MappingsNeverChange | internal/deployer/update.go:255-268 | Over any history at all a mapping keeps its kind and reference for as long as it stays |
| StorageHistory.LaterPlansFindTheData | internal/deployer/update_storage.go:75-96 | Every later plan puts a persisted name where it was |
| StorageHistory.StepExtends | internal/deployer/deployer.go:537-550 | No event changes a mapping it leaves in place, and only a restore that failed half way loses one |
| StorageHistory.CandidateKeepsKnown | internal/deployer/update_storage.go:75-96 | A candidate repeats every persisted mapping it mounts |
| StorageHistory.LostMappingMoves | internal/deployer/update.go:255-268 | After its mapping was lost, a storage is put back in its old place exactly when the mapping recorded the managed place, or for a volume the one the old containers use |
| StorageHistory.ManagedPlacesComeBack | internal/deployer/update_storage.go:79-92 | A mapping that recorded a managed place is found again by any plan, unless old containers use another volume |
| StorageHistory.AdoptedVolumeMoves | internal/deployer/update_storage.go:80-84 | A volume adopted from an older deployment is replaced by a new one once its mapping is lost and no container is left |
| Volumes.ParseVolumeMount | internal/composer/volumes.go:40-67 | The mount a volume string denotes; refused exactly without a source, an absolute target or with too many parts |
| Volumes.KeyIsCanonical | internal/composer/volumes.go:74-79 | The key of a relative source is clean: spelling does not matter |
| Volumes.SameStorageIff | internal/composer/volumes.go:74-79 | Relative sources name one storage exactly when their cleaned paths agree; a named volume shares it with a relative path of that spelling |
| Paths.CleanIdempotent | internal/deployer/update_storage.go:137-143 | Cleaning twice is cleaning once |
| Paths.BelowHasNoParent | internal/deployer/update_storage.go:137-143 | A cleaned path that passes the escape check has no way up in it |
| Paths.JoinBelow | internal/deployer/update_storage.go:91 | Joined below an absolute directory such a path stays inside it |
| Compose.Check | internal/composer/parser.go:18-58 | Accepts exactly the specs with services, valid names, env and volumes, and no two services of one runtime name |
| Compose.CheckService | internal/composer/parser.go:41-56 | One service's checks |
| Compose.PlainIsKept | internal/composer/parser.go:33-40 | Sanitizing lowers letters and keeps digits and dashes |
| Compose.ResolveEnv | internal/composer/parser.go:71-80 | The app's env overrides the service's |
| Compose.Overlay | internal/store/secrets.go:127-143 | The second map overrides the first |
| Order.TopologicalOrder | internal/composer/parser.go:84-109 | Terminates on every graph, lists every service once, puts a dependency late only if it reaches its dependent back; dependencies come first exactly when the graph is acyclic |
| Order.DependencySort.Visit | internal/composer/parser.go:90-103 | One visit keeps the order honoured; what is neither visited nor in progress shrinks |
| Order.OrderedIffAcyclic | internal/composer/parser.go:84-109 | An honoured order puts dependencies first exactly when there is no cycle |
| Order.LateEdgesReachBack | internal/composer/parser.go:95-99 | A violated edge lies on a cycle |
| BuildLog.Buffer.Append | internal/web/buildlog.go:40-51 | Adds a numbered line and keeps the last 500 |
| BuildLog.Buffer.Stage | internal/web/buildlog.go:58-63 | Adds a numbered stage line without trimming |
| BuildLog.Buffer.Reset | internal/web/buildlog.go:33-37 | Drops the lines, keeps the numbering |
| BuildLog.Buffer.Poll | internal/web/buildlog.go:67-77 | Returns the lines after a number, and the latest number |
| BuildLog.LogRefinesHistory | internal/web/buildlog.go:33-63 | The log is a tail of the full history, consecutively numbered up to the current number |
| BuildLog.PollSendsTail | internal/web/buildlog.go:67-77 | A poll sends a tail of what was recorded since; all of it exactly when the log still holds that many lines |
| BuildLog.NothingLost | internal/web/buildlog.go:46-48 | With no reset and at most 500 records between polls nothing is lost |
| BuildLog.SessionInOrder | internal/web/buildlog.go:33-77 | Over any session, resets included, a client sees no line twice or out of order |
| BuildLog.SessionComplete | internal/web/buildlog.go:40-77 | A client that polls often enough sees the full history |
| BuildLog.SinceIsTail | internal/web/buildlog.go:71-75 | The lines after a number are the newest ones |
| Routes.Render | internal/traefik/config.go:105-220 | Succeeds exactly on valid inputs without colliding services or paths; the file is the routes' entries laid over each other |
| Routes.PathKeysFor | internal/traefik/config.go:230-255 | Each route has the path key of a route with its id |
| Routes.AppPathKeys | internal/traefik/config.go:237-253 | One app's routes get their keys; keys of other apps stay |
| Routes.AddRoute | internal/traefik/config.go:132-209 | What one route adds |
| Routes.AddDomainRouters | internal/traefik/config.go:156-179 | The routers for a route's domains, with and without TLS |
| Routes.AddPathRouters | internal/traefik/config.go:181-207 | The routers for a route's path, with and without TLS |
| Routes.AddMiddlewares | internal/traefik/config.go:140-190 | The redirect and strip middlewares of a route |
| Routes.PathsDoNotOverlap | internal/traefik/config.go:183-209 | No request path matches the path rules of two services, nor of two routers of one entry point |
| Routes.NothingDangles | internal/traefik/config.go:140-209 | Every router refers to a service and middlewares of the same file |
| Routes.AllKeptIffNoClash | internal/traefik/config.go:159-207 | Every router asked for is there exactly when no x-path service with a domain stands beside x |
| Routes.PathServiceClashes | internal/traefik/config.go:159-207 | Two services x-path, with a domain, and x: one of their routers is missing |
| Routes.RequestIsServed | internal/traefik/config.go:183-207 | A request below a service's path finds exactly one path router, its own backend and the right stripping |
| Routes.DomainIsServed | internal/traefik/config.go:156-179 | The router for a service's domains answers to exactly these and leads to its backend; with a certificate resolver it has the certificate and plain requests are redirected |
| Routes.NothingInTheClear | internal/traefik/config.go:130-207 | Whatever collides, with a certificate resolver every router on the plain entry point redirects and every other one has the certificate; without one there are neither |
| Routes.RoutersAreAskedFor | internal/traefik/config.go:156-209 | No router but those asked for, and one for every name |
| Routes.PartsKept | internal/traefik/config.go:140-155 | Backends and middlewares are never overwritten |
| Routes.OneAppNeedsNoPathCheck | internal/traefik/config.go:241-252 | Within one app only equal service keys are refused |
| Routes.KeyHasNoSlash | internal/traefik/config.go:308-320 | Path keys hold letters, digits and dashes only |
| Routes.PlainNamesAreKept | internal/traefik/config.go:308-320 | Keys keep digits, dashes and letters, lowered |
| Routes.RuleTextIsFaithful | internal/traefik/config.go:284-292 | Without a quote inside, a rule's text determines the rule |
| Routes.RenderedRulesAreQuoted | internal/traefik/config.go:261-282 | Validation keeps quotes out of every rendered rule |
| EnvText.FormatEnv | internal/web/handlers_apps.go:64-75 | Prints one line per key in sorted order, whatever order the map yields |
| EnvText.ParseKVLines | internal/store/secrets.go:28-45 | Reads a block line by line |
| EnvText.RoundTrip | internal/store/secrets.go:28-45 | Parsing gives back the printed map, with no bad line, exactly when keys are valid and values are plain |
| EnvText.TrailingSpaceIsLost | internal/store/secrets.go:31-35 | A value that ends in a space comes back without it |
| EnvText.ReadUndoesPrint | internal/store/secrets.go:32-43 | A printed line with a valid key and a plain value reads back as that pair |
| EnvText.SortedKeysAreUnique | internal/web/handlers_apps.go:69 | The printed text depends on the map alone |
| EnvText.LastLineWins | internal/store/secrets.go:24-27 | A key's value is that of the last line that gives it; no line, no key |
| EnvText.ReadTextIsStable | internal/store/secrets.go:28-45 | What was read once prints and reads back unchanged |
| EnvText.ReadAllIsPrintable | internal/store/secrets.go:31-43 | Whatever was read has valid keys and plain values |
| Archive.NeverOverBudget | internal/builder/archive.go:34-48 | Stopped or not, at most both caps and one byte are ever written; success accounts for every byte |
| Archive.SucceedsIffWithinCaps | internal/builder/archive.go:132-197 | Succeeds exactly when every entry is acceptable and the counts and bytes stay within their caps |
| Archive.BudgetIsTight | internal/builder/source.go:106-126 | The bound is met |
| Archive.Extraction.CopyArchiveData | internal/builder/archive.go:261-270 | Copies at most one byte more than the cap; success exactly when the whole file arrived within it |
| Archive.Extraction.ExtractTarGz | internal/builder/archive.go:132-198 | The tar loop follows the tally |
| Archive.Extraction.ExtractZip | internal/builder/archive.go:200-259 | The zip loop follows the tally |
| Archive.Extraction.CopyTree | internal/builder/source.go:30-104 | The tree walk follows the tally |
| Archive.Extraction.CopyRegularFile | internal/builder/source.go:106-126 | One file of the walk |
| Archive.Extraction.AddEntry | internal/builder/archive.go:34-40 | Counts an entry, refused beyond 10,000 |
| Archive.Extraction.AddBytes | internal/builder/archive.go:42-48 | Counts bytes only if they fit |
| Install.Installer.Stage | internal/selfupdate/install.go:98-125 | Only the new file is ever written; success means it holds the download, and follows when every call works |
| Install.Installer.Commit | internal/selfupdate/install.go:129-152 | At every step the target is one whole binary; past the backup, the backup is the old one; success means the verified binary is in place, and follows when every call works and the digest is the one expected |
| Install.Installer.Restore | internal/selfupdate/install.go:155-180 | At every step the target is whole and the backup unchanged; success means the target equals the backup |
| Install.Installer.Verify | internal/selfupdate/install.go:136-152 | A binary that is not the verified one is replaced by the backup; the verdict says which one is in place |
| Install.Installer.BackUp | internal/selfupdate/install.go:130-133 | Only the backup file changes; success means it equals the target |
| Install.Installer.FillTemp | internal/selfupdate/install.go:162-174 | The new file gets the backup's contents; target and backup are untouched throughout |
| Install.Disk.CopyFile | internal/selfupdate/install.go:202-225 | Only the destination changes, and at every step it holds a beginning of the source or its old contents |
| Install.Disk.WriteAll | internal/selfupdate/install.go:216-219 | At every step the file holds a beginning of the data; success means all of it |
| Install.CommitThenRestore | internal/selfupdate/install.go:129-180 | Restoring after a commit that got past its backup brings the original back |
| Install.RestoreAfterFailedBackup | internal/selfupdate/install.go:129-133 | A backup that fails at its first write makes a later restore install an empty file |

## Left out

- Calls to podman, git, Traefik, systemd and HTTP, and the SQL behind each store call, are steps with arbitrary outcomes; the unique index on active operations is taken from the comment at internal/store/app_updates.go:475-477 as the atomicity of the claim.
- Symbolic links and real paths: `contained` and `located` stand for the file system's answers.
- SHA-256 is an arbitrary function; only `FreshLocationsDiffer` assumes that it tells two names apart.
- Discovered storage is an input of the planner (internal/deployer/update_storage.go:149 onwards).
- Bytes: length limits and name sanitizing count bytes in the source and characters here, which differ for text outside ASCII.
- Row timestamps, audit records, log texts, warnings, the contents of files, directories and backup archives.
- A panic in the middle of an update, which a deferred "update interrupted" finish covers, and cancellation of the run's context as something other than failing calls.
- Redeploying a git app whose stored text or checkout is unusable runs the first-deploy pipeline (internal/deployer/deployer.go:141-445), which is not part of this model beyond the planner it shares.
- Route freshness after rolling back a stopped app: the route is synced at internal/deployer/update.go:418, before the app is stopped again.
- A failed status write at internal/deployer/update.go:456 ends the update as failed with the app stopped; nothing is claimed beyond that.
- Update.UpdateRun.Update: with no operation passed in, other writers may change the row between its read and the claim, so a rollback then writes back the row that was read; exact restoration of the row is stated for a claimed operation. That a single failing call leads to rolled_back is stated for the backup and past the cut-over; before the backup a stop that fails, and after it a status that cannot be written, end the update as failed, as in the source.
- Update.UpdateRun.UpdateFailure: the row status is stated for the case that its last, best-effort write, the last call but one of the run, reports no error.
- Storage.PlanStorage: the target of a copy depends on the order of mounts when two keys have the same old source; exact copies are stated for keys with an old source of their own.
- Redaction.GoneIffItCannotShow: exact for one secret; of several, hiding is stated for those apart from the cover.
- Redeploy.RedeployRun.Redeploy: what a failed clean-up leaves of the containers, and the status a failed redeploy ends with, are not stated.
- Operations.ActiveRowTells: which calls a worker makes, and when, is not modelled; any of them may come in any order.
- Redaction.ReportsAreRecognisedIff: exact for one secret; of several secrets, whose removals can affect each other, only the sufficient condition is stated.
- Operations.OperationStore.ClaimOperation: attempt numbers of interleaved claims need not be unique, since the number is read before the insert.
- Reconcile.Server.Startup: apps that share an id or a route name, a failing listing of the apps and a cancelled context are outside the guarantee; no claim happens between the two steps.
- Environment.World.LoadRuntimeEnv: the branch for a missing row of secrets, which the query never reports, is left out.
- Environment.World.BackupStorage: a location that does not exist is listed in the manifest and has no archive, as in the source; what an archive holds is not modelled.
- Environment.World.EnsureVolumes: of the managed binds and undeclared volumes only success or failure is modelled.
- Routes.Render: YAML marshalling, the URL of a backend and Traefik's own priority between host and path rules are left out; IP parsing is a parameter.
- Archive.Extraction.ExtractTarGz: file names and contents are left out; the byte counts are those of the reads.
- Install.Installer.Commit: a crash is one of the process; what the disk loses when the machine loses power is not modelled.
- BuildLog.Buffer.Stage: stage lines are trimmed only by the next output line, so the 500-line bound is stated for output lines.
- The registry that drops a deleted app's build log, size formatting, restarts by the operator, web handlers, the command line and the setup wizard would add only easy members.
