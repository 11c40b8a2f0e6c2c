/** internal/deployer/update.go: the brief-downtime update transaction and its rollbacks. */
module Update {
  import opened Common
  import opened Strings
  import opened Redaction
  import opened Volumes
  import opened Compose
  import opened Storage
  import opened Environment
  import opened Operations
  import opened Resolver
  import StorageHistory

  /** What a failed update managed to put back. */
  datatype Recovery = Recovery(appStatus: AppStatus, suffix: string)

  datatype Request = Request(ref: string, archivePath: string, secrets: map<string, string>)

  /** What materialising and detecting the new source yields. */
  datatype Checkout = Checkout(compose: string, sourceRef: string, gitRef: string, gitCommit: string,
                               dropKind: string, buildMode: string)

  /** The phases announced to the operator. */
  datatype Stage = Entered | Preflight | Build | Backup | Deploy | Rollback | Route

  /** Rejected: refused before the run took responsibility for an operation. */
  datatype Outcome = Rejected(reason: string) | Updated | Broken(error: string)

  /** The app as it was when the run became responsible for its operation. */
  datatype Snapshot = Snapshot(app: AppRow, secrets: map<string, string>, storage: map<string, Binding>,
                               containers: Containers, asked: seq<Operations.Status>, releases: map<string, Release>,
                               manifests: seq<map<string, Binding>>)

  const RESTORED := " (previous release restored)"
  const LEFT_STOPPED := " (app left stopped as found)"

  function SecretFailure(text: string, cause: string): string {
    text + " (secret " + ROLLBACK_FAILED + ": " + cause + ")"
  }

  lemma SecretFailureIsNamed(text: string, cause: string)
    ensures Contains(SecretFailure(text, cause), ROLLBACK_FAILED)
  {
    var whole := SecretFailure(text, cause);
    var i := |text + " (secret "|;
    assert whole[i..] == ROLLBACK_FAILED + (": " + cause + ")");
    assert ROLLBACK_FAILED <= whole[i..];
  }

  /** The environment of the previous release when it is recreated. */
  function PreviousMeta(host: Host, row: AppRow, spec: Spec, secrets: map<string, string>,
                        storage: map<string, Binding>): Meta {
    Meta(row.env + secrets, storage, ReleaseTags(host, spec, "previous"))
  }

  class UpdateRun {
    const world: World
    const req: Request
    /** composer.Parse on stored text. */
    const parse: string -> Option<ParsedSpec>
    const checkout: Checkout
    const discovered: map<string, Binding>
    const releaseID: string
    const releaseDir: string
    /** The symlink-free form of a release path, and the app's plain source directory if it has one. */
    const realPath: string -> string
    const appSourceDir: string

    var app: AppRow
    var stage: Stage
    var finished: bool
    var terminal: Operations.Status
    var restoreSecrets: Option<map<string, string>>
    var secretsRestored: bool
    var recovered: Option<Recovery>
    var oldSpec: Option<ParsedSpec>
    var oldSourceDir: string
    var oldStorage: map<string, Binding>
    var plan: Plan
    var spec: ParsedSpec
    var candidate: AppRow
    var release: Release
    var weStoppedApp: bool
    ghost var start: Snapshot
    ghost var seen: Containers
    /** The current release could be read. */
    ghost var sawCurrent: bool
    /** Backing the storage up, or copying what moves, returned an error. */
    ghost var backupFailed: bool

    constructor (world: World, req: Request, parse: string -> Option<ParsedSpec>, checkout: Checkout,
                 discovered: map<string, Binding>, releaseID: string, releaseDir: string,
                 realPath: string -> string, appSourceDir: string)
      ensures this.world == world && this.req == req && this.parse == parse && this.checkout == checkout
      ensures this.discovered == discovered && this.releaseID == releaseID && this.releaseDir == releaseDir
      ensures this.realPath == realPath && this.appSourceDir == appSourceDir
      ensures !finished && restoreSecrets.None? && !secretsRestored && recovered.None?
    {
      this.world, this.req, this.parse, this.checkout := world, req, parse, checkout;
      this.discovered, this.releaseID, this.releaseDir := discovered, releaseID, releaseDir;
      this.realPath, this.appSourceDir := realPath, appSourceDir;
      app, candidate := world.app, world.app;
      stage, finished, weStoppedApp := Entered, false, false;
      restoreSecrets, secretsRestored, recovered := None, false, None;
      oldSpec, oldSourceDir, oldStorage, plan := None, "", map[], Plan(map[], map[], map[], map[]);
      release := Release("", Git, "", "", "", "", "", map[], Preparing, "");
      terminal, backupFailed, sawCurrent := OpFailed, false, false;
    }

    // ---------------------------------------------------------------- what the run keeps

    /** The snapshot taken before the first secret was written is the one at the start, and until it is taken,
        and again once it has been put back, the secrets are those of the start. */
    ghost predicate SecretsTracked()
      reads this`restoreSecrets, this`secretsRestored, this`start, world`secrets
    {
      && (restoreSecrets.Some? ==> restoreSecrets.value == start.secrets)
      && (SecretsSettled() ==> world.secrets == start.secrets)
    }

    predicate SecretsSettled()
      reads this`restoreSecrets, this`secretsRestored
    {
      restoreSecrets.None? || secretsRestored
    }

    /** The row still names the same app. */
    ghost predicate SameIdentity()
      reads this`app, this`start, world`app
    {
      Overwritten(world.app, app).(lastError := "") == Overwritten(start.app, app).(lastError := "")
    }

    /** The run is in charge: it has asked for nothing yet and recovered nothing yet. */
    ghost predicate InCharge()
      reads this`finished, this`recovered, this`restoreSecrets, this`secretsRestored, this`start, this`app,
            world`secrets, world`finishAsked, world`app
    {
      && !finished && recovered.None? && SecretsTracked()
      && world.finishAsked == start.asked
      && SameIdentity()
    }

    /** The write of the final row status, which is the last call but one of a failed run, reported no error. */
    predicate StatusWritten()
      reads world`calls
    {
      world.calls >= 2 && world.oracle(world.calls - 2).Done?
    }

    /** The run has asked its operation to finish, once, with an honest status. The secrets are those of the start
        whenever none were written or they were put back, and in any case unless the status is "rollback_failed". */
    ghost predicate Ended()
      reads this`finished, this`terminal, this`start, this`restoreSecrets, this`secretsRestored
      reads world`finishAsked, world`secrets, world`app, world`calls
    {
      && finished
      && world.finishAsked == start.asked + [terminal]
      && terminal in {OpFailed, RolledBack, RollbackFailed}
      && SecretsTracked()
      && (terminal != RollbackFailed ==> world.secrets == start.secrets)
      && (StatusWritten() && terminal != RolledBack ==> world.app.status == Failed)
    }

    // ---------------------------------------------------------------- closures of update

    method Finish(status: Operations.Status)
      modifies this`finished, this`terminal, world`calls, world`finishAsked
      ensures finished
      ensures old(finished) ==> terminal == old(terminal) && world.finishAsked == old(world.finishAsked)
      ensures !old(finished) ==> terminal == status && world.finishAsked == old(world.finishAsked) + [status]
      ensures world.calls == old(world.calls) + if old(finished) then 0 else 1
    {
      if finished {
        return;
      }
      var _ := world.FinishOperation(status);
      terminal := status;
      finished := true;
    }

    method RestoreSecretsForRollback() returns (e: Error)
      requires SecretsTracked()
      modifies this`secretsRestored, world`calls, world`secrets
      ensures SecretsTracked()
      ensures e.None? <==> SecretsSettled()
      ensures old(SecretsSettled()) ==> e.None?
      ensures old(world.calls) <= world.calls
      ensures ValidEnv(start.secrets) && world.Calm(old(world.calls), world.calls) ==> e.None?
    {
      if SecretsSettled() {
        return None;
      }
      e := world.ReplaceSecrets(restoreSecrets.value);
      if e.Some? {
        return;
      }
      secretsRestored := true;
    }

    /** No secret of the request can cut into the words by which a failed rollback is recognised. */
    predicate SecretsHarmless() {
      forall k | k in req.secrets :: Harmless(req.secrets[k])
    }

    /** The request has one secret to look for at most, and it cannot cut into those words where a report has them. */
    predicate OneSecretSurvives() {
      && (forall k, l | k in req.secrets && l in req.secrets ::
            req.secrets[k] != "" && req.secrets[l] != "" ==> k == l)
      && (forall k, lead | k in req.secrets && lead in LEADS :: Survives(lead, req.secrets[k]))
    }

    /** The report of a failed rollback is recognised whatever led to it and whatever failed. */
    predicate SecretsRecognised() {
      SecretsHarmless() || OneSecretSurvives()
    }

    /** No text shows this secret once it is redacted: its value is apart from the cover, or it is the only one and
        cannot show. */
    predicate Hidden(k: string)
      requires k in req.secrets
    {
      var value := req.secrets[k];
      && value != ""
      && (|| Apart(value, COVER)
          || (!Shows(value) && forall l | l in req.secrets && l != k :: req.secrets[l] == ""))
    }

    /** The text shows no secret that can be hidden. */
    predicate Discreet(text: string) {
      forall k | k in req.secrets && Hidden(k) :: !Contains(text, req.secrets[k])
    }

    /** Nor does what the store keeps of it, unless a value has the sign that marks a text as cut off. */
    predicate DiscreetWhenCut(text: string) {
      forall k | k in req.secrets && Hidden(k) && CUT !in req.secrets[k] :: !Contains(text, req.secrets[k])
    }

    lemma NowHidden(text: string, key: string, rest: set<string>)
      requires key in req.secrets
      requires forall k | k in req.secrets && k !in rest && Hidden(k) :: !Contains(text, req.secrets[k])
      ensures forall k | k in req.secrets && k !in rest - {key} && Hidden(k) ::
        !Contains(Redacted(text, req.secrets[key]), req.secrets[k])
    {
      hide Contains, Apart, Shows, Redacted;
      forall k | k in req.secrets && k !in rest - {key} && Hidden(k)
        ensures !Contains(Redacted(text, req.secrets[key]), req.secrets[k])
      {
        if k == key {
          ApartOrNot(req.secrets[k]);
          CannotShowIsGone(text, req.secrets[k]);
        } else if Apart(req.secrets[k], COVER) {
          GoneStaysGone(text, req.secrets[k], req.secrets[key]);
        } else {
          NothingToRedact(text);
        }
      }
    }

    lemma ApartOrNot(value: string)
      ensures value != "" && Apart(value, COVER) ==> !Shows(value)
    {
      hide Apart, Shows;
      if value != "" && Apart(value, COVER) {
        ApartCannotShow(value);
      }
    }

    /** Removes the request's secret values from an error text, in any order. */
    method Redact(text: string) returns (out: string)
      ensures req.secrets == map[] ==> out == text
      ensures SecretsHarmless() && Contains(text, ROLLBACK_FAILED) ==> Contains(out, ROLLBACK_FAILED)
      ensures SecretsRecognised() && IsReport(text) ==> Contains(out, ROLLBACK_FAILED)
      ensures Discreet(out)
    {
      hide Contains, Harmless, Redacted, IsReport, Survives, Hidden;
      out := text;
      if IsReport(text) {
        ReportIsNamed(text);
      }
      var rest := req.secrets.Keys;
      while rest != {}
        invariant rest <= req.secrets.Keys
        invariant req.secrets == map[] ==> out == text
        invariant SecretsHarmless() && Contains(text, ROLLBACK_FAILED) ==> Contains(out, ROLLBACK_FAILED)
        invariant OneSecretSurvives() && IsReport(text) ==>
          Contains(out, ROLLBACK_FAILED) && (out == text || forall k | k in rest :: req.secrets[k] == "")
        invariant forall k | k in req.secrets && k !in rest && Hidden(k) :: !Contains(out, req.secrets[k])
      {
        var key :| key in rest;
        NowHidden(out, key, rest);
        if SecretsHarmless() && Contains(text, ROLLBACK_FAILED) {
          HarmlessKeeps(out, req.secrets[key]);
        }
        NothingToRedact(out);
        if OneSecretSurvives() && IsReport(text) && req.secrets[key] != "" {
          ReportIsKept(text, req.secrets[key]);
        }
        out := Redacted(out, req.secrets[key]);
        rest := rest - {key};
      }
    }

    lemma NothingToRedact(text: string)
      ensures Redacted(text, "") == text
    {
    }

    /** Records the terminal state. It follows from what was recovered, not from the error text, except that the
        text tells a failed rollback from a plain failure. */
    method UpdateFailure(rel: Option<Release>, text: string) returns (r: Outcome)
      requires InChargeButRecovered()
      requires SecretsSettled() || (recovered.None? && Contains(text, ROLLBACK_FAILED))
      modifies this`finished, this`terminal
      modifies world`calls, world`app, world`releases, world`finishAsked
      ensures Ended() && r.Broken? && SecretsTracked()
      ensures terminal == RolledBack <==> recovered.Some?
      ensures recovered.None? ==> (terminal == RollbackFailed <==> Contains(text, ROLLBACK_FAILED))
      ensures SameApp(world.app, old(world.app))
      ensures StatusWritten() && recovered.Some? ==>
        world.app.status == recovered.value.appStatus && world.app.lastError == ""
      ensures old(world.calls) <= world.calls
      ensures rel.None? ==> world.releases == old(world.releases)
      ensures rel.Some? ==>
        && world.calls == old(world.calls) + 3
        && (|| world.releases == old(world.releases)
            || world.releases == old(world.releases)[releaseID := Failure(rel.value, text)])
        && (releaseID in old(world.releases) && world.oracle(old(world.calls)).Done? ==>
              world.releases == old(world.releases)[releaseID := Failure(rel.value, text)])
      ensures r == Broken(text) && world.app.lastError in {old(world.app.lastError), "", BoundedError(text)}
      ensures world.releases.Keys == old(world.releases).Keys
      ensures StatusWritten() && recovered.None? ==>
        world.app.status == Failed && world.app.lastError == BoundedError(text)
    {
      NoErrorStaysEmpty();
      hide BoundedError, ValidSpec, Contains;
      if rel.Some? {
        var failed := rel.value.(status := Abandoned, lastError := text);
        var _ := world.UpdateRelease(releaseID, failed);
      }
      var operationStatus := OpFailed;
      var appStatus := Failed;
      var appError := text;
      if recovered.Some? {
        operationStatus := RolledBack;
        appStatus := recovered.value.appStatus;
        appError := "";
      } else if Contains(text, ROLLBACK_FAILED) {
        operationStatus := RollbackFailed;
      }
      var _ := world.UpdateAppStatusErr(appStatus, appError);
      Finish(operationStatus);
      r := Broken(text);
    }

    function Failure(rel: Release, text: string): Release {
      Bounded(rel.(status := Abandoned, lastError := text))
    }

    /** InCharge, except that something may have been recovered. */
    ghost predicate InChargeButRecovered()
      reads this`finished, this`restoreSecrets, this`secretsRestored, this`start, this`app,
            world`secrets, world`finishAsked, world`app
    {
      !finished && SecretsTracked() && world.finishAsked == start.asked && SameIdentity()
    }

    lemma CutIsDiscreet(text: string)
      requires Discreet(text)
      ensures DiscreetWhenCut(BoundedError(text)) && DiscreetWhenCut("")
    {
      hide Contains, BoundedError, Apart, Shows;
      forall k | k in req.secrets && Hidden(k) && CUT !in req.secrets[k]
        ensures !Contains(BoundedError(text), req.secrets[k]) && !Contains("", req.secrets[k])
      {
        KeptOfText(text, req.secrets[k]);
        EmptyLacks(req.secrets[k]);
      }
    }

    lemma EmptyLacks(part: string)
      requires part != ""
      ensures !Contains("", part)
    {
    }

    method FailUpdate(rel: Option<Release>, cause: string) returns (r: Outcome)
      requires InChargeButRecovered()
      modifies this`finished, this`terminal, this`secretsRestored, this`recovered
      modifies world`calls, world`secrets, world`app, world`releases, world`finishAsked
      ensures Ended() && r.Broken? && SecretsTracked()
      ensures recovered.Some? ==> recovered == old(recovered)
      ensures terminal == RolledBack <==> recovered.Some?
      ensures SecretsSettled() ==> recovered == old(recovered)
      ensures SecretsHarmless() && recovered.None? && Contains(cause, ROLLBACK_FAILED) ==> terminal == RollbackFailed
      ensures SecretsRecognised() && recovered.None? && IsReport(cause) ==> terminal == RollbackFailed
      ensures old(world.calls) <= world.calls
      ensures ValidEnv(start.secrets) && world.Calm(old(world.calls), world.calls) ==> recovered == old(recovered)
      ensures old(world.releases).Keys <= world.releases.Keys
      ensures SameApp(world.app, old(world.app))
      ensures StatusWritten() && recovered.Some? ==>
        world.app.status == recovered.value.appStatus && world.app.lastError == ""
      // Unless the secrets could not be put back, what is reported and stored shows none that can be hidden.
      ensures SecretsSettled() ==> Discreet(r.error)
      ensures SecretsSettled() ==>
        world.app.lastError == old(world.app.lastError) || DiscreetWhenCut(world.app.lastError)
      ensures SecretsSettled() ==>
        forall id | id in world.releases :: id in old(world.releases)
          && (world.releases[id] == old(world.releases)[id] || DiscreetWhenCut(world.releases[id].lastError))
      // Without secrets, what is reported is what happened.
      ensures SecretsSettled() && req.secrets == map[] ==> r.error == cause
      ensures SecretsSettled() && req.secrets == map[] && StatusWritten() && recovered.None? ==>
        world.app.status == Failed && world.app.lastError == BoundedError(cause)
    {
      hide Contains, SecretsHarmless, SecretsRecognised, IsReport, ValidEnv, SameApp, SameIdentity, SecretFailure,
           Discreet, DiscreetWhenCut;
      var text := Redact(cause);
      CutIsDiscreet(text);
      var e := RestoreSecretsForRollback();
      if e.Some? {
        SecretFailureIsNamed(text, e.value);
        text := SecretFailure(text, e.value);
        recovered := None;
      }
      r := UpdateFailure(rel, text);
    }

    /** Deletes every mapping and inserts the old ones again; an error leaves the mappings part way. */
    method RestoreStorageState() returns (e: Error)
      modifies world`calls, world`storage
      ensures e.None? ==> world.storage == oldStorage
      ensures Drawn(world.storage, oldStorage, old(world.storage))
      ensures old(world.calls) <= world.calls && (world.Calm(old(world.calls), world.calls) ==> e.None?)
    {
      var current;
      e, current := world.ListAppStorage();
      if e.Some? {
        return;
      }
      var rest := current.Keys;
      while rest != {}
        invariant world.storage.Keys <= rest && old(world.calls) <= world.calls
        invariant forall l | l in world.storage :: l in old(world.storage) && world.storage[l] == old(world.storage)[l]
      {
        var logical :| logical in rest;
        e := world.DeleteAppStorage(logical);
        if e.Some? {
          return;
        }
        rest := rest - {logical};
      }
      rest := oldStorage.Keys;
      while rest != {}
        invariant rest <= oldStorage.Keys
        invariant world.storage.Keys == oldStorage.Keys - rest && old(world.calls) <= world.calls
        invariant forall l | l in world.storage :: world.storage[l] == oldStorage[l]
      {
        var logical :| logical in rest;
        e := world.UpsertAppStorage(logical, oldStorage[logical]);
        if e.Some? {
          return;
        }
        rest := rest - {logical};
      }
      e := None;
    }

    /** The release the row points at, if any, still has its row. */
    predicate PointerKnown(releases: map<string, Release>)
      reads this`app
    {
      app.currentRelease == "" || app.currentRelease in releases
    }

    method RestoreAppState() returns (e: Error)
      requires SameIdentity()
      modifies world`calls, world`app
      ensures SameIdentity()
      ensures e.None? ==> SameApp(world.app, Overwritten(start.app, app))
      ensures SameApp(world.app, old(world.app)) || SameApp(world.app, Overwritten(start.app, app))
      ensures old(world.calls) <= world.calls
      ensures ValidEnv(app.env) && PointerKnown(world.releases) && world.Calm(old(world.calls), world.calls) ==> e.None?
    {
      e := world.UpdateApp(app);
      if e.Some? {
        return;
      }
      if app.currentRelease == "" {
        e := world.ClearCurrentRelease();
      } else {
        e := world.SetCurrentRelease(app.currentRelease);
      }
    }

    /** Nothing in the previous release keeps it from being deployed again. */
    ghost predicate PreviousDeployable(secrets: map<string, string>)
      reads this`oldSpec, this`oldSourceDir, this`app, this`plan
    {
      oldSpec.Some? &&
      Deployable(world.host, PreviousMeta(world.host, app, oldSpec.value, secrets, plan.previous), oldSpec.value,
                 oldSourceDir)
    }

    /** There is a previous release to go back to. */
    ghost predicate Restorable()
      reads this`oldSpec, this`oldSourceDir, this`app, this`plan, this`start
    {
      && oldSpec.Some? && oldSourceDir != "" && PreviousDeployable(start.secrets)
      && ValidEnv(start.secrets) && ValidEnv(app.env) && PointerKnown(start.releases)
    }

    /** Recreates and starts the previous release with the secrets as they are now. */
    method RollbackUpdate() returns (e: Error)
      modifies world`calls, world`containers
      ensures e.None? ==> oldSpec.Some? && oldSourceDir != ""
      ensures e.None? ==>
        DeployedAs(world.containers, world.host,
                   PreviousMeta(world.host, app, oldSpec.value, world.secrets, plan.previous), oldSpec.value,
                   oldSourceDir)
      ensures e.None? ==> AllRunning(world.containers)
      ensures old(world.calls) <= world.calls
      ensures (oldSpec.Some? && oldSourceDir != "" && PreviousDeployable(world.secrets)
               && world.Calm(old(world.calls), world.calls)) ==> e.None?
    {
      hide ValidSpec, DeployedAs, Faded, StatusOf, AllRunning, ReleaseTags, Deployable;
      if oldSpec.None? || oldSourceDir == "" {
        return Some("previous source unavailable");
      }
      e := world.RemoveContainers();
      if e.Some? {
        return;
      }
      var env;
      e, env := world.LoadRuntimeEnv(app.env);
      if e.Some? {
        return;
      }
      var meta := Meta(env, plan.previous, ReleaseTags(world.host, oldSpec.value, "previous"));
      e := world.Deploy(meta, oldSpec.value, oldSourceDir);
      if e.Some? {
        return;
      }
      ghost var deployed := world.containers;
      if AllRunning(deployed) {
        UpWhenAllRun(deployed, world.host, meta, oldSpec.value, oldSourceDir);
      }
      var status;
      e, status := world.Status(|oldSpec.value.services|);
      if e.Some? {
        return;
      }
      if status != AllUp {
        return Some("previous release is down");
      }
      VerifiedDeployment(deployed, world.containers, world.host, meta, oldSpec.value, oldSourceDir);
    }

    /** The runtime is back as it was found: what was stopped runs again, what was idle was left alone. */
    ghost predicate Resumed()
      reads this`seen, this`weStoppedApp, world`containers
    {
      && Remains(seen, world.containers)
      && (weStoppedApp ==> world.containers != map[] && AllRunning(world.containers))
      && (!weStoppedApp ==> world.containers == seen)
    }

    /** The previous release was recreated from the old mounts and the old secrets, and stopped again when the app
        had been found stopped. */
    ghost predicate Recreated()
      reads this`oldSpec, this`oldSourceDir, this`app, this`start, this`plan, this`weStoppedApp, world`containers
    {
      && oldSpec.Some? && oldSourceDir != ""
      && var meta := PreviousMeta(world.host, app, oldSpec.value, start.secrets, plan.previous);
         if weStoppedApp then
           DeployedAs(world.containers, world.host, meta, oldSpec.value, oldSourceDir) && AllRunning(world.containers)
         else
           OnlyFrom(world.containers, world.host, meta, oldSpec.value, oldSourceDir) && NoneRunning(world.containers)
    }

    /** What containers there are belong to the previous release, with its mounts and the old secrets. */
    ghost predicate OnlyPrevious()
      reads this`oldSpec, this`oldSourceDir, this`app, this`start, this`plan, world`containers
    {
      oldSpec.Some? && oldSourceDir != "" &&
      OnlyFrom(world.containers, world.host, PreviousMeta(world.host, app, oldSpec.value, start.secrets, plan.previous),
               oldSpec.value, oldSourceDir)
    }

    function FoundStatus(): AppStatus
      reads this`weStoppedApp
    {
      if weStoppedApp then Running else Stopped
    }

    /** resumePrevious up to its report: the text to report, with `recovered` set when all went well. */
    method Resume(cause: string) returns (text: string)
      requires InCharge()
      requires if weStoppedApp then Remains(seen, world.containers) else world.containers == seen
      modifies this`secretsRestored, this`recovered, world`calls, world`secrets, world`containers
      ensures InChargeButRecovered()
      ensures recovered.Some? ==> SecretsSettled() && Resumed() && recovered.value.appStatus == FoundStatus()
      ensures Remains(seen, world.containers)
      ensures old(world.calls) <= world.calls
      ensures (ValidEnv(start.secrets) && (weStoppedApp ==> old(world.containers) != map[])
               && world.Calm(old(world.calls), world.calls)) ==> recovered.Some?
      ensures cause <= text
    {
      hide ValidSpec, AllRunning, Contains, SameIdentity, ValidEnv;
      ghost var stopped := world.containers;
      var secretErr := RestoreSecretsForRollback();
      var restartErr: Error := None;
      if weStoppedApp {
        restartErr := world.Start();
        RemainsTransitive(seen, stopped, world.containers);
      }
      if secretErr.Some? {
        text := Report(cause, "; secret ", secretErr.value);
      } else if restartErr.Some? {
        text := cause + "; restart previous: " + restartErr.value;
      } else {
        recovered := Some(if weStoppedApp then Recovery(Running, RESTORED) else Recovery(Stopped, LEFT_STOPPED));
        text := cause + recovered.value.suffix;
      }
    }

    method ResumePrevious(cause: string) returns (r: Outcome)
      requires InCharge()
      requires if weStoppedApp then Remains(seen, world.containers) else world.containers == seen
      modifies this`finished, this`terminal, this`secretsRestored, this`recovered
      modifies world`calls, world`secrets, world`app, world`releases, world`finishAsked, world`containers
      ensures Ended() && r.Broken? && Remains(seen, world.containers)
      ensures terminal == RolledBack ==> Resumed()
      ensures terminal == RolledBack && StatusWritten() ==>
        world.app.status == FoundStatus() && world.app.lastError == ""
      ensures SameApp(world.app, old(world.app)) && old(world.calls) <= world.calls
      ensures (ValidEnv(start.secrets) && (weStoppedApp ==> old(world.containers) != map[])
               && world.Calm(old(world.calls), world.calls)) ==> terminal == RolledBack
      ensures old(world.releases).Keys <= world.releases.Keys
      ensures SecretsSettled() && req.secrets == map[] ==> cause <= r.error
    {
      hide Contains, SecretsHarmless, ValidEnv, SameIdentity, Resumed, Remains, SecretsTracked;
      var text := Resume(cause);
      r := FailUpdate(Some(release), text);
    }

    /** The rollback has just started an app that the operator had stopped. */
    method StopAgain() returns (e: Error)
      requires oldSpec.Some?
      requires DeployedAs(world.containers, world.host,
                          PreviousMeta(world.host, app, oldSpec.value, start.secrets, plan.previous),
                          oldSpec.value, oldSourceDir)
      modifies world`calls, world`containers
      ensures e.None? ==> NoneRunning(world.containers)
      ensures old(world.calls) <= world.calls
      ensures old(world.containers) != map[] && world.Calm(old(world.calls), world.calls) ==> e.None?
      ensures OnlyFrom(world.containers, world.host,
                       PreviousMeta(world.host, app, oldSpec.value, start.secrets, plan.previous),
                       oldSpec.value, oldSourceDir)
    {
      hide ValidSpec, DeployedAs, OnlyFrom, PreviousMeta, NoneRunning, Remains;
      ghost var recreated := world.containers;
      e := world.Stop();
      RemainderIsOnlyFrom(recreated, world.containers, world.host,
                          PreviousMeta(world.host, app, oldSpec.value, start.secrets, plan.previous),
                          oldSpec.value, oldSourceDir);
    }

    lemma RowStays(row: AppRow)
      requires SameApp(row, start.app) || SameApp(row, Overwritten(start.app, app))
               || SameApp(row, Overwritten(start.app, CandidateRow()))
      requires SameApp(world.app, row)
      ensures RowLeft()
      ensures SameApp(row, Overwritten(start.app, app)) ==> SameApp(world.app, Overwritten(start.app, app))
    {
      hide Overwritten, CandidateRow;
    }

    /** The restore steps of rollbackCandidate. Each is tried whatever became of the others; the secrets go first,
        so that the previous release is recreated with the old ones. */
    method RestoreAll() returns (secretErr: Error, rollbackErr: Error, stateErr: Error, appErr: Error)
      requires InCharge() && oldStorage == start.storage && MappingsLeft() && RowLeft()
      modifies this`secretsRestored, world`calls, world`secrets, world`app, world`storage, world`containers
      ensures MappingsLeft() && RowLeft()
      ensures old(world.calls) <= world.calls
      ensures Restorable() && PointerKnown(world.releases) && world.Calm(old(world.calls), world.calls) ==>
        secretErr.None? && rollbackErr.None? && stateErr.None? && appErr.None?
      ensures InCharge() && (secretErr.None? ==> SecretsSettled())
      ensures secretErr.None? && rollbackErr.None? ==>
        oldSpec.Some? && oldSourceDir != "" && AllRunning(world.containers)
      ensures secretErr.None? && rollbackErr.None? ==>
        DeployedAs(world.containers, world.host,
                   PreviousMeta(world.host, app, oldSpec.value, start.secrets, plan.previous), oldSpec.value,
                   oldSourceDir)
      ensures stateErr.None? ==> world.storage == start.storage
      ensures appErr.None? ==> SameApp(world.app, Overwritten(start.app, app))
    {
      hide ValidSpec, DeployedAs, AllRunning, PreviousMeta, Overwritten, SameApp, CandidateRow, PreviousDeployable,
           PointerKnown, ValidEnv, MappingsLeft, RowLeft;
      secretErr, rollbackErr := RestoreRuntime();
      stateErr, appErr := RestoreRows();
    }

    method RestoreRuntime() returns (secretErr: Error, rollbackErr: Error)
      requires InCharge()
      modifies this`secretsRestored, world`calls, world`secrets, world`containers
      ensures old(world.calls) <= world.calls
      ensures Restorable() && world.Calm(old(world.calls), world.calls) ==> secretErr.None? && rollbackErr.None?
      ensures InCharge() && (secretErr.None? ==> SecretsSettled())
      ensures secretErr.None? && rollbackErr.None? ==>
        oldSpec.Some? && oldSourceDir != "" && AllRunning(world.containers)
      ensures secretErr.None? && rollbackErr.None? ==>
        DeployedAs(world.containers, world.host,
                   PreviousMeta(world.host, app, oldSpec.value, start.secrets, plan.previous), oldSpec.value,
                   oldSourceDir)
    {
      hide ValidSpec, DeployedAs, AllRunning, PreviousMeta, PreviousDeployable, PointerKnown, ValidEnv, SameIdentity;
      secretErr := RestoreSecretsForRollback();
      rollbackErr := RollbackUpdate();
    }

    method RestoreRows() returns (stateErr: Error, appErr: Error)
      requires SameIdentity() && oldStorage == start.storage && MappingsLeft() && RowLeft()
      modifies world`calls, world`app, world`storage
      ensures SameIdentity() && MappingsLeft() && RowLeft()
      ensures old(world.calls) <= world.calls
      ensures ValidEnv(app.env) && PointerKnown(world.releases) && world.Calm(old(world.calls), world.calls) ==>
        stateErr.None? && appErr.None?
      ensures stateErr.None? ==> world.storage == start.storage
      ensures appErr.None? ==> SameApp(world.app, Overwritten(start.app, app))
    {
      hide Overwritten, SameApp, CandidateRow, PointerKnown, ValidEnv, SameIdentity;
      ghost var mappings, row := world.storage, world.app;
      stateErr := RestoreStorageState();
      assert MappingsLeft() by { MappingsStay(mappings); }
      hide MappingsLeft, Drawn;
      appErr := RestoreAppState();
      if SameApp(world.app, row) {
        RowStays(row);
      }
      if appErr.None? {
        appErr := world.Try();
      }
    }

    lemma MappingsStay(was: map<string, Binding>)
      requires Drawn(was, start.storage, plan.candidate) && Drawn(world.storage, start.storage, was)
      ensures MappingsLeft()
    {
    }

    /** rollbackCandidate up to its report. */
    method RollBack(reason: string) returns (text: string)
      requires InCharge() && oldStorage == start.storage && MappingsLeft() && RowLeft()
      modifies this`stage, this`secretsRestored, this`recovered
      modifies world`calls, world`secrets, world`app, world`storage, world`containers
      ensures MappingsLeft() && RowLeft()
      ensures old(world.calls) <= world.calls
      ensures Restorable() && PointerKnown(world.releases) && world.Calm(old(world.calls), world.calls) ==>
        recovered.Some?
      ensures InChargeButRecovered() && stage == Rollback
      ensures recovered.Some? ==> SecretsSettled() && Recreated() && recovered.value.appStatus == FoundStatus()
      ensures recovered.Some? ==> world.storage == start.storage && SameApp(world.app, Overwritten(start.app, app))
      ensures !IsReport(text) ==> OnlyPrevious()
      ensures reason <= text
    {
      hide ValidSpec, DeployedAs, OnlyFrom, AllRunning, NoneRunning, Remains, PreviousMeta, Overwritten, SameApp,
           Report, MappingsLeft, RowLeft, Restorable, PointerKnown, SecretsTracked, SameIdentity, Drawn;
      stage := Rollback;
      var secretErr, rollbackErr, stateErr, appErr := RestoreAll();
      if secretErr.Some? {
        text := Report(reason, "; secret ", secretErr.value);
        ReportStarts(reason, "; secret ", secretErr.value);
        return;
      }
      if rollbackErr.Some? {
        text := Report(reason, "; ", rollbackErr.value);
        ReportStarts(reason, "; ", rollbackErr.value);
        return;
      }
      RemainderIsOnlyFrom(world.containers, world.containers, world.host,
                          PreviousMeta(world.host, app, oldSpec.value, start.secrets, plan.previous),
                          oldSpec.value, oldSourceDir);
      if stateErr.Some? || appErr.Some? {
        text := reason + "; state restore failed: " + (if stateErr.Some? then stateErr else appErr).value;
      } else if weStoppedApp {
        recovered := Some(Recovery(Running, RESTORED));
        text := reason + RESTORED;
      } else {
        SomethingDeployed(world.containers, world.host,
                          PreviousMeta(world.host, app, oldSpec.value, start.secrets, plan.previous),
                          oldSpec.value, oldSourceDir);
        var stopErr := StopAgain();
        if stopErr.Some? {
          text := reason + "; re-stop previous release: " + stopErr.value;
          return;
        }
        recovered := Some(Recovery(Stopped, LEFT_STOPPED));
        text := reason + LEFT_STOPPED;
      }
    }

    method RollbackCandidate(reason: string) returns (r: Outcome)
      requires InCharge() && oldStorage == start.storage && MappingsLeft() && RowLeft()
      modifies this`stage, this`finished, this`terminal, this`secretsRestored, this`recovered
      modifies world`calls, world`secrets, world`app, world`storage, world`releases, world`finishAsked, world`containers
      ensures Ended() && r.Broken? && stage == Rollback
      ensures terminal == RolledBack ==>
        Recreated() && world.storage == start.storage && SameApp(world.app, Overwritten(start.app, app))
      ensures terminal == OpFailed && stage == Rollback && SecretsRecognised() ==> OnlyPrevious()
      ensures terminal == RolledBack && StatusWritten() ==>
        world.app.status == FoundStatus() && world.app.lastError == ""
      ensures MappingsLeft() && RowLeft()
      ensures old(world.calls) <= world.calls
      ensures Restorable() && PointerKnown(old(world.releases)) && world.Calm(old(world.calls), world.calls) ==>
        terminal == RolledBack
      ensures SecretsSettled() && req.secrets == map[] ==> reason <= r.error
    {
      hide *;
      RestorableSecrets();
      var text := RollBack(reason);
      ghost var row, between := world.app, world.calls;
      RowIs();
      r := FailUpdate(Some(release), text);
      world.CalmParts(old(world.calls), between, world.calls);
      RowStays(row);
    }

    lemma RestorableSecrets()
      ensures Restorable() ==> ValidEnv(start.secrets)
    {
    }

    lemma RowIs()
      requires RowLeft()
      ensures SameApp(world.app, start.app) || SameApp(world.app, Overwritten(start.app, app))
              || SameApp(world.app, Overwritten(start.app, CandidateRow()))
    {
    }

    // ---------------------------------------------------------------- the transaction, phase by phase

    function GitRef(): string
      reads this`app
    {
      var ref := TrimSpace(req.ref);
      if ref != "" then ref else if app.source.gitRef != "" then app.source.gitRef else "main"
    }

    function CandidateSource(): Source
      reads this`app
    {
      var source := app.source.(ref := checkout.sourceRef, compose := checkout.compose);
      if app.id.sourceType == Git then source.(gitRef := GitRef(), buildMode := checkout.buildMode)
      else if app.settings.kind == "function" then source
      else source.(dropKind := checkout.dropKind)
    }

    /** The candidate row: the app's row with the new source, pointing at the new release. */
    function CandidateRow(): AppRow
      reads this`app
    {
      app.(status := Updating, currentRelease := releaseID, source := CandidateSource())
    }

    /** The Git reference is the one asked for; without one it stays, and an app that has none gets "main". */
    predicate RefAsAsked(ref: string)
      reads this`app
    {
      if app.id.sourceType == Git then
        && (TrimSpace(req.ref) != "" ==> ref == TrimSpace(req.ref))
        && (TrimSpace(req.ref) == "" && app.source.gitRef != "" ==> ref == app.source.gitRef)
        && (TrimSpace(req.ref) == "" && app.source.gitRef == "" ==> ref == "main")
      else ref == app.source.gitRef
    }

    /** The release row tells where the release came from, where its source lies, and which release was before it. */
    predicate Recorded(r: Release)
      reads this`app
    {
      && r.previous == app.currentRelease && r.compose == checkout.compose && r.sourceDir == releaseDir
      && r.sourceType == app.id.sourceType && r.sourceRef == checkout.sourceRef && RefAsAsked(r.gitRef)
      && r.gitCommit == if app.id.sourceType == Git then checkout.gitCommit else ""
    }

    /** The app row keeps what the operator set, and names the source and the release. */
    predicate NamesSource(row: AppRow)
      reads this`app
    {
      && row.env == app.env && RefAsAsked(row.source.gitRef)
      && row.settings == app.settings.(kind := row.settings.kind)
      && (app.settings.kind != "" ==> row.settings.kind == app.settings.kind)
      && row.source.compose == checkout.compose && row.source.ref == checkout.sourceRef
      && row.source.dropKind == (if app.id.sourceType == Drop && app.settings.kind != "function" then checkout.dropKind
                                 else app.source.dropKind)
      && (var mode := if app.id.sourceType == Git then checkout.buildMode else app.source.buildMode;
          if mode != "" then row.source.buildMode == mode else row.source.buildMode == "compose")
      && row.currentRelease == releaseID
    }

    function NewRelease(): Release
      reads this`app, this`candidate
    {
      Release(app.currentRelease, candidate.id.sourceType, candidate.source.ref, candidate.source.gitRef,
              if app.id.sourceType == Git then checkout.gitCommit else "", releaseDir, candidate.source.compose,
              map[], Preparing, "")
    }

    function PlanInputs(): Inputs
      reads this`oldStorage, this`oldSourceDir
    {
      Inputs(world.host.naming, world.host.appID, oldStorage, discovered, oldSourceDir)
    }

    /** Nothing but secrets, statuses and the new release row has changed. */
    ghost predicate Untouched()
      reads this`start, world`containers, world`storage, world`app
    {
      world.containers == start.containers && world.storage == start.storage && SameApp(world.app, start.app)
    }

    /** The row points at a release with a row. */
    ghost predicate CurrentKnown()
      reads this`start
    {
      start.app.currentRelease in start.releases
    }

    /** And that release has a source directory of its own. */
    ghost predicate CurrentHasSource()
      reads this`start
    {
      CurrentKnown() && start.releases[start.app.currentRelease].sourceDir != ""
    }

    /** The previous release is the current one with its own compose text and the real path of its own source directory;
        without one to read, or without a source directory of its own, it is the row's text with the app's plain source
        directory. */
    ghost predicate PreviousFound()
      reads this`oldSpec, this`oldSourceDir, this`sawCurrent, this`app, this`start
    {
      if sawCurrent && CurrentHasSource() then
        var current := start.releases[start.app.currentRelease];
        && oldSpec == parse(current.compose)
        && oldSourceDir == if realPath(current.sourceDir) == "" then appSourceDir else realPath(current.sourceDir)
      else
        oldSpec == parse(app.source.compose) && oldSourceDir == appSourceDir
    }

    /** The new source has been materialised and parsed. */
    ghost predicate Detected()
      reads this`candidate, this`app, this`spec
    {
      candidate == CandidateRow() && parse(checkout.compose) == Some(spec)
    }

    /** Its storage has been planned from the mappings at the start. */
    ghost predicate Planned()
      reads this`oldStorage, this`oldSpec, this`oldSourceDir, this`sawCurrent, this`start, this`app, this`spec,
            this`plan
    {
      && oldStorage == start.storage && PreviousFound()
      && CandidateFor(PlanInputs(), Mounts(spec), plan.candidate) && Accepts(PlanInputs(), spec)
      && PlanSound(PlanInputs(), Mounts(spec), plan)
    }

    /** What has to be done before anything is replaced: the planned locations are archived and the planned copies
        made. */
    ghost predicate Secured()
      reads this`oldStorage, this`oldSpec, this`oldSourceDir, this`sawCurrent, this`start, this`app, this`spec,
            this`plan
      reads world`manifests, world`copies
    {
      && Planned()
      && world.manifests == start.manifests + [plan.all]
      && forall source | source in plan.migrateBinds :: (source, plan.migrateBinds[source]) in world.copies
    }

    /** The candidate is known, planned, and recorded as a release row. */
    ghost predicate Ready()
      reads this`oldStorage, this`oldSpec, this`oldSourceDir, this`sawCurrent, this`start, this`candidate, this`app,
            this`spec,
            this`plan,
            this`release, world`releases, world`app
    {
      && Detected() && Planned()
      && releaseID in world.releases && start.releases.Keys <= world.releases.Keys
      && Recorded(release)
      && world.app.lastError == ""
    }

    /** The request and its checkout can be deployed: the compose text parses, the planner accepts it, its volumes can
        be named, what is recorded is absolute, and nothing is written that the store refuses. */
    ghost predicate Fit()
      reads this`start, this`app
    {
      && parse(checkout.compose).Some?
      && var candidate := parse(checkout.compose).value;
         && Accepts(Inputs(world.host.naming, world.host.appID, start.storage, discovered, ""), candidate)
         && VolumesUsable(world.host, candidate)
         && AbsolutePlaces(world.host.naming, start.storage)
         && releaseID !in start.releases && ValidEnv(req.secrets) && ValidEnv(app.env)
    }

    lemma FitIsAccepted(candidate: ParsedSpec)
      requires Fit() && parse(checkout.compose) == Some(candidate) && oldStorage == start.storage
      ensures Accepts(PlanInputs(), candidate) && VolumesUsable(world.host, candidate)
    {
    }

    lemma FitIsUsable()
      requires Fit() && Ready()
      ensures VolumesUsable(world.host, spec) && ValidEnv(req.secrets) && ValidEnv(candidate.env)
    {
      hide ValidSpec, Accepts, PlanSound, CandidateFor, PreviousFound, VolumesUsable, ValidEnv;
    }

    lemma FitIsDeployable(secrets: map<string, string>)
      requires Fit() && Ready()
      ensures VolumesUsable(world.host, spec) && Deployable(world.host, NewMeta(secrets), spec, releaseDir)
    {
      hide ValidSpec, PreviousFound, PlanSound, VolumesUsable;
      forall s | s in spec.services ensures MountsResolve(world.host, NewMeta(secrets), spec, releaseDir, s) {
        PlannedMountsResolve(PlanInputs(), spec, plan.candidate,
                             Context(world.host, NewMeta(secrets), spec, releaseDir), s);
      }
    }

    lemma PlannedFromPrevious()
      requires Ready()
      ensures Planned() && PreviousFound() && plan.previous == discovered + start.storage
    {
    }

    /** The release directory, then the source with its detection and generated files, then the compose text. */
    method Materialise() returns (e: Error)
      requires stage == Entered
      modifies this`stage, this`candidate, this`spec, world`calls
      ensures stage in {Entered, Preflight}
      ensures e.None? ==> Detected() && candidate.source.compose == checkout.compose
      ensures old(world.calls) <= world.calls
      ensures parse(checkout.compose).Some? && world.Calm(old(world.calls), world.calls) ==> e.None?
    {
      hide ValidSpec;
      e := world.Try();
      if e.Some? {
        return;
      }
      stage := Preflight;
      e := world.Try();
      if e.Some? {
        return;
      }
      candidate := CandidateRow();
      var parsed := parse(candidate.source.compose);
      if parsed.None? {
        return Some("candidate compose");
      }
      spec := parsed.value;
    }

    /** The previous release's text and source: those of the current release if it has its own. */
    method FindPrevious() returns (e: Error)
      requires world.releases == start.releases && world.app.currentRelease == start.app.currentRelease
      modifies this`oldSpec, this`oldSourceDir, this`sawCurrent, world`calls
      ensures e.None? ==> PreviousFound()
      ensures sawCurrent <==> CurrentKnown() && world.oracle(old(world.calls)).Done?
      ensures CurrentKnown() && world.Calm(old(world.calls), world.calls) ==> sawCurrent
      ensures old(world.calls) <= world.calls && (world.Calm(old(world.calls), world.calls) ==> e.None?)
    {
      hide ValidSpec;
      oldSpec := parse(app.source.compose);
      oldSourceDir := "";
      var current;
      e, current := world.GetCurrentRelease();
      sawCurrent := e.None?;
      if e.None? && current.sourceDir != "" {
        e := world.Try();
        if e.Some? {
          return;
        }
        oldSourceDir := realPath(current.sourceDir);
        oldSpec := parse(current.compose);
      }
      if oldSourceDir == "" {
        oldSourceDir := appSourceDir;
      }
      e := None;
    }

    /** Finds the previous release and plans the storage. */
    method PlanUpdate() returns (e: Error)
      requires world.releases == start.releases && world.app.currentRelease == start.app.currentRelease
      requires world.storage == start.storage
      modifies this`oldSpec, this`oldSourceDir, this`sawCurrent, this`oldStorage, this`plan, world`calls
      ensures e.None? ==> Planned()
      ensures old(world.calls) <= world.calls
      ensures e.None? && CurrentKnown() && world.Calm(old(world.calls), world.calls) ==> sawCurrent
      ensures Fit() && parse(checkout.compose) == Some(spec) && world.Calm(old(world.calls), world.calls) ==> e.None?
    {
      hide Fit, ValidSpec, CandidateFor, PlanSound, PreviousFound, IsOrder, PlanInOrder;
      e := FindPrevious();
      if e.Some? {
        return;
      }
      e, oldStorage := world.ListAppStorage();
      if e.Some? {
        return;
      }
      if Fit() && parse(checkout.compose) == Some(spec) {
        FitIsAccepted(spec);
      }
      hide Accepts;
      var planned := PlanStorage(PlanInputs(), spec);
      if planned.None? {
        return Some("storage preflight");
      }
      plan := planned.value;
    }

    method WriteRelease() returns (e: Error)
      modifies this`release, world`calls, world`releases
      ensures candidate == CandidateRow() ==> Recorded(release)
      ensures e.None? ==> world.releases == old(world.releases)[releaseID := release]
      ensures old(world.releases).Keys <= world.releases.Keys
      ensures old(world.calls) <= world.calls
      ensures releaseID !in old(world.releases) && world.Calm(old(world.calls), world.calls) ==> e.None?
    {
      release := NewRelease();
      e := world.CreateRelease(releaseID, release);
    }

    /** Snapshots the secrets when the request brings any, then writes them one by one. */
    method WriteSecrets() returns (e: Error)
      requires restoreSecrets.None? && !secretsRestored && world.secrets == start.secrets
      modifies this`restoreSecrets, world`calls, world`secrets
      ensures SecretsTracked()
      ensures e.None? ==> world.secrets == start.secrets + req.secrets
      ensures old(world.calls) <= world.calls
      ensures ValidEnv(req.secrets) && world.Calm(old(world.calls), world.calls) ==> e.None?
    {
      if req.secrets != map[] {
        var previous;
        e, previous := world.GetSecrets();
        if e.Some? {
          return;
        }
        restoreSecrets := Some(previous);
      }
      var rest := req.secrets.Keys;
      while rest != {}
        invariant rest <= req.secrets.Keys
        invariant restoreSecrets.Some? ==> restoreSecrets.value == start.secrets
        invariant restoreSecrets.None? ==> req.secrets == map[] && world.secrets == start.secrets
        invariant world.secrets == start.secrets + (map k | k in req.secrets && k !in rest :: req.secrets[k])
        invariant old(world.calls) <= world.calls
      {
        var key :| key in rest;
        e := world.SetSecret(key, req.secrets[key]);
        if e.Some? {
          return;
        }
        rest := rest - {key};
      }
      assert (map k | k in req.secrets && k !in rest :: req.secrets[k]) == req.secrets;
      e := None;
    }

    function NewMeta(secrets: map<string, string>): Meta
      reads this`candidate, this`plan, this`spec
    {
      Meta(candidate.env + secrets, plan.candidate, ReleaseTags(world.host, spec, releaseID))
    }

    /** Builds the candidate's images and records them. No container is touched. */
    method BuildImages() returns (e: Error, meta: Meta, images: map<string, string>)
      requires Ready()
      modifies this`stage, this`release, world`calls, world`releases
      ensures stage in {old(stage), Build}
      ensures e.None? ==> Ready() && release.images == images
      ensures e.None? ==> releaseID in world.releases && world.releases[releaseID].images == images
      ensures e.None? ==> meta == NewMeta(world.secrets) && images == PreparedImages(world.host, meta, spec)
      ensures old(world.releases).Keys <= world.releases.Keys
      ensures old(world.calls) <= world.calls
      ensures VolumesUsable(world.host, spec) && world.Calm(old(world.calls), world.calls) ==> e.None?
    {
      hide ValidSpec, PreparedImages, VolumesUsable, Ready, NewMeta;
      e, meta, images := PrepareImages();
      if e.None? {
        e := RecordImages(images);
      }
    }

    method PrepareImages() returns (e: Error, meta: Meta, images: map<string, string>)
      modifies this`stage, world`calls
      ensures stage in {old(stage), Build}
      ensures e.None? ==> meta == NewMeta(world.secrets) && images == PreparedImages(world.host, meta, spec)
      ensures old(world.calls) <= world.calls
      ensures VolumesUsable(world.host, spec) && world.Calm(old(world.calls), world.calls) ==> e.None?
    {
      hide ValidSpec, PreparedImages, VolumesUsable;
      meta, images := NewMeta(map[]), map[];
      e := world.Try();
      if e.Some? {
        return;
      }
      stage := Build;
      var env;
      e, env := world.LoadRuntimeEnv(candidate.env);
      if e.Some? {
        return;
      }
      meta := Meta(env, plan.candidate, ReleaseTags(world.host, spec, releaseID));
      e, images := world.Prepare(meta, spec);
    }

    method RecordImages(images: map<string, string>) returns (e: Error)
      requires Ready()
      modifies this`release, world`calls, world`releases
      ensures Ready() && release == old(release).(images := images)
      ensures e.None? ==> world.releases == old(world.releases)[releaseID := Bounded(release)]
      ensures old(world.releases).Keys <= world.releases.Keys
      ensures old(world.calls) <= world.calls && (world.Calm(old(world.calls), world.calls) ==> e.None?)
    {
      hide ValidSpec, Detected, Planned;
      release := release.(images := images);
      e := world.UpdateRelease(releaseID, release);
      if e.Some? {
        return;
      }
      e := world.Try();
    }

    /** Looks at the runtime, and stops it unless it is found stopped. */
    method StopPrevious() returns (e: Error)
      modifies this`stage, this`weStoppedApp, this`seen, world`calls, world`containers
      ensures stage == Backup
      ensures Faded(old(world.containers), seen)
      ensures e.None? ==> weStoppedApp == (StatusOf(seen, ServiceCount(oldSpec)) != Down)
      ensures e.None? ==> NoneRunning(world.containers) && (weStoppedApp ==> world.containers != map[])
      ensures if weStoppedApp then Remains(seen, world.containers) else world.containers == seen
      ensures Remains(seen, world.containers)
      ensures old(world.calls) <= world.calls && (world.Calm(old(world.calls), world.calls) ==> e.None?)
    {
      hide ValidSpec, Faded, StatusOf;
      stage, weStoppedApp := Backup, false;
      var status;
      e, status := world.Status(ServiceCount(oldSpec));
      seen := world.containers;
      if e.Some? {
        return;
      }
      weStoppedApp := status != Down;
      if weStoppedApp {
        NotDownMeansSome(seen, ServiceCount(oldSpec));
        e := world.Stop();
      } else {
        DownMeansNoneRunning(seen, ServiceCount(oldSpec));
      }
    }

    /** Backs the storage up and copies the binds that move, in any order. */
    method BackUp() returns (e: Error)
      requires Planned() && world.manifests == start.manifests
      modifies world`calls, world`manifests, world`copies
      ensures e.None? ==> Secured()
      ensures old(world.calls) <= world.calls && (world.Calm(old(world.calls), world.calls) ==> e.None?)
    {
      hide ValidSpec, CandidateFor, Accepts, PlanSound, PreviousFound;
      e := world.BackupStorage(plan.all);
      var rest := plan.migrateBinds.Keys;
      while e.None? && rest != {}
        invariant rest <= plan.migrateBinds.Keys
        invariant old(world.calls) <= world.calls && (world.Calm(old(world.calls), world.calls) ==> e.None?)
        invariant e.None? ==> world.manifests == start.manifests + [plan.all]
        invariant e.None? ==> forall source | source in plan.migrateBinds && source !in rest ::
          (source, plan.migrateBinds[source]) in world.copies
        decreases rest
      {
        var source :| source in rest;
        e := world.CopyDirectory(source, plan.migrateBinds[source]);
        rest := rest - {source};
      }
    }

    /** Replaces the containers by the candidate's and checks that they stay up. */
    method CutOver(meta: Meta, images: map<string, string>) returns (e: Error)
      requires images == PreparedImages(world.host, meta, spec)
      modifies this`stage, world`calls, world`containers
      ensures stage == Deploy
      ensures e.None? ==>
        DeployedAs(world.containers, world.host, meta, spec, releaseDir) && AllRunning(world.containers)
      ensures old(world.calls) <= world.calls
      ensures Deployable(world.host, meta, spec, releaseDir) && world.Calm(old(world.calls), world.calls) ==> e.None?
    {
      hide ValidSpec, PreparedImages, DeployedAs, AllRunning, Faded, StatusOf, Deployable;
      stage := Deploy;
      e := world.RemoveContainers();
      if e.Some? {
        return;
      }
      e := world.Activate(meta, spec, releaseDir, images);
      if e.Some? {
        return;
      }
      e := world.Try();
      if e.Some? {
        return;
      }
      ghost var activated := world.containers;
      if AllRunning(activated) {
        UpWhenAllRun(activated, world.host, meta, spec, releaseDir);
      }
      var status;
      e, status := world.Status(|spec.services|);
      if e.Some? {
        return;
      }
      if status != AllUp {
        return Some("new release is down");
      }
      VerifiedDeployment(activated, world.containers, world.host, meta, spec, releaseDir);
    }

    /** Publishes the route and moves the release row, the app row, the pointer and the mappings to the new release. */
    method Commit() returns (e: Error)
      requires SameIdentity()
      modifies this`stage, this`release, this`candidate, world`calls, world`app, world`releases, world`storage
      ensures stage == Route && SameIdentity()
      ensures release == old(release).(status := release.status)
      ensures CandidateStays(old(candidate))
      ensures world.app == old(world.app) || world.app == Overwritten(old(world.app), candidate)
      ensures Drawn(world.storage, old(world.storage), plan.candidate)
      ensures old(world.releases).Keys <= world.releases.Keys
      ensures e.None? ==>
        && world.app == Overwritten(old(world.app), candidate)
        && candidate.status == Running && candidate.currentRelease == releaseID
        && releaseID in world.releases && world.releases[releaseID] == Bounded(release) && release.status == Live
        && world.storage == old(world.storage) + plan.candidate
      ensures old(world.calls) <= world.calls
      ensures (ValidEnv(old(candidate).env) && releaseID in old(world.releases)
               && world.Calm(old(world.calls), world.calls)) ==> e.None?
    {
      hide Overwritten, ValidEnv, Bounded;
      stage := Route;
      e := world.Try();
      if e.Some? {
        return;
      }
      release := release.(status := Live);
      e := world.UpdateRelease(releaseID, release);
      if e.Some? {
        return;
      }
      e := MoveRow();
      if e.Some? {
        return;
      }
      e := world.PersistRuntimeStorage(plan.candidate);
    }

    /** The candidate row changes in status, error and pointer only. */
    predicate CandidateStays(was: AppRow)
      reads this`candidate
    {
      && candidate == was.(status := candidate.status, lastError := candidate.lastError,
                           currentRelease := candidate.currentRelease)
      && candidate.currentRelease in {was.currentRelease, releaseID}
    }

    /** Writes the candidate's row and points it at the new release. */
    method MoveRow() returns (e: Error)
      requires SameIdentity()
      modifies this`candidate, world`calls, world`app
      ensures SameIdentity() && CandidateStays(old(candidate))
      ensures world.app == old(world.app) || world.app == Overwritten(old(world.app), candidate)
      ensures e.None? ==>
        && world.app == Overwritten(old(world.app), candidate)
        && candidate.status == Running && candidate.currentRelease == releaseID
      ensures old(world.calls) <= world.calls
      ensures (ValidEnv(old(candidate).env) && releaseID in world.releases
               && world.Calm(old(world.calls), world.calls)) ==> e.None?
    {
      hide ValidEnv;
      candidate := candidate.(status := Running, lastError := "", currentRelease := releaseID);
      e := world.UpdateApp(candidate);
      if e.Some? {
        return;
      }
      e := world.SetCurrentRelease(releaseID);
    }

    /** Everything names the new release, and its containers run. */
    ghost predicate Committed()
      reads this`start, this`spec, this`oldStorage, this`oldSourceDir, this`plan, this`app, this`candidate,
            world`secrets, world`storage, world`app, world`releases, world`containers
    {
      && world.secrets == start.secrets + req.secrets
      && parse(checkout.compose) == Some(spec)
      && oldStorage == start.storage
      && Accepts(PlanInputs(), spec) && CandidateFor(PlanInputs(), Mounts(spec), plan.candidate)
      && world.storage == start.storage + plan.candidate
      && world.app == Overwritten(start.app, CandidateRow().(status := Running)).(lastError := "")
      && releaseID in world.releases
      && world.releases[releaseID].status == Live
      && world.releases[releaseID].compose == world.app.source.compose == checkout.compose
      && Recorded(world.releases[releaseID]) && NamesSource(world.app)
      && world.releases[releaseID].images == PreparedImages(world.host, NewMeta(world.secrets), spec)
      && DeployedAs(world.containers, world.host, NewMeta(world.secrets), spec, releaseDir)
      && AllRunning(world.containers)
    }

    /** The first status write. The last error is not among the columns the final row write sets, so it is cleared
        here. */
    method Announce() returns (e: Error)
      requires SameIdentity()
      modifies world`calls, world`app
      ensures SameIdentity() && SameApp(world.app, old(world.app))
      ensures e.None? ==> world.app.lastError == "" && world.app.status == Updating
      ensures e == ErrorOf(world.oracle(old(world.calls))) && world.calls == old(world.calls) + 1
      ensures world.CalmAt(old(world.calls)) ==> e.None?
    {
      NoErrorStaysEmpty();
      hide BoundedError;
      e := world.UpdateAppStatusErr(Updating, "");
    }

    /** What a run that reached its cut-over can leave of the mappings: old values and planned ones, which agree where
        both exist. */
    ghost predicate MappingsLeft()
      reads this`start, this`plan, world`storage
    {
      Drawn(world.storage, start.storage, plan.candidate)
    }

    /** And of the row, apart from status and error: the stored one, that one as this run read it, or the
        candidate's. */
    ghost predicate RowLeft()
      reads this`start, this`app, world`app
    {
      || SameApp(world.app, start.app) || SameApp(world.app, Overwritten(start.app, app))
      || SameApp(world.app, Overwritten(start.app, CandidateRow()))
    }

    /** What a failed run leaves behind. Before the cut-over neither row nor mappings have changed, and the containers
        are the same ones, running or not. */
    ghost predicate LeftBehind()
      reads this`stage, this`oldStorage, this`oldSpec, this`oldSourceDir, this`sawCurrent, this`plan, this`start,
            this`app, this`spec
      reads world`manifests, world`copies, world`storage, world`app, world`containers
    {
      if stage == Rollback then Secured() && MappingsLeft() && RowLeft()
      else
        && world.storage == start.storage && SameApp(world.app, start.app)
        && Remains(start.containers, world.containers)
    }

    lemma DetectedIsParsed()
      requires Detected()
      ensures parse(checkout.compose) == Some(spec) && candidate == CandidateRow()
    {
    }

    method RecordCandidate() returns (e: Error)
      requires InCharge() && Untouched() && stage == Entered && world.app.lastError == ""
      requires world.releases == start.releases
      modifies this`stage, this`candidate, this`spec, this`oldSpec, this`oldSourceDir, this`sawCurrent, this`oldStorage,
               this`plan,
               this`release
      modifies world`calls, world`releases
      ensures stage in {Entered, Preflight}
      ensures e.None? ==> Ready()
      ensures old(world.releases).Keys <= world.releases.Keys
      ensures e.None? && CurrentKnown() && world.Calm(old(world.calls), world.calls) ==> sawCurrent
      ensures old(world.calls) <= world.calls && (Fit() && world.Calm(old(world.calls), world.calls) ==> e.None?)
    {
      hide *;
      AsAtStart();
      FitIsParsed();
      e := Materialise();
      ghost var detected := world.calls;
      if e.None? {
        DetectedIsParsed();
        e := PlanUpdate();
      }
      ghost var planned := world.calls;
      if e.None? {
        e := WriteRelease();
      }
      world.CalmParts(old(world.calls), detected, world.calls);
      world.CalmParts(detected, planned, world.calls);
      if e.None? {
        ReadyNow();
      }
    }

    lemma AsAtStart()
      requires Untouched()
      ensures world.storage == start.storage && world.containers == start.containers
      ensures SameApp(world.app, start.app) && world.app.currentRelease == start.app.currentRelease
    {
    }

    lemma FitIsParsed()
      ensures Fit() ==> parse(checkout.compose).Some? && releaseID !in start.releases
    {
      hide ValidSpec, Accepts, VolumesUsable, AbsolutePlaces, ValidEnv;
    }

    lemma ReadyNow()
      requires Detected() && Planned()
      requires Recorded(release)
      requires releaseID in world.releases && start.releases.Keys <= world.releases.Keys && world.app.lastError == ""
      ensures Ready()
    {
      hide Detected, Planned;
    }

    /** Announces the update; a status that cannot be written ends the run. */
    method Begin() returns (stop: Option<Outcome>)
      requires InCharge() && Untouched() && SecretsSettled()
      modifies this`finished, this`terminal, world`calls, world`app, world`finishAsked
      ensures stop.Some? ==> Ended() && Untouched() && terminal == OpFailed && stop.value.Broken?
      ensures stop.None? ==> InCharge() && Untouched() && world.app.lastError == ""
      ensures old(world.calls) <= world.calls && (world.Calm(old(world.calls), world.calls) ==> stop.None?)
    {
      hide ValidSpec, Overwritten, SameIdentity;
      var e := Announce();
      if e.Some? {
        Finish(OpFailed);
        return Some(Broken(e.value));
      }
      stop := None;
    }

    /** Announces the update, then materialises, plans and records the candidate. */
    method PlanCandidate() returns (stop: Option<Outcome>)
      requires InCharge() && Untouched() && restoreSecrets.None? && !secretsRestored && stage == Entered
      requires world.releases == start.releases
      modifies this`stage, this`candidate, this`spec, this`oldSpec, this`oldSourceDir, this`sawCurrent, this`oldStorage,
               this`plan,
               this`release
      modifies this`finished, this`terminal, this`secretsRestored, this`recovered
      modifies world`calls, world`secrets, world`app, world`releases, world`finishAsked
      ensures stage in {Entered, Preflight}
      ensures stop.Some? ==> Ended() && Untouched() && terminal != RolledBack && stop.value.Broken?
      ensures stop.None? ==> InCharge() && Untouched() && Ready()
      ensures stop.None? ==> world.secrets == old(world.secrets) && secretsRestored == old(secretsRestored)
      ensures old(world.calls) <= world.calls && (Fit() && world.Calm(old(world.calls), world.calls) ==> stop.None?)
      ensures stop.None? && CurrentKnown() && world.Calm(old(world.calls), world.calls) ==> sawCurrent
    {
      hide *;
      Settled();
      stop := Begin();
      ghost var begun := world.calls;
      if stop.Some? {
        return;
      }
      var e := RecordCandidate();
      ghost var recorded, was := world.calls, world.app;
      world.CalmParts(old(world.calls), begun, recorded);
      if e.Some? {
        EnoughInCharge();
        StillInCharge();
        AsAtStart();
        var r := FailUpdate(None, e.value);
        world.CalmParts(old(world.calls), begun, world.calls);
        world.CalmParts(begun, recorded, world.calls);
        StillUntouched(was);
        return Some(r);
      }
      stop := None;
    }

    lemma Settled()
      ensures restoreSecrets.None? ==> SecretsSettled()
    {
    }

    lemma StillUntouched(was: AppRow)
      requires world.storage == start.storage && world.containers == start.containers
      requires SameApp(was, start.app) && SameApp(world.app, was)
      ensures Untouched()
    {
    }

    method WriteAndBuild() returns (e: Error, meta: Meta, images: map<string, string>)
      requires InCharge() && Ready() && restoreSecrets.None? && !secretsRestored
      modifies this`stage, this`release, this`restoreSecrets, world`calls, world`secrets, world`releases
      ensures stage in {old(stage), Build}
      ensures InCharge()
      ensures e.None? ==> Ready() && release.images == images
      ensures e.None? ==> world.secrets == start.secrets + req.secrets && meta == NewMeta(world.secrets)
      ensures e.None? ==> images == PreparedImages(world.host, meta, spec)
      ensures old(world.calls) <= world.calls && (Fit() && world.Calm(old(world.calls), world.calls) ==> e.None?)
    {
      hide ValidSpec, Detected, Planned, PreparedImages, Overwritten, SameApp, SameIdentity, VolumesUsable, ValidEnv;
      if Fit() {
        FitIsUsable();
      }
      hide Fit, Ready;
      meta, images := NewMeta(map[]), map[];
      e := WriteSecrets();
      if e.None? {
        e, meta, images := BuildImages();
      }
    }

    /** Writes the new secrets and builds the images. */
    method BuildCandidate() returns (stop: Option<Outcome>, meta: Meta, images: map<string, string>)
      requires InCharge() && Untouched() && Ready() && restoreSecrets.None? && !secretsRestored
      modifies this`stage, this`release, this`restoreSecrets
      modifies this`finished, this`terminal, this`secretsRestored, this`recovered
      modifies world`calls, world`secrets, world`app, world`releases, world`finishAsked
      ensures stage in {old(stage), Build}
      ensures stop.Some? ==> Ended() && Untouched() && terminal != RolledBack && stop.value.Broken?
      ensures stop.None? ==> InCharge() && Untouched() && Ready() && release.images == images
      ensures stop.None? ==> world.secrets == start.secrets + req.secrets && meta == NewMeta(world.secrets)
      ensures stop.None? ==> images == PreparedImages(world.host, meta, spec)
      ensures old(world.calls) <= world.calls && (Fit() && world.Calm(old(world.calls), world.calls) ==> stop.None?)
    {
      hide Fit, ValidSpec, Contains, Ready, NewMeta, PreparedImages, Overwritten;
      var e;
      e, meta, images := WriteAndBuild();
      if e.Some? {
        var r := FailUpdate(Some(release), e.value);
        return Some(r), meta, images;
      }
      stop := None;
    }

    /** A backup that fails is undone, unless a second call fails. */
    ghost predicate BackupVerdict(calls: nat)
      reads this`backupFailed, this`terminal, this`start, world`calls
    {
      && (terminal == RolledBack ==> backupFailed)
      && (backupFailed && terminal != RolledBack && ValidEnv(start.secrets) ==>
            world.TwoFailures(calls, world.calls))
    }

    lemma VerdictWidens(lo: nat, hi: nat)
      requires BackupVerdict(hi) && lo <= hi
      ensures BackupVerdict(lo)
    {
      hide ValidEnv;
      world.FailuresWiden(lo, hi, world.calls);
    }

    /** Stops the previous runtime and backs its storage up. A failing backup resumes it. */
    method StopAndBackUp() returns (stop: Option<Outcome>)
      requires InCharge() && Untouched() && Planned() && world.manifests == start.manifests
      modifies this`stage, this`weStoppedApp, this`seen, this`backupFailed
      modifies this`finished, this`terminal, this`secretsRestored, this`recovered
      modifies world`calls, world`secrets, world`app, world`releases, world`finishAsked, world`containers
      modifies world`manifests, world`copies
      ensures stage == Backup && Faded(start.containers, seen)
      ensures SameApp(world.app, old(world.app))
      ensures stop.Some? ==> Ended() && stop.value.Broken? && Remains(seen, world.containers)
      ensures stop.Some? && terminal == RolledBack ==> Resumed() && FoundAs()
      ensures stop.Some? && terminal == RolledBack && StatusWritten() ==>
        world.app.status == FoundStatus() && world.app.lastError == ""
      ensures stop.None? ==> InCharge() && FoundAs() && Secured() && NoneRunning(world.containers)
      ensures stop.None? ==> world.app == old(world.app) && world.releases == old(world.releases)
      ensures stop.None? ==> world.secrets == old(world.secrets)
      ensures stop.Some? ==> BackupVerdict(old(world.calls))
      ensures old(world.releases).Keys <= world.releases.Keys
      ensures old(world.calls) <= world.calls && (world.Calm(old(world.calls), world.calls) ==> stop.None?)
    {
      hide *;
      backupFailed := false;
      StillInCharge();
      AsFound();
      var e := StopPrevious();
      ghost var stopped := world.calls;
      if e.Some? {
        EnoughInCharge();
        var r := FailUpdate(Some(release), e.value);
        world.CalmParts(old(world.calls), stopped, world.calls);
        NoBackupVerdict(old(world.calls));
        return Some(r);
      }
      FoundAsIs();
      stop := BackUpOrResume();
      world.CalmParts(old(world.calls), stopped, world.calls);
      if stop.Some? {
        VerdictWidens(old(world.calls), stopped);
      }
    }

    /** The app is down. Backs the storage up, or puts the runtime back as it was found. */
    method BackUpOrResume() returns (stop: Option<Outcome>)
      requires InCharge() && Planned() && world.manifests == start.manifests
      requires FoundAs() && NoneRunning(world.containers) && (weStoppedApp ==> world.containers != map[])
      requires if weStoppedApp then Remains(seen, world.containers) else world.containers == seen
      requires Remains(seen, world.containers)
      modifies this`backupFailed, this`finished, this`terminal, this`secretsRestored, this`recovered
      modifies world`calls, world`secrets, world`app, world`releases, world`finishAsked, world`containers
      modifies world`manifests, world`copies
      ensures SameApp(world.app, old(world.app))
      ensures stop.Some? ==> Ended() && stop.value.Broken? && Remains(seen, world.containers)
      ensures stop.Some? && terminal == RolledBack ==> Resumed()
      ensures stop.Some? && terminal == RolledBack && StatusWritten() ==>
        world.app.status == FoundStatus() && world.app.lastError == ""
      ensures stop.None? ==> InCharge() && Secured() && world.containers == old(world.containers)
      ensures stop.None? ==> world.app == old(world.app) && world.releases == old(world.releases)
      ensures stop.None? ==> world.secrets == old(world.secrets)
      ensures stop.Some? ==> BackupVerdict(old(world.calls))
      ensures old(world.releases).Keys <= world.releases.Keys
      ensures old(world.calls) <= world.calls && (world.Calm(old(world.calls), world.calls) ==> stop.None?)
    {
      hide *;
      StillInCharge();
      var e := BackUp();
      backupFailed := e.Some?;
      ghost var secured := world.calls;
      if e.Some? {
        var r := ResumePrevious(e.value);
        world.CalmParts(old(world.calls), secured, world.calls);
        FailedBackupVerdict(old(world.calls), secured);
        return Some(r);
      }
      e := world.Try();
      if e.Some? {
        EnoughInCharge();
        var r := FailUpdate(Some(release), e.value);
        world.CalmHere(old(world.calls), world.calls, secured);
        NoBackupVerdict(old(world.calls));
        return Some(r);
      }
      SameAppSelf(world.app);
      stop := None;
    }

    lemma NoBackupVerdict(calls: nat)
      requires !backupFailed && terminal != RolledBack
      ensures BackupVerdict(calls)
    {
    }

    lemma FailedBackupVerdict(lo: nat, mid: nat)
      requires backupFailed && lo <= mid <= world.calls && !world.Calm(lo, mid)
      requires ValidEnv(start.secrets) && world.Calm(mid, world.calls) ==> terminal == RolledBack
      ensures BackupVerdict(lo)
    {
      hide ValidEnv, world.Calm, world.TwoFailures;
      world.BothFail(lo, mid, world.calls);
    }

    /** Containers are those of the start, as far as the run knows before it looks. */
    lemma AsFound()
      requires Untouched()
      ensures world.containers == start.containers
    {
    }

    lemma EnoughInCharge()
      requires InCharge()
      ensures InChargeButRecovered()
    {
    }

    lemma FoundAsIs()
      requires weStoppedApp == (StatusOf(seen, ServiceCount(oldSpec)) != Down)
      ensures FoundAs()
    {
    }

    lemma SameAppSelf(a: AppRow)
      ensures SameApp(a, a)
    {
    }

    /** Whether this update is what stops the app, by what was found before the backup. */
    ghost predicate FoundAs()
      reads this`weStoppedApp, this`seen, this`oldSpec
    {
      weStoppedApp == (StatusOf(seen, ServiceCount(oldSpec)) != Down)
    }

    /** Cut-over, verification and commit; any failure rolls the candidate back. It begins with the storage secured and
        with nothing running. */
    method Replace(meta: Meta, images: map<string, string>) returns (r: Outcome)
      requires InCharge() && Ready() && world.storage == start.storage
      requires Secured() && NoneRunning(world.containers) && SameApp(world.app, start.app)
      requires world.secrets == start.secrets + req.secrets && meta == NewMeta(world.secrets)
      requires release.images == images == PreparedImages(world.host, meta, spec)
      modifies this`stage, this`release, this`candidate, this`restoreSecrets
      modifies this`finished, this`terminal, this`secretsRestored, this`recovered
      modifies world`calls, world`secrets, world`app, world`storage, world`releases, world`finishAsked, world`containers
      ensures r.Updated? ==>
        Committed() && finished && terminal == Completed && world.finishAsked == start.asked + [Completed]
      ensures !r.Updated? ==> r.Broken? && Ended() && stage == Rollback
      ensures terminal == OpFailed && stage == Rollback && SecretsRecognised() ==> OnlyPrevious()
      ensures terminal == RolledBack ==>
        Recreated() && world.storage == start.storage && SameApp(world.app, Overwritten(start.app, app))
      ensures terminal == RolledBack && StatusWritten() ==>
        world.app.status == FoundStatus() && world.app.lastError == ""
      ensures r.Broken? ==> MappingsLeft() && RowLeft()
      ensures old(world.calls) <= world.calls && (Fit() && world.Calm(old(world.calls), world.calls) ==> r.Updated?)
      ensures r.Broken? && terminal != RolledBack && Fit() && Restorable() ==>
        world.TwoFailures(old(world.calls), world.calls)
    {
      hide *;
      KeepsPointer();
      ghost var releases := world.releases;
      var e := TryReplace(meta, images);
      ghost var between := world.calls;
      StillInCharge();
      PointerStays(releases, world.releases);
      if e.Some? {
        r := RollbackCandidate(e.value);
        world.CalmParts(old(world.calls), between, world.calls);
        world.BothFail(old(world.calls), between, world.calls);
        return;
      }
      restoreSecrets := None;
      Finish(Completed);
      r := Updated;
      world.CalmParts(old(world.calls), between, world.calls);
    }

    lemma StillInCharge()
      requires InCharge()
      ensures !finished && recovered.None? && SecretsTracked() && world.finishAsked == start.asked && SameIdentity()
      ensures Overwritten(world.app, app).(lastError := "") == Overwritten(start.app, app).(lastError := "")
    {
    }

    lemma PointerStays(before: map<string, Release>, after: map<string, Release>)
      requires before.Keys <= after.Keys
      ensures PointerKnown(before) ==> PointerKnown(after)
    {
    }

    lemma KeepsPointer()
      ensures Ready() && Restorable() ==> PointerKnown(world.releases)
    {
      hide PreviousDeployable, Detected, Planned, ValidEnv;
    }

    method TryReplace(meta: Meta, images: map<string, string>) returns (e: Error)
      requires InCharge() && Ready() && world.storage == start.storage && SameApp(world.app, start.app)
      requires world.secrets == start.secrets + req.secrets && meta == NewMeta(world.secrets)
      requires release.images == images == PreparedImages(world.host, meta, spec)
      modifies this`stage, this`release, this`candidate
      modifies world`calls, world`app, world`storage, world`releases, world`containers
      ensures InCharge() && oldStorage == start.storage
      ensures e.None? ==> Committed()
      ensures MappingsLeft() && RowLeft()
      ensures old(world.releases).Keys <= world.releases.Keys
      ensures old(world.calls) <= world.calls && (Fit() && world.Calm(old(world.calls), world.calls) ==> e.None?)
    {
      hide ValidSpec, Accepts, CandidateFor, DeployedAs, AllRunning, PreparedImages, NewMeta, Committed, Overwritten,
           PreviousFound, Detected, SecretsTracked, SameIdentity, SameApp, Deployable;
      if Fit() {
        FitIsDeployable(world.secrets);
      }
      hide Fit;
      e := CutOver(meta, images);
      if e.None? {
        e := CommitRelease(meta);
      }
    }

    method CommitRelease(ghost meta: Meta) returns (e: Error)
      requires InCharge() && Ready() && world.storage == start.storage
      requires world.secrets == start.secrets + req.secrets && meta == NewMeta(world.secrets)
      requires SameApp(world.app, start.app) && release.images == PreparedImages(world.host, meta, spec)
      requires DeployedAs(world.containers, world.host, meta, spec, releaseDir) && AllRunning(world.containers)
      modifies this`stage, this`release, this`candidate, world`calls, world`app, world`releases, world`storage
      ensures InCharge()
      ensures e.None? ==> Committed()
      ensures MappingsLeft() && RowLeft()
      ensures old(world.releases).Keys <= world.releases.Keys
      ensures old(world.calls) <= world.calls && (Fit() && world.Calm(old(world.calls), world.calls) ==> e.None?)
    {
      hide *;
      if Fit() {
        FitIsUsable();
      }
      ReadyIs();
      StillInCharge();
      MetaIs(world.secrets);
      ghost var was, row, recorded := world.app, candidate, release;
      e := CommitRows();
      if e.None? {
        CommittedNow(was, row, recorded, meta);
      }
    }

    /** Commit, with what it leaves when it fails. */
    method CommitRows() returns (e: Error)
      requires InCharge() && candidate == CandidateRow() && world.storage == start.storage
      requires SameApp(world.app, start.app)
      requires Overwritten(world.app, app).(lastError := "") == Overwritten(start.app, app).(lastError := "")
      modifies this`stage, this`release, this`candidate, world`calls, world`app, world`releases, world`storage
      ensures InCharge() && MappingsLeft() && RowLeft()
      ensures release == old(release).(status := release.status) && CandidateStays(old(candidate))
      ensures old(world.releases).Keys <= world.releases.Keys
      ensures e.None? ==>
        && world.app == Overwritten(old(world.app), candidate) && candidate.status == Running
        && releaseID in world.releases && world.releases[releaseID] == Bounded(release) && release.status == Live
        && world.storage == old(world.storage) + plan.candidate
      ensures old(world.calls) <= world.calls
      ensures (ValidEnv(old(candidate).env) && releaseID in old(world.releases)
               && world.Calm(old(world.calls), world.calls)) ==> e.None?
    {
      hide *;
      StillInCharge();
      ghost var was, row := world.app, candidate;
      e := Commit();
      BackInCharge();
      DrawnIsLeft();
      RowAfterCommit(was, row);
    }

    lemma ReadyIs()
      requires Ready()
      ensures candidate == CandidateRow() && parse(checkout.compose) == Some(spec) && Planned()
      ensures releaseID in world.releases && world.app.lastError == "" && Recorded(release)
    {
      hide Planned, CandidateRow;
    }

    lemma BackInCharge()
      requires !finished && recovered.None? && SecretsTracked() && world.finishAsked == start.asked && SameIdentity()
      ensures InCharge()
    {
      hide SecretsTracked, SameIdentity;
    }

    lemma DrawnIsLeft()
      ensures Drawn(world.storage, start.storage, plan.candidate) <==> MappingsLeft()
    {
    }

    /** The row after the final write. */
    lemma RowAfterCommit(was: AppRow, row: AppRow)
      requires row == CandidateRow() && CandidateStays(row) && SameApp(was, start.app)
      requires Overwritten(was, app).(lastError := "") == Overwritten(start.app, app).(lastError := "")
      requires world.app == was || world.app == Overwritten(was, candidate)
      ensures RowLeft()
    {
      hide Overwritten, CandidateSource;
      if world.app != was {
        SameRowWritten(was, start.app, app, CandidateRow(), candidate);
      }
    }

    lemma MetaIs(secrets: map<string, string>)
      ensures NewMeta(secrets) == Meta(candidate.env + secrets, plan.candidate,
                                       ReleaseTags(world.host, spec, releaseID))
    {
    }

    lemma CommittedNow(was: AppRow, row: AppRow, recorded: Release, meta: Meta)
      requires row == CandidateRow() && CandidateStays(row) && parse(checkout.compose) == Some(spec) && Planned()
      requires was.lastError == ""
      requires Overwritten(was, app).(lastError := "") == Overwritten(start.app, app).(lastError := "")
      requires world.app == Overwritten(was, candidate) && candidate.status == Running
      requires Recorded(recorded) && recorded.images == PreparedImages(world.host, meta, spec)
      requires release == recorded.(status := Live) && releaseID in world.releases
      requires world.releases[releaseID] == Bounded(release)
      requires world.secrets == start.secrets + req.secrets && world.storage == start.storage + plan.candidate
      requires meta == Meta(row.env + world.secrets, plan.candidate, ReleaseTags(world.host, spec, releaseID))
      requires DeployedAs(world.containers, world.host, meta, spec, releaseDir) && AllRunning(world.containers)
      ensures Committed()
    {
      CandidateCarriesCompose();
      MetaIs(world.secrets);
      RecordStays(recorded, world.releases[releaseID]);
      SourceNamed(was, row);
      hide Recorded, NamesSource, PreparedImages;
      hide Accepts, CandidateFor, DeployedAs, AllRunning, PreviousFound, PlanSound, Overwritten, CandidateSource,
           BoundedError, ValidSpec, NewMeta;
      SameOwner(was, start.app, app, CandidateRow().(status := Running), candidate);
    }

    lemma RecordStays(a: Release, b: Release)
      requires Recorded(a) && b == a.(status := b.status, images := b.images, lastError := b.lastError)
      ensures Recorded(b) && b.compose == checkout.compose && b.previous == app.currentRelease
    {
      hide RefAsAsked;
    }

    lemma SourceNamed(was: AppRow, row: AppRow)
      requires row == CandidateRow() && CandidateStays(row) && world.app == Overwritten(was, candidate)
      ensures NamesSource(world.app)
    {
    }

    lemma CandidateCarriesCompose()
      ensures CandidateRow().source.compose == checkout.compose
    {
    }

    /** The request suits the app, and the operation passed in, if any, is the app's own. */
    predicate Admitted(claimed: Option<string>, row: AppRow) {
      && (req.archivePath != "" <==> row.id.sourceType == Drop)
      && (req.archivePath != "" ==> TrimSpace(req.ref) == "")
      && (claimed.Some? ==> claimed.value == world.host.appID)
    }

    /** Reads the app, refuses what cannot be updated, and takes responsibility for an operation: the caller's, or one
        claimed here. Other writers may run between the read and a claim made here. */
    method Enter(claimed: Option<string>) returns (r: Option<Outcome>)
      requires !finished && restoreSecrets.None? && !secretsRestored && recovered.None?
      modifies this`app, this`start, world`calls, world`app, world`secrets, world`storage, world`releases,
               world`containers
      ensures r.Some? ==> r.value.Rejected?
      ensures r.None? ==> InCharge() && Untouched() && SecretsSettled() && SameSource()
      ensures r.None? ==>
        start == Snapshot(world.app, world.secrets, world.storage, world.containers, world.finishAsked,
                          world.releases, world.manifests)
      ensures r.None? && claimed.Some? ==> claimed.value == world.host.appID && app == Loaded(old(world.app))
      ensures r.None? ==> ValidEnv(app.env) && world.releases == start.releases && world.manifests == start.manifests
      ensures old(world.calls) <= world.calls
      ensures r.None? ==> Admitted(claimed, app)
      ensures Admitted(claimed, old(world.app)) && world.Calm(old(world.calls), world.calls) ==> r.None?
      ensures claimed.Some? ==>
        && world.app == old(world.app) && world.secrets == old(world.secrets) && world.storage == old(world.storage)
        && world.releases == old(world.releases) && world.containers == old(world.containers)
    {
      var e, row := world.GetAppByName();
      if e.Some? {
        return Some(Rejected(e.value));
      }
      app := row;
      LoadedIsValid(world.app);
      hide ValidEnv;
      if (req.archivePath != "") != (app.id.sourceType == Drop) {
        return Some(Rejected("wrong kind of source"));
      }
      if req.archivePath != "" && TrimSpace(req.ref) != "" {
        return Some(Rejected("ref and archive together"));
      }
      if claimed.None? {
        world.OthersRun();
        e := world.Try();
        if e.Some? {
          return Some(Rejected(e.value));
        }
      } else if claimed.value != world.host.appID {
        return Some(Rejected("operation of another app"));
      }
      start := Snapshot(world.app, world.secrets, world.storage, world.containers, world.finishAsked, world.releases,
                        world.manifests);
      r := None;
    }

    /** The request brings an archive exactly for an app that is deployed from manifests. */
    ghost predicate SameSource()
      reads this`app
    {
      (req.archivePath != "") <==> app.id.sourceType == Drop
    }

    /** What "rolled_back" promises. Before the cut-over nothing but the runtime had to be put back; after it the
        previous release was recreated and the row read at the start was written again. */
    ghost predicate RestoredAsReported()
      reads this`stage, this`seen, this`weStoppedApp, this`oldSpec, this`oldSourceDir, this`sawCurrent, this`app,
            this`start, this`plan, world`secrets, world`storage, world`app, world`containers, world`calls
    {
      && world.secrets == start.secrets
      && world.storage == start.storage
      && (stage == Backup || stage == Rollback)
      && (stage == Backup ==> SameApp(world.app, start.app) && Resumed())
      && (stage == Rollback ==> SameApp(world.app, Overwritten(start.app, app)) && Recreated())
      && (StatusWritten() ==> world.app.status == FoundStatus() && world.app.lastError == "")
      && Faded(start.containers, seen) && FoundAs()
      && PreviousFound() && plan.previous == discovered + start.storage
    }

    /** An app found idle ends idle exactly when its previous compose text parses or it had no container: without a
        parsable text it looks running, is stopped, and a failed backup then starts it. */
    lemma {:induction false} IdleVerdict()
      requires RestoredAsReported() && NoneRunning(start.containers)
      ensures NoneRunning(world.containers) <==> oldSpec.Some? || start.containers == map[]
      ensures NoneRunning(world.containers) <==> FoundStatus() == Stopped
    {
      assert NoneRunning(seen) by {
        forall n | n in seen ensures !seen[n].running {
        }
      }
      IdleIsStopped(seen, ServiceCount(oldSpec));
      assert |seen| == 0 <==> start.containers == map[] by {
        assert seen.Keys == start.containers.Keys;
        assert |seen| == |seen.Keys|;
      }
      if weStoppedApp {
        assert oldSpec.None?;
        assert stage == Backup;
        var n :| n in world.containers;
        assert world.containers[n].running;
      }
    }

    /** The whole transaction, for every outcome of every call. */
    method Update(claimed: Option<string>) returns (r: Outcome)
      requires !finished && restoreSecrets.None? && !secretsRestored && recovered.None? && stage == Entered
      modifies this, world
      // A run that holds no operation asks for nothing; one that does asks exactly once, and for "completed"
      // exactly when it returns no error.
      ensures r.Rejected? ==> world.finishAsked == old(world.finishAsked)
      ensures !r.Rejected? ==> world.finishAsked == old(world.finishAsked) + [terminal]
      ensures !r.Rejected? ==> (r.Updated? <==> terminal == Completed)
      ensures !r.Rejected? ==> Admitted(claimed, app)
      // With the operation claimed by the caller, the start is the state at the call.
      ensures claimed.Some? && !r.Rejected? ==> app == Loaded(old(world.app))
      ensures claimed.Some? && !r.Rejected? ==>
        start == Snapshot(old(world.app), old(world.secrets), old(world.storage), old(world.containers),
                          old(world.finishAsked), old(world.releases), old(world.manifests))
      ensures claimed.Some? && r.Rejected? ==>
        && world.app == old(world.app) && world.secrets == old(world.secrets) && world.storage == old(world.storage)
        && world.releases == old(world.releases) && world.containers == old(world.containers)
      ensures claimed.Some? && !r.Rejected? && terminal == RolledBack ==>
        && world.secrets == old(world.secrets) && world.storage == old(world.storage)
        && (Loaded(old(world.app)) == old(world.app) ==> SameApp(world.app, old(world.app)))
      ensures r.Updated? ==> Committed()
      // With every call working, a run that is admitted and whose candidate can be deployed completes. A single
      // failing call leads to "rolled_back" if it fails the backup, and past the cut-over when there is a release to go
      // back to.
      ensures old(world.calls) <= world.calls
      ensures Admitted(claimed, old(world.app)) && world.Calm(old(world.calls), world.calls) ==> !r.Rejected?
      ensures !r.Rejected? && Fit() && world.Calm(old(world.calls), world.calls) ==> r.Updated?
      ensures r.Broken? && stage == Rollback && terminal != RolledBack && Fit() && Restorable() ==>
        world.TwoFailures(old(world.calls), world.calls)
      // And what it goes back to is the current release, unless that could not be read.
      ensures r.Broken? && stage == Rollback && Fit() && CurrentKnown() && !sawCurrent ==>
        world.TwoFailures(old(world.calls), world.calls)
      ensures r.Broken? && stage == Backup ==> BackupVerdict(old(world.calls))
      // Whatever fails, rows and mappings are left in a known state.
      ensures r.Broken? ==> LeftBehind()
      // Nothing was replaced before the planned locations were archived and the planned copies made.
      ensures r.Updated? || (r.Broken? && stage == Rollback) ==> Secured()
      // A failure is never reported as less than it is: unless the status is "rollback_failed", the secrets are back.
      ensures r.Broken? ==> Ended()
      // Unless secrets cut into its words a failed rollback is reported as such: a run that ends as plainly failed
      // after the cut-over leaves no candidate container.
      ensures r.Broken? && terminal == OpFailed && stage == Rollback && SecretsRecognised() ==> OnlyPrevious()
      ensures r.Broken? && stage in {Entered, Preflight, Build} ==> Untouched() && terminal != RolledBack
      ensures !r.Rejected? && terminal == RolledBack ==> RestoredAsReported()
      ensures !r.Rejected? && terminal == RolledBack && NoneRunning(start.containers) ==>
        (NoneRunning(world.containers) <==> oldSpec.Some? || start.containers == map[])
    {
      hide *;
      var entered := Enter(claimed);
      ghost var begun := world.calls;
      if entered.Some? {
        return entered.value;
      }
      r := Run();
      FromTheStart(old(world.calls), begun);
      WhenRolledBack();
    }

    /** What holds of the calls since a run began holds of those since its request. */
    lemma FromTheStart(lo: nat, hi: nat)
      ensures lo <= hi <= world.calls ==>
        && (world.Calm(lo, world.calls) ==> world.Calm(lo, hi) && world.Calm(hi, world.calls))
        && (world.TwoFailures(hi, world.calls) ==> world.TwoFailures(lo, world.calls))
        && (BackupVerdict(hi) ==> BackupVerdict(lo))
    {
      hide *;
      world.CalmParts(lo, hi, world.calls);
      world.FailuresWiden(lo, hi, world.calls);
      if BackupVerdict(hi) && lo <= hi {
        VerdictWidens(lo, hi);
      }
    }

    lemma WhenRolledBack()
      ensures RestoredAsReported() ==>
        && world.secrets == start.secrets && world.storage == start.storage
        && (app == Loaded(start.app) == start.app ==> SameApp(world.app, start.app))
        && (NoneRunning(start.containers) ==>
              (NoneRunning(world.containers) <==> oldSpec.Some? || start.containers == map[]))
    {
      hide *;
      if RestoredAsReported() {
        OwnRowIsBack();
        if NoneRunning(start.containers) {
          IdleVerdict();
        }
      }
    }

    /** When the row was read under the claim, and reads as it is stored, rolling back brings back that row, its
        pointer to the current release included. */
    lemma OwnRowIsBack()
      requires RestoredAsReported()
      ensures world.secrets == start.secrets && world.storage == start.storage
      ensures app == Loaded(start.app) == start.app ==> SameApp(world.app, start.app)
    {
      hide Recreated, Resumed, FoundAs, Faded, PreviousFound;
    }

    method Run() returns (r: Outcome)
      requires InCharge() && Untouched() && restoreSecrets.None? && !secretsRestored && stage == Entered
      requires world.releases == start.releases && world.manifests == start.manifests
      modifies world`manifests, world`copies
      modifies this`stage, this`candidate, this`spec, this`oldSpec, this`oldSourceDir, this`sawCurrent, this`oldStorage,
               this`plan,
               this`release
      modifies this`restoreSecrets, this`weStoppedApp, this`seen, this`backupFailed
      modifies this`finished, this`terminal, this`secretsRestored, this`recovered
      modifies world`calls, world`secrets, world`app, world`storage, world`releases, world`finishAsked, world`containers
      ensures world.finishAsked == start.asked + [terminal]
      ensures r.Updated? <==> terminal == Completed
      ensures r.Updated? ==> Committed()
      ensures !r.Updated? ==> r.Broken? && Ended()
      ensures r.Broken? && stage in {Entered, Preflight, Build} ==> Untouched() && terminal != RolledBack
      ensures terminal == RolledBack ==> RestoredAsReported()
      ensures r.Broken? && stage == Backup ==> BackupVerdict(old(world.calls))
      ensures terminal == OpFailed && stage == Rollback && SecretsRecognised() ==> OnlyPrevious()
      ensures r.Updated? || stage == Rollback ==> Secured()
      ensures r.Broken? ==> LeftBehind()
      ensures old(world.calls) <= world.calls && (Fit() && world.Calm(old(world.calls), world.calls) ==> r.Updated?)
      ensures r.Broken? && stage == Rollback && terminal != RolledBack && Fit() && Restorable() ==>
        world.TwoFailures(old(world.calls), world.calls)
      ensures r.Broken? && stage == Rollback && Fit() && CurrentKnown() && !sawCurrent ==>
        world.TwoFailures(old(world.calls), world.calls)
    {
      hide *;
      var stop, meta, images := ReadyCandidate();
      ghost var built := world.calls;
      if stop.Some? {
        OnlyFailuresEnd();
        UntouchedIsLeft();
        return stop.value;
      }
      r := StopAndReplace(meta, images);
      if r.Broken? && stage == Backup {
        VerdictWidens(old(world.calls), built);
      }
      world.CalmParts(old(world.calls), built, world.calls);
      world.BothFail(old(world.calls), built, world.calls);
      world.FailuresWiden(old(world.calls), built, world.calls);
    }

    /** Everything up to the first stop: no container is touched yet. */
    method ReadyCandidate() returns (stop: Option<Outcome>, meta: Meta, images: map<string, string>)
      requires InCharge() && Untouched() && restoreSecrets.None? && !secretsRestored && stage == Entered
      requires world.releases == start.releases
      modifies this`stage, this`candidate, this`spec, this`oldSpec, this`oldSourceDir, this`sawCurrent, this`oldStorage,
               this`plan, this`release
      modifies this`restoreSecrets, this`finished, this`terminal, this`secretsRestored, this`recovered
      modifies world`calls, world`secrets, world`app, world`releases, world`finishAsked
      ensures stage in {Entered, Preflight, Build}
      ensures stop.Some? ==> Ended() && Untouched() && terminal != RolledBack && stop.value.Broken?
      ensures stop.None? ==> InCharge() && Untouched() && Ready() && release.images == images
      ensures stop.None? ==> world.secrets == start.secrets + req.secrets && meta == NewMeta(world.secrets)
      ensures stop.None? ==> images == PreparedImages(world.host, meta, spec)
      ensures stop.None? && CurrentKnown() && world.Calm(old(world.calls), world.calls) ==> sawCurrent
      ensures old(world.calls) <= world.calls && (Fit() && world.Calm(old(world.calls), world.calls) ==> stop.None?)
    {
      hide *;
      stop := PlanCandidate();
      ghost var planned := world.calls;
      meta, images := NewMeta(map[]), map[];
      if stop.None? {
        stop, meta, images := BuildCandidate();
      }
      world.CalmParts(old(world.calls), planned, world.calls);
    }

    lemma UntouchedIsLeft()
      requires Untouched() && stage != Rollback
      ensures LeftBehind()
    {
      hide SameApp;
    }

    method StopAndReplace(meta: Meta, images: map<string, string>) returns (r: Outcome)
      requires InCharge() && Untouched() && Ready() && world.manifests == start.manifests
      requires world.secrets == start.secrets + req.secrets && meta == NewMeta(world.secrets)
      requires release.images == images == PreparedImages(world.host, meta, spec)
      modifies this`stage, this`candidate, this`release, this`restoreSecrets, this`weStoppedApp, this`seen,
               this`backupFailed
      modifies world`manifests, world`copies
      modifies this`finished, this`terminal, this`secretsRestored, this`recovered
      modifies world`calls, world`secrets, world`app, world`storage, world`releases, world`finishAsked, world`containers
      ensures world.finishAsked == start.asked + [terminal]
      ensures r.Updated? <==> terminal == Completed
      ensures r.Updated? ==> Committed()
      ensures !r.Updated? ==> r.Broken? && Ended() && stage in {Backup, Rollback} && LeftBehind()
      ensures terminal == RolledBack ==> RestoredAsReported()
      ensures r.Broken? && stage == Backup ==> BackupVerdict(old(world.calls))
      ensures terminal == OpFailed && stage == Rollback && SecretsRecognised() ==> OnlyPrevious()
      ensures r.Updated? || stage == Rollback ==> Secured()
      ensures old(world.calls) <= world.calls && (Fit() && world.Calm(old(world.calls), world.calls) ==> r.Updated?)
      ensures r.Broken? && stage == Rollback && terminal != RolledBack && Fit() && Restorable() ==>
        world.TwoFailures(old(world.calls), world.calls)
    {
      hide *;
      PlannedFromPrevious();
      FoundUntouched();
      var stop := StopOrReport();
      ghost var stopped := world.calls;
      if stop.Some? {
        return stop.value;
      }
      r := ReplaceOrReport(meta, images);
      world.CalmParts(old(world.calls), stopped, world.calls);
      world.FailuresWiden(old(world.calls), stopped, world.calls);
    }

    method StopOrReport() returns (stop: Option<Outcome>)
      requires InCharge() && Untouched() && Planned() && world.manifests == start.manifests
      requires PreviousFound() && plan.previous == discovered + start.storage
      modifies this`stage, this`weStoppedApp, this`seen, this`backupFailed
      modifies this`finished, this`terminal, this`secretsRestored, this`recovered
      modifies world`calls, world`secrets, world`app, world`releases, world`finishAsked, world`containers
      modifies world`manifests, world`copies
      ensures stage == Backup && Faded(start.containers, seen)
      ensures stop.Some? ==> stop.value.Broken? && Ended() && LeftBehind()
      ensures stop.Some? ==> BackupVerdict(old(world.calls))
      ensures stop.Some? ==> terminal != Completed && world.finishAsked == start.asked + [terminal]
      ensures stop.Some? && terminal == RolledBack ==> RestoredAsReported()
      ensures stop.None? ==> InCharge() && FoundAs() && Secured() && NoneRunning(world.containers)
      ensures stop.None? ==> world.app == old(world.app) && world.releases == old(world.releases)
      ensures stop.None? ==> world.secrets == old(world.secrets)
      ensures old(world.calls) <= world.calls && (world.Calm(old(world.calls), world.calls) ==> stop.None?)
    {
      hide *;
      ghost var was := world.app;
      FoundUntouched();
      stop := StopAndBackUp();
      if stop.Some? {
        OnlyFailuresEnd();
        StoppedIsLeft(was);
        if terminal == RolledBack {
          BackupRestored(was);
        }
      }
    }

    method ReplaceOrReport(meta: Meta, images: map<string, string>) returns (r: Outcome)
      requires InCharge() && Ready() && world.storage == start.storage && FoundAs() && Faded(start.containers, seen)
      requires Secured() && NoneRunning(world.containers) && SameApp(world.app, start.app)
      requires PreviousFound() && plan.previous == discovered + start.storage
      requires world.secrets == start.secrets + req.secrets && meta == NewMeta(world.secrets)
      requires release.images == images == PreparedImages(world.host, meta, spec)
      modifies this`stage, this`release, this`candidate, this`restoreSecrets
      modifies this`finished, this`terminal, this`secretsRestored, this`recovered
      modifies world`calls, world`secrets, world`app, world`storage, world`releases, world`finishAsked, world`containers
      ensures world.finishAsked == start.asked + [terminal] && Secured()
      ensures r.Updated? <==> terminal == Completed
      ensures r.Updated? ==> Committed()
      ensures !r.Updated? ==> r.Broken? && Ended() && stage == Rollback && LeftBehind()
      ensures terminal == RolledBack ==> RestoredAsReported()
      ensures terminal == OpFailed && stage == Rollback && SecretsRecognised() ==> OnlyPrevious()
      ensures old(world.calls) <= world.calls && (Fit() && world.Calm(old(world.calls), world.calls) ==> r.Updated?)
      ensures r.Broken? && terminal != RolledBack && Fit() && Restorable() ==>
        world.TwoFailures(old(world.calls), world.calls)
    {
      hide *;
      r := Replace(meta, images);
      if !r.Updated? {
        OnlyFailuresEnd();
        CutOverIsLeft();
        if terminal == RolledBack {
          CutOverRestored();
        }
      }
    }

    lemma StoppedIsLeft(was: AppRow)
      requires stage == Backup && world.storage == start.storage
      requires SameApp(world.app, was) && SameApp(was, start.app)
      requires Faded(start.containers, seen) && Remains(seen, world.containers)
      ensures LeftBehind()
    {
      RemainsTransitive(start.containers, seen, world.containers);
      hide Remains;
    }

    lemma CutOverIsLeft()
      requires stage == Rollback && Secured() && MappingsLeft() && RowLeft()
      ensures LeftBehind()
    {
      hide Secured, MappingsLeft, RowLeft;
    }

    lemma FoundUntouched()
      requires Untouched()
      ensures world.storage == start.storage && SameApp(world.app, start.app)
    {
    }

    lemma OnlyFailuresEnd()
      requires Ended()
      ensures terminal != Completed && world.finishAsked == start.asked + [terminal]
    {
    }

    lemma BackupRestored(was: AppRow)
      requires Ended() && terminal == RolledBack && stage == Backup
      requires Resumed() && FoundAs() && Faded(start.containers, seen)
      requires SameApp(world.app, was) && SameApp(was, start.app) && world.storage == start.storage
      requires StatusWritten() ==> world.app.status == FoundStatus() && world.app.lastError == ""
      requires PreviousFound() && plan.previous == discovered + start.storage
      ensures RestoredAsReported()
    {
      hide Resumed, FoundAs, Faded, PreviousFound;
    }

    lemma CutOverRestored()
      requires Ended() && terminal == RolledBack && stage == Rollback
      requires Recreated() && FoundAs() && Faded(start.containers, seen)
      requires SameApp(world.app, Overwritten(start.app, app)) && world.storage == start.storage
      requires StatusWritten() ==> world.app.status == FoundStatus() && world.app.lastError == ""
      requires PreviousFound() && plan.previous == discovered + start.storage
      ensures RestoredAsReported()
    {
      hide Recreated, FoundAs, Faded, PreviousFound, SameApp, Overwritten;
    }
  }

  /** An unparsable stored compose counts as a spec without services. */
  function ServiceCount(spec: Option<ParsedSpec>): nat {
    if spec.None? then 0 else |spec.value.services|
  }
}
