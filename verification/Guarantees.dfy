/** What follows from the outcomes of whole updates and redeploys: for the app's storage over time, and for the
    containers that are left running. */
module Guarantees {
  import opened Common
  import opened Paths
  import opened Volumes
  import opened Compose
  import opened Storage
  import opened Backups
  import opened Resolver
  import opened Environment
  import opened Operations
  import opened Update
  import StorageHistory

  ghost function AppOf(run: UpdateRun): StorageHistory.App {
    StorageHistory.App(run.world.host.naming, run.world.host.appID)
  }

  /** The event that an update was in the app's storage history, by how it ended. */
  ghost function EventOf(run: UpdateRun, completed: bool): StorageHistory.Event
    reads run, run.world
  {
    if completed then StorageHistory.Completed(run.discovered, run.oldSourceDir, run.spec)
    else if run.stage != Rollback || run.world.storage == run.start.storage then StorageHistory.Unchanged
    else StorageHistory.Broken(run.discovered, run.oldSourceDir, run.spec, run.world.storage.Keys)
  }

  /** Every update, however it ends, is a step of the app's storage history; a completed or rolled-back one never loses
      a mapping. */
  lemma {:induction false} UpdatesAreHistory(run: UpdateRun, completed: bool)
    requires if completed then run.Committed() else run.LeftBehind()
    ensures StorageHistory.Step(AppOf(run), run.start.storage, EventOf(run, completed), run.world.storage)
    ensures run.RestoredAsReported() && !completed ==> EventOf(run, completed).Unchanged?
  {
    hide Accepts, CandidateFor, PlanSound, DeployedAs, AllRunning, ValidSpec, Remains, UpdateRun.Recreated,
         UpdateRun.Resumed;
    var c := run.plan.candidate;
    if completed || (run.stage == Rollback && run.world.storage != run.start.storage) {
      assert StorageHistory.Planned(AppOf(run), run.start.storage, run.discovered, run.oldSourceDir, run.spec, c);
      StorageHistory.CandidateKeepsKnown(AppOf(run), run.start.storage, run.discovered, run.oldSourceDir, run.spec, c);
      hide StorageHistory.Planned;
      if !completed {
        DrawnIsPart(run.world.storage, run.start.storage, c);
      }
    }
  }

  /** Mappings drawn from old ones and from a candidate that repeats them are a part of the candidate laid over the
      old. */
  lemma DrawnIsPart(after: StorageHistory.Mappings, before: StorageHistory.Mappings, c: StorageHistory.Mappings)
    requires Drawn(after, before, c) && forall l | l in before && l in c :: c[l] == before[l]
    ensures after == StorageHistory.Part(before + c, after.Keys)
  {
  }

  /** The mount stays in the source tree instead of going to its planned location. */
  predicate ReadFromSource(ctx: BindContext, mount: Mount) {
    TreatedAsPath(ctx, mount) && mount.readOnly
  }

  /** Where a deployment mounts a storage: in the source tree, or where the mappings have its key. */
  function Place(ctx: BindContext, mount: Mount): string
    requires CanonicalStorageKey(mount.source) in ctx.storage
  {
    if ReadFromSource(ctx, mount) then JoinPath(ctx.sourceDir, mount.source)
    else ctx.storage[CanonicalStorageKey(mount.source)].ref
  }

  /** Every mount of every container of a deployment goes to the location that the mappings give its key, read-only
      paths into the source tree apart: its text names that place and the mount's target, and it is read-only exactly
      when the mount of the spec is. */
  lemma {:induction false} DeployedMountsFollowPlan(cs: Containers, host: Host, meta: Meta, spec: Spec,
                                                    sourceDir: string, inp: Inputs, s: string, i: nat)
    requires DeployedAs(cs, host, meta, spec, sourceDir) && s in spec.services && i < |spec.services[s].volumes|
    requires Accepts(inp, spec) && CandidateFor(inp, Mounts(spec), meta.storage)
    ensures var raw := spec.services[s].volumes[i];
      var binds := cs[ContainerName(host.slug, s)].binds;
      && |binds| == |spec.services[s].volumes| && MountOf(raw).Some?
      && var mount := MountOf(raw).value;
         var key := CanonicalStorageKey(mount.source);
         && key in meta.storage
         && var place := Place(Context(host, meta, spec, sourceDir), mount);
         (place != "" && ':' !in place ==> Says(binds[i], mount, place))
  {
    hide Accepts, CandidateFor, ContainerName, BindText, Physical, TreatedAsPath, Says;
    var ctx := Context(host, meta, spec, sourceDir);
    var raws := spec.services[s].volumes;
    var c := cs[ContainerName(host.slug, s)];
    assert CreatedFor(c, host, meta, spec, sourceDir, s);
    assert BindAt(ctx, raws[i]).Some? && BindAt(ctx, raws[i]).value == c.binds[i];
    assert raws[i] in Mounts(spec);
    PlannerAndResolverAgree(inp, spec, meta.storage, ctx, raws[i]);
    BindReadsBack(raws[i], Physical(ctx, MountOf(raws[i]).value).value);
  }

  lemma SamePlace(ctx: BindContext, storage: map<string, Binding>, mount: Mount)
    requires CanonicalStorageKey(mount.source) in ctx.storage && CanonicalStorageKey(mount.source) in storage
    requires storage[CanonicalStorageKey(mount.source)] == ctx.storage[CanonicalStorageKey(mount.source)]
    ensures Place(ctx.(storage := storage), mount) == Place(ctx, mount)
  {
  }

  /** After a completed update every container mounts what the persisted mappings say. */
  lemma {:induction false} CompletedMountsFollowStorage(run: UpdateRun, s: string, i: nat)
    requires run.Committed() && s in run.spec.services && i < |run.spec.services[s].volumes|
    ensures var raw := run.spec.services[s].volumes[i];
      var name := ContainerName(run.world.host.slug, s);
      && name in run.world.containers && i < |run.world.containers[name].binds| && MountOf(raw).Some?
      && var mount := MountOf(raw).value;
         var key := CanonicalStorageKey(mount.source);
         && key in run.world.storage
         && var ctx := Context(run.world.host, run.NewMeta(run.world.secrets), run.spec, run.releaseDir)
                         .(storage := run.world.storage);
         var place := Place(ctx, mount);
         (place != "" && ':' !in place ==> Says(run.world.containers[name].binds[i], mount, place))
  {
    hide *;
    CommittedMounts(run);
    var meta := run.NewMeta(run.world.secrets);
    DeployedMountsFollowPlan(run.world.containers, run.world.host, meta, run.spec, run.releaseDir, run.PlanInputs(), s,
                             i);
    SamePlace(Context(run.world.host, meta, run.spec, run.releaseDir), run.world.storage,
              MountOf(run.spec.services[s].volumes[i]).value);
  }

  lemma CommittedMounts(run: UpdateRun)
    requires run.Committed()
    ensures DeployedAs(run.world.containers, run.world.host, run.NewMeta(run.world.secrets), run.spec, run.releaseDir)
    ensures forall s | s in run.spec.services :: ContainerName(run.world.host.slug, s) in run.world.containers
    ensures Accepts(run.PlanInputs(), run.spec)
    ensures CandidateFor(run.PlanInputs(), Mounts(run.spec), run.NewMeta(run.world.secrets).storage)
    ensures forall l | l in run.NewMeta(run.world.secrets).storage ::
      l in run.world.storage && run.world.storage[l] == run.NewMeta(run.world.secrets).storage[l]
    ensures forall sec ::
      Context(run.world.host, run.NewMeta(sec), run.spec, run.releaseDir).storage == run.NewMeta(sec).storage
  {
    hide Accepts, CandidateFor, CreatedFor, ContainerName, ValidSpec, Mounts, ReleaseTags;
  }

  /** A spec deployed twice with the same environment, and with mappings that agree on what it mounts, yields
      the same containers but for their image tags. */
  lemma {:induction false} SameMappingsSameContainers(a: Containers, b: Containers, host: Host, was: Meta, now: Meta,
                                                      spec: Spec, dir: string, inp: Inputs)
    requires DeployedAs(a, host, was, spec, dir) && DeployedAs(b, host, now, spec, dir)
    requires was.env == now.env
    requires CandidateFor(inp, Mounts(spec), was.storage)
    requires forall l | l in was.storage :: l in now.storage && now.storage[l] == was.storage[l]
    ensures a.Keys == b.Keys
    ensures forall n | n in a :: a[n].env == b[n].env && a[n].binds == b[n].binds
  {
    hide CandidateFor, Binds, Context, PreparedImage, ContainerName;
    forall n | n in a ensures n in b && a[n].env == b[n].env && a[n].binds == b[n].binds {
      var s :| s in spec.services && n == ContainerName(host.slug, s);
      SameBinds(host, was, now, spec, dir, inp, s);
      assert CreatedFor(a[n], host, was, spec, dir, s) && CreatedFor(b[n], host, now, spec, dir, s);
    }
  }

  lemma SameBinds(host: Host, was: Meta, now: Meta, spec: Spec, dir: string, inp: Inputs, s: string)
    requires s in spec.services
    requires CandidateFor(inp, Mounts(spec), was.storage)
    requires forall l | l in was.storage :: l in now.storage && now.storage[l] == was.storage[l]
    ensures Binds(Context(host, was, spec, dir), spec.services[s].volumes) ==
            Binds(Context(host, now, spec, dir), spec.services[s].volumes)
  {
    hide BindAt, LogicalAt, CandidateFor;
    var x, y, raws := Context(host, was, spec, dir), Context(host, now, spec, dir), spec.services[s].volumes;
    forall i | 0 <= i < |raws| ensures BindAt(x, raws[i]) == BindAt(y, raws[i]) {
      assert raws[i] in Mounts(spec);
      SameBindAt(x, y.storage, raws[i], inp, Mounts(spec));
    }
    if Binds(x, raws).Some? {
      assert Binds(x, raws).value == Binds(y, raws).value;
    }
  }

  lemma {:induction false} SameBindAt(ctx: BindContext, storage: map<string, Binding>, raw: string, inp: Inputs,
                                      raws: set<string>)
    requires raw in raws && CandidateFor(inp, raws, ctx.storage)
    requires forall l | l in ctx.storage :: l in storage && storage[l] == ctx.storage[l]
    ensures BindAt(ctx, raw) == BindAt(ctx.(storage := storage), raw)
  {
    hide MountOf, BindText, CanonicalStorageKey, Chosen;
    assert LogicalAt(raw).Some? && LogicalAt(raw).value.name in ctx.storage;
  }

  /** The containers are those of the release that this row records: of its own compose text, with mounts from its own
      source directory. */
  ghost predicate ReleasedAs(released: Containers, host: Host, was: Meta, parse: string -> Option<ParsedSpec>,
                             row: Release) {
    parse(row.compose).Some? && DeployedAs(released, host, was, parse(row.compose).value, row.sourceDir)
  }

  /** That is what a completed update leaves, under the row that the app points at. */
  lemma {:induction false} CompletedIsReleased(run: UpdateRun)
    requires run.Committed()
    ensures run.world.app.currentRelease in run.world.releases
    ensures ReleasedAs(run.world.containers, run.world.host, run.NewMeta(run.world.secrets), run.parse,
                       run.world.releases[run.world.app.currentRelease])
    ensures run.world.releases[run.world.app.currentRelease].status == Live
  {
    hide Accepts, CandidateFor, CreatedFor, DeployedAs, ValidSpec, Mounts, ReleaseTags, UpdateRun.RefAsAsked,
         PreparedImages, AllRunning;
  }

  /** The images that a completed update built are its own: the recorded image of a service that is built is tagged with
      the release, and no service of a release with another name has that tag. */
  lemma {:induction false} BuiltImagesAreOwn(run: UpdateRun, s: string, t: string, other: string)
    requires run.Committed() && s in run.spec.services && run.spec.services[s].build
    requires Sanitize(other) != Sanitize(run.releaseID)
    ensures s in run.world.releases[run.releaseID].images
    ensures run.world.releases[run.releaseID].images[s] == ReleaseImageTag(run.world.host.slug, s, run.releaseID)
    ensures run.world.releases[run.releaseID].images[s] != ReleaseImageTag(run.world.host.slug, t, other)
    ensures ContainerName(run.world.host.slug, s) in run.world.containers
    ensures run.world.containers[ContainerName(run.world.host.slug, s)].image ==
            run.world.releases[run.releaseID].images[s]
  {
    hide Accepts, CandidateFor, ValidSpec, Mounts, Sanitize, Binds, AllRunning, UpdateRun.RefAsAsked, ContainerName;
    TagsAreOwn(run.world.host.slug, s, t, run.releaseID, other);
    TagIsNotEmpty(run.world.host.slug, s, run.releaseID);
    assert CreatedFor(run.world.containers[ContainerName(run.world.host.slug, s)], run.world.host,
                      run.NewMeta(run.world.secrets), run.spec, run.releaseDir, s);
  }

  lemma TagIsNotEmpty(slug: string, service: string, release: string)
    ensures ReleaseImageTag(slug, service, release) != ""
  {
    assert |ReleaseImageTag(slug, service, release)| >= |"localhost/se/"|;
  }

  /** An update completed; a later one is rolled back after its cut-over. It goes back to the release that the row
      pointed at when it began, as far as that could be read: with the release's own text and from its own source
      directory, if no symbolic link leads there. When the app's own environment and the secrets are those of the first
      update, every container is back with the environment and the mounts that the first gave it. */
  lemma {:induction false} RollbackRebuildsTheRelease(run: UpdateRun, released: Containers, was: Meta, inp: Inputs)
    requires run.RestoredAsReported() && run.stage == Rollback && run.weStoppedApp
    requires run.sawCurrent && run.CurrentHasSource()
    // What the first update left: its containers, made from a planned candidate that was then persisted, and its row.
    requires ReleasedAs(released, run.world.host, was, run.parse, run.start.releases[run.start.app.currentRelease])
    requires var row := run.start.releases[run.start.app.currentRelease];
      && run.realPath(row.sourceDir) == row.sourceDir
      && CandidateFor(inp, Mounts(run.parse(row.compose).value), was.storage)
    requires forall l | l in was.storage :: l in run.start.storage && run.start.storage[l] == was.storage[l]
    requires was.env == run.app.env + run.start.secrets
    ensures released.Keys == run.world.containers.Keys && AllRunning(run.world.containers)
    ensures forall n | n in released ::
      released[n].env == run.world.containers[n].env && released[n].binds == run.world.containers[n].binds
  {
    WentBackToCurrent(run);
    hide CandidateFor, DeployedAs, AllRunning, OnlyFrom, NoneRunning, ReleaseTags, Faded, Overwritten, ValidSpec,
         Remains, UpdateRun.PreviousFound;
    var spec := run.oldSpec.value;
    SameMappingsSameContainers(released, run.world.containers, run.world.host, was,
                               PreviousMeta(run.world.host, run.app, spec, run.start.secrets, run.plan.previous),
                               spec, run.oldSourceDir, inp);
  }

  /** What a rollback goes back to: the release that the row pointed at, if it could be read and has a source directory
      of its own; otherwise the row's own text with the app's plain source directory. */
  lemma WentBackToCurrent(run: UpdateRun)
    requires run.PreviousFound()
    ensures run.sawCurrent && run.CurrentHasSource() ==>
      var row := run.start.releases[run.start.app.currentRelease];
      && run.oldSpec == run.parse(row.compose)
      && (run.realPath(row.sourceDir) != "" ==> run.oldSourceDir == run.realPath(row.sourceDir))
      && (run.realPath(row.sourceDir) == "" ==> run.oldSourceDir == run.appSourceDir)
    ensures !(run.sawCurrent && run.CurrentHasSource()) ==>
      run.oldSpec == run.parse(run.app.source.compose) && run.oldSourceDir == run.appSourceDir
  {
  }

  /** An update that reached its cut-over has archived every storage that was persisted or found in the old containers:
      what the new spec does not mount, where it was; what it mounts, where it was exactly when `KeepsPrevious` says
      so. */
  lemma BackupCoversStorage(run: UpdateRun, l: string, readOnly: bool)
    requires run.Secured() && (l in run.start.storage || l in run.discovered) && MountedAs(run.spec, l, readOnly)
    ensures |run.world.manifests| > 0
    ensures var archive := run.world.manifests[|run.world.manifests| - 1];
      var previous := (run.discovered + run.start.storage)[l];
      && l in archive
      && (archive[l] == previous <==>
            (l in run.plan.candidate ==>
               KeepsPrevious(run.PlanInputs(), Logical(l, run.plan.candidate[l].kind), readOnly)))
  {
    hide Accepts, CandidateFor, MountedAs, KeepsPrevious, ValidSpec;
    assert l in run.plan.previous;
    BackupKeepsPrevious(run.PlanInputs(), run.spec, run.plan, l, readOnly);
  }

  /** By then the data of a storage that was found in the old containers is where the new containers will mount it, or
      has been copied there, exactly when it can follow the plan. */
  lemma {:induction false} FoundDataArrives(run: UpdateRun, l: string, readOnly: bool)
    requires run.Secured() && l in run.plan.candidate && MountedAs(run.spec, l, readOnly)
    requires l in run.discovered && l !in run.start.storage
    requires SourceOfItsOwn(run.PlanInputs(), run.plan, l)
    ensures l in run.plan.previous && run.plan.previous[l] == run.discovered[l]
    ensures Arrives(run.plan, l) <==>
      CanFollow(run.PlanInputs(), Logical(l, run.plan.candidate[l].kind), readOnly)
    ensures Arrives(run.plan, l) && run.discovered[l] != run.plan.candidate[l] ==>
      (run.discovered[l].ref, run.plan.candidate[l].ref) in run.world.copies && run.discovered[l].kind == Bind
  {
    hide Accepts, CandidateFor, MountedAs, OldBindSource, PlanSound, ValidSpec, SourceOfItsOwn, CanFollow;
    DataArrivesIff(run.PlanInputs(), run.spec, run.plan, l, readOnly);
  }

  /** Whatever the operation's row went through before: the update asks once for an end, and if that request reaches a
      row that is still active, the row reads what the update reported and keeps it whatever anyone does later. A row
      that was ended by someone else stays as it was. */
  lemma {:induction false} VerdictIsFinal(run: UpdateRun, st: State, k: nat, error: string, now: int,
                                          later: seq<Action>)
    requires run.Ended() || (run.terminal == Completed && run.world.finishAsked == run.start.asked + [Completed])
    requires Inv(st) && k < |st.ops|
    ensures |run.world.finishAsked| == |run.start.asked| + 1
    ensures var asked := run.world.finishAsked[|run.start.asked|];
      var end := After(Apply(st, Finish(st.ops[k].id, asked, error, now)), later);
      && asked == run.terminal && k < |end.ops|
      && (Active(st.ops[k].status) ==>
            end.ops[k].status == run.terminal && end.ops[k].error == BoundedError(error))
      && (!Active(st.ops[k].status) ==> end.ops[k] == st.ops[k])
  {
    hide Inv, Apply, After, UpdateRun.SecretsTracked, UpdateRun.StatusWritten;
    assert run.world.finishAsked == run.start.asked + [run.terminal] && !Active(run.terminal);
    if Active(st.ops[k].status) {
      FirstVerdictStays(st, k, run.terminal, error, now, later);
    } else {
      EndedRowStays(st, k, Finish(st.ops[k].id, run.terminal, error, now), later);
    }
  }

  lemma EndedRowStays(st: State, k: nat, a: Action, later: seq<Action>)
    requires Inv(st) && k < |st.ops| && !Active(st.ops[k].status)
    ensures k < |After(Apply(st, a), later).ops| && After(Apply(st, a), later).ops[k] == st.ops[k]
  {
    hide Inv, Apply, After;
    StepKeepsInv(st, a);
    AnyInterleavingIsSafe(Apply(st, a), later);
  }
}
