/** internal/deployer/deployer.go: redeploying an app in place, which shares the storage planner with updates but has
    no rollback. */
module Redeploy {
  import opened Common
  import opened Compose
  import opened Volumes
  import opened Storage
  import opened Environment
  import opened Operations
  import opened Update
  import opened Resolver
  import StorageHistory

  class RedeployRun {
    const world: World
    const parse: string -> Option<ParsedSpec>
    const discovered: map<string, Binding>
    /** The current source directory, if it can be found. */
    const sourceDir: Option<string>
    var plan: Plan
    var spec: ParsedSpec

    constructor (world: World, parse: string -> Option<ParsedSpec>, discovered: map<string, Binding>,
                 sourceDir: Option<string>,
                 spec: ParsedSpec)
      ensures this.world == world && this.parse == parse && this.discovered == discovered && this.sourceDir == sourceDir
    {
      this.world, this.parse, this.discovered, this.sourceDir := world, parse, discovered, sourceDir;
      this.spec, plan := spec, Plan(map[], map[], map[], map[]);
    }

    ghost function App(): StorageHistory.App {
      StorageHistory.App(world.host.naming, world.host.appID)
    }

    /** The mappings moved by a step of the app's storage history, if they moved at all. */
    ghost predicate StorageStepped(before: StorageHistory.Mappings)
      reads this`spec, world`storage
    {
      world.storage == before
      || (sourceDir.Some? && exists written: set<string> ::
            StorageHistory.Step(App(), before,
                                StorageHistory.Redeployed(discovered, sourceDir.value, spec, written), world.storage))
    }

    /** The stored text can be deployed again from this source: it parses, the planner accepts it, its volumes can be
        named, and what is recorded is absolute. */
    ghost predicate Fit(source: string)
      reads world`app, world`storage
    {
      && parse(world.app.source.compose).Some?
      && var stored := parse(world.app.source.compose).value;
         && Accepts(Inputs(world.host.naming, world.host.appID, world.storage, discovered, source), stored)
         && VolumesUsable(world.host, stored) && AbsolutePlaces(world.host.naming, world.storage)
    }

    /** planRuntimeStorage: the persisted mappings, then the planner. */
    method PlanRuntimeStorage(source: string) returns (e: Error)
      modifies this`plan, world`calls
      ensures e.None? ==>
        StorageHistory.Planned(App(), world.storage, discovered, source, spec, plan.candidate)
      ensures old(world.calls) <= world.calls
      ensures (Accepts(Inputs(world.host.naming, world.host.appID, world.storage, discovered, source), spec)
               && world.Calm(old(world.calls), world.calls)) ==> e.None?
    {
      hide ValidSpec, CandidateFor, Accepts, PlanSound, IsOrder, PlanInOrder;
      var known;
      e, known := world.ListAppStorage();
      if e.Some? {
        return;
      }
      var planned := PlanStorage(Inputs(world.host.naming, world.host.appID, known, discovered, source), spec);
      if planned.None? {
        return Some("storage preflight");
      }
      plan := planned.value;
    }

    function NewMeta(): Meta
      reads this`plan, world`app, world`secrets
    {
      Meta(world.app.env + world.secrets, plan.candidate, map[])
    }

    /** Best-effort clean-up: removes what was created and records the error. */
    method GiveUp(cause: string) returns (e: Error)
      modifies world`calls, world`app, world`containers
      ensures e.Some?
      ensures old(world.calls) <= world.calls && SameApp(world.app, old(world.app))
    {
      var _ := world.RemoveContainers();
      var _ := world.Try();
      var _ := world.UpdateAppStatusErr(Failed, cause);
      e := Some(cause);
    }

    /** Parses the stored compose text, plans its storage, regenerates the synthesized files. */
    method Prepare(source: string) returns (e: Error)
      modifies this`plan, this`spec, world`calls, world`app
      ensures e.None? ==> parse(old(world.app.source.compose)) == Some(spec)
      ensures e.None? ==> StorageHistory.Planned(App(), world.storage, discovered, source, spec, plan.candidate)
      ensures e.None? ==> world.app == old(world.app)
      ensures old(world.calls) <= world.calls && SameApp(world.app, old(world.app))
      ensures old(Fit(source)) && world.Calm(old(world.calls), world.calls) ==> e.None?
    {
      hide ValidSpec, StorageHistory.Planned;
      var parsed := parse(world.app.source.compose);
      if parsed.None? {
        var _ := world.UpdateAppStatusErr(Failed, "stored compose is invalid");
        return Some("stored compose is invalid");
      }
      spec := parsed.value;
      e := PlanRuntimeStorage(source);
      if e.Some? {
        var _ := world.UpdateAppStatusErr(Failed, e.value);
        return;
      }
      e := world.Try();
    }

    lemma FitIsDeployable(source: string)
      requires Fit(source) && parse(world.app.source.compose) == Some(spec)
      requires StorageHistory.Planned(App(), world.storage, discovered, source, spec, plan.candidate)
      ensures Deployable(world.host, NewMeta(), spec, source)
    {
      hide ValidSpec, VolumesUsable, Accepts, CandidateFor;
      forall s | s in spec.services ensures MountsResolve(world.host, NewMeta(), spec, source, s) {
        PlannedMountsResolve(Inputs(world.host.naming, world.host.appID, world.storage, discovered, source), spec,
                             plan.candidate, Context(world.host, NewMeta(), spec, source), s);
      }
    }

    /** Replaces the containers and checks that they stay up. */
    method Replace(source: string) returns (e: Error)
      modifies world`calls, world`containers, world`app
      ensures e.None? ==> world.app == old(world.app)
      ensures e.None? ==>
        DeployedAs(world.containers, world.host, NewMeta(), spec, source) && AllRunning(world.containers)
      ensures old(world.calls) <= world.calls && SameApp(world.app, old(world.app))
      ensures Deployable(world.host, NewMeta(), spec, source) && world.Calm(old(world.calls), world.calls) ==> e.None?
    {
      hide ValidSpec, DeployedAs, AllRunning, Faded, StatusOf, Deployable;
      var env;
      e, env := world.LoadRuntimeEnv(world.app.env);
      if e.Some? {
        return;
      }
      var meta := Meta(env, plan.candidate, map[]);
      e := world.RemoveContainers();
      if e.Some? {
        var _ := world.UpdateAppStatusErr(Failed, e.value);
        return;
      }
      e := world.Deploy(meta, spec, source);
      if e.Some? {
        e := GiveUp(e.value);
        return;
      }
      ghost var deployed := world.containers;
      if AllRunning(deployed) {
        UpWhenAllRun(deployed, world.host, meta, spec, source);
      }
      var status;
      e, status := world.Status(|spec.services|);
      if e.Some? || status != AllUp {
        e := GiveUp("verify release");
        return;
      }
      VerifiedDeployment(deployed, world.containers, world.host, meta, spec, source);
    }

    /** Whatever fails, the mappings take a step of the storage history; success leaves one running container per
        service, mounted where the mappings say. */
    method Redeploy() returns (e: Error)
      modifies this, world`calls, world`app, world`storage, world`containers
      ensures StorageStepped(old(world.storage))
      ensures world.secrets == old(world.secrets) && world.releases == old(world.releases)
      ensures e.None? ==>
        && sourceDir.Some? && parse(old(world.app).source.compose) == Some(spec)
        && StorageHistory.Planned(App(), old(world.storage), discovered, sourceDir.value, spec, plan.candidate)
        && world.storage == old(world.storage) + plan.candidate
        && DeployedAs(world.containers, world.host, NewMeta(), spec, sourceDir.value) && AllRunning(world.containers)
        && world.app == old(world.app).(status := Running, lastError := "")
      // Whatever fails, the row keeps every column but its status and last error; and with every call working an app
      // that can be deployed again is.
      ensures SameApp(world.app, old(world.app))
      ensures old(world.calls) <= world.calls
      ensures (sourceDir.Some? && old(Fit(sourceDir.value)) && world.Calm(old(world.calls), world.calls)) ==> e.None?
    {
      NoErrorStaysEmpty();
      hide ValidSpec, StorageHistory.Planned, DeployedAs, AllRunning, BoundedError, Deployable, VolumesUsable, Accepts,
           AbsolutePlaces;
      e := world.UpdateAppStatusErr(Pending, "");
      if e.Some? {
        return;
      }
      if sourceDir.None? {
        var _ := world.UpdateAppStatusErr(Failed, "source directory missing");
        return Some("source directory missing");
      }
      ghost var fit := Fit(sourceDir.value);
      e := Prepare(sourceDir.value);
      if e.None? {
        if fit {
          FitIsDeployable(sourceDir.value);
        }
        e := Replace(sourceDir.value);
      }
      if e.None? {
        e := Settle(sourceDir.value);
      }
    }

    /** The new containers run: their mappings are persisted, the status written and the route published. */
    method Settle(source: string) returns (e: Error)
      requires sourceDir == Some(source)
      requires StorageHistory.Planned(App(), world.storage, discovered, source, spec, plan.candidate)
      modifies world`calls, world`app, world`storage, world`containers
      ensures StorageStepped(old(world.storage)) && SameApp(world.app, old(world.app))
      ensures e.None? ==>
        && world.storage == old(world.storage) + plan.candidate && world.containers == old(world.containers)
        && world.app == old(world.app).(status := Running, lastError := "")
      ensures old(world.calls) <= world.calls && (world.Calm(old(world.calls), world.calls) ==> e.None?)
    {
      NoErrorStaysEmpty();
      hide StorageHistory.Planned, BoundedError, StorageStepped;
      e := Persist(source);
      if e.Some? {
        e := GiveUp(e.value);
        return;
      }
      e := world.UpdateAppStatusErr(Running, "");
      if e.Some? {
        return;
      }
      e := world.Try();
      if e.Some? {
        var _ := world.UpdateAppStatusErr(Failed, e.value);
      }
    }

    method Persist(source: string) returns (e: Error)
      requires sourceDir == Some(source)
      requires StorageHistory.Planned(App(), world.storage, discovered, source, spec, plan.candidate)
      modifies world`calls, world`storage
      ensures StorageStepped(old(world.storage))
      ensures e.None? ==> world.storage == old(world.storage) + plan.candidate
      ensures old(world.calls) <= world.calls && (world.Calm(old(world.calls), world.calls) ==> e.None?)
    {
      hide StorageHistory.Planned;
      e := world.PersistRuntimeStorage(plan.candidate);
      ghost var written: set<string> :|
        world.storage == old(world.storage) + StorageHistory.Part(plan.candidate, written);
      assert StorageHistory.Step(App(), old(world.storage),
                                 StorageHistory.Redeployed(discovered, source, spec, written), world.storage);
    }
  }
}
