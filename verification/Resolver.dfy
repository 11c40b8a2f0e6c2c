/** resolveBindsWithStorageForApp (internal/composer/runtime.go), and its agreement with the planner. */
module Resolver {
  import opened Common
  import opened Strings
  import opened Paths
  import opened Volumes
  import opened Compose
  import opened Storage

  /** `contained` is the file system's answer to whether a path stays under the source directory once
      symbolic links are resolved. */
  datatype BindContext = BindContext(naming: Naming, appID: string, sourceDir: string, declared: set<string>,
                                     storage: map<string, Binding>, contained: string -> bool)

  predicate TreatedAsPath(ctx: BindContext, mount: Mount) {
    mount.source !in ctx.declared && Relative(mount.source)
  }

  /** The host path or volume that a mount is bound to; None when the mount is refused. */
  function Physical(ctx: BindContext, mount: Mount): Option<string> {
    var key := CanonicalStorageKey(mount.source);
    var bound := key in ctx.storage;
    if HasPrefix(mount.source, "/") then None
    else if TreatedAsPath(ctx, mount) then
      var path := JoinPath(ctx.sourceDir, mount.source);
      if !ctx.contained(path) then None
      else if bound && ctx.storage[key].kind == Bind && !mount.readOnly then
        if HasPrefix(ctx.storage[key].ref, "/") then Some(ctx.storage[key].ref) else None
      else Some(path)
    else if bound && ctx.storage[key].ref != "" then Some(ctx.storage[key].ref)
    else if ctx.appID != "" then Some(ManagedVolumeName(ctx.naming, ctx.appID, key))
    else Some(mount.source)
  }

  function BindText(mount: Mount, physical: string): string {
    physical + ":" + mount.target + if mount.mode != "" && mount.mode != "rw" then ":" + mount.mode else ""
  }

  lemma WritableModes()
    ensures !ReadOnlyMode("rw") && !ReadOnlyMode("")
  {
    SplitOne("rw", ',');
    SplitOne("", ',');
    TrimSpaceKeeps("rw");
    TrimSpaceKeeps("");
    assert "rw"[1] != "ro"[1];
  }

  lemma MountHasNoColon(raw: string)
    requires MountOf(raw).Some?
    ensures ':' !in MountOf(raw).value.target && ':' !in MountOf(raw).value.mode
    ensures HasPrefix(MountOf(raw).value.target, "/")
    ensures MountOf(raw).value.source != "" && ':' !in MountOf(raw).value.source
    ensures MountOf(raw).value.readOnly == ReadOnlyMode(MountOf(raw).value.mode)
  {
    hide Split, ReadOnlyMode;
    SplitIsFree(raw, ':');
  }

  /** The bind text says that the mount is at this place: it reads back as a mount of the place with the same target,
      and is read-only exactly when the mount is. */
  predicate Says(text: string, mount: Mount, place: string) {
    MountOf(text) == Some(Mount(place, mount.target, if mount.mode == "" then "rw" else mount.mode, mount.readOnly))
  }

  /** What the resolver prints reads back, exactly for a place that a bind can name. */
  lemma {:induction false} BindReadsBack(raw: string, place: string)
    requires MountOf(raw).Some?
    ensures Says(BindText(MountOf(raw).value, place), MountOf(raw).value, place) <==> place != "" && ':' !in place
  {
    MountHasNoColon(raw);
    WritableModes();
    var mount := MountOf(raw).value;
    if place != "" && ':' !in place {
      TextParts(mount, place);
      hide Split, ReadOnlyMode;
    } else if Says(BindText(mount, place), mount, place) {
      hide Split, ReadOnlyMode;
      MountHasNoColon(BindText(mount, place));
    }
  }

  lemma TextParts(mount: Mount, place: string)
    requires ':' !in place && ':' !in mount.target && ':' !in mount.mode
    ensures Split(BindText(mount, place), ':') ==
            if mount.mode in {"", "rw"} then [place, mount.target] else [place, mount.target, mount.mode]
  {
    hide Split;
    if mount.mode in {"", "rw"} {
      assert BindText(mount, place) == place + [':'] + mount.target;
      SplitPrefix(place, mount.target, ':');
      SplitOne(mount.target, ':');
    } else {
      assert BindText(mount, place) == place + [':'] + (mount.target + [':'] + mount.mode);
      SplitPrefix(place, mount.target + [':'] + mount.mode, ':');
      SplitPrefix(mount.target, mount.mode, ':');
      SplitOne(mount.mode, ':');
    }
  }

  function BindAt(ctx: BindContext, raw: string): Option<string> {
    var mount := MountOf(raw);
    if mount.None? then None
    else
      var physical := Physical(ctx, mount.value);
      if physical.None? then None else Some(BindText(mount.value, physical.value))
  }

  /** The binds of a service, in the order of its mounts; None when any mount is refused. */
  function Binds(ctx: BindContext, raws: seq<string>): Option<seq<string>> {
    if forall i | 0 <= i < |raws| :: BindAt(ctx, raws[i]).Some?
    then Some(seq(|raws|, i requires 0 <= i < |raws| && BindAt(ctx, raws[i]).Some? => BindAt(ctx, raws[i]).value))
    else None
  }

  method ResolveBinds(ctx: BindContext, raws: seq<string>) returns (out: Option<seq<string>>)
    ensures out == Binds(ctx, raws)
  {
    hide MountOf, Physical, BindText;
    var acc: seq<string> := [];
    for i := 0 to |raws|
      invariant |acc| == i
      invariant forall j | 0 <= j < i :: BindAt(ctx, raws[j]) == Some(acc[j])
    {
      var mount := ParseVolumeMount(raws[i]);
      if mount.None? {
        assert BindAt(ctx, raws[i]).None?;
        return None;
      }
      var physical := Physical(ctx, mount.value);
      if physical.None? {
        assert BindAt(ctx, raws[i]).None?;
        return None;
      }
      acc := acc + [BindText(mount.value, physical.value)];
    }
    assert acc == Binds(ctx, raws).value;
    out := Some(acc);
  }

  predicate Anywhere(path: string) {
    true
  }

  /** The file system can only make a resolution fail; it never changes where a mount goes. */
  lemma ContainmentOnlyRefuses(ctx: BindContext, raws: seq<string>)
    requires Binds(ctx, raws).Some?
    ensures Binds(ctx.(contained := Anywhere), raws) == Binds(ctx, raws)
  {
    var free := ctx.(contained := Anywhere);
    forall i | 0 <= i < |raws| ensures BindAt(free, raws[i]) == BindAt(ctx, raws[i]) {
      assert BindAt(ctx, raws[i]).Some?;
    }
    assert Binds(free, raws).value == Binds(ctx, raws).value;
  }

  /** When every path lies inside, the check does not show. */
  lemma ContainedEverywhere(ctx: BindContext, raws: seq<string>)
    requires forall p: string :: ctx.contained(p)
    ensures Binds(ctx.(contained := Anywhere), raws) == Binds(ctx, raws)
  {
    var free := ctx.(contained := Anywhere);
    hide MountOf, BindText, CanonicalStorageKey, JoinPath, ManagedVolumeName;
    assert forall i | 0 <= i < |raws| :: BindAt(free, raws[i]) == BindAt(ctx, raws[i]);
    if Binds(ctx, raws).Some? {
      assert Binds(free, raws).value == Binds(ctx, raws).value;
    }
  }

  /** Planner and resolver agree. For a spec the planner accepts, every mount the resolver accepts is bound to the
      planned location, except that a read-only relative mount stays in the source directory. */
  lemma {:induction false} PlannerAndResolverAgree(inp: Inputs, spec: Spec, plan: map<string, Binding>,
                                                   ctx: BindContext, raw: string)
    requires Accepts(inp, spec) && CandidateFor(inp, Mounts(spec), plan)
    requires ctx.storage == plan
    requires raw in Mounts(spec) && MountOf(raw).Some? && Physical(ctx, MountOf(raw).value).Some?
    ensures var mount := MountOf(raw).value; var key := CanonicalStorageKey(mount.source);
      && LogicalAt(raw).Some? && LogicalAt(raw).value.name == key && key in plan
      && plan[key].kind == (if Relative(mount.source) then Bind else Volume)
      && (TreatedAsPath(ctx, mount) && mount.readOnly ==>
            Physical(ctx, mount) == Some(JoinPath(ctx.sourceDir, mount.source)))
      && (!(TreatedAsPath(ctx, mount) && mount.readOnly) && plan[key].ref != "" ==>
            Physical(ctx, mount) == Some(plan[key].ref))
  {
    var logical := LogicalAt(raw).value;
    assert Acceptable(inp, logical);
    assert Chosen(inp, logical).kind == logical.kind;
  }

  /** The app's root and every recorded bind are absolute paths. */
  predicate AbsolutePlaces(naming: Naming, known: map<string, Binding>) {
    HasPrefix(naming.appsRoot, "/") && forall l | l in known && known[l].kind == Bind :: HasPrefix(known[l].ref, "/")
  }

  /** Then every mount that the planner accepts can be translated, as far as that does not depend on the file system. */
  lemma {:induction false} PlannedMountsResolve(inp: Inputs, spec: Spec, plan: map<string, Binding>, ctx: BindContext,
                                                s: string)
    requires Accepts(inp, spec) && CandidateFor(inp, Mounts(spec), plan)
    requires ctx.storage == plan && ctx.contained == Anywhere && s in spec.services
    requires AbsolutePlaces(inp.naming, inp.known)
    ensures Binds(ctx, spec.services[s].volumes).Some?
  {
    hide LogicalAt, BindAt, Chosen, Acceptable;
    var raws := spec.services[s].volumes;
    forall i | 0 <= i < |raws| ensures BindAt(ctx, raws[i]).Some? {
      assert raws[i] in Mounts(spec);
      PlannedMountResolves(inp, ctx, raws[i]);
    }
  }

  lemma PlannedMountResolves(inp: Inputs, ctx: BindContext, raw: string)
    requires LogicalAt(raw).Some? && Acceptable(inp, LogicalAt(raw).value)
    requires LogicalAt(raw).value.name in ctx.storage
    requires ctx.storage[LogicalAt(raw).value.name] == Chosen(inp, LogicalAt(raw).value)
    requires ctx.contained == Anywhere && AbsolutePlaces(inp.naming, inp.known)
    ensures BindAt(ctx, raw).Some?
  {
    hide MountOf, CanonicalStorageKey, BindText, ManagedVolumeName, JoinPath;
    var logical := LogicalAt(raw).value;
    if logical.name !in inp.known && logical.kind == Bind {
      ManagedPathIsAbsolute(inp, logical.name);
    }
  }

  lemma ManagedPathIsAbsolute(inp: Inputs, name: string)
    requires HasPrefix(inp.naming.appsRoot, "/")
    ensures HasPrefix(JoinPath(DataDir(inp.naming, inp.appID), Clean(name)), "/")
  {
    var path := DataDir(inp.naming, inp.appID) + "/" + Clean(name);
    assert path[0] == inp.naming.appsRoot[0] == '/';
    assert Clean(path)[..1] == "/";
  }

  /** Services that mount the same key, neither of them read-only from the source tree, share one place. */
  lemma {:induction false} SharedKeyIsShared(inp: Inputs, spec: Spec, plan: map<string, Binding>, ctx: BindContext,
                                             a: string, b: string)
    requires Accepts(inp, spec) && CandidateFor(inp, Mounts(spec), plan)
    requires ctx.storage == plan && ctx.appID != ""
    requires a in Mounts(spec) && MountOf(a).Some? && Physical(ctx, MountOf(a).value).Some?
    requires b in Mounts(spec) && MountOf(b).Some? && Physical(ctx, MountOf(b).value).Some?
    requires !(TreatedAsPath(ctx, MountOf(a).value) && MountOf(a).value.readOnly)
    requires !(TreatedAsPath(ctx, MountOf(b).value) && MountOf(b).value.readOnly)
    requires CanonicalStorageKey(MountOf(a).value.source) == CanonicalStorageKey(MountOf(b).value.source)
    ensures Physical(ctx, MountOf(a).value) == Physical(ctx, MountOf(b).value)
  {
    PlannerAndResolverAgree(inp, spec, plan, ctx, a);
    PlannerAndResolverAgree(inp, spec, plan, ctx, b);
    assert LogicalAt(a).value == LogicalAt(b).value;
  }

  /** Locations are never empty when the persisted and discovered ones are not. */
  lemma PlannedRefsAreNonEmpty(inp: Inputs, spec: Spec, plan: map<string, Binding>, l: string)
    requires CandidateFor(inp, Mounts(spec), plan) && l in plan
    requires forall k | k in inp.known :: inp.known[k].ref != ""
    requires forall k | k in inp.discovered :: inp.discovered[k].ref != ""
    ensures plan[l].ref != ""
  {
    var raw :| raw in Mounts(spec) && LogicalAt(raw).Some? && LogicalAt(raw).value.name == l;
    assert plan[l] == Chosen(inp, LogicalAt(raw).value);
    var dir := DataDir(inp.naming, inp.appID) + "/" + Clean(l);
    CleanIsNonEmpty(dir);
  }

  lemma CleanIsNonEmpty(path: string)
    ensures Clean(path) != ""
  {
    if path != "" && path[0] == '/' {
    } else {
      assert !HasPrefix(path, "/") by {
        assert path != "" ==> path[..1] == [path[0]];
      }
      var parts := CleanRelative(path);
      if parts != [] {
        JoinHead(parts);
      }
    }
  }

  /** Two storages that both get a fresh managed location get different ones, as long as the digest tells their
      names apart. */
  lemma FreshLocationsDiffer(inp: Inputs, a: Logical, b: Logical, sourceA: string, sourceB: string)
    requires LogicalOf(sourceA) == Some(a) && LogicalOf(sourceB) == Some(b) && a.name != b.name
    requires Acceptable(inp, a) && Acceptable(inp, b)
    requires a.name !in inp.known && b.name !in inp.known
    requires a.name !in inp.discovered && b.name !in inp.discovered
    requires inp.naming.digest(a.name) != inp.naming.digest(b.name)
    requires HasPrefix(inp.naming.appsRoot, "/") && Clean(DataDir(inp.naming, inp.appID)) != "/"
    ensures Chosen(inp, a).ref != Chosen(inp, b).ref
  {
    if a.kind == Bind {
      BindLocation(inp, a, sourceA);
    }
    if b.kind == Bind {
      BindLocation(inp, b, sourceB);
    }
    if a.kind == Volume && b.kind == Volume {
      var prefix := "se-vol-" + inp.appID + "-";
      assert Chosen(inp, a).ref[|prefix|..] == inp.naming.digest(a.name);
      assert Chosen(inp, b).ref[|prefix|..] == inp.naming.digest(b.name);
    } else if a.kind == Bind && b.kind == Bind {
      var prefix := Clean(DataDir(inp.naming, inp.appID)) + "/";
      assert Chosen(inp, a).ref[|prefix|..] == a.name;
      assert Chosen(inp, b).ref[|prefix|..] == b.name;
    }
  }

  /** A managed bind lives at its key, below the app's own data directory. */
  lemma BindLocation(inp: Inputs, logical: Logical, source: string)
    requires LogicalOf(source) == Some(logical) && logical.kind == Bind
    requires Acceptable(inp, logical) && logical.name !in inp.known
    requires HasPrefix(inp.naming.appsRoot, "/") && Clean(DataDir(inp.naming, inp.appID)) != "/"
    ensures Chosen(inp, logical).ref == Clean(DataDir(inp.naming, inp.appID)) + "/" + logical.name
    ensures HasPrefix(Chosen(inp, logical).ref, "/")
  {
    KeyIsCanonical(source);
    var dir := DataDir(inp.naming, inp.appID);
    assert HasPrefix(dir, "/") by {
      assert dir[0] == inp.naming.appsRoot[0];
    }
    JoinBelow(dir, logical.name);
    assert dir[0] == '/';
    assert Clean(dir)[0] == '/';
  }

  /** An id that is one component of a path. */
  predicate OneComponent(id: string) {
    Ordinary(id) && '/' !in id
  }

  /** No app is given a place of another one: a fresh bind does not lie in the other app's data directory, and fresh
      locations differ, as long as digests are of one length. */
  lemma {:induction false} AppsAreSeparate(x: Inputs, y: Inputs, a: Logical, b: Logical, sourceA: string,
                                           sourceB: string)
    requires x.naming == y.naming && x.appID != y.appID && OneComponent(x.appID) && OneComponent(y.appID)
    requires LogicalOf(sourceA) == Some(a) && LogicalOf(sourceB) == Some(b) && Acceptable(x, a) && Acceptable(y, b)
    requires a.name !in x.known && a.name !in x.discovered && b.name !in y.known && b.name !in y.discovered
    requires |x.naming.digest(a.name)| == |x.naming.digest(b.name)|
    requires HasPrefix(x.naming.appsRoot, "/") && Clean(x.naming.appsRoot) != "/"
    requires Clean(x.naming.appsRoot + "/data") != "/"
    ensures a.kind == Bind ==> !HasPrefix(Chosen(x, a).ref, Clean(DataDir(y.naming, y.appID)) + "/")
    ensures Chosen(x, a).ref != Chosen(y, b).ref
  {
    DataDirOf(x.naming, x.appID);
    DataDirOf(y.naming, y.appID);
    hide Acceptable, LogicalOf, Clean, OneComponent;
    var root := Clean(x.naming.appsRoot + "/data") + "/";
    if a.kind == Bind {
      BindLocation(x, a, sourceA);
      DifferentComponent(root, x.appID, y.appID, Chosen(x, a).ref, a.name);
    }
    if b.kind == Bind {
      BindLocation(y, b, sourceB);
      assert HasPrefix(Chosen(y, b).ref, Clean(DataDir(y.naming, y.appID)) + "/");
    }
    if a.kind == Volume && b.kind == Volume {
      VolumesAreOwn(x.naming, x.appID, y.appID, a.name, b.name);
    }
  }

  lemma DataDirOf(naming: Naming, id: string)
    requires HasPrefix(naming.appsRoot, "/") && Clean(naming.appsRoot + "/data") != "/" && OneComponent(id)
    ensures Clean(DataDir(naming, id)) == Clean(naming.appsRoot + "/data") + "/" + id
    ensures Clean(DataDir(naming, id)) != "/"
  {
    var dir := naming.appsRoot + "/data";
    CleanOfNormal([id]);
    assert Join([id], '/') == id;
    assert Clean(id) == id;
    assert dir[0] == naming.appsRoot[0] == '/';
    assert forall i | 0 <= i < |id| :: id[i] in id;
    assert |id| > 2 ==> id[2] != "../"[2];
    assert id[0] != "/"[0];
    JoinBelow(dir, id);
    assert dir + "/" + id == DataDir(naming, id);
  }

  lemma DifferentComponent(root: string, a: string, b: string, path: string, name: string)
    requires path == root + a + "/" + name && a != b && '/' !in a && '/' !in b
    ensures !HasPrefix(path, root + b + "/")
  {
    if HasPrefix(path, root + b + "/") {
      var tail := path[|root + b + "/"|..];
      assert path[|root|..] == a + ['/'] + name;
      assert path[|root|..] == b + ['/'] + tail;
      SameAround(a, name, b, tail, '/');
    }
  }

  lemma VolumesAreOwn(naming: Naming, a: string, b: string, x: string, y: string)
    requires a != b && |naming.digest(x)| == |naming.digest(y)|
    ensures ManagedVolumeName(naming, a, x) != ManagedVolumeName(naming, b, y)
  {
    var v, w := ManagedVolumeName(naming, a, x), ManagedVolumeName(naming, b, y);
    if |a| == |b| {
      assert v[|"se-vol-"|..|"se-vol-" + a|] == a && w[|"se-vol-"|..|"se-vol-" + b|] == b;
    } else {
      assert |v| != |w|;
    }
  }
}
