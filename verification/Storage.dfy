/** internal/deployer/update_storage.go plans where each logical storage of a spec lives;
    internal/composer/runtime.go translates the same mounts again when it creates containers. */
module Storage {
  import opened Common
  import opened Strings
  import opened Paths
  import opened Volumes
  import opened Compose

  datatype Logical = Logical(name: string, kind: Kind)

  /** Everything the planner reads besides the spec. `known` holds the persisted mappings and
      `discovered` what the old containers were found to mount. */
  datatype Inputs = Inputs(naming: Naming, appID: string, known: map<string, Binding>,
                           discovered: map<string, Binding>, oldSourceDir: string)

  datatype Plan = Plan(candidate: map<string, Binding>, all: map<string, Binding>,
                       previous: map<string, Binding>, migrateBinds: map<string, string>)

  /** logicalStorageName */
  function LogicalOf(source: string): Option<Logical> {
    if source == "" || HasPrefix(source, "/") then None
    else Some(Logical(CanonicalStorageKey(source), if Relative(source) then Bind else Volume))
  }

  function LogicalAt(raw: string): Option<Logical> {
    var mount := MountOf(raw);
    if mount.None? then None else LogicalOf(mount.value.source)
  }

  /** cleanRelativeStorage */
  function CleanRelativeStorage(source: string): Option<string> {
    if Below(Clean(source)) then Some(Clean(source)) else None
  }

  function DataDir(naming: Naming, appID: string): string {
    naming.appsRoot + "/data/" + appID
  }

  function Legacy(inp: Inputs): map<string, Binding> {
    map l | l in inp.discovered && l !in inp.known :: inp.discovered[l]
  }

  /** The location of a storage that has no persisted mapping yet. */
  function FreshBinding(inp: Inputs, logical: Logical): Binding {
    var legacy := Legacy(inp);
    if logical.kind == Bind then
      Binding(Bind, JoinPath(DataDir(inp.naming, inp.appID), Clean(logical.name)))
    else if logical.name in legacy && legacy[logical.name].kind == Volume then
      Binding(Volume, legacy[logical.name].ref)
    else
      Binding(Volume, ManagedVolumeName(inp.naming, inp.appID, logical.name))
  }

  function Chosen(inp: Inputs, logical: Logical): Binding {
    if logical.name in inp.known then inp.known[logical.name] else FreshBinding(inp, logical)
  }

  /** oldBindSource */
  function OldBindSource(inp: Inputs, logical: string): string {
    if inp.oldSourceDir == "" then ""
    else if logical in inp.discovered && inp.discovered[logical].ref != "" then inp.discovered[logical].ref
    else JoinPath(inp.oldSourceDir, if HasPrefix(logical, "./") then logical[2..] else logical)
  }

  ghost function Mounts(spec: Spec): set<string> {
    set s, i | s in spec.services && 0 <= i < |spec.services[s].volumes| :: spec.services[s].volumes[i]
  }

  ghost predicate Acceptable(inp: Inputs, logical: Logical) {
    && (logical.name in inp.known ==> inp.known[logical.name].kind == logical.kind)
    && (logical.name !in inp.known && logical.kind == Bind ==> CleanRelativeStorage(logical.name).Some?)
  }

  ghost predicate KindsAgree(raws: set<string>) {
    forall a, b | a in raws && b in raws && LogicalAt(a).Some? && LogicalAt(b).Some? ::
      LogicalAt(a).value.name == LogicalAt(b).value.name ==> LogicalAt(a).value.kind == LogicalAt(b).value.kind
  }

  /** What it takes for a spec to be planned. Nothing here depends on the order of services. */
  ghost predicate Accepts(inp: Inputs, spec: Spec) {
    && (forall raw | raw in Mounts(spec) :: LogicalAt(raw).Some? && Acceptable(inp, LogicalAt(raw).value))
    && KindsAgree(Mounts(spec))
  }

  /** `c` maps exactly the logical names mounted by `raws`, each to its chosen location. */
  ghost predicate CandidateFor(inp: Inputs, raws: set<string>, c: map<string, Binding>) {
    && (forall raw | raw in raws ::
          && LogicalAt(raw).Some?
          && LogicalAt(raw).value.name in c
          && c[LogicalAt(raw).value.name] == Chosen(inp, LogicalAt(raw).value))
    && (forall l | l in c :: exists raw | raw in raws :: LogicalAt(raw).Some? && LogicalAt(raw).value.name == l)
  }

  /** The old source that a mount's storage is copied from; empty when nothing is copied. */
  function CopySource(inp: Inputs, logical: Logical, readOnly: bool): string {
    var source := OldBindSource(inp, logical.name);
    if logical.kind == Bind && !readOnly && source != Chosen(inp, logical).ref then source else ""
  }

  function Backup(inp: Inputs, l: string): Binding {
    if l in Legacy(inp) then Legacy(inp)[l] else Binding(Bind, OldBindSource(inp, l))
  }

  /** The location archived for a storage that is mounted this way: the one it will have, or the one it is
      copied from. */
  function Archived(inp: Inputs, logical: Logical, readOnly: bool): Binding {
    if CopySource(inp, logical, readOnly) != "" then Backup(inp, logical.name) else Chosen(inp, logical)
  }

  function ReadOnlyAt(raw: string): bool {
    MountOf(raw).Some? && MountOf(raw).value.readOnly
  }

  /** The mount settles what is archived for its storage, and that its storage is copied if it is to be. */
  ghost predicate Settles(inp: Inputs, plan: Plan, raw: string) {
    LogicalAt(raw).Some?
    && var logical := LogicalAt(raw).value;
       var source := CopySource(inp, logical, ReadOnlyAt(raw));
       && logical.name in plan.all && plan.all[logical.name] == Archived(inp, logical, ReadOnlyAt(raw))
       && (source != "" ==> source in plan.migrateBinds)
  }

  /** The mount asks for this copy. */
  ghost predicate Moves(inp: Inputs, raw: string, source: string, target: string) {
    LogicalAt(raw).Some? && source != "" && CopySource(inp, LogicalAt(raw).value, ReadOnlyAt(raw)) == source
    && Chosen(inp, LogicalAt(raw).value).ref == target
  }

  /** The loop over discovered storage: what has no persisted mapping is legacy. */
  method FindLegacy(inp: Inputs) returns (legacy: map<string, Binding>)
    ensures legacy == Legacy(inp)
  {
    legacy := map[];
    var rest := inp.discovered.Keys;
    while rest != {}
      invariant rest <= inp.discovered.Keys
      invariant legacy == map l | l in inp.discovered.Keys - rest && l !in inp.known :: inp.discovered[l]
    {
      var l :| l in rest;
      if l !in inp.known {
        legacy := legacy[l := inp.discovered[l]];
      }
      rest := rest - {l};
    }
  }

  /** What the planner promises about backups and copies. Storage that is not mounted is archived where it is; for every
      mounted storage one of its mounts settles the backup and the copy; and there are no other copies. */
  ghost predicate PlanSound(inp: Inputs, raws: set<string>, plan: Plan) {
    && plan.previous == inp.discovered + inp.known
    && plan.all.Keys == plan.previous.Keys + plan.candidate.Keys
    && (forall l | l in plan.previous && l !in plan.candidate :: plan.all[l] == plan.previous[l])
    && (forall l | l in plan.candidate :: exists raw | raw in raws :: Named(raw, l) && Settles(inp, plan, raw))
    && (forall source | source in plan.migrateBinds ::
          exists raw | raw in raws :: Moves(inp, raw, source, plan.migrateBinds[source]))
  }

  predicate Named(raw: string, l: string) {
    LogicalAt(raw).Some? && LogicalAt(raw).value.name == l
  }

  /** What the mounts planned so far, those in `seen`, make of the candidate. */
  ghost predicate Progress(inp: Inputs, seen: set<string>, plan: Plan) {
    && CandidateFor(inp, seen, plan.candidate)
    && forall raw | raw in seen ::
         && Acceptable(inp, LogicalAt(raw).value)
         && plan.candidate[LogicalAt(raw).value.name].kind == LogicalAt(raw).value.kind
  }

  // ---------------------------------------------------------------- the plan as a function of the visiting order

  /** The plan after a storage is met for the first time. */
  function Declare(inp: Inputs, plan: Plan, logical: Logical, readOnly: bool): Plan {
    var l := logical.name;
    var binding := Chosen(inp, logical);
    var source := CopySource(inp, logical, readOnly);
    var copied := source != "";
    Plan(plan.candidate[l := binding],
         plan.all[l := Archived(inp, logical, readOnly)],
         plan.previous,
         if copied then plan.migrateBinds[source := binding.ref] else plan.migrateBinds)
  }

  /** The plan after one more mount: None when the mount is refused; unchanged when its storage is known already. */
  ghost function Step(inp: Inputs, plan: Plan, raw: string): Option<Plan> {
    if LogicalAt(raw).None? then None
    else
      var logical := LogicalAt(raw).value;
      if logical.name in plan.candidate then
        if plan.candidate[logical.name].kind == logical.kind then Some(plan) else None
      else if !Acceptable(inp, logical) then None
      else Some(Declare(inp, plan, logical, ReadOnlyAt(raw)))
  }

  ghost function InOrder(inp: Inputs, plan: Plan, raws: seq<string>): Option<Plan>
    decreases |raws|
  {
    if raws == [] then Some(plan)
    else
      var next := Step(inp, plan, raws[0]);
      if next.None? then None else InOrder(inp, next.value, raws[1..])
  }

  /** Before any mount: what is persisted or was found stays where it is. */
  function Start(inp: Inputs): Plan {
    Plan(map[], inp.known + Legacy(inp), inp.known + Legacy(inp), map[])
  }

  /** The mounts in the order of the services, and in each service in the order of its list. */
  function Visited(spec: Spec, order: seq<string>): seq<string> {
    if order == [] then []
    else (if order[0] in spec.services then spec.services[order[0]].volumes else []) + Visited(spec, order[1..])
  }

  ghost predicate IsOrder(spec: Spec, order: seq<string>) {
    multiset(order) == multiset(spec.services.Keys)
  }

  ghost function PlanInOrder(inp: Inputs, spec: Spec, order: seq<string>): Option<Plan> {
    InOrder(inp, Start(inp), Visited(spec, order))
  }

  lemma {:induction false} InOrderSplits(inp: Inputs, plan: Plan, a: seq<string>, b: seq<string>)
    ensures InOrder(inp, plan, a + b) ==
            if InOrder(inp, plan, a).None? then None else InOrder(inp, InOrder(inp, plan, a).value, b)
    decreases |a|
  {
    hide Step;
    if a == [] {
      assert a + b == b;
    } else {
      assert (a + b)[1..] == a[1..] + b;
      var next := Step(inp, plan, a[0]);
      if next.Some? {
        InOrderSplits(inp, next.value, a[1..], b);
      }
    }
  }

  lemma InOrderOne(inp: Inputs, plan: Plan, raw: string)
    ensures InOrder(inp, plan, [raw]) == Step(inp, plan, raw)
  {
    hide Step;
    assert [raw][1..] == [];
  }

  lemma {:induction false} VisitedSplits(spec: Spec, a: seq<string>, b: seq<string>)
    ensures Visited(spec, a + b) == Visited(spec, a) + Visited(spec, b)
    decreases |a|
  {
    if a == [] {
      assert a + b == b;
    } else {
      assert (a + b)[1..] == a[1..] + b;
      VisitedSplits(spec, a[1..], b);
    }
  }

  lemma VisitedOne(spec: Spec, name: string)
    requires name in spec.services
    ensures Visited(spec, [name]) == spec.services[name].volumes
  {
    assert [name][1..] == [] && Visited(spec, [name][1..]) == [];
  }

  // ---------------------------------------------------------------- what holds of the plan in every order

  lemma ChosenKind(inp: Inputs, logical: Logical)
    requires Acceptable(inp, logical)
    ensures Chosen(inp, logical).kind == logical.kind
  {
  }

  /** Declaring a storage leaves the others settled as they were. */
  lemma SettledStays(inp: Inputs, before: Plan, logical: Logical, readOnly: bool, raw: string)
    requires Settles(inp, before, raw) && LogicalAt(raw).value.name != logical.name
    ensures Settles(inp, Declare(inp, before, logical, readOnly), raw)
  {
    hide LogicalAt, CopySource, Archived, Chosen;
  }

  /** Every first mount of a storage keeps the promise. */
  lemma {:induction false} DeclareIsSound(inp: Inputs, raws: set<string>, before: Plan, raw: string)
    requires PlanSound(inp, raws, before) && LogicalAt(raw).Some? && LogicalAt(raw).value.name !in before.candidate
    ensures PlanSound(inp, raws + {raw}, Declare(inp, before, LogicalAt(raw).value, ReadOnlyAt(raw)))
  {
    hide LogicalAt, CopySource, Archived, Chosen, ReadOnlyAt;
    var logical := LogicalAt(raw).value;
    var after := Declare(inp, before, logical, ReadOnlyAt(raw));
    assert Settles(inp, after, raw);
    forall l | l in after.candidate ensures exists r | r in raws + {raw} :: Named(r, l) && Settles(inp, after, r) {
      if l != logical.name {
        var r :| r in raws && Named(r, l) && Settles(inp, before, r);
        SettledStays(inp, before, logical, ReadOnlyAt(raw), r);
        assert r in raws + {raw};
      } else {
        assert raw in raws + {raw} && Named(raw, l);
      }
    }
    forall source | source in after.migrateBinds
      ensures exists r | r in raws + {raw} :: Moves(inp, r, source, after.migrateBinds[source])
    {
      if source == CopySource(inp, logical, ReadOnlyAt(raw)) && source != "" {
        assert raw in raws + {raw} && Moves(inp, raw, source, after.migrateBinds[source]);
      } else {
        var r :| r in raws && Moves(inp, r, source, before.migrateBinds[source]);
        assert r in raws + {raw};
      }
    }
  }

  lemma SoundStays(inp: Inputs, raws: set<string>, plan: Plan, raw: string)
    requires PlanSound(inp, raws, plan)
    ensures PlanSound(inp, raws + {raw}, plan)
  {
    hide Named, Settles, Moves;
    forall l | l in plan.candidate ensures exists r | r in raws + {raw} :: Named(r, l) && Settles(inp, plan, r) {
      var r :| r in raws && Named(r, l) && Settles(inp, plan, r);
      assert r in raws + {raw};
    }
    forall source | source in plan.migrateBinds
      ensures exists r | r in raws + {raw} :: Moves(inp, r, source, plan.migrateBinds[source])
    {
      var r :| r in raws && Moves(inp, r, source, plan.migrateBinds[source]);
      assert r in raws + {raw};
    }
  }

  lemma {:induction false} ProgressExtends(inp: Inputs, seen: set<string>, before: Plan, after: Plan, raw: string)
    requires Progress(inp, seen, before)
    requires LogicalAt(raw).Some? && Acceptable(inp, LogicalAt(raw).value)
    requires LogicalAt(raw).value.name !in before.candidate
    requires after.candidate
          == before.candidate[LogicalAt(raw).value.name := Chosen(inp, LogicalAt(raw).value)]
    ensures Progress(inp, seen + {raw}, after)
  {
    hide LogicalAt, Chosen, Acceptable;
    ChosenKind(inp, LogicalAt(raw).value);
    forall l | l in after.candidate
      ensures exists r | r in seen + {raw} :: LogicalAt(r).Some? && LogicalAt(r).value.name == l
    {
      if l == LogicalAt(raw).value.name {
        assert raw in seen + {raw};
      } else {
        var r :| r in seen && LogicalAt(r).Some? && LogicalAt(r).value.name == l;
        assert r in seen + {raw};
      }
    }
  }

  lemma ProgressRepeats(inp: Inputs, seen: set<string>, plan: Plan, raw: string)
    requires Progress(inp, seen, plan)
    requires LogicalAt(raw).Some? && LogicalAt(raw).value.name in plan.candidate
    requires plan.candidate[LogicalAt(raw).value.name].kind == LogicalAt(raw).value.kind
    ensures Progress(inp, seen + {raw}, plan)
  {
    hide LogicalAt, Chosen, Acceptable;
    var logical := LogicalAt(raw).value;
    var r :| r in seen && LogicalAt(r).Some? && LogicalAt(r).value.name == logical.name;
    assert LogicalAt(r).value == logical;
    forall l | l in plan.candidate
      ensures exists q | q in seen + {raw} :: LogicalAt(q).Some? && LogicalAt(q).value.name == l
    {
      var q :| q in seen && LogicalAt(q).Some? && LogicalAt(q).value.name == l;
      assert q in seen + {raw};
    }
  }

  lemma KindClash(inp: Inputs, spec: Spec, seen: set<string>, plan: Plan, raw: string)
    requires Progress(inp, seen, plan) && seen <= Mounts(spec) && raw in Mounts(spec)
    requires LogicalAt(raw).Some? && LogicalAt(raw).value.name in plan.candidate
    requires plan.candidate[LogicalAt(raw).value.name].kind != LogicalAt(raw).value.kind
    ensures !Accepts(inp, spec)
  {
    hide LogicalAt, Chosen, Acceptable, Mounts;
    var r :| r in seen && LogicalAt(r).Some? && LogicalAt(r).value.name == LogicalAt(raw).value.name;
    assert r in Mounts(spec);
  }

  lemma Refused(inp: Inputs, spec: Spec, raw: string)
    requires raw in Mounts(spec) && (LogicalAt(raw).None? || !Acceptable(inp, LogicalAt(raw).value))
    ensures !Accepts(inp, spec)
  {
  }

  lemma {:induction false} StepIsSound(inp: Inputs, spec: Spec, seen: set<string>, plan: Plan, raw: string)
    requires seen <= Mounts(spec) && raw in Mounts(spec) && Progress(inp, seen, plan) && PlanSound(inp, seen, plan)
    ensures var next := Step(inp, plan, raw);
      if next.None? then !Accepts(inp, spec)
      else Progress(inp, seen + {raw}, next.value) && PlanSound(inp, seen + {raw}, next.value)
  {
    hide Progress, PlanSound, Accepts, Mounts, LogicalAt, Chosen, CopySource, Archived, Acceptable;
    if LogicalAt(raw).None? {
      Refused(inp, spec, raw);
    } else if LogicalAt(raw).value.name in plan.candidate {
      if plan.candidate[LogicalAt(raw).value.name].kind != LogicalAt(raw).value.kind {
        KindClash(inp, spec, seen, plan, raw);
      } else {
        ProgressRepeats(inp, seen, plan, raw);
        SoundStays(inp, seen, plan, raw);
      }
    } else if !Acceptable(inp, LogicalAt(raw).value) {
      Refused(inp, spec, raw);
    } else {
      DeclareIsSound(inp, seen, plan, raw);
      ProgressExtends(inp, seen, plan, Step(inp, plan, raw).value, raw);
    }
  }

  lemma {:induction false} InOrderIsSound(inp: Inputs, spec: Spec, seen: set<string>, plan: Plan, raws: seq<string>)
    requires seen <= Mounts(spec) && (forall raw | raw in raws :: raw in Mounts(spec))
    requires Progress(inp, seen, plan) && PlanSound(inp, seen, plan)
    ensures var last := InOrder(inp, plan, raws);
      if last.None? then !Accepts(inp, spec)
      else
        var all := seen + set raw | raw in raws;
        Progress(inp, all, last.value) && PlanSound(inp, all, last.value)
    decreases |raws|
  {
    hide Progress, PlanSound, Accepts, Mounts, Step;
    if raws == [] {
      assert seen + (set raw | raw in raws) == seen;
    } else {
      StepIsSound(inp, spec, seen, plan, raws[0]);
      var next := Step(inp, plan, raws[0]);
      if next.Some? {
        assert forall raw | raw in raws[1..] :: raw in raws;
        InOrderIsSound(inp, spec, seen + {raws[0]}, next.value, raws[1..]);
        assert raws == [raws[0]] + raws[1..];
        assert seen + {raws[0]} + (set raw | raw in raws[1..]) == seen + set raw | raw in raws;
      }
    }
  }

  /** The visited mounts are those of the spec. */
  lemma {:induction false} VisitedAre(spec: Spec, order: seq<string>, raw: string)
    ensures raw in Visited(spec, order) <==>
      exists s | s in order :: s in spec.services && raw in spec.services[s].volumes
    decreases |order|
  {
    if order != [] {
      VisitedAre(spec, order[1..], raw);
      assert order == [order[0]] + order[1..];
    }
  }

  lemma AllVisited(spec: Spec, order: seq<string>)
    requires IsOrder(spec, order)
    ensures (set raw | raw in Visited(spec, order)) == Mounts(spec)
  {
    forall raw ensures raw in Visited(spec, order) <==> raw in Mounts(spec) {
      hide Visited;
      if raw in Mounts(spec) {
        var s, i :| s in spec.services && 0 <= i < |spec.services[s].volumes| && spec.services[s].volumes[i] == raw;
        assert s in multiset(spec.services.Keys) && s in multiset(order) && s in order;
      }
      VisitedAre(spec, order, raw);
    }
  }

  lemma StartIsSound(inp: Inputs)
    ensures Progress(inp, {}, Start(inp)) && PlanSound(inp, {}, Start(inp))
  {
    assert Start(inp).previous == inp.discovered + inp.known;
  }

  /** Whatever the order: the spec is planned exactly when it is acceptable, the candidate is the same, and backups and
      copies keep their promise. */
  lemma {:induction false} EveryOrderIsSound(inp: Inputs, spec: Spec, order: seq<string>)
    requires IsOrder(spec, order)
    ensures PlanInOrder(inp, spec, order).Some? <==> Accepts(inp, spec)
    ensures PlanInOrder(inp, spec, order).Some? ==>
      var plan := PlanInOrder(inp, spec, order).value;
      CandidateFor(inp, Mounts(spec), plan.candidate) && PlanSound(inp, Mounts(spec), plan)
  {
    hide *;
    AllVisited(spec, order);
    StartIsSound(inp);
    var raws := Visited(spec, order);
    assert forall raw | raw in raws :: raw in set r | r in raws;
    InOrderIsSound(inp, spec, {}, Start(inp), raws);
    assert {} + Mounts(spec) == Mounts(spec);
    PlanIsInOrder(inp, spec, order);
    if PlanInOrder(inp, spec, order).Some? {
      AllSeen(inp, spec, PlanInOrder(inp, spec, order).value);
    }
  }

  lemma PlanIsInOrder(inp: Inputs, spec: Spec, order: seq<string>)
    ensures PlanInOrder(inp, spec, order) == InOrder(inp, Start(inp), Visited(spec, order))
  {
  }

  lemma AllSeen(inp: Inputs, spec: Spec, plan: Plan)
    requires Progress(inp, Mounts(spec), plan)
    ensures Accepts(inp, spec) && CandidateFor(inp, Mounts(spec), plan.candidate)
  {
    hide LogicalAt, Chosen, Acceptable;
  }

  // ---------------------------------------------------------------- which mount decides

  /** Mounts of other storages, and further mounts of a storage that is planned, leave its archive and its copy as they
      are. */
  lemma {:induction false} OthersLeave(inp: Inputs, plan: Plan, raws: seq<string>, l: string, source: string)
    requires InOrder(inp, plan, raws).Some? && (l in plan.candidate || forall raw | raw in raws :: !Named(raw, l))
    requires forall raw | raw in raws && LogicalAt(raw).Some? ::
      LogicalAt(raw).value.name == l || OldBindSource(inp, LogicalAt(raw).value.name) != source
    ensures var last := InOrder(inp, plan, raws).value;
      && (l in plan.candidate <==> l in last.candidate)
      && (l in plan.candidate ==> last.candidate[l] == plan.candidate[l])
      && (l in plan.all ==> l in last.all && last.all[l] == plan.all[l])
      && (source in last.migrateBinds <==> source in plan.migrateBinds)
      && (source in plan.migrateBinds ==> last.migrateBinds[source] == plan.migrateBinds[source])
    decreases |raws|
  {
    hide LogicalAt, ReadOnlyAt, Chosen, Archived, Acceptable, OldBindSource;
    if raws != [] {
      var next := Step(inp, plan, raws[0]).value;
      assert raws[0] in raws && forall raw | raw in raws[1..] :: raw in raws;
      OthersLeave(inp, next, raws[1..], l, source);
    }
  }

  /** The first mount of a storage, in the order in which the planner visits them, decides: it settles what is archived,
      and the old source is copied exactly when it is a writable bind and the source is elsewhere, provided that no
      other storage has that source. */
  lemma {:induction false} FirstMountDecides(inp: Inputs, raws: seq<string>, plan: Plan, k: nat)
    requires InOrder(inp, Start(inp), raws) == Some(plan) && k < |raws| && LogicalAt(raws[k]).Some?
    requires forall j | 0 <= j < k :: !Named(raws[j], LogicalAt(raws[k]).value.name)
    requires forall raw | raw in raws && LogicalAt(raw).Some? ::
      LogicalAt(raw).value.name == LogicalAt(raws[k]).value.name
      || OldBindSource(inp, LogicalAt(raw).value.name) != OldBindSource(inp, LogicalAt(raws[k]).value.name)
    ensures var logical := LogicalAt(raws[k]).value;
      var source := OldBindSource(inp, logical.name);
      && logical.name in plan.candidate && plan.candidate[logical.name] == Chosen(inp, logical)
      && logical.name in plan.all && plan.all[logical.name] == Archived(inp, logical, ReadOnlyAt(raws[k]))
      && (source in plan.migrateBinds <==>
            logical.kind == Bind && !ReadOnlyAt(raws[k]) && source !in {"", plan.candidate[logical.name].ref})
      && (source in plan.migrateBinds ==> plan.migrateBinds[source] == plan.candidate[logical.name].ref)
  {
    hide LogicalAt, ReadOnlyAt, Chosen, Archived, Acceptable, OldBindSource;
    var logical := LogicalAt(raws[k]).value;
    var source := OldBindSource(inp, logical.name);
    var head, tail := raws[..k], raws[k + 1..];
    assert raws == head + ([raws[k]] + tail);
    InOrderSplits(inp, Start(inp), head, [raws[k]] + tail);
    var before := InOrder(inp, Start(inp), head).value;
    InOrderSplits(inp, before, [raws[k]], tail);
    InOrderOne(inp, before, raws[k]);
    assert (forall raw | raw in head :: raw in raws) && forall raw | raw in tail :: raw in raws;
    hide InOrder;
    OthersLeave(inp, Start(inp), head, logical.name, source);
    OthersLeave(inp, Step(inp, before, raws[k]).value, tail, logical.name, source);
  }

  // ---------------------------------------------------------------- the planner's loops

  function Kinds(plan: Plan): map<string, Kind> {
    map l | l in plan.candidate :: plan.candidate[l].kind
  }

  lemma DeclaredKinds(inp: Inputs, plan: Plan, logical: Logical, readOnly: bool)
    requires Acceptable(inp, logical)
    ensures Kinds(Declare(inp, plan, logical, readOnly)) == Kinds(plan)[logical.name := logical.kind]
  {
    ChosenKind(inp, logical);
  }

  /** One mount: None when the planner gives up on it. */
  method PlanMount(inp: Inputs, raw: string, kinds: map<string, Kind>, plan: Plan)
    returns (result: Option<(map<string, Kind>, Plan)>)
    requires kinds == Kinds(plan)
    ensures result.None? <==> Step(inp, plan, raw).None?
    ensures result.Some? ==> Step(inp, plan, raw) == Some(result.value.1) && result.value.0 == Kinds(result.value.1)
  {
    hide MountOf, LogicalOf, Chosen, CopySource, Archived, CleanRelativeStorage;
    var mount := ParseVolumeMount(raw);
    if mount.None? {
      return None;
    }
    var logical := LogicalOf(mount.value.source);
    if logical.None? {
      return None;
    }
    var Logical(l, kind) := logical.value;
    if l in kinds {
      if kinds[l] != kind {
        return None;
      }
      return Some((kinds, plan));
    }
    if l in inp.known && inp.known[l].kind != kind {
      return None;
    }
    if l !in inp.known && kind == Bind && CleanRelativeStorage(l).None? {
      return None;
    }
    DeclaredKinds(inp, plan, logical.value, mount.value.readOnly);
    return Some((kinds[l := kind], Declare(inp, plan, logical.value, mount.value.readOnly)));
  }

  /** The mounts of one service, in their order. */
  method PlanService(inp: Inputs, volumes: seq<string>, kinds: map<string, Kind>, plan: Plan)
    returns (result: Option<(map<string, Kind>, Plan)>)
    requires kinds == Kinds(plan)
    ensures result.None? <==> InOrder(inp, plan, volumes).None?
    ensures result.Some? ==>
      InOrder(inp, plan, volumes) == Some(result.value.1) && result.value.0 == Kinds(result.value.1)
  {
    hide Step, Kinds;
    var kinds', plan' := kinds, plan;
    for i := 0 to |volumes|
      invariant InOrder(inp, plan, volumes[..i]) == Some(plan') && kinds' == Kinds(plan')
    {
      var step := PlanMount(inp, volumes[i], kinds', plan');
      InOrderOne(inp, plan', volumes[i]);
      InOrderSplits(inp, plan, volumes[..i], [volumes[i]]);
      assert volumes[..i + 1] == volumes[..i] + [volumes[i]];
      if step.None? {
        InOrderSplits(inp, plan, volumes[..i + 1], volumes[i + 1..]);
        assert volumes == volumes[..i + 1] + volumes[i + 1..];
        return None;
      }
      kinds', plan' := step.value.0, step.value.1;
    }
    assert volumes[..|volumes|] == volumes;
    result := Some((kinds', plan'));
  }

  /** The services of the candidate are visited in any order. */
  method PlanStorage(inp: Inputs, spec: Spec) returns (result: Option<Plan>)
    ensures exists order :: IsOrder(spec, order) && result == PlanInOrder(inp, spec, order)
    ensures result.Some? <==> Accepts(inp, spec)
    ensures result.Some? ==> CandidateFor(inp, Mounts(spec), result.value.candidate)
    ensures result.Some? ==> PlanSound(inp, Mounts(spec), result.value)
  {
    hide *;
    var legacy := FindLegacy(inp);
    var plan := Plan(map[], inp.known + legacy, inp.known + legacy, map[]);
    var kinds: map<string, Kind> := map[];
    BeforeFirst(inp, spec, plan);
    ghost var order: seq<string> := [];
    var rest := spec.services.Keys;
    while rest != {}
      invariant rest <= spec.services.Keys && BeforeRest(spec, order, rest)
      invariant PlanInOrder(inp, spec, order) == Some(plan) && kinds == Kinds(plan)
      decreases rest
    {
      var name :| name in rest;
      var step := PlanService(inp, spec.services[name].volumes, kinds, plan);
      NextService(inp, spec, order, name, rest);
      rest := rest - {name};
      order := order + [name];
      if step.None? {
        GivenUp(inp, spec, order, rest);
        return None;
      }
      kinds, plan := step.value.0, step.value.1;
    }
    AllOrdered(spec, order);
    EveryOrderIsSound(inp, spec, order);
    return Some(plan);
  }

  lemma BeforeFirst(inp: Inputs, spec: Spec, plan: Plan)
    requires plan == Plan(map[], inp.known + Legacy(inp), inp.known + Legacy(inp), map[])
    ensures PlanInOrder(inp, spec, []) == Some(plan) && Kinds(plan) == map[]
    ensures BeforeRest(spec, [], spec.services.Keys)
  {
  }

  /** Every service but those in `rest` has been visited once. */
  ghost predicate BeforeRest(spec: Spec, order: seq<string>, rest: set<string>) {
    multiset(order) == multiset(spec.services.Keys - rest)
  }

  lemma AllOrdered(spec: Spec, order: seq<string>)
    requires BeforeRest(spec, order, {})
    ensures IsOrder(spec, order)
  {
    assert spec.services.Keys - {} == spec.services.Keys;
  }

  lemma NextService(inp: Inputs, spec: Spec, order: seq<string>, name: string, rest: set<string>)
    requires name in rest && rest <= spec.services.Keys && BeforeRest(spec, order, rest)
    requires PlanInOrder(inp, spec, order).Some?
    ensures BeforeRest(spec, order + [name], rest - {name})
    ensures PlanInOrder(inp, spec, order + [name])
         == InOrder(inp, PlanInOrder(inp, spec, order).value, spec.services[name].volumes)
  {
    assert spec.services.Keys - (rest - {name}) == spec.services.Keys - rest + {name};
    hide InOrder, Visited, BeforeRest, Start;
    VisitedSplits(spec, order, [name]);
    VisitedOne(spec, name);
    InOrderSplits(inp, Start(inp), Visited(spec, order), spec.services[name].volumes);
  }

  /** A mount that is refused ends the planning, in whatever order the remaining services would have come. */
  lemma GivenUp(inp: Inputs, spec: Spec, order: seq<string>, rest: set<string>)
    requires rest <= spec.services.Keys && BeforeRest(spec, order, rest)
    requires PlanInOrder(inp, spec, order).None?
    ensures !Accepts(inp, spec) && exists all :: IsOrder(spec, all) && None == PlanInOrder(inp, spec, all)
  {
    hide Accepts, Visited, InOrder;
    var later := SomeOrder(rest);
    VisitedSplits(spec, order, later);
    InOrderSplits(inp, Start(inp), Visited(spec, order), Visited(spec, later));
    assert spec.services.Keys == spec.services.Keys - rest + rest;
    assert IsOrder(spec, order + later);
    EveryOrderIsSound(inp, spec, order + later);
  }

  lemma SomeOrder(names: set<string>) returns (order: seq<string>)
    ensures multiset(order) == multiset(names)
  {
    order := [];
    var rest := names;
    while rest != {}
      invariant rest <= names && multiset(order) == multiset(names - rest)
    {
      var name :| name in rest;
      rest, order := rest - {name}, order + [name];
      assert names - rest == names - (rest + {name}) + {name};
    }
    assert names - rest == names;
  }

  /** Two candidate maps for the same mounts are the same map, so the order in which the planner
      visits them cannot show. */
  lemma CandidateIsUnique(inp: Inputs, raws: set<string>, c: map<string, Binding>, d: map<string, Binding>)
    requires CandidateFor(inp, raws, c) && CandidateFor(inp, raws, d)
    ensures c == d
  {
    assert c.Keys == d.Keys;
    forall l | l in c ensures c[l] == d[l] {
      var raw :| raw in raws && LogicalAt(raw).Some? && LogicalAt(raw).value.name == l;
      assert c[l] == Chosen(inp, LogicalAt(raw).value) == d[l];
    }
  }
}
