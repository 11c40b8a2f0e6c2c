/** What the planner's backups and copies are worth: which storage is archived where its data is, and which storage is
    copied to its new place. */
module Backups {
  import opened Common
  import opened Strings
  import opened Paths
  import opened Volumes
  import opened Compose
  import opened Storage

  /** What planning a spec yields, in any order of its mounts. */
  ghost predicate PlanFor(inp: Inputs, spec: Spec, plan: Plan) {
    Accepts(inp, spec) && CandidateFor(inp, Mounts(spec), plan.candidate) && PlanSound(inp, Mounts(spec), plan)
  }

  /** All mounts of the storage are read-only, or all are writable. */
  ghost predicate MountedAs(spec: Spec, l: string, readOnly: bool) {
    forall raw | raw in Mounts(spec) && Named(raw, l) :: ReadOnlyAt(raw) == readOnly
  }

  /** Where the data of a mounted storage is before the update: `logical` is the storage as the spec mounts it. The
      backup is taken there when a persisted storage is not to be overwritten by another old source, and when a
      discovered one is copied or stays. */
  predicate KeepsPrevious(inp: Inputs, logical: Logical, readOnly: bool)
    requires logical.name in inp.known || logical.name in inp.discovered
  {
    var l := logical.name;
    var source := OldBindSource(inp, l);
    var writableBind := logical.kind == Bind && !readOnly;
    if l in inp.known then writableBind ==> source in {"", inp.known[l].ref}
    else
      var planned := FreshBinding(inp, logical);
      (writableBind && source !in {"", planned.ref}) || planned == inp.discovered[l]
  }

  /** When the mounts of a storage agree, they settle it together. */
  lemma {:induction false} MountsSettle(inp: Inputs, spec: Spec, plan: Plan, l: string, readOnly: bool)
    requires PlanFor(inp, spec, plan) && l in plan.candidate && MountedAs(spec, l, readOnly)
    ensures var logical := Logical(l, plan.candidate[l].kind);
      var source := CopySource(inp, logical, readOnly);
      && plan.candidate[l] == Chosen(inp, logical)
      && l in plan.all && plan.all[l] == Archived(inp, logical, readOnly)
      && (source != "" ==> source in plan.migrateBinds)
  {
    hide LogicalAt, ReadOnlyAt, Chosen, CopySource, Archived, Mounts, Moves, Acceptable, Settles, KindsAgree;
    var raw :| raw in Mounts(spec) && Named(raw, l) && Settles(inp, plan, raw);
    hide PlanSound;
    MountChooses(inp, spec, plan, raw);
    MountSettles(inp, plan, raw);
    assert ReadOnlyAt(raw) == readOnly;
  }

  lemma MountChooses(inp: Inputs, spec: Spec, plan: Plan, raw: string)
    requires PlanFor(inp, spec, plan) && raw in Mounts(spec)
    ensures LogicalAt(raw).Some?
    ensures var logical := LogicalAt(raw).value;
      && logical.name in plan.candidate && plan.candidate[logical.name] == Chosen(inp, logical)
      && plan.candidate[logical.name].kind == logical.kind
  {
    hide LogicalAt, Chosen, Mounts, Acceptable, PlanSound, KindsAgree;
    ChosenKind(inp, LogicalAt(raw).value);
  }

  lemma MountSettles(inp: Inputs, plan: Plan, raw: string)
    requires Settles(inp, plan, raw)
    ensures var logical := LogicalAt(raw).value;
      var source := CopySource(inp, logical, ReadOnlyAt(raw));
      && logical.name in plan.all && plan.all[logical.name] == Archived(inp, logical, ReadOnlyAt(raw))
      && (source != "" ==> source in plan.migrateBinds)
  {
  }

  /** A storage that is persisted or was found in the old containers is archived where its data is exactly under that
      condition, or when the new spec does not mount it. */
  lemma BackupKeepsPrevious(inp: Inputs, spec: Spec, plan: Plan, l: string, readOnly: bool)
    requires PlanFor(inp, spec, plan) && l in plan.previous && MountedAs(spec, l, readOnly)
    ensures l in inp.known || l in inp.discovered
    ensures l in plan.all
    ensures plan.all[l] == plan.previous[l] <==>
      (l in plan.candidate ==> KeepsPrevious(inp, Logical(l, plan.candidate[l].kind), readOnly))
  {
    hide MountedAs, Accepts, CandidateFor, Settles, Moves, Mounts, OldBindSource, FreshBinding;
    if l in plan.candidate {
      MountsSettle(inp, spec, plan, l, readOnly);
    }
  }

  /** What the planner takes for the old source of a writable bind is copied to the planned place, unless another
      storage of the spec has the same old source. It is what the old containers mount (of a volume, its name) or,
      without that, the path in the old checkout. */
  lemma {:induction false} OldSourceIsCopied(inp: Inputs, spec: Spec, plan: Plan, l: string)
    requires PlanFor(inp, spec, plan) && l in plan.candidate && MountedAs(spec, l, false)
    requires plan.candidate[l].kind == Bind && OldBindSource(inp, l) !in {"", plan.candidate[l].ref}
    requires forall k | k in plan.candidate && k != l :: OldBindSource(inp, k) != OldBindSource(inp, l)
    ensures OldBindSource(inp, l) in plan.migrateBinds
            && plan.migrateBinds[OldBindSource(inp, l)] == plan.candidate[l].ref
  {
    hide *;
    MountsSettle(inp, spec, plan, l, false);
    CopySourceIs(inp, Logical(l, plan.candidate[l].kind));
    OnlyWritableBindsAreCopied(inp, spec, plan, OldBindSource(inp, l));
  }

  lemma CopySourceIs(inp: Inputs, logical: Logical)
    ensures logical.kind == Bind && OldBindSource(inp, logical.name) != Chosen(inp, logical).ref ==>
      CopySource(inp, logical, false) == OldBindSource(inp, logical.name)
  {
    hide OldBindSource, Chosen;
  }

  lemma CopiedFrom(inp: Inputs, raw: string, source: string, target: string)
    requires Moves(inp, raw, source, target)
    ensures LogicalAt(raw).Some? && OldBindSource(inp, LogicalAt(raw).value.name) == source != ""
    ensures LogicalAt(raw).value.kind == Bind && !ReadOnlyAt(raw)
    ensures Chosen(inp, LogicalAt(raw).value).ref == target != source
  {
    hide LogicalAt, ReadOnlyAt, OldBindSource, Chosen;
  }

  /** Storage that is mounted read-only only, or as a volume, is never the reason for a copy. */
  lemma {:induction false} OnlyWritableBindsAreCopied(inp: Inputs, spec: Spec, plan: Plan, source: string)
    requires PlanFor(inp, spec, plan) && source in plan.migrateBinds
    ensures exists l | l in plan.candidate ::
      && plan.candidate[l] == Binding(Bind, plan.migrateBinds[source]) && OldBindSource(inp, l) == source != ""
      && plan.migrateBinds[source] != source && !MountedAs(spec, l, true)
  {
    hide Settles, Mounts, LogicalAt, ReadOnlyAt, OldBindSource, Chosen, Moves, Archived, CopySource, Acceptable;
    var raw :| raw in Mounts(spec) && Moves(inp, raw, source, plan.migrateBinds[source]);
    CopiedFrom(inp, raw, source, plan.migrateBinds[source]);
    var logical := LogicalAt(raw).value;
    ChosenKind(inp, logical);
    assert logical.name in plan.candidate && plan.candidate[logical.name] == Chosen(inp, logical);
    assert Named(raw, logical.name) && !ReadOnlyAt(raw);
  }

  // ---------------------------------------------------------------- where the data goes

  /** With the planned copies made, the data is where the plan puts the storage: it was there before, or it was in a
      directory and that directory is copied there. */
  predicate Arrives(plan: Plan, l: string)
    requires l in plan.previous && l in plan.candidate
  {
    var was, planned := plan.previous[l], plan.candidate[l];
    || was == planned
    || (was.kind == planned.kind == Bind
        && was.ref in plan.migrateBinds && plan.migrateBinds[was.ref] == planned.ref)
  }

  /** A storage found in the old containers can follow the plan: it keeps its kind, and a directory that is not at its
      managed place is mounted writable and the old checkout is known. */
  predicate CanFollow(inp: Inputs, logical: Logical, readOnly: bool)
    requires logical.name in inp.discovered && logical.name !in inp.known
  {
    var was := inp.discovered[logical.name];
    && was.kind == logical.kind
    && (was.kind == Bind && was.ref != FreshBinding(inp, logical).ref ==>
          !readOnly && inp.oldSourceDir != "" && was.ref != "")
  }

  /** No other mounted storage has the same old source. */
  ghost predicate SourceOfItsOwn(inp: Inputs, plan: Plan, l: string) {
    forall k | k in plan.candidate && k != l ::
      OldBindSource(inp, l) == "" || OldBindSource(inp, k) != OldBindSource(inp, l)
  }

  /** For a storage that was found in the old containers and has no persisted mapping yet: its data arrives at the
      planned place exactly under that condition. */
  lemma {:induction false} DataArrivesIff(inp: Inputs, spec: Spec, plan: Plan, l: string, readOnly: bool)
    requires PlanFor(inp, spec, plan) && l in plan.candidate && MountedAs(spec, l, readOnly)
    requires l in inp.discovered && l !in inp.known && SourceOfItsOwn(inp, plan, l)
    ensures l in plan.previous && plan.previous[l] == inp.discovered[l]
    ensures Arrives(plan, l) <==> CanFollow(inp, Logical(l, plan.candidate[l].kind), readOnly)
  {
    hide PlanFor, MountedAs, FreshBinding, OldBindSource, SourceOfItsOwn;
    PlannedAfresh(inp, spec, plan, l, readOnly);
    OtherSources(inp, plan, l);
    var was, planned := inp.discovered[l], plan.candidate[l];
    if was != planned && was.kind == planned.kind == Bind {
      if was.ref in plan.migrateBinds {
        CopyIsOwn(inp, spec, plan, l, readOnly);
      }
      if !readOnly && inp.oldSourceDir != "" && was.ref != "" {
        FoundIsSource(inp, l);
        OldSourceIsCopied(inp, spec, plan, l);
      }
    }
  }

  lemma PlannedAfresh(inp: Inputs, spec: Spec, plan: Plan, l: string, readOnly: bool)
    requires PlanFor(inp, spec, plan) && l in plan.candidate && MountedAs(spec, l, readOnly)
    requires l in inp.discovered && l !in inp.known
    ensures l in plan.previous && plan.previous[l] == inp.discovered[l]
    ensures plan.candidate[l] == FreshBinding(inp, Logical(l, plan.candidate[l].kind))
    ensures plan.candidate[l].kind == Volume == inp.discovered[l].kind ==> plan.candidate[l] == inp.discovered[l]
  {
    hide *;
    MountsSettle(inp, spec, plan, l, readOnly);
    PreviousIs(inp, spec, plan, l);
    FreshIs(inp, Logical(l, plan.candidate[l].kind));
  }

  lemma PreviousIs(inp: Inputs, spec: Spec, plan: Plan, l: string)
    requires PlanFor(inp, spec, plan)
    ensures l in inp.known ==> l in plan.previous && plan.previous[l] == inp.known[l]
    ensures l in inp.discovered && l !in inp.known ==> l in plan.previous && plan.previous[l] == inp.discovered[l]
  {
    hide Accepts, CandidateFor, Settles, Moves, Mounts, Named;
  }

  lemma FreshIs(inp: Inputs, logical: Logical)
    requires logical.name in inp.discovered && logical.name !in inp.known
    ensures Chosen(inp, logical) == FreshBinding(inp, logical)
    ensures logical.kind == Volume == inp.discovered[logical.name].kind ==>
      FreshBinding(inp, logical) == inp.discovered[logical.name]
  {
    hide JoinPath, ManagedVolumeName;
  }

  lemma OtherSources(inp: Inputs, plan: Plan, l: string)
    requires SourceOfItsOwn(inp, plan, l)
    ensures OldBindSource(inp, l) != "" ==>
      forall k | k in plan.candidate && k != l :: OldBindSource(inp, k) != OldBindSource(inp, l)
  {
    hide OldBindSource;
  }

  lemma FoundIsSource(inp: Inputs, l: string)
    requires l in inp.discovered && inp.discovered[l].ref != "" && inp.oldSourceDir != ""
    ensures OldBindSource(inp, l) == inp.discovered[l].ref
  {
  }

  lemma HasSource(inp: Inputs, l: string)
    requires OldBindSource(inp, l) != ""
    ensures inp.oldSourceDir != ""
  {
  }

  /** A copy from where the storage is asked for by a writable mount of the storage itself. */
  lemma {:induction false} CopyIsOwn(inp: Inputs, spec: Spec, plan: Plan, l: string, readOnly: bool)
    requires PlanFor(inp, spec, plan) && l in plan.candidate && MountedAs(spec, l, readOnly)
    requires l in inp.discovered && SourceOfItsOwn(inp, plan, l) && inp.discovered[l].ref in plan.migrateBinds
    ensures !readOnly && inp.oldSourceDir != "" && inp.discovered[l].ref != ""
  {
    hide *;
    OnlyWritableBindsAreCopied(inp, spec, plan, inp.discovered[l].ref);
    var k :| k in plan.candidate && OldBindSource(inp, k) == inp.discovered[l].ref != "" && !MountedAs(spec, k, true);
    HasSource(inp, k);
    FoundIsSource(inp, l);
    OtherSources(inp, plan, l);
  }

  /** A persisted storage stays where it is; a directory is copied over it exactly when it is a writable bind and the
      planner sees an old source elsewhere. */
  lemma {:induction false} PersistedIsOverwrittenIff(inp: Inputs, spec: Spec, plan: Plan, l: string, readOnly: bool)
    requires PlanFor(inp, spec, plan) && l in plan.candidate && MountedAs(spec, l, readOnly) && l in inp.known
    requires SourceOfItsOwn(inp, plan, l)
    requires forall k | k in plan.candidate && k != l && plan.candidate[k].kind == Bind ::
      plan.candidate[k].ref != plan.candidate[l].ref
    ensures l in plan.previous && plan.candidate[l] == plan.previous[l] == inp.known[l]
    ensures (exists source | source in plan.migrateBinds :: plan.migrateBinds[source] == inp.known[l].ref) <==>
      inp.known[l].kind == Bind && !readOnly && OldBindSource(inp, l) !in {"", inp.known[l].ref}
  {
    hide *;
    KnownStays(inp, spec, plan, l, readOnly);
    OtherSources(inp, plan, l);
    if inp.known[l].kind == Bind && !readOnly && OldBindSource(inp, l) !in {"", inp.known[l].ref} {
      OldSourceIsCopied(inp, spec, plan, l);
    }
    forall source | source in plan.migrateBinds && plan.migrateBinds[source] == inp.known[l].ref
      ensures inp.known[l].kind == Bind && !readOnly && OldBindSource(inp, l) !in {"", inp.known[l].ref}
    {
      OnlyWritableBindsAreCopied(inp, spec, plan, source);
    }
  }

  lemma KnownStays(inp: Inputs, spec: Spec, plan: Plan, l: string, readOnly: bool)
    requires PlanFor(inp, spec, plan) && l in plan.candidate && MountedAs(spec, l, readOnly) && l in inp.known
    ensures l in plan.previous && plan.candidate[l] == plan.previous[l] == inp.known[l]
  {
    hide *;
    MountsSettle(inp, spec, plan, l, readOnly);
    PreviousIs(inp, spec, plan, l);
    KnownIsChosen(inp, Logical(l, plan.candidate[l].kind));
  }

  lemma KnownIsChosen(inp: Inputs, logical: Logical)
    requires logical.name in inp.known
    ensures Chosen(inp, logical) == inp.known[logical.name]
  {
  }

  // ---------------------------------------------------------------- where the backup is not taken

  /** A spec with one service and one mount. */
  function OneMount(raw: string): Spec {
    Spec(map["web" := Service("nginx", false, map[], [raw], [])], {})
  }

  function NewApp(digest: string -> string, known: map<string, Binding>, discovered: map<string, Binding>): Inputs {
    Inputs(Naming("/apps", digest), "a", known, discovered, "/old")
  }

  const RW := "./data:/data"
  const RO := "./data:/data:ro"
  const NAMED := "data:/data"

  function Look(m: map<string, Binding>, l: string): Option<Binding> {
    if l in m then Some(m[l]) else None
  }

  /** A persisted bind, with no container left to ask: the backup is taken of the old checkout's directory instead, and
      that directory is copied over the persisted one. */
  lemma {:induction false} KnownBindMissed(digest: string -> string, plan: Plan)
    requires PlanFor(NewApp(digest, map["data" := Binding(Bind, "/apps/data/a/data")], map[]), OneMount(RW), plan)
    ensures Look(plan.previous, "data") == Some(Binding(Bind, "/apps/data/a/data"))
    ensures Look(plan.all, "data") == Some(Binding(Bind, "/old/data"))
    ensures "/old/data" in plan.migrateBinds && plan.migrateBinds["/old/data"] == "/apps/data/a/data"
  {
    hide LogicalAt, ReadOnlyAt, PlanFor, OneMount, RW, RO, NAMED, OldBindSource;
    var inp := NewApp(digest, map["data" := Binding(Bind, "/apps/data/a/data")], map[]);
    DataMounts();
    OldSource(inp);
    OneWritableMount(inp, RW, plan);
  }

  /** A spec that mounts just one persisted bind, writable, which no old container mounts. */
  lemma OneWritableMount(inp: Inputs, raw: string, plan: Plan)
    requires LogicalAt(raw).Some? && !ReadOnlyAt(raw) && PlanFor(inp, OneMount(raw), plan)
    requires LogicalAt(raw).value.kind == Bind && LogicalAt(raw).value.name in inp.known
    requires LogicalAt(raw).value.name !in inp.discovered
    requires OldBindSource(inp, LogicalAt(raw).value.name) !in {"", inp.known[LogicalAt(raw).value.name].ref}
    ensures var l := LogicalAt(raw).value.name;
      var source := OldBindSource(inp, l);
      && Look(plan.previous, l) == Some(inp.known[l]) && Look(plan.all, l) == Some(Binding(Bind, source))
      && source in plan.migrateBinds && plan.migrateBinds[source] == inp.known[l].ref
  {
    hide LogicalAt, ReadOnlyAt, OldBindSource, PlanFor, OneMount, MountedAs, FreshBinding;
    OneMountSettles(inp, raw, plan);
    OldSourceIsCopied(inp, OneMount(raw), plan, LogicalAt(raw).value.name);
  }

  /** A bind of the old containers that the new spec mounts as a volume: the backup is taken of the new volume, and the
      data does not get there. */
  lemma {:induction false} TurnedVolumeMissed(digest: string -> string, plan: Plan)
    requires PlanFor(NewApp(digest, map[], map["data" := Binding(Bind, "/old/data")]), OneMount(NAMED), plan)
    ensures Look(plan.previous, "data") == Some(Binding(Bind, "/old/data"))
    ensures Look(plan.all, "data") == Some(Binding(Volume, ManagedVolumeName(Naming("/apps", digest), "a", "data")))
    ensures "data" in plan.previous && "data" in plan.candidate && !Arrives(plan, "data")
  {
    var inp := NewApp(digest, map[], map["data" := Binding(Bind, "/old/data")]);
    hide LogicalAt, ReadOnlyAt, OldBindSource, PlanFor, MountedAs, RO, RW, NAMED, OneMount, Arrives;
    DataMounts();
    OneMountSettles(inp, NAMED, plan);
    Seen(plan, "data");
  }

  /** A volume of the old containers that the new spec mounts as a writable bind: the volume is archived, but what is
      copied to the new place is a directory of the volume's name, and the data does not arrive. */
  lemma {:induction false} TurnedBindMissed(digest: string -> string, plan: Plan)
    requires PlanFor(NewApp(digest, map[], map["data" := Binding(Volume, "vol")]), OneMount(RW), plan)
    ensures Look(plan.previous, "data") == Look(plan.all, "data") == Some(Binding(Volume, "vol"))
    ensures Look(plan.candidate, "data") == Some(Binding(Bind, "/apps/data/a/data"))
    ensures "vol" in plan.migrateBinds && plan.migrateBinds["vol"] == "/apps/data/a/data"
    ensures "data" in plan.previous && "data" in plan.candidate && !Arrives(plan, "data")
  {
    hide *;
    var inp := NewApp(digest, map[], map["data" := Binding(Volume, "vol")]);
    TurnedBind(digest, inp);
    DataMounts();
    OneMountSettles(inp, RW, plan);
    OldSourceIsCopied(inp, OneMount(RW), plan, "data");
    Seen(plan, "data");
  }

  lemma Seen(plan: Plan, l: string)
    requires l in plan.previous && l in plan.candidate && l in plan.all
    ensures Look(plan.previous, l) == Some(plan.previous[l]) && Look(plan.candidate, l) == Some(plan.candidate[l])
    ensures Look(plan.all, l) == Some(plan.all[l])
    ensures Arrives(plan, l) ==> plan.previous[l].kind == plan.candidate[l].kind
  {
  }

  lemma TurnedBind(digest: string -> string, inp: Inputs)
    requires inp == NewApp(digest, map[], map["data" := Binding(Volume, "vol")])
    ensures Chosen(inp, Logical("data", Bind)) == Binding(Bind, "/apps/data/a/data")
    ensures OldBindSource(inp, "data") == "vol" != "/apps/data/a/data"
    ensures Archived(inp, Logical("data", Bind), false) == Binding(Volume, "vol")
    ensures inp.discovered + inp.known == map["data" := Binding(Volume, "vol")]
  {
    ManagedPlace(inp);
    FoundIsSource(inp, "data");
    assert "vol"[0] != "/apps/data/a/data"[0];
    VolumeIsArchived(inp);
  }

  lemma VolumeIsArchived(inp: Inputs)
    requires inp.known == map[] && inp.discovered == map["data" := Binding(Volume, "vol")]
    requires inp.oldSourceDir != "" && Chosen(inp, Logical("data", Bind)).ref != "vol"
    ensures Archived(inp, Logical("data", Bind), false) == Binding(Volume, "vol")
  {
    hide Chosen;
  }

  /** A bind of the old containers that the new spec mounts read-only: the backup is taken of its managed place. */
  lemma {:induction false} ReadOnlyBindMissed(digest: string -> string, plan: Plan)
    requires PlanFor(NewApp(digest, map[], map["data" := Binding(Bind, "/old/data")]), OneMount(RO), plan)
    ensures Look(plan.previous, "data") == Some(Binding(Bind, "/old/data"))
    ensures Look(plan.all, "data") == Some(Binding(Bind, "/apps/data/a/data"))
  {
    var inp := NewApp(digest, map[], map["data" := Binding(Bind, "/old/data")]);
    hide LogicalAt, ReadOnlyAt, OldBindSource, PlanFor, MountedAs, FreshBinding, RO, RW, NAMED, OneMount;
    DataMounts();
    ManagedPlace(inp);
    OneMountSettles(inp, RO, plan);
  }

  /** The four specs above are accepted, so there are such plans. */
  lemma {:induction false} MissedSpecsAreAccepted(digest: string -> string)
    ensures Accepts(NewApp(digest, map["data" := Binding(Bind, "/apps/data/a/data")], map[]), OneMount(RW))
    ensures Accepts(NewApp(digest, map[], map["data" := Binding(Bind, "/old/data")]), OneMount(NAMED))
    ensures Accepts(NewApp(digest, map[], map["data" := Binding(Volume, "vol")]), OneMount(RW))
    ensures Accepts(NewApp(digest, map[], map["data" := Binding(Bind, "/old/data")]), OneMount(RO))
  {
    DataMounts();
    hide LogicalAt, Accepts, CleanRelativeStorage;
    OneMountAccepted(NewApp(digest, map["data" := Binding(Bind, "/apps/data/a/data")], map[]), RW);
    OneMountAccepted(NewApp(digest, map[], map["data" := Binding(Bind, "/old/data")]), NAMED);
    OneMountAccepted(NewApp(digest, map[], map["data" := Binding(Volume, "vol")]), RW);
    OneMountAccepted(NewApp(digest, map[], map["data" := Binding(Bind, "/old/data")]), RO);
  }

  /** One service mounts a storage writable and another one read-only. */
  function Shared(): Spec {
    Spec(map["a" := Service("nginx", false, map[], [RW], []), "b" := Service("nginx", false, map[], [RO], [])], {})
  }

  /** The service that the planner happens to visit first decides: the old directory is archived and copied, or neither
      and the new, empty place is archived. */
  lemma {:induction false} ServiceOrderDecides(digest: string -> string)
    ensures IsOrder(Shared(), ["a", "b"]) && IsOrder(Shared(), ["b", "a"])
    ensures var plan := PlanInOrder(NewApp(digest, map[], map[]), Shared(), ["a", "b"]);
      plan.Some? && plan.value.migrateBinds == map["/old/data" := "/apps/data/a/data"]
      && Look(plan.value.all, "data") == Some(Binding(Bind, "/old/data"))
    ensures var plan := PlanInOrder(NewApp(digest, map[], map[]), Shared(), ["b", "a"]);
      plan.Some? && plan.value.migrateBinds == map[]
      && Look(plan.value.all, "data") == Some(Binding(Bind, "/apps/data/a/data"))
  {
    var inp := NewApp(digest, map[], map[]);
    BothVisits();
    hide Shared, Visited;
    TwoSteps(inp, RW, RO);
    TwoSteps(inp, RO, RW);
  }

  lemma BothVisits()
    ensures IsOrder(Shared(), ["a", "b"]) && IsOrder(Shared(), ["b", "a"])
    ensures Visited(Shared(), ["a", "b"]) == [RW, RO] && Visited(Shared(), ["b", "a"]) == [RO, RW]
  {
    assert "a"[0] != "b"[0];
    assert Shared().services.Keys == {"a", "b"};
    hide RW, RO;
    VisitedSplits(Shared(), ["a"], ["b"]);
    VisitedSplits(Shared(), ["b"], ["a"]);
    VisitedOne(Shared(), "a");
    VisitedOne(Shared(), "b");
    assert ["a"] + ["b"] == ["a", "b"] && ["b"] + ["a"] == ["b", "a"];
  }

  lemma TwoSteps(inp: Inputs, first: string, second: string)
    requires first in {RW, RO} && second in {RW, RO}
    requires inp.naming.appsRoot == "/apps" && inp.appID == "a" && inp.oldSourceDir == "/old"
    requires inp.known == inp.discovered == map[]
    ensures var plan := InOrder(inp, Start(inp), [first, second]);
      && plan.Some?
      && plan.value.migrateBinds == (if first == RW then map["/old/data" := "/apps/data/a/data"] else map[])
      && Look(plan.value.all, "data") ==
           Some(Binding(Bind, if first == RW then "/old/data" else "/apps/data/a/data"))
  {
    hide *;
    FirstData(inp, first);
    SecondData(inp, Step(inp, Start(inp), first).value, second);
    InOrderSplits(inp, Start(inp), [first], [second]);
    assert [first] + [second] == [first, second];
    InOrderOne(inp, Start(inp), first);
    InOrderOne(inp, Step(inp, Start(inp), first).value, second);
  }

  lemma FirstData(inp: Inputs, raw: string)
    requires raw in {RW, RO}
    requires inp.naming.appsRoot == "/apps" && inp.appID == "a" && inp.oldSourceDir == "/old"
    requires inp.known == inp.discovered == map[]
    ensures var plan := Step(inp, Start(inp), raw);
      && plan.Some? && Look(plan.value.candidate, "data") == Some(Binding(Bind, "/apps/data/a/data"))
      && plan.value.migrateBinds == (if raw == RW then map["/old/data" := "/apps/data/a/data"] else map[])
      && Look(plan.value.all, "data") == Some(Binding(Bind, if raw == RW then "/old/data" else "/apps/data/a/data"))
  {
    hide LogicalAt, ReadOnlyAt, Archived, CopySource, RW, RO, Acceptable, Chosen;
    DataMounts();
    DataIsNew(inp);
  }

  lemma DataIsNew(inp: Inputs)
    requires inp.naming.appsRoot == "/apps" && inp.appID == "a" && inp.oldSourceDir == "/old"
    requires inp.known == inp.discovered == map[]
    ensures var logical := Logical("data", Bind);
      && Acceptable(inp, logical) && Chosen(inp, logical) == Binding(Bind, "/apps/data/a/data")
      && CopySource(inp, logical, false) == "/old/data" && CopySource(inp, logical, true) == ""
      && Archived(inp, logical, false) == Binding(Bind, "/old/data")
      && Archived(inp, logical, true) == Binding(Bind, "/apps/data/a/data")
  {
    DataMounts();
    OldSource(inp);
    ManagedPlace(inp);
    hide LogicalAt, ReadOnlyAt, OldBindSource, Chosen, RW, RO, CleanRelativeStorage;
  }

  lemma SecondData(inp: Inputs, plan: Plan, raw: string)
    requires raw in {RW, RO} && Look(plan.candidate, "data") == Some(Binding(Bind, "/apps/data/a/data"))
    ensures Step(inp, plan, raw) == Some(plan)
  {
    DataMounts();
    hide LogicalAt, ReadOnlyAt, RW, RO;
  }

  lemma OneMountIs(raw: string)
    ensures Mounts(OneMount(raw)) == {raw}
  {
    assert OneMount(raw).services["web"].volumes[0] == raw;
  }

  lemma OneMountAccepted(inp: Inputs, raw: string)
    requires LogicalAt(raw).Some? && Acceptable(inp, LogicalAt(raw).value)
    ensures Accepts(inp, OneMount(raw))
  {
    OneMountIs(raw);
  }

  lemma OneMountSettles(inp: Inputs, raw: string, plan: Plan)
    requires LogicalAt(raw).Some? && PlanFor(inp, OneMount(raw), plan)
    ensures plan.previous == inp.discovered + inp.known && plan.candidate.Keys == {LogicalAt(raw).value.name}
    ensures var logical := LogicalAt(raw).value;
      && MountedAs(OneMount(raw), logical.name, ReadOnlyAt(raw))
      && plan.candidate[logical.name] == Chosen(inp, logical) && plan.candidate[logical.name].kind == logical.kind
      && logical.name in plan.all && plan.all[logical.name] == Archived(inp, logical, ReadOnlyAt(raw))
  {
    hide LogicalAt, ReadOnlyAt, Chosen, Archived, Mounts, OneMount, PlanFor;
    var spec := OneMount(raw);
    OneMountIs(raw);
    MountChooses(inp, spec, plan, raw);
    OnlyName(inp, spec, plan, raw);
    MountsSettle(inp, spec, plan, LogicalAt(raw).value.name, ReadOnlyAt(raw));
  }

  lemma OnlyName(inp: Inputs, spec: Spec, plan: Plan, raw: string)
    requires PlanFor(inp, spec, plan) && Mounts(spec) == {raw} && LogicalAt(raw).Some?
    ensures plan.candidate.Keys == {LogicalAt(raw).value.name} && plan.previous == inp.discovered + inp.known
  {
    hide LogicalAt, ReadOnlyAt, Chosen, Settles, Moves, Mounts, Accepts;
  }

  lemma DataMounts()
    ensures LogicalAt(RW) == LogicalAt(RO) == Some(Logical("data", Bind))
    ensures LogicalAt(NAMED) == Some(Logical("data", Volume))
    ensures !ReadOnlyAt(RW) && ReadOnlyAt(RO) && !ReadOnlyAt(NAMED)
    ensures Clean("data") == "data" && CleanRelativeStorage("data") == Some("data")
  {
    DataKey();
    Modes();
    hide Clean, ReadOnlyMode, Split, CanonicalStorageKey;
    assert RW == "./data" + [':'] + "/data" && NAMED == "data" + [':'] + "/data";
    SplitTwo("./data", "/data", ':');
    SplitTwo("data", "/data", ':');
    ThreeParts();
    hide RW, RO, NAMED;
    assert "/data"[0] == "/"[0];
    assert "./data"[0] != "/"[0] && "data"[0] != "/"[0];
  }

  lemma ThreeParts()
    ensures Split(RO, ':') == ["./data", "/data", "ro"]
  {
    hide Split;
    assert RO == "./data" + [':'] + ("/data" + [':'] + "ro");
    SplitPrefix("./data", "/data" + [':'] + "ro", ':');
    SplitTwo("/data", "ro", ':');
  }

  lemma Modes()
    ensures !ReadOnlyMode("rw") && ReadOnlyMode("ro")
  {
    SplitOne("rw", ',');
    SplitOne("ro", ',');
    TrimSpaceKeeps("rw");
    TrimSpaceKeeps("ro");
    assert "rw"[1] != "ro"[1];
    assert Split("ro", ',')[0] == "ro";
  }

  lemma DataKey()
    ensures CanonicalStorageKey("./data") == CanonicalStorageKey("data") == Clean("data") == "data"
    ensures Relative("./data") && !Relative("data") && CleanRelativeStorage("data") == Some("data")
  {
    assert "./data" == "." + ['/'] + "data" && "./data"[..2] == "./";
    assert "data"[0] != "./"[0] && "data"[0] != "../"[0] && "data"[0] != "/"[0] && "data"[0] != ".."[0];
    assert Join(["data"], '/') == "data" && Join([".", "data"], '/') == "./data" by {
      assert [".", "data"][1..] == ["data"];
    }
    CleanData("data", ["data"]);
    CleanData("./data", [".", "data"]);
    hide Clean;
  }

  lemma CleanData(path: string, parts: seq<string>)
    requires path != "" && path[0] != '/' && path == Join(parts, '/')
    requires parts == ["data"] || parts == [".", "data"]
    ensures Clean(path) == "data"
  {
    hide Split, Join, Reduce;
    SplitOfJoin(parts, '/');
    ReduceData();
    JoinOne("data");
  }

  lemma ReduceData()
    ensures Reduce(["data"], [], false) == ["data"] == Reduce([".", "data"], [], false)
  {
    ReduceOrdinary(["data"], [], false);
    assert [] + ["data"] == ["data"] && [".", "data"][1..] == ["data"];
  }

  lemma JoinOne(part: string)
    ensures Join([part], '/') == part
  {
  }

  lemma SplitTwo(a: string, b: string, sep: char)
    requires sep !in a && sep !in b
    ensures Split(a + [sep] + b, sep) == [a, b]
  {
    SplitPrefix(a, b, sep);
    SplitOne(b, sep);
  }

  /** Without a mount to look at, the old source lies in the old checkout. */
  lemma OldSource(inp: Inputs)
    requires inp.oldSourceDir == "/old" && "data" !in inp.discovered
    ensures OldBindSource(inp, "data") == "/old/data"
    ensures "/old/data" != "/apps/data/a/data"
  {
    assert "data"[0] != "./"[0];
    assert Join(["old", "data"], '/') == "old" + ['/'] + "data" by {
      assert ["old", "data"][1..] == ["data"];
    }
    CleanAbsolute(["old", "data"]);
    assert "/old" + "/" + "data" == "/" + ("old" + ['/'] + "data");
    assert "/old/data"[1] != "/apps/data/a/data"[1];
  }

  lemma ManagedPlace(inp: Inputs)
    requires inp.naming.appsRoot == "/apps" && inp.appID == "a" && "data" !in inp.known
    ensures Chosen(inp, Logical("data", Bind)) == Binding(Bind, "/apps/data/a/data")
  {
    DataKey();
    JoinFour("apps", "data", "a", "data", '/');
    var parts := ["apps", "data", "a", "data"];
    hide Clean, Join;
    CleanAbsolute(parts);
    assert DataDir(inp.naming, "a") == "/apps" + "/data/" + "a";
    assert "/" + Join(parts, '/') == "/apps/data/a/data" == DataDir(inp.naming, "a") + "/" + "data";
  }

  lemma JoinFour(a: string, b: string, c: string, d: string, sep: char)
    ensures Join([a, b, c, d], sep) == a + [sep] + (b + [sep] + (c + [sep] + d))
  {
    var parts := [a, b, c, d];
    assert parts[1..] == [b, c, d] && [b, c, d][1..] == [c, d] && [c, d][1..] == [d];
    assert Join([d], sep) == d && Join([c, d], sep) == c + [sep] + d;
    assert Join([b, c, d], sep) == b + [sep] + (c + [sep] + d);
  }

  lemma CleanAbsolute(parts: seq<string>)
    requires parts != [] && forall i | 0 <= i < |parts| :: Ordinary(parts[i])
    ensures Clean("/" + Join(parts, '/')) == "/" + Join(parts, '/')
  {
    hide Split, Join, Reduce, Ordinary;
    SplitRooted(parts, "/" + Join(parts, '/'));
    ReduceRooted(parts);
  }

  lemma SplitRooted(parts: seq<string>, path: string)
    requires parts != [] && path == "/" + Join(parts, '/') && forall i | 0 <= i < |parts| :: Ordinary(parts[i])
    ensures path != "" && path[0] == '/' && Split(path, '/') == [""] + parts
  {
    hide Split, Join, Ordinary;
    assert path == "" + ['/'] + Join(parts, '/');
    SplitPrefix("", Join(parts, '/'), '/');
    PartsAreFree(parts);
    SplitOfJoin(parts, '/');
  }

  lemma PartsAreFree(parts: seq<string>)
    requires forall i | 0 <= i < |parts| :: Ordinary(parts[i])
    ensures Free(parts, '/')
  {
  }

  lemma ReduceRooted(parts: seq<string>)
    requires forall i | 0 <= i < |parts| :: Ordinary(parts[i])
    ensures Reduce([""] + parts, [], true) == parts
  {
    hide Ordinary;
    assert ([""] + parts)[1..] == parts;
    ReduceOrdinary(parts, [], true);
    assert [] + parts == parts;
  }
}
