/** Persisted storage mappings over the life of an app. */
module StorageHistory {
  import opened Common
  import opened Volumes
  import opened Compose
  import opened Paths
  import opened Storage
  import opened Backups

  type Mappings = map<string, Binding>

  /** What changes an app's mappings. An update that completed laid its candidate over them; one that was rolled back,
      or failed before its cut-over, left them as they were; one whose restore failed half way kept some of both; a
      redeploy may have written any part of its candidate before failing. */
  datatype Event =
    | Completed(discovered: Mappings, oldSourceDir: string, spec: Spec)
    | Unchanged
    | Broken(discovered: Mappings, oldSourceDir: string, spec: Spec, kept: set<string>)
    | Redeployed(discovered: Mappings, oldSourceDir: string, spec: Spec, written: set<string>)

  datatype App = App(naming: Naming, id: string)

  ghost predicate Extends(before: Mappings, after: Mappings) {
    forall l | l in before :: l in after && after[l] == before[l]
  }

  function Part(c: Mappings, names: set<string>): Mappings {
    map l | l in c && l in names :: c[l]
  }

  ghost predicate Planned(app: App, known: Mappings, discovered: Mappings, oldSourceDir: string, spec: Spec,
                          c: Mappings) {
    var inp := Inputs(app.naming, app.id, known, discovered, oldSourceDir);
    Accepts(inp, spec) && CandidateFor(inp, Mounts(spec), c)
  }

  ghost predicate Step(app: App, before: Mappings, e: Event, after: Mappings) {
    match e
    case Completed(discovered, source, spec) =>
      exists c :: Planned(app, before, discovered, source, spec, c) && after == before + c
    case Unchanged => after == before
    case Broken(discovered, source, spec, kept) =>
      exists c :: Planned(app, before, discovered, source, spec, c) && after == Part(before + c, kept)
    case Redeployed(discovered, source, spec, written) =>
      exists c :: Planned(app, before, discovered, source, spec, c) && after == before + Part(c, written)
  }

  ghost predicate History(app: App, states: seq<Mappings>, events: seq<Event>) {
    && |states| == |events| + 1
    && forall i | 0 <= i < |events| :: Step(app, states[i], events[i], states[i + 1])
  }

  /** A candidate repeats every mapping that is already persisted. */
  lemma CandidateKeepsKnown(app: App, known: Mappings, discovered: Mappings, source: string, spec: Spec, c: Mappings)
    requires Planned(app, known, discovered, source, spec, c)
    ensures forall l | l in known && l in c :: c[l] == known[l]
  {
    var inp := Inputs(app.naming, app.id, known, discovered, source);
    forall l | l in known && l in c ensures c[l] == known[l] {
      var raw :| raw in Mounts(spec) && LogicalAt(raw).Some? && LogicalAt(raw).value.name == l;
      assert c[l] == Chosen(inp, LogicalAt(raw).value);
    }
  }

  /** No event changes a mapping that it leaves in place, and only a restore that failed half way loses one. */
  lemma StepExtends(app: App, before: Mappings, e: Event, after: Mappings)
    requires Step(app, before, e, after)
    ensures forall l | l in before && l in after :: after[l] == before[l]
    ensures !e.Broken? ==> Extends(before, after)
  {
    hide Planned;
    match e
    case Completed(discovered, source, spec) =>
      var c :| Planned(app, before, discovered, source, spec, c) && after == before + c;
      CandidateKeepsKnown(app, before, discovered, source, spec, c);
    case Unchanged =>
    case Broken(discovered, source, spec, kept) =>
      var c :| Planned(app, before, discovered, source, spec, c) && after == Part(before + c, kept);
      CandidateKeepsKnown(app, before, discovered, source, spec, c);
    case Redeployed(discovered, source, spec, written) =>
      var c :| Planned(app, before, discovered, source, spec, c) && after == before + Part(c, written);
      CandidateKeepsKnown(app, before, discovered, source, spec, c);
  }

  /** As long as no restore failed half way, a mapping once persisted never changes and never disappears, whatever later
      specs mount. */
  lemma {:induction false} StorageNeverMoves(app: App, states: seq<Mappings>, events: seq<Event>, i: nat, j: nat)
    requires History(app, states, events) && i <= j < |states|
    requires forall k | i <= k < j :: !events[k].Broken?
    ensures Extends(states[i], states[j])
    decreases j - i
  {
    hide Step;
    if i < j {
      StepExtends(app, states[i], events[i], states[i + 1]);
      StorageNeverMoves(app, states, events, i + 1, j);
    }
  }

  /** Over any history at all a mapping keeps its kind and reference for as long as it stays. */
  lemma {:induction false} MappingsNeverChange(app: App, states: seq<Mappings>, events: seq<Event>, i: nat, j: nat,
                                               l: string)
    requires History(app, states, events) && i <= j < |states|
    requires forall k | i <= k <= j :: l in states[k]
    ensures states[j][l] == states[i][l]
    decreases j - i
  {
    hide Step;
    if i < j {
      StepExtends(app, states[i], events[i], states[i + 1]);
      MappingsNeverChange(app, states, events, i + 1, j, l);
    }
  }

  /** Every later plan that mounts a name persisted at some point puts it where it was then. */
  lemma LaterPlansFindTheData(app: App, states: seq<Mappings>, events: seq<Event>, i: nat, j: nat,
                              discovered: Mappings, source: string, spec: Spec, c: Mappings)
    requires History(app, states, events) && i <= j < |states|
    requires forall k | i <= k < j :: !events[k].Broken?
    requires Planned(app, states[j], discovered, source, spec, c)
    ensures forall l | l in states[i] && l in c :: c[l] == states[i][l]
  {
    hide Planned, Step;
    StorageNeverMoves(app, states, events, i, j);
    CandidateKeepsKnown(app, states[j], discovered, source, spec, c);
  }

  // ---------------------------------------------------------------- a mapping that was lost

  /** Whether the place that `was` recorded is where a storage goes that has no mapping: the managed directory of a
      bind, and for a volume the one the old containers use, or else the managed one. */
  predicate FoundAgain(app: App, discovered: Mappings, l: string, was: Binding) {
    match was.kind
    case Bind => was.ref == JoinPath(app.naming.appsRoot + "/data/" + app.id, Clean(l))
    case Volume =>
      was.ref == if l in discovered && discovered[l].kind == Volume then discovered[l].ref
                 else ManagedVolumeName(app.naming, app.id, l)
  }

  /** After a restore lost a mapping, the next plan that mounts the storage as before puts it back in its old place
      exactly under that condition. */
  lemma {:induction false} LostMappingMoves(app: App, known: Mappings, discovered: Mappings, source: string, spec: Spec,
                                            c: Mappings, l: string, was: Binding)
    requires Planned(app, known, discovered, source, spec, c) && l in c && l !in known && c[l].kind == was.kind
    ensures c[l] == was <==> FoundAgain(app, discovered, l, was)
  {
    var inp := Inputs(app.naming, app.id, known, discovered, source);
    var raw :| raw in Mounts(spec) && LogicalAt(raw).Some? && LogicalAt(raw).value.name == l;
    hide LogicalAt, Mounts, JoinPath, Clean, ManagedVolumeName;
    assert c[l] == Chosen(inp, LogicalAt(raw).value);
  }

  /** A mapping that recorded a managed place is found again by any plan, unless old containers use another volume. */
  lemma {:induction false} ManagedPlacesComeBack(app: App, known: Mappings, discovered: Mappings, source: string,
                                                 spec: Spec, c: Mappings, l: string)
    requires Planned(app, known, map[], source, spec, c) && l in c && l !in known
    requires l in discovered ==> discovered[l].kind == Bind || discovered[l] == c[l]
    ensures FoundAgain(app, discovered, l, c[l])
  {
    LostMappingMoves(app, known, map[], source, spec, c, l, c[l]);
    hide Planned, JoinPath, Clean, ManagedVolumeName;
  }

  /** A volume adopted from an older deployment moves: with its mapping the plan keeps it, without the mapping and with
      no container left to ask the plan makes a new volume. */
  lemma {:induction false} AdoptedVolumeMoves(digest: string -> string, source: string, kept: Mappings, lost: Mappings)
    requires Planned(App(Naming("/apps", digest), "a"), map["data" := Binding(Volume, "legacy")], map[], source,
                     OneMount(NAMED), kept)
    requires Planned(App(Naming("/apps", digest), "a"), map[], map[], source, OneMount(NAMED), lost)
    ensures Look(kept, "data") == Some(Binding(Volume, "legacy"))
    ensures Look(lost, "data") == Some(Binding(Volume, "se-vol-a-" + digest("data")))
    ensures Look(lost, "data") != Look(kept, "data")
  {
    hide LogicalAt, Planned, OneMount, NAMED, ReadOnlyAt, Clean;
    DataMounts();
    var app := App(Naming("/apps", digest), "a");
    OneMountChooses(app, map["data" := Binding(Volume, "legacy")], source, NAMED, kept);
    OneMountChooses(app, map[], source, NAMED, lost);
    FreshVolume(app, source, "data");
    assert "se-vol-" + "a" + "-" == "se-vol-a-";
    assert ("se-vol-a-" + digest("data"))[0] == 's' && "legacy"[0] != 's';
  }

  lemma FreshVolume(app: App, source: string, l: string)
    ensures Chosen(Inputs(app.naming, app.id, map[], map[], source), Logical(l, Volume)) ==
            Binding(Volume, "se-vol-" + app.id + "-" + app.naming.digest(l))
  {
  }

  lemma OneMountChooses(app: App, known: Mappings, source: string, raw: string, c: Mappings)
    requires Planned(app, known, map[], source, OneMount(raw), c) && LogicalAt(raw).Some?
    ensures Look(c, LogicalAt(raw).value.name) ==
            Some(Chosen(Inputs(app.naming, app.id, known, map[], source), LogicalAt(raw).value))
  {
    hide LogicalAt, Chosen, Accepts;
    OneMountIs(raw);
  }
}
