/** What one update can read and change: the app's rows in the store and its containers. Every call to the
    store or to the container runtime takes its outcome from an arbitrary oracle. */
module Environment {
  import opened Common
  import opened Strings
  import opened Volumes
  import opened Compose
  import opened Operations
  import opened Order
  import opened Resolver
  import StorageHistory
  import EnvText

  /** The outcome of one call. Lost took effect but reported an error; Refused had no effect. */
  datatype Outcome = Done | Lost(text: string) | Refused(text: string)

  /** None is a nil error. */
  type Error = Option<string>

  datatype SourceType = Git | Drop

  /** Columns of the app row that an update carries along unread. */
  datatype Settings = Settings(kind: string, runtime: string, runtimeVersion: string, entrypoint: string,
                               builderImage: string, buildCommand: string, runCommand: string,
                               servePath: string, listenPort: int, scaleToZero: bool, idleTimeout: int)

  /** Columns that no update writes. */
  datatype Identity = Identity(name: string, slug: string, sourceType: SourceType, lastInvokedAt: int)

  /** Where the app comes from and how its compose text is made. */
  datatype Source = Source(ref: string, gitRef: string, dropKind: string, compose: string, buildMode: string)

  datatype AppRow = AppRow(id: Identity, source: Source, env: map<string, string>, currentRelease: string,
                           status: AppStatus, lastError: string, settings: Settings)

  datatype ReleaseStatus = Preparing | Live | Abandoned

  datatype Release = Release(previous: string, sourceType: SourceType, sourceRef: string, gitRef: string,
                             gitCommit: string, sourceDir: string, compose: string, images: map<string, string>,
                             status: ReleaseStatus, lastError: string)

  datatype Container = Container(running: bool, image: string, env: map<string, string>, binds: seq<string>)

  type Containers = map<string, Container>

  datatype RuntimeStatus = AllUp | Down | Partial

  /** The part of composer.AppMeta that shapes containers. */
  datatype Meta = Meta(env: map<string, string>, storage: map<string, Binding>, imageTags: map<string, string>)

  datatype Host = Host(naming: Naming, appID: string, slug: string)

  function ErrorOf(o: Outcome): Error {
    if o.Done? then None else Some(o.text)
  }

  function Bounded(r: Release): Release {
    r.(lastError := BoundedError(r.lastError))
  }

  lemma NoErrorStaysEmpty()
    ensures BoundedError("") == ""
  {
  }

  /** The defaults that every write of an app row fills in. */
  function Normalised(row: AppRow): AppRow {
    row.(source := row.source.(buildMode := if row.source.buildMode == "" then "compose" else row.source.buildMode),
         settings := row.settings.(kind := if row.settings.kind == "" then "web" else row.settings.kind))
  }

  /** The row after UpdateApp: identity, source type, last error and invocation time are not among its columns. */
  function Overwritten(stored: AppRow, row: AppRow): AppRow {
    Normalised(row).(id := stored.id, lastError := stored.lastError)
  }

  /** Two stored rows of the same app with no error recorded in the first take a write alike. */
  lemma SameOwner(a: AppRow, b: AppRow, app: AppRow, row: AppRow, written: AppRow)
    requires Overwritten(a, app).(lastError := "") == Overwritten(b, app).(lastError := "") && a.lastError == ""
    requires written == row.(lastError := written.lastError)
    ensures Overwritten(a, written) == Overwritten(b, row).(lastError := "")
    ensures Overwritten(a, written).source.compose == row.source.compose
  {
    assert Normalised(row).source.compose == row.source.compose;
    hide Normalised;
    assert Normalised(written) == Normalised(row).(lastError := written.lastError) by {
      NormalisedKeepsError(row, written.lastError);
    }
    assert Overwritten(a, app).id == a.id && Overwritten(b, app).id == b.id;
  }

  /** Whose rows they are does not matter: two stored rows of the same app take a write to the same columns. */
  lemma SameRowWritten(a: AppRow, b: AppRow, app: AppRow, row: AppRow, written: AppRow)
    requires Overwritten(a, app).(lastError := "") == Overwritten(b, app).(lastError := "")
    requires written == row.(status := written.status, lastError := written.lastError)
    ensures SameApp(Overwritten(a, written), Overwritten(b, row))
  {
    assert Overwritten(a, app).id == a.id && Overwritten(b, app).id == b.id;
  }

  lemma NormalisedKeepsError(row: AppRow, e: string)
    ensures Normalised(row.(lastError := e)) == Normalised(row).(lastError := e)
  {
  }

  /** A row as it is read: defaults are filled in, and entries that could not have been written are dropped. */
  function Loaded(row: AppRow): AppRow {
    Normalised(row).(env := map k | k in row.env && EnvText.ValidEnvKey(k) && '\0' !in row.env[k] :: row.env[k],
                     id := row.id.(slug := if row.id.slug == "" then row.id.name else row.id.slug))
  }

  lemma LoadedIsValid(row: AppRow)
    ensures ValidEnv(Loaded(row).env)
  {
  }

  predicate ValidEnv(env: map<string, string>) {
    forall k | k in env :: EnvText.ValidEnvKey(k) && '\0' !in env[k]
  }

  /** Equal in every column but status and last error. */
  predicate SameApp(a: AppRow, b: AppRow) {
    a.(status := b.status, lastError := b.lastError) == b
  }

  function Lowered(s: string): string {
    seq(|s|, i requires 0 <= i < |s| => Lower(s[i]))
  }

  predicate AlreadyStopped(text: string) {
    Contains(Lowered(text), "not running") || Contains(Lowered(text), "already stopped")
  }

  function ContainerName(slug: string, service: string): string {
    "se-" + Sanitize(slug) + "-" + Sanitize(service)
  }

  function ReleaseImageTag(slug: string, service: string, release: string): string {
    "localhost/se/" + Sanitize(slug) + "/" + Sanitize(service) + ":" + Sanitize(release)
  }

  predicate ValidVolumeName(v: string) {
    v != "" && '/' !in v
  }

  predicate VolumesUsable(host: Host, spec: Spec) {
    host.appID != "" && forall v | v in spec.volumes :: ValidVolumeName(v)
  }

  function LatestImageTag(slug: string, service: string): string {
    "localhost/se/" + Sanitize(slug) + "/" + Sanitize(service) + ":latest"
  }

  /** The image tags of releaseMeta. */
  function ReleaseTags(host: Host, spec: Spec, release: string): map<string, string> {
    map s | s in spec.services :: ReleaseImageTag(host.slug, s, release)
  }

  /** A missing key of a Go map reads as the empty string. */
  function At(m: map<string, string>, key: string): string {
    if key in m then m[key] else ""
  }

  /** The image Prepare builds or pulls for a service. */
  function PreparedImage(host: Host, meta: Meta, spec: Spec, s: string): string
    requires s in spec.services
  {
    if !spec.services[s].build then spec.services[s].image
    else if At(meta.imageTags, s) != "" then meta.imageTags[s]
    else LatestImageTag(host.slug, s)
  }

  function PreparedImages(host: Host, meta: Meta, spec: Spec): map<string, string> {
    map s | s in spec.services :: PreparedImage(host, meta, spec, s)
  }

  lemma SanitizedHasNoMark(s: string)
    ensures forall c | c in Sanitize(s) :: c != '/' && c != ':'
  {
    forall i | 0 <= i < |s| ensures Sanitize(s)[i] != '/' && Sanitize(s)[i] != ':' {
    }
  }

  /** Services of one release, and releases of one service, never share an image tag, nor does a release overwrite the
      tag of an app's first deployment: as long as their names differ once sanitized. */
  lemma {:induction false} TagsAreOwn(slug: string, a: string, b: string, x: string, y: string)
    requires Sanitize(a) != Sanitize(b) || Sanitize(x) != Sanitize(y)
    ensures ReleaseImageTag(slug, a, x) != ReleaseImageTag(slug, b, y)
    ensures Sanitize(y) == "latest" ==> ReleaseImageTag(slug, a, x) != LatestImageTag(slug, b)
  {
    hide Sanitize;
    SanitizedHasNoMark(a);
    SanitizedHasNoMark(b);
    var head := "localhost/se/" + Sanitize(slug) + "/";
    TagParts(head, Sanitize(a), Sanitize(x));
    TagParts(head, Sanitize(b), Sanitize(y));
    TagParts(head, Sanitize(b), "latest");
    if ReleaseImageTag(slug, a, x) == ReleaseImageTag(slug, b, y) {
      SameAround(Sanitize(a), Sanitize(x), Sanitize(b), Sanitize(y), ':');
    }
    assert head + Sanitize(b) + (":" + "latest") == LatestImageTag(slug, b);
  }

  lemma TagParts(head: string, service: string, release: string)
    ensures (head + service + ":" + release)[|head|..] == service + [':'] + release
    ensures head + service + ":" + release == head + service + (":" + release)
  {
  }

  function Context(host: Host, meta: Meta, spec: Spec, sourceDir: string): BindContext {
    BindContext(host.naming, host.appID, sourceDir, spec.volumes, meta.storage, Anywhere)
  }

  /** `c` was created for service `s`: its prepared image, its own environment under the app's, and its mounts
      as the resolver translates them. */
  predicate CreatedFor(c: Container, host: Host, meta: Meta, spec: Spec, sourceDir: string, s: string) {
    && s in spec.services
    && c.image == PreparedImage(host, meta, spec, s)
    && c.env == spec.services[s].env + meta.env
    && Binds(Context(host, meta, spec, sourceDir), spec.services[s].volumes) == Some(c.binds)
  }

  /** Every mount of the service can be translated, as far as that does not depend on the file system. */
  ghost predicate MountsResolve(host: Host, meta: Meta, spec: Spec, sourceDir: string, s: string)
    requires s in spec.services
  {
    Binds(Context(host, meta, spec, sourceDir), spec.services[s].volumes).Some?
  }

  /** Nothing in the spec keeps it from being deployed. */
  ghost predicate Deployable(host: Host, meta: Meta, spec: Spec, sourceDir: string) {
    VolumesUsable(host, spec) && forall s | s in spec.services :: MountsResolve(host, meta, spec, sourceDir, s)
  }

  /** What Activate has brought up after the services in `done`. */
  ghost predicate PartlyDeployed(cs: Containers, host: Host, meta: Meta, spec: Spec, sourceDir: string,
                                 done: seq<string>) {
    && (forall s | s in done ::
          && ContainerName(host.slug, s) in cs
          && CreatedFor(cs[ContainerName(host.slug, s)], host, meta, spec, sourceDir, s))
    && (forall n | n in cs :: cs[n].running && exists s | s in done :: n == ContainerName(host.slug, s))
    && |cs| == |done|
  }

  /** Exactly one container per service of the spec, each created for its service. */
  ghost predicate DeployedAs(cs: Containers, host: Host, meta: Meta, spec: Spec, sourceDir: string) {
    && (forall s | s in spec.services ::
          && ContainerName(host.slug, s) in cs
          && CreatedFor(cs[ContainerName(host.slug, s)], host, meta, spec, sourceDir, s))
    && (forall n | n in cs :: exists s | s in spec.services :: n == ContainerName(host.slug, s))
    && |cs| == |spec.services|
  }

  predicate AllRunning(cs: Containers) {
    forall n | n in cs :: cs[n].running
  }

  predicate NoneRunning(cs: Containers) {
    forall n | n in cs :: !cs[n].running
  }

  /** Apart from containers that are gone and from running flags, nothing changed. */
  predicate Remains(before: Containers, after: Containers) {
    after.Keys <= before.Keys && forall n | n in after :: after[n].(running := before[n].running) == before[n]
  }

  /** The same containers; some may have exited. */
  predicate Faded(before: Containers, after: Containers) {
    && before.Keys == after.Keys && Remains(before, after)
    && forall n | n in after :: after[n].running ==> before[n].running
  }

  function RunningNames(cs: Containers): set<string> {
    set n | n in cs && cs[n].running
  }

  /** Runtime.Status as a function of what is listed and of how many services the spec has. */
  function StatusOf(cs: Containers, want: nat): RuntimeStatus {
    if |cs| == 0 then Down
    else if |RunningNames(cs)| == want then AllUp
    else if |RunningNames(cs)| == 0 then Down
    else Partial
  }

  /** Every mapping is one of a's or one of b's. */
  ghost predicate Drawn(after: map<string, Binding>, a: map<string, Binding>, b: map<string, Binding>) {
    forall l | l in after :: (l in a && after[l] == a[l]) || (l in b && after[l] == b[l])
  }

  class World {
    const host: Host
    const oracle: nat -> Outcome
    /** Whether the container looked up at call n turns out to have vanished. */
    const vanished: nat -> bool
    /** The containers that exit on their own before call n. */
    const exits: nat -> set<string>
    /** Which paths the file system places inside the source directory at call n. */
    const inside: nat -> string -> bool

    var calls: nat
    var app: AppRow
    var secrets: map<string, string>
    var storage: map<string, Binding>
    var releases: map<string, Release>
    var containers: Containers
    /** Every status the run asked its operation to finish with. */
    var finishAsked: seq<Operations.Status>
    /** What the manifest of each backup lists; a bind that does not exist is listed without an archive of its own. */
    var manifests: seq<map<string, Binding>>
    /** The directories copied, source and target; one that does not exist has nothing to copy. */
    var copies: set<(string, string)>

    constructor (host: Host, oracle: nat -> Outcome, vanished: nat -> bool, exits: nat -> set<string>,
                 inside: nat -> string -> bool, app: AppRow, secrets: map<string, string>,
                 storage: map<string, Binding>,
                 releases: map<string, Release>, containers: Containers)
      ensures this.host == host && this.app == app && this.secrets == secrets && this.storage == storage
      ensures this.releases == releases && this.containers == containers
      ensures finishAsked == [] && manifests == [] && copies == {}
    {
      this.host, this.oracle, this.vanished, this.exits, this.inside := host, oracle, vanished, exits, inside;
      this.calls, this.app, this.secrets, this.storage := 0, app, secrets, storage;
      this.releases, this.containers, this.finishAsked := releases, containers, [];
      this.manifests, this.copies := [], {};
    }

    /** Call n works: it does not fail, nothing has vanished or exited by then, and every path lies inside. */
    ghost predicate CalmAt(n: nat) {
      oracle(n).Done? && !vanished(n) && exits(n) == {} && forall p: string :: inside(n)(p)
    }

    ghost predicate Calm(lo: nat, hi: nat) {
      forall n | lo <= n < hi :: CalmAt(n)
    }

    lemma CalmParts(lo: nat, mid: nat, hi: nat)
      ensures Calm(lo, hi) && lo <= mid <= hi ==> Calm(lo, mid) && Calm(mid, hi)
    {
    }

    lemma CalmHere(lo: nat, hi: nat, n: nat)
      ensures Calm(lo, hi) && lo <= n < hi ==> CalmAt(n)
    {
    }

    /** At least two calls failed. */
    ghost predicate TwoFailures(lo: nat, hi: nat) {
      exists m, n :: lo <= m < n < hi && !CalmAt(m) && !CalmAt(n)
    }

    lemma BothFail(lo: nat, mid: nat, hi: nat)
      ensures !Calm(lo, mid) && !Calm(mid, hi) && lo <= mid <= hi ==> TwoFailures(lo, hi)
    {
      hide CalmAt;
      if !Calm(lo, mid) && !Calm(mid, hi) && lo <= mid <= hi {
        var m: nat :| lo <= m < mid && !CalmAt(m);
        var n: nat :| mid <= n < hi && !CalmAt(n);
      }
    }

    lemma FailuresWiden(lo: nat, mid: nat, hi: nat)
      ensures TwoFailures(mid, hi) && lo <= mid ==> TwoFailures(lo, hi)
    {
    }

    method Ask() returns (o: Outcome)
      modifies this`calls
      ensures o == oracle(old(calls)) && calls == old(calls) + 1
      ensures CalmAt(old(calls)) ==> o.Done?
    {
      o := oracle(calls);
      calls := calls + 1;
    }

    /** A call whose effects are not part of the model. */
    method Try() returns (e: Error)
      modifies this`calls
      ensures e == ErrorOf(oracle(old(calls))) && calls == old(calls) + 1
      ensures CalmAt(old(calls)) ==> e.None?
    {
      var o := Ask();
      e := ErrorOf(o);
    }

    // ---------------------------------------------------------------- store

    method GetAppByName() returns (e: Error, row: AppRow)
      modifies this`calls
      ensures row == Loaded(app)
      ensures forall k :: k in row.env <==> k in app.env && EnvText.ValidEnvKey(k) && '\0' !in app.env[k]
      ensures forall k | k in row.env :: row.env[k] == app.env[k]
      ensures row.status == app.status && row.lastError == app.lastError && row.currentRelease == app.currentRelease
      ensures row.source == app.source.(buildMode := row.source.buildMode)
      ensures row.settings == app.settings.(kind := row.settings.kind)
      ensures row.id == app.id.(slug := if app.id.slug == "" then app.id.name else app.id.slug)
      ensures e == ErrorOf(oracle(old(calls))) && calls == old(calls) + 1
      ensures CalmAt(old(calls)) ==> e.None?
    {
      e := Try();
      row := Loaded(app);
    }

    /** Other writers, between the moment a run reads the row and the moment it claims the app. The slug and the
        source type never change. */
    method OthersRun()
      modifies this`app, this`secrets, this`storage, this`releases, this`containers
      ensures app.id.slug == old(app).id.slug && app.id.sourceType == old(app).id.sourceType
    {
      var row: AppRow := *;
      app := row.(id := row.id.(slug := app.id.slug, sourceType := app.id.sourceType));
      secrets, storage, releases, containers := *, *, *, *;
    }

    method UpdateAppStatusErr(status: AppStatus, message: string) returns (e: Error)
      modifies this`calls, this`app
      ensures app == old(app) || app == old(app).(status := status, lastError := BoundedError(message))
      ensures e.None? ==> app == old(app).(status := status, lastError := BoundedError(message))
      ensures e == ErrorOf(oracle(old(calls))) && calls == old(calls) + 1
      ensures CalmAt(old(calls)) ==> e.None?
    {
      var o := Ask();
      if !o.Refused? {
        app := app.(status := status, lastError := BoundedError(message));
      }
      e := ErrorOf(o);
    }

    method UpdateApp(row: AppRow) returns (e: Error)
      modifies this`calls, this`app
      ensures app == old(app) || app == Overwritten(old(app), row)
      ensures e.None? ==> app == Overwritten(old(app), row) && ValidEnv(row.env)
      ensures e.None? ==>
        && app.env == row.env && app.status == row.status && app.currentRelease == row.currentRelease
        && app.id == old(app).id && app.lastError == old(app).lastError
        && app.source == row.source.(buildMode := app.source.buildMode)
        && app.source.buildMode == (if row.source.buildMode == "" then "compose" else row.source.buildMode)
        && app.settings == row.settings.(kind := app.settings.kind)
        && app.settings.kind == (if row.settings.kind == "" then "web" else row.settings.kind)
      ensures old(calls) <= calls && (ValidEnv(row.env) && Calm(old(calls), calls) ==> e.None?)
    {
      if !ValidEnv(row.env) {
        return Some("invalid environment entry");
      }
      var o := Ask();
      if !o.Refused? {
        app := Overwritten(app, row);
      }
      e := ErrorOf(o);
    }

    method SetCurrentRelease(id: string) returns (e: Error)
      modifies this`calls, this`app
      ensures app == old(app) || app == old(app).(currentRelease := id)
      ensures e.None? ==> id in releases && app == old(app).(currentRelease := id)
      ensures old(calls) <= calls && (id in releases && Calm(old(calls), calls) ==> e.None?)
    {
      var o := Ask();
      if id !in releases {
        return Some("not found");
      }
      if !o.Refused? {
        app := app.(currentRelease := id);
      }
      e := ErrorOf(o);
    }

    method ClearCurrentRelease() returns (e: Error)
      modifies this`calls, this`app
      ensures app == old(app) || app == old(app).(currentRelease := "")
      ensures e.None? ==> app == old(app).(currentRelease := "")
      ensures old(calls) <= calls && (Calm(old(calls), calls) ==> e.None?)
    {
      var o := Ask();
      if !o.Refused? {
        app := app.(currentRelease := "");
      }
      e := ErrorOf(o);
    }

    method GetCurrentRelease() returns (e: Error, current: Release)
      modifies this`calls
      ensures e.None? ==> app.currentRelease in releases && current == releases[app.currentRelease]
      ensures e.None? <==> app.currentRelease in releases && oracle(old(calls)).Done?
      ensures calls == old(calls) + 1
      ensures old(calls) <= calls && (app.currentRelease in releases && Calm(old(calls), calls) ==> e.None?)
    {
      var o := Ask();
      current := Release("", Git, "", "", "", "", "", map[], Preparing, "");
      if app.currentRelease !in releases {
        return Some("not found"), current;
      }
      e := ErrorOf(o);
      current := releases[app.currentRelease];
    }

    method CreateRelease(id: string, r: Release) returns (e: Error)
      modifies this`calls, this`releases
      ensures releases == old(releases) || (id !in old(releases) && releases == old(releases)[id := r])
      ensures e.None? ==> id !in old(releases) && releases == old(releases)[id := r]
      ensures old(calls) <= calls && (id !in old(releases) && Calm(old(calls), calls) ==> e.None?)
    {
      var o := Ask();
      if id in releases {
        return Some("unique constraint failed");
      }
      if !o.Refused? {
        releases := releases[id := r];
      }
      e := ErrorOf(o);
    }

    /** The recorded error is bounded. */
    method UpdateRelease(id: string, r: Release) returns (e: Error)
      modifies this`calls, this`releases
      ensures releases == old(releases) || (id in old(releases) && releases == old(releases)[id := Bounded(r)])
      ensures id in old(releases) && e.None? ==> releases == old(releases)[id := Bounded(r)]
      ensures e == if id in old(releases) then ErrorOf(oracle(old(calls))) else Some("not found")
      ensures id in old(releases) && CalmAt(old(calls)) ==> e.None?
      ensures calls == old(calls) + 1
    {
      var o := Ask();
      if id !in releases {
        return Some("not found");
      }
      if !o.Refused? {
        releases := releases[id := Bounded(r)];
      }
      e := ErrorOf(o);
    }

    method GetSecrets() returns (e: Error, out: map<string, string>)
      modifies this`calls
      ensures e.None? ==> out == secrets
      ensures e == ErrorOf(oracle(old(calls))) && calls == old(calls) + 1
      ensures CalmAt(old(calls)) ==> e.None?
    {
      e := Try();
      out := secrets;
    }

    method SetSecret(key: string, value: string) returns (e: Error)
      modifies this`calls, this`secrets
      ensures secrets == old(secrets) || secrets == old(secrets)[key := value]
      ensures e.None? ==> secrets == old(secrets)[key := value]
      ensures !EnvText.ValidEnvKey(key) || '\0' in value ==> e.Some? && secrets == old(secrets)
      ensures old(calls) <= calls
      ensures EnvText.ValidEnvKey(key) && '\0' !in value && Calm(old(calls), calls) ==> e.None?
    {
      if !EnvText.ValidEnvKey(key) || '\0' in value {
        return Some("invalid secret");
      }
      var o := Ask();
      if !o.Refused? {
        secrets := secrets[key := value];
      }
      e := ErrorOf(o);
    }

    method DeleteSecret(key: string) returns (e: Error)
      modifies this`calls, this`secrets
      ensures secrets == old(secrets) || secrets == old(secrets) - {key}
      ensures e.None? ==> secrets == old(secrets) - {key}
      ensures old(calls) <= calls && (Calm(old(calls), calls) ==> e.None?)
    {
      var o := Ask();
      if !o.Refused? {
        secrets := secrets - {key};
      }
      e := ErrorOf(o);
    }

    /** replaceSecrets: any error leaves the secrets part way. */
    method ReplaceSecrets(desired: map<string, string>) returns (e: Error)
      modifies this`calls, this`secrets
      ensures e.None? ==> secrets == desired
      ensures old(calls) <= calls && (ValidEnv(desired) && Calm(old(calls), calls) ==> e.None?)
    {
      var current;
      e, current := GetSecrets();
      if e.Some? {
        return;
      }
      var rest := current.Keys;
      while rest != {}
        invariant rest <= current.Keys && secrets.Keys <= desired.Keys + rest && old(calls) <= calls
      {
        var key :| key in rest;
        if key !in desired {
          e := DeleteSecret(key);
          if e.Some? {
            return;
          }
        }
        rest := rest - {key};
      }
      rest := desired.Keys;
      while rest != {}
        invariant rest <= desired.Keys && secrets.Keys <= desired.Keys && old(calls) <= calls
        invariant forall k | k in desired.Keys - rest :: k in secrets && secrets[k] == desired[k]
      {
        var key :| key in rest;
        e := SetSecret(key, desired[key]);
        if e.Some? {
          return;
        }
        rest := rest - {key};
      }
      e := None;
    }

    method LoadRuntimeEnv(base: map<string, string>) returns (e: Error, env: map<string, string>)
      modifies this`calls
      ensures e.None? ==> env == base + secrets
      ensures old(calls) <= calls && (Calm(old(calls), calls) ==> e.None?)
    {
      env := base;
      var current;
      e, current := GetSecrets();
      if e.None? {
        env := Overlay(base, current);
      }
    }

    method ListAppStorage() returns (e: Error, out: map<string, Binding>)
      modifies this`calls
      ensures e.None? ==> out == storage
      ensures old(calls) <= calls && (Calm(old(calls), calls) ==> e.None?)
    {
      e := Try();
      out := storage;
    }

    method UpsertAppStorage(logical: string, binding: Binding) returns (e: Error)
      modifies this`calls, this`storage
      ensures storage == old(storage) || storage == old(storage)[logical := binding]
      ensures e.None? ==> storage == old(storage)[logical := binding]
      ensures old(calls) <= calls && (Calm(old(calls), calls) ==> e.None?)
    {
      var o := Ask();
      if !o.Refused? {
        storage := storage[logical := binding];
      }
      e := ErrorOf(o);
    }

    method DeleteAppStorage(logical: string) returns (e: Error)
      modifies this`calls, this`storage
      ensures storage == old(storage) || storage == old(storage) - {logical}
      ensures e.None? ==> storage == old(storage) - {logical}
      ensures old(calls) <= calls && (Calm(old(calls), calls) ==> e.None?)
    {
      var o := Ask();
      if !o.Refused? {
        storage := storage - {logical};
      }
      e := ErrorOf(o);
    }

    static lemma PartGrows(base: map<string, Binding>, candidate: map<string, Binding>, done: set<string>, l: string)
      requires l in candidate
      ensures (base + StorageHistory.Part(candidate, done))[l := candidate[l]]
           == base + StorageHistory.Part(candidate, done + {l})
    {
    }

    /** persistRuntimeStorage: after an error some of the candidate's mappings may have been written. */
    method PersistRuntimeStorage(candidate: map<string, Binding>) returns (e: Error)
      modifies this`calls, this`storage
      ensures e.None? ==> storage == old(storage) + candidate
      ensures exists written: set<string> :: storage == old(storage) + StorageHistory.Part(candidate, written)
      ensures Drawn(storage, old(storage), candidate)
      ensures old(calls) <= calls && (Calm(old(calls), calls) ==> e.None?)
    {
      var rest := candidate.Keys;
      assert StorageHistory.Part(candidate, candidate.Keys - rest) == map[];
      while rest != {}
        invariant rest <= candidate.Keys
        invariant storage == old(storage) + StorageHistory.Part(candidate, candidate.Keys - rest)
        invariant old(calls) <= calls
      {
        var logical :| logical in rest;
        ghost var before := storage;
        ghost var done := candidate.Keys - rest;
        e := UpsertAppStorage(logical, candidate[logical]);
        PartGrows(old(storage), candidate, done, logical);
        if e.Some? {
          ghost var written := if storage == before then done else done + {logical};
          assert storage == old(storage) + StorageHistory.Part(candidate, written);
          return;
        }
        rest := rest - {logical};
        assert candidate.Keys - rest == done + {logical};
      }
      assert StorageHistory.Part(candidate, candidate.Keys - rest) == candidate;
      e := None;
    }

    method FinishOperation(status: Operations.Status) returns (e: Error)
      modifies this`calls, this`finishAsked
      ensures finishAsked == old(finishAsked) + [status] && calls == old(calls) + 1
    {
      finishAsked := finishAsked + [status];
      e := Try();
    }

    // ---------------------------------------------------------------- storage contents

    /** backupStorage: manifests every location it is given. */
    method BackupStorage(all: map<string, Binding>) returns (e: Error)
      modifies this`calls, this`manifests
      ensures manifests == old(manifests) || manifests == old(manifests) + [all]
      ensures e.None? ==> manifests == old(manifests) + [all]
      ensures old(calls) <= calls && (Calm(old(calls), calls) ==> e.None?)
    {
      var o := Ask();
      if !o.Refused? {
        manifests := manifests + [all];
      }
      e := ErrorOf(o);
    }

    /** copyDirectory, where a source that does not exist is no error. */
    method CopyDirectory(source: string, target: string) returns (e: Error)
      modifies this`calls, this`copies
      ensures old(copies) <= copies <= old(copies) + {(source, target)}
      ensures e.None? ==> (source, target) in copies
      ensures old(calls) <= calls && (Calm(old(calls), calls) ==> e.None?)
    {
      var o := Ask();
      if !o.Refused? {
        copies := copies + {(source, target)};
      }
      e := ErrorOf(o);
    }

    // ---------------------------------------------------------------- container runtime

    /** LookupID: the container may have vanished since it was listed. */
    method Lookup(name: string) returns (e: Error, found: bool)
      modifies this`calls, this`containers
      ensures containers == old(containers) || containers == old(containers) - {name}
      ensures e.None? && found ==> containers == old(containers) && name in containers
      ensures e.None? && !found ==> name !in containers
      ensures old(calls) <= calls
      ensures Calm(old(calls), calls) ==> e.None? && containers == old(containers) && (found <==> name in containers)
    {
      assert CalmAt(calls) ==> !vanished(calls);
      if vanished(calls) {
        containers := containers - {name};
      }
      e := Try();
      found := name in containers;
    }

    /** A reply that the container is not running means that it had exited by then. */
    method StopContainer(name: string) returns (e: Error)
      modifies this`calls, this`containers
      requires name in containers
      ensures || containers == old(containers)
              || containers == old(containers)[name := old(containers)[name].(running := false)]
      ensures e.None? || AlreadyStopped(e.value) ==> name in containers && !containers[name].running
      ensures old(calls) <= calls && (Calm(old(calls), calls) ==> e.None?)
    {
      var o := Ask();
      e := ErrorOf(o);
      if !o.Refused? || AlreadyStopped(o.text) {
        containers := containers[name := containers[name].(running := false)];
      }
    }

    method StartContainer(name: string) returns (e: Error)
      modifies this`calls, this`containers
      requires name in containers
      ensures || containers == old(containers)
              || containers == old(containers)[name := old(containers)[name].(running := true)]
      ensures e.None? ==> containers == old(containers)[name := old(containers)[name].(running := true)]
      ensures old(calls) <= calls && (Calm(old(calls), calls) ==> e.None?)
    {
      var o := Ask();
      e := ErrorOf(o);
      if !o.Refused? {
        containers := containers[name := containers[name].(running := true)];
      }
    }

    method RemoveContainer(name: string) returns (e: Error)
      modifies this`calls, this`containers
      ensures containers == old(containers) || containers == old(containers) - {name}
      ensures e.None? ==> containers == old(containers) - {name}
      ensures old(calls) <= calls && (Calm(old(calls), calls) ==> e.None?)
    {
      var o := Ask();
      e := ErrorOf(o);
      if !o.Refused? {
        containers := containers - {name};
      }
    }

    method CreateContainer(name: string, c: Container) returns (e: Error)
      modifies this`calls, this`containers
      ensures containers == old(containers) || (name !in old(containers) && containers == old(containers)[name := c])
      ensures e.None? ==> name !in old(containers) && containers == old(containers)[name := c]
      ensures old(calls) <= calls && (name !in old(containers) && Calm(old(calls), calls) ==> e.None?)
    {
      var o := Ask();
      if name in containers {
        return Some("name already in use");
      }
      e := ErrorOf(o);
      if !o.Refused? {
        containers := containers[name := c];
      }
    }

    /** Looks one container up and starts or stops it. */
    method Handle(up: bool, name: string) returns (e: Error, found: bool)
      modifies this`calls, this`containers
      ensures Remains(old(containers), containers)
      ensures old(containers).Keys - {name} <= containers.Keys
      ensures forall n | n in containers && n != name :: containers[n] == old(containers)[n]
      ensures !up && name in containers && containers[name].running ==> old(containers)[name].running
      ensures e.None? && found ==> name in containers && containers[name].running == up
      ensures e.None? && !found ==> name !in containers
      ensures old(calls) <= calls && (name in old(containers) && Calm(old(calls), calls) ==> e.None? && found)
    {
      e, found := Lookup(name);
      if e.Some? || !found {
        return;
      }
      if up {
        e := StartContainer(name);
      } else {
        e := StopContainer(name);
        if e.Some? && AlreadyStopped(e.value) {
          e := None;
        }
      }
    }

    /** eachContainer with StartContainer (`up`) or with StopContainer. On success every container that did not
        vanish was handled, and at least one was. */
    method EachContainer(up: bool) returns (e: Error)
      modifies this`calls, this`containers
      ensures Remains(old(containers), containers)
      ensures !up ==> forall n | n in containers :: containers[n].running ==> old(containers)[n].running
      ensures e.None? ==> containers != map[]
      ensures e.None? ==> if up then AllRunning(containers) else NoneRunning(containers)
      ensures old(calls) <= calls && (old(containers) != map[] && Calm(old(calls), calls) ==> e.None?)
    {
      hide CalmAt;
      e := Try();
      if e.Some? {
        return;
      }
      var listed := containers.Keys;
      if listed == {} {
        return Some("no containers; deploy it first");
      }
      var handled: set<string> := {};
      var rest := listed;
      while rest != {}
        invariant rest <= listed == old(containers).Keys
        invariant Remains(old(containers), containers)
        invariant !up ==> forall n | n in containers :: containers[n].running ==> old(containers)[n].running
        invariant handled <= containers.Keys <= handled + rest
        invariant handled !! rest
        invariant forall n | n in handled :: containers[n].running == up
        invariant old(calls) <= calls && (Calm(old(calls), calls) ==> handled + rest == listed == containers.Keys)
      {
        var name :| name in rest;
        rest := rest - {name};
        ghost var before := containers;
        var found;
        e, found := Handle(up, name);
        RemainsTransitive(old(containers), before, containers);
        if e.Some? {
          return;
        }
        if found {
          handled := handled + {name};
        }
      }
      e := if handled == {} then Some("no container could be resolved") else None;
    }

    method Start() returns (e: Error)
      modifies this`calls, this`containers
      ensures Remains(old(containers), containers)
      ensures e.None? ==> containers != map[] && AllRunning(containers)
      ensures old(calls) <= calls && (old(containers) != map[] && Calm(old(calls), calls) ==> e.None?)
    {
      e := EachContainer(true);
    }

    method Stop() returns (e: Error)
      modifies this`calls, this`containers
      ensures Remains(old(containers), containers)
      ensures forall n | n in containers :: containers[n].running ==> old(containers)[n].running
      ensures e.None? ==> containers != map[] && NoneRunning(containers)
      ensures old(calls) <= calls && (old(containers) != map[] && Calm(old(calls), calls) ==> e.None?)
    {
      e := EachContainer(false);
    }

    method RemoveContainers() returns (e: Error)
      modifies this`calls, this`containers
      ensures e.None? ==> containers == map[]
      ensures Remains(old(containers), containers)
      ensures forall n | n in containers :: containers[n].running ==> old(containers)[n].running
      ensures old(calls) <= calls && (Calm(old(calls), calls) ==> e.None?)
    {
      e := Try();
      if e.Some? {
        return;
      }
      var listed := containers.Keys;
      var removed := 0;
      var rest := listed;
      while rest != {}
        invariant rest <= listed && containers.Keys <= rest && Remains(old(containers), containers)
        invariant forall n | n in containers :: containers[n].running ==> old(containers)[n].running
        invariant old(calls) <= calls
        invariant Calm(old(calls), calls) ==> containers.Keys == rest && (rest != listed ==> removed > 0)
      {
        var name :| name in rest;
        rest := rest - {name};
        var gone;
        e, gone := Discard(name);
        if e.Some? {
          return;
        }
        if gone {
          removed := removed + 1;
        }
      }
      e := if removed == 0 && listed != {} then Some("no container could be removed") else None;
    }

    /** Stops and removes one container, unless it has vanished. */
    method Discard(name: string) returns (e: Error, removed: bool)
      modifies this`calls, this`containers
      ensures e.None? ==> containers == old(containers) - {name}
      ensures old(containers).Keys - {name} <= containers.Keys && Remains(old(containers), containers)
      ensures forall n | n in containers && n != name :: containers[n] == old(containers)[n]
      ensures name in containers && containers[name].running ==> old(containers)[name].running
      ensures old(calls) <= calls && (name in old(containers) && Calm(old(calls), calls) ==> e.None? && removed)
    {
      removed := false;
      var found;
      e, found := Lookup(name);
      if e.Some? || !found {
        return;
      }
      e := StopContainer(name);
      if e.Some? && !AlreadyStopped(e.value) {
        return;
      }
      e := RemoveContainer(name);
      removed := e.None?;
    }

    /** Containers exit on their own. */
    method TimePasses()
      modifies this`calls, this`containers
      ensures Faded(old(containers), containers)
      ensures old(calls) <= calls && (Calm(old(calls), calls) ==> containers == old(containers))
    {
      var gone := exits(calls);
      assert CalmAt(calls) ==> gone == {};
      calls := calls + 1;
      containers := map n | n in containers :: if n in gone then containers[n].(running := false) else containers[n];
    }

    /** Some may have exited by the time they are listed. */
    method Status(want: nat) returns (e: Error, status: RuntimeStatus)
      modifies this`calls, this`containers
      ensures Faded(old(containers), containers)
      ensures e.None? ==> status == StatusOf(containers, want)
      ensures old(calls) <= calls && (Calm(old(calls), calls) ==> e.None? && containers == old(containers))
    {
      TimePasses();
      status := Down;
      e := Try();
      if e.Some? || |containers| == 0 {
        return;
      }
      var running: set<string> := {};
      var rest := containers.Keys;
      while rest != {}
        invariant rest <= containers.Keys
        invariant running == set n | n in containers.Keys - rest && containers[n].running
      {
        var n :| n in rest;
        if containers[n].running {
          running := running + {n};
        }
        rest := rest - {n};
      }
      assert running == RunningNames(containers);
      status := if |running| == want then AllUp else if |running| == 0 then Down else Partial;
    }

    /** ensureTopLevelVolumes: the managed binds, the check and creation of the declared volumes, the other volumes. */
    method EnsureVolumes(spec: Spec) returns (e: Error)
      modifies this`calls
      ensures e.None? ==> forall v | v in spec.volumes :: ValidVolumeName(v)
      ensures old(calls) <= calls && (VolumesUsable(host, spec) && Calm(old(calls), calls) ==> e.None?)
    {
      e := Try();
      if e.Some? {
        return;
      }
      var rest := spec.volumes;
      while rest != {}
        invariant rest <= spec.volumes
        invariant forall v | v in spec.volumes && v !in rest :: ValidVolumeName(v)
        invariant old(calls) <= calls
      {
        var v :| v in rest;
        if !ValidVolumeName(v) {
          return Some("invalid volume name");
        }
        if host.appID == "" {
          return Some("app id is required");
        }
        e := Try();
        if e.Some? {
          return;
        }
        rest := rest - {v};
      }
      e := Try();
    }

    /** Builds or pulls every image. No container is touched. */
    method Prepare(meta: Meta, spec: Spec) returns (e: Error, images: map<string, string>)
      modifies this`calls
      ensures e.None? ==> images == PreparedImages(host, meta, spec)
      ensures old(calls) <= calls && (VolumesUsable(host, spec) && Calm(old(calls), calls) ==> e.None?)
    {
      hide Elements, NoRepeats, DependenciesFirst, Acyclic, Reaches, Edge, ValidVolumeName, PreparedImage,
           PreparedImages;
      images := map[];
      e := Try();
      if e.Some? {
        return;
      }
      e := EnsureVolumes(spec);
      if e.Some? {
        return;
      }
      var order := TopologicalOrder(spec);
      OrderCovers(order, spec);
      for i := 0 to |order|
        invariant images.Keys == Elements(order[..i]) && old(calls) <= calls
        invariant forall s | s in images :: s in spec.services && images[s] == PreparedImage(host, meta, spec, s)
      {
        var s := order[i];
        e := Try();
        if e.Some? {
          return;
        }
        images := images[s := PreparedImage(host, meta, spec, s)];
        ElementsGrow(order, i);
      }
      assert order[..|order|] == order;
      ImagesComplete(host, meta, spec, images);
      e := None;
    }

    /** activateService: resolves the mounts, creates the container and starts it. */
    method ActivateService(meta: Meta, spec: Spec, sourceDir: string, s: string, image: string) returns (e: Error)
      requires s in spec.services
      modifies this`calls, this`containers
      ensures e.None? ==> ContainerName(host.slug, s) !in old(containers)
      ensures e.None? ==> exists c: Container ::
        && containers == old(containers)[ContainerName(host.slug, s) := c]
        && c.running && c.image == image
        && CreatedFor(c.(image := PreparedImage(host, meta, spec, s)), host, meta, spec, sourceDir, s)
      ensures containers.Keys <= old(containers).Keys + {ContainerName(host.slug, s)} && old(calls) <= calls
      ensures (ContainerName(host.slug, s) !in old(containers) && MountsResolve(host, meta, spec, sourceDir, s)
               && Calm(old(calls), calls)) ==> e.None?
    {
      hide PreparedImage, ContainerName, Binds;
      var env := ResolveEnv(spec.services[s].env, meta.env);
      var ctx := Context(host, meta, spec, sourceDir).(contained := inside(calls));
      assert CalmAt(calls) ==> forall p: string :: inside(calls)(p);
      calls := calls + 1;
      var binds := ResolveBinds(ctx, spec.services[s].volumes);
      if forall p: string :: ctx.contained(p) {
        ContainedEverywhere(ctx, spec.services[s].volumes);
      }
      if binds.None? {
        return Some("volumes");
      }
      ContainmentOnlyRefuses(ctx, spec.services[s].volumes);
      assert ctx.(contained := Anywhere) == Context(host, meta, spec, sourceDir);
      var name := ContainerName(host.slug, s);
      var c := Container(false, image, env, binds.value);
      e := CreateContainer(name, c);
      if e.Some? {
        return;
      }
      e := StartContainer(name);
      assert CreatedFor(c.(running := true, image := PreparedImage(host, meta, spec, s)), host, meta, spec, sourceDir,
                        s);
    }

    /** One turn of Activate: picks the image and activates the service that comes next. */
    method ActivateNext(meta: Meta, spec: ParsedSpec, sourceDir: string, images: map<string, string>,
                        order: seq<string>, i: nat)
      returns (e: Error)
      requires i < |order| && NoRepeats(order) && forall k | 0 <= k < |order| :: order[k] in spec.services
      modifies this`calls, this`containers
      ensures old(calls) <= calls
      ensures images == PreparedImages(host, meta, spec)
              && PartlyDeployed(old(containers), host, meta, spec, sourceDir, order[..i]) ==>
                && (e.None? ==> PartlyDeployed(containers, host, meta, spec, sourceDir, order[..i + 1]))
                && (Deployable(host, meta, spec, sourceDir) && Calm(old(calls), calls) ==> e.None?)
    {
      hide NoRepeats, PreparedImage, PreparedImages, PartlyDeployed, CreatedFor, ContainerName, MountsResolve, At,
           VolumesUsable, ValidSpec;
      var s := order[i];
      var image := At(images, s);
      if image == "" {
        image := At(meta.imageTags, s);
      }
      if image == "" {
        image := spec.services[s].image;
      }
      ghost var clean := images == PreparedImages(host, meta, spec)
                         && PartlyDeployed(containers, host, meta, spec, sourceDir, order[..i]);
      if clean {
        PreparedImageIsUsed(host, meta, spec, images, s);
        NextNameIsFree(containers, host, meta, spec, sourceDir, order, i);
      }
      if image == "" {
        return Some("prepared image is missing");
      }
      ghost var before := containers;
      e := ActivateService(meta, spec, sourceDir, s, image);
      if e.None? && clean {
        ghost var c: Container :| && containers == before[ContainerName(host.slug, s) := c]
          && c.running && c.image == image
          && CreatedFor(c.(image := PreparedImage(host, meta, spec, s)), host, meta, spec, sourceDir, s);
        assert c.(image := PreparedImage(host, meta, spec, s)) == c;
        OneMoreDeployed(before, host, meta, spec, sourceDir, order[..i], s, c);
        assert order[..i + 1] == order[..i] + [s];
      }
    }

    /** Creates and starts one container per service, dependencies first. Any of them may exit again at once. */
    method Activate(meta: Meta, spec: ParsedSpec, sourceDir: string, images: map<string, string>) returns (e: Error)
      modifies this`calls, this`containers
      ensures e.None? && old(containers) == map[] && images == PreparedImages(host, meta, spec) ==>
        DeployedAs(containers, host, meta, spec, sourceDir)
      ensures old(calls) <= calls
      ensures (old(containers) == map[] && images == PreparedImages(host, meta, spec)
               && Deployable(host, meta, spec, sourceDir) && Calm(old(calls), calls)) ==>
                 e.None? && AllRunning(containers)
    {
      hide Elements, NoRepeats, DependenciesFirst, Acyclic, Reaches, Edge, ValidVolumeName, PreparedImage,
           PreparedImages, PartlyDeployed, DeployedAs, AllRunning, CreatedFor, ContainerName, Faded, VolumesUsable,
           MountsResolve, ValidSpec;
      e := Try();
      if e.Some? {
        return;
      }
      e := EnsureVolumes(spec);
      if e.Some? {
        return;
      }
      var order := TopologicalOrder(spec);
      OrderCovers(order, spec);
      ghost var clean := containers == map[] && images == PreparedImages(host, meta, spec);
      NothingDeployed(host, meta, spec, sourceDir);
      assert order[..0] == [];
      for i := 0 to |order|
        invariant old(calls) <= calls
        invariant clean ==> PartlyDeployed(containers, host, meta, spec, sourceDir, order[..i])
      {
        e := ActivateNext(meta, spec, sourceDir, images, order, i);
        if e.Some? {
          return;
        }
      }
      if clean {
        assert order[..|order|] == order;
        EverythingDeployed(containers, host, meta, spec, sourceDir, order);
      }
      ghost var started := containers;
      TimePasses();
      if clean {
        FadedKeepsDeployment(started, containers, host, meta, spec, sourceDir);
      }
      e := None;
    }

    method Deploy(meta: Meta, spec: ParsedSpec, sourceDir: string) returns (e: Error)
      modifies this`calls, this`containers
      ensures e.None? && old(containers) == map[] ==> DeployedAs(containers, host, meta, spec, sourceDir)
      ensures old(calls) <= calls
      ensures (old(containers) == map[] && Deployable(host, meta, spec, sourceDir) && Calm(old(calls), calls)) ==>
        e.None? && AllRunning(containers)
    {
      var images;
      e, images := Prepare(meta, spec);
      if e.None? {
        e := Activate(meta, spec, sourceDir, images);
      }
    }
  }

  /** When as many containers run as the spec has services, and there is one container per service, all run. */
  lemma FullCountMeansAllRunning(cs: Containers, want: nat)
    requires StatusOf(cs, want) == AllUp && |cs| == want
    ensures AllRunning(cs)
  {
    if n :| n in cs && !cs[n].running {
      assert RunningNames(cs) <= cs.Keys - {n};
      SubsetCount(RunningNames(cs), cs.Keys - {n});
      assert false;
    }
  }

  lemma {:induction false} SubsetCount(a: set<string>, b: set<string>)
    requires a <= b
    ensures |a| <= |b|
    decreases a
  {
    if x :| x in a {
      SubsetCount(a - {x}, b - {x});
    }
  }

  /** With no container running, the runtime is reported stopped exactly when there is no container at all or the
      spec has a service; a spec without services makes it look as if everything were up. */
  lemma IdleIsStopped(cs: Containers, want: nat)
    requires NoneRunning(cs)
    ensures StatusOf(cs, want) == Down <==> |cs| == 0 || want > 0
    ensures StatusOf(cs, want) != Down ==> StatusOf(cs, want) == AllUp
  {
    assert RunningNames(cs) == {};
  }

  /** A stopped app whose compose text does not parse: no service is expected, none runs, and that looks like all up. */
  lemma IdleAppLooksUp(stopped: Container)
    requires !stopped.running
    ensures NoneRunning(map["se-app-web" := stopped]) && StatusOf(map["se-app-web" := stopped], 0) == AllUp
  {
    IdleIsStopped(map["se-app-web" := stopped], 0);
    assert |map["se-app-web" := stopped]| == 1;
  }

  lemma NotDownMeansSome(cs: Containers, want: nat)
    requires StatusOf(cs, want) != Down
    ensures cs != map[]
  {
  }

  lemma DownMeansNoneRunning(cs: Containers, want: nat)
    requires StatusOf(cs, want) == Down
    ensures NoneRunning(cs)
  {
    forall n | n in cs ensures !cs[n].running {
      assert n in RunningNames(cs) <==> cs[n].running;
    }
  }

  lemma RemainsTransitive(a: Containers, b: Containers, c: Containers)
    requires Remains(a, b) && Remains(b, c)
    ensures Remains(a, c)
  {
    forall n | n in c ensures n in a && c[n].(running := a[n].running) == a[n] {
      assert c[n].(running := b[n].running) == b[n] && b[n].(running := a[n].running) == a[n];
    }
  }

  /** What is left of a deployment after some of its containers vanished or changed their running flag. */
  ghost predicate OnlyFrom(cs: Containers, host: Host, meta: Meta, spec: Spec, sourceDir: string) {
    forall n | n in cs :: exists s | s in spec.services ::
      n == ContainerName(host.slug, s) && CreatedFor(cs[n], host, meta, spec, sourceDir, s)
  }

  lemma RemainderIsOnlyFrom(before: Containers, after: Containers, host: Host, meta: Meta, spec: Spec,
                            sourceDir: string)
    requires DeployedAs(before, host, meta, spec, sourceDir) && Remains(before, after)
    ensures OnlyFrom(after, host, meta, spec, sourceDir)
  {
    forall n | n in after
      ensures exists s | s in spec.services ::
        n == ContainerName(host.slug, s) && CreatedFor(after[n], host, meta, spec, sourceDir, s)
    {
      assert n in before;
      var s :| s in spec.services && n == ContainerName(host.slug, s);
      assert CreatedFor(before[n], host, meta, spec, sourceDir, s);
      assert after[n].(running := before[n].running) == before[n];
    }
  }

  lemma FadedKeepsDeployment(before: Containers, after: Containers, host: Host, meta: Meta, spec: Spec,
                             sourceDir: string)
    requires DeployedAs(before, host, meta, spec, sourceDir) && Faded(before, after)
    ensures DeployedAs(after, host, meta, spec, sourceDir)
  {
    assert |before.Keys| == |before| && |after.Keys| == |after|;
    forall s | s in spec.services
      ensures ContainerName(host.slug, s) in after
              && CreatedFor(after[ContainerName(host.slug, s)], host, meta, spec, sourceDir, s)
    {
      var n := ContainerName(host.slug, s);
      assert n in before && CreatedFor(before[n], host, meta, spec, sourceDir, s);
      assert n in after && after[n].(running := before[n].running) == before[n];
    }
  }

  /** A deployment that Status found up, whatever exited before, is complete and running. */
  lemma {:induction false} VerifiedDeployment(before: Containers, after: Containers, host: Host, meta: Meta,
                                              spec: Spec, sourceDir: string)
    requires DeployedAs(before, host, meta, spec, sourceDir) && Faded(before, after)
    requires StatusOf(after, |spec.services|) == AllUp
    ensures DeployedAs(after, host, meta, spec, sourceDir) && AllRunning(after)
  {
    FadedKeepsDeployment(before, after, host, meta, spec, sourceDir);
    FullCountMeansAllRunning(after, |spec.services|);
  }

  /** A deployment whose containers all run is found up. */
  lemma UpWhenAllRun(cs: Containers, host: Host, meta: Meta, spec: ParsedSpec, sourceDir: string)
    requires DeployedAs(cs, host, meta, spec, sourceDir) && AllRunning(cs)
    ensures StatusOf(cs, |spec.services|) == AllUp
  {
    hide CreatedFor, ContainerName, ValidService, ValidName, DistinctRuntimeNames;
    assert |cs| == |spec.services| > 0;
    hide DeployedAs;
    assert RunningNames(cs) == cs.Keys && |cs.Keys| == |cs|;
  }

  lemma SomethingDeployed(cs: Containers, host: Host, meta: Meta, spec: ParsedSpec, sourceDir: string)
    requires DeployedAs(cs, host, meta, spec, sourceDir)
    ensures cs != map[]
  {
    hide CreatedFor, ContainerName, ValidService, ValidName, DistinctRuntimeNames;
    assert |cs| == |spec.services| > 0;
  }

  lemma NothingDeployed(host: Host, meta: Meta, spec: Spec, sourceDir: string)
    ensures PartlyDeployed(map[], host, meta, spec, sourceDir, [])
  {
  }

  lemma PreparedImageIsUsed(host: Host, meta: Meta, spec: ParsedSpec, images: map<string, string>, s: string)
    requires s in spec.services && images == PreparedImages(host, meta, spec)
    ensures At(images, s) == PreparedImage(host, meta, spec, s) != ""
  {
    assert ValidService(spec.services[s]);
  }

  /** No two services of a parsed spec have the same container name. */
  lemma NamesDiffer(slug: string, spec: ParsedSpec, a: string, b: string)
    requires a in spec.services && b in spec.services && ContainerName(slug, a) == ContainerName(slug, b)
    ensures a == b
  {
    var head := "se-" + Sanitize(slug) + "-";
    assert ContainerName(slug, a)[|head|..] == Sanitize(a) && ContainerName(slug, b)[|head|..] == Sanitize(b);
    assert DistinctRuntimeNames(spec.services.Keys);
  }

  /** Containers of different apps have different names as far as the slugs are of one length. */
  lemma AppsNamesDiffer(slugA: string, a: string, slugB: string, b: string)
    requires |slugA| == |slugB| && ContainerName(slugA, a) == ContainerName(slugB, b)
    ensures Sanitize(slugA) == Sanitize(slugB) && Sanitize(a) == Sanitize(b)
  {
    var x, y := ContainerName(slugA, a), ContainerName(slugB, b);
    var lo, hi := |"se-"|, |"se-" + Sanitize(slugA)|;
    assert x[lo..hi] == Sanitize(slugA) && y[lo..hi] == Sanitize(slugB);
    assert x[hi + 1..] == Sanitize(a) && y[hi + 1..] == Sanitize(b);
  }

  /** Otherwise they need not: the dash between slug and service may be one inside either. */
  lemma AppsNamesMayMeet()
    ensures ContainerName("shop", "api-web") == ContainerName("shop-api", "web")
  {
    Compose.PlainIsKept("shop", "shop");
    Compose.PlainIsKept("api-web", "api-web");
    Compose.PlainIsKept("shop-api", "shop-api");
    Compose.PlainIsKept("web", "web");
    hide Sanitize;
    assert "api-web" == "api" + "-" + "web" && "shop-api" == "shop" + "-" + "api";
    assert "se-" + "shop" + "-" + ("api" + "-" + "web") == "se-" + ("shop" + "-" + "api") + "-" + "web";
  }

  lemma NextNameIsFree(cs: Containers, host: Host, meta: Meta, spec: ParsedSpec, sourceDir: string, order: seq<string>,
                       i: nat)
    requires i < |order| && NoRepeats(order) && order[i] in spec.services
    requires PartlyDeployed(cs, host, meta, spec, sourceDir, order[..i])
    requires forall k | 0 <= k < |order| :: order[k] in spec.services
    ensures ContainerName(host.slug, order[i]) !in cs
  {
    hide ContainerName, CreatedFor, ValidSpec;
    if ContainerName(host.slug, order[i]) in cs {
      var t :| t in order[..i] && ContainerName(host.slug, order[i]) == ContainerName(host.slug, t);
      NamesDiffer(host.slug, spec, order[i], t);
    }
  }

  lemma {:induction false} OneMoreDeployed(before: Containers, host: Host, meta: Meta, spec: Spec, sourceDir: string,
                        done: seq<string>, s: string, c: Container)
    requires PartlyDeployed(before, host, meta, spec, sourceDir, done)
    requires ContainerName(host.slug, s) !in before
    requires c.running && CreatedFor(c, host, meta, spec, sourceDir, s)
    ensures PartlyDeployed(before[ContainerName(host.slug, s) := c], host, meta, spec, sourceDir, done + [s])
  {
    hide ContainerName, CreatedFor;
    var after := before[ContainerName(host.slug, s) := c];
    forall n | n in after
      ensures after[n].running && exists t | t in done + [s] :: n == ContainerName(host.slug, t)
    {
      if n == ContainerName(host.slug, s) {
        assert s in done + [s];
      } else {
        var t :| t in done && n == ContainerName(host.slug, t);
        assert t in done + [s];
      }
    }
  }

  lemma {:induction false} EverythingDeployed(cs: Containers, host: Host, meta: Meta, spec: Spec, sourceDir: string,
                                              order: seq<string>)
    requires PartlyDeployed(cs, host, meta, spec, sourceDir, order)
    requires NoRepeats(order) && Elements(order) == spec.services.Keys
    ensures DeployedAs(cs, host, meta, spec, sourceDir) && AllRunning(cs)
  {
    hide ContainerName, CreatedFor;
    CountElements(order);
    assert |spec.services| == |spec.services.Keys|;
    forall s | s in spec.services ensures s in order {
      assert s in Elements(order);
    }
    forall n | n in cs ensures exists s | s in spec.services :: n == ContainerName(host.slug, s) {
      var s :| s in order && n == ContainerName(host.slug, s);
      assert s in Elements(order);
    }
  }

  lemma {:induction false} CountElements(order: seq<string>)
    requires NoRepeats(order)
    ensures |Elements(order)| == |order|
  {
    if order != [] {
      var last := |order| - 1;
      CountElements(order[..last]);
      ElementsGrow(order, last);
      assert order[..last + 1] == order;
      assert order[last] !in order[..last];
    }
  }

  lemma ImagesComplete(host: Host, meta: Meta, spec: Spec, images: map<string, string>)
    requires images.Keys == spec.services.Keys
    requires forall s | s in images :: s in spec.services && images[s] == PreparedImage(host, meta, spec, s)
    ensures images == PreparedImages(host, meta, spec)
  {
    hide PreparedImage;
  }

  lemma OrderCovers(order: seq<string>, spec: Spec)
    requires Elements(order) == spec.services.Keys
    ensures forall i | 0 <= i < |order| :: order[i] in spec.services
    ensures Elements(order[..0]) == {}
  {
    forall i | 0 <= i < |order| ensures order[i] in spec.services {
      assert order[i] in Elements(order);
    }
  }

  lemma ElementsGrow(order: seq<string>, i: nat)
    requires i < |order|
    ensures Elements(order[..i + 1]) == Elements(order[..i]) + {order[i]}
  {
    assert order[..i + 1] == order[..i] + [order[i]];
  }
}
