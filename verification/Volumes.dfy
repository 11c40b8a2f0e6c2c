/** internal/composer/volumes.go: the short volume syntax and the logical storage key. */
module Volumes {
  import opened Common
  import opened Strings
  import opened Paths

  datatype Kind = Volume | Bind

  /** The physical location behind a logical storage name. */
  datatype Binding = Binding(kind: Kind, ref: string)

  datatype Mount = Mount(source: string, target: string, mode: string, readOnly: bool)

  /** The parts of the host's configuration that physical names depend on. `digest` stands for the
      first twelve hex digits of SHA-256. */
  datatype Naming = Naming(appsRoot: string, digest: string -> string)

  predicate Relative(source: string) {
    HasPrefix(source, "./") || HasPrefix(source, "../")
  }

  function ManagedVolumeName(naming: Naming, appID: string, logical: string): string {
    "se-vol-" + appID + "-" + naming.digest(logical)
  }

  function CanonicalStorageKey(source: string): string {
    if Relative(source) then Clean(source) else source
  }

  predicate ReadOnlyMode(mode: string) {
    exists i | 0 <= i < |Split(mode, ',')| :: TrimSpace(Split(mode, ',')[i]) == "ro"
  }

  /** The mount a volume string denotes: source and absolute target, then an optional mode. */
  function MountOf(value: string): Option<Mount> {
    var parts := Split(value, ':');
    if 2 <= |parts| <= 3 && parts[0] != "" && HasPrefix(parts[1], "/") then
      var mode := if |parts| == 3 then parts[2] else "rw";
      Some(Mount(parts[0], parts[1], mode, ReadOnlyMode(mode)))
    else None
  }

  method ParseVolumeMount(value: string) returns (m: Option<Mount>)
    ensures m == MountOf(value)
  {
    var parts := Split(value, ':');
    if |parts| < 2 || |parts| > 3 {
      return None;
    }
    var mount := Mount(parts[0], parts[1], "rw", false);
    if mount.source == "" || !HasPrefix(mount.target, "/") {
      return None;
    }
    if |parts| == 3 {
      mount := mount.(mode := parts[2]);
    }
    var opts := Split(mount.mode, ',');
    for i := 0 to |opts|
      invariant mount == Mount(parts[0], parts[1], mount.mode, mount.readOnly)
      invariant mount.mode == if |parts| == 3 then parts[2] else "rw"
      invariant mount.readOnly <==> exists j | 0 <= j < i :: TrimSpace(opts[j]) == "ro"
    {
      if TrimSpace(opts[i]) == "ro" {
        mount := mount.(readOnly := true);
      }
    }
    return Some(mount);
  }

  /** Which sources name one storage: relative ones with the same cleaned path, and any two that are spelt alike. */
  lemma SameStorageIff(a: string, b: string)
    ensures Relative(a) && Relative(b) ==> (CanonicalStorageKey(a) == CanonicalStorageKey(b) <==> Clean(a) == Clean(b))
    ensures !Relative(a) && !Relative(b) ==> (CanonicalStorageKey(a) == CanonicalStorageKey(b) <==> a == b)
    ensures Relative(a) && !Relative(b) ==> (CanonicalStorageKey(a) == CanonicalStorageKey(b) <==> Clean(a) == b)
  {
  }

  /** A relative source and its cleaned key name the same storage, however the path is spelt. */
  lemma KeyIsCanonical(source: string)
    requires Relative(source)
    ensures Clean(CanonicalStorageKey(source)) == CanonicalStorageKey(source)
    ensures !HasPrefix(CanonicalStorageKey(source), "/")
  {
    assert !HasPrefix(source, "/") by {
      assert source[0] == '.';
    }
    CleanIdempotent(source);
    var _ := CleanRelative(source);
  }
}
