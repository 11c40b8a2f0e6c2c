/** internal/composer/spec.go and parser.go: the compose subset and the checks made after decoding. */
module Compose {
  import opened Strings
  import opened Volumes
  import Common

  datatype Service = Service(image: string, build: bool, env: map<string, string>,
                             volumes: seq<string>, dependsOn: seq<string>)

  datatype Spec = Spec(services: map<string, Service>, volumes: set<string>)

  function Lower(c: char): char {
    if 'A' <= c <= 'Z' then c - 'A' + 'a' else c
  }

  /** SanitizeForImage: letters and digits lower-cased, everything else a dash. */
  function Sanitize(s: string): string {
    seq(|s|, i requires 0 <= i < |s| =>
      if 'a' <= s[i] <= 'z' || 'A' <= s[i] <= 'Z' || '0' <= s[i] <= '9' then Lower(s[i]) else '-')
  }

  /** A name of lower-case letters, digits and dashes is kept, and the case of letters does not matter. */
  lemma PlainIsKept(s: string, t: string)
    requires forall c | c in s :: 'a' <= c <= 'z' || '0' <= c <= '9' || c == '-'
    requires |t| == |s| && forall i | 0 <= i < |s| ::
      t[i] == s[i] || ('A' <= t[i] <= 'Z' && t[i] as int - 'A' as int == s[i] as int - 'a' as int)
    ensures Sanitize(s) == s && Sanitize(t) == s
  {
    assert forall i | 0 <= i < |s| :: s[i] in s;
  }

  predicate ValidName(name: string) {
    && name != "" && |name| <= 63
    && '/' !in name && '\0' !in name && '\r' !in name && '\n' !in name
  }

  predicate ValidEntry(key: string, value: string) {
    && key != "" && '=' !in key && '\0' !in key && '\r' !in key && '\n' !in key
    && '\0' !in value
  }

  predicate ValidService(svc: Service) {
    && (svc.image != "" || svc.build)
    && (forall k | k in svc.env :: ValidEntry(k, svc.env[k]))
    && (forall v | v in svc.volumes :: MountOf(v).Some?)
  }

  /** No two services of one spec share a runtime name. */
  predicate DistinctRuntimeNames(names: set<string>) {
    forall a, b | a in names && b in names && Sanitize(a) == Sanitize(b) :: a == b
  }

  predicate ValidSpec(spec: Spec) {
    && |spec.services| > 0
    && (forall s | s in spec.services :: ValidName(s) && ValidService(spec.services[s]))
    && DistinctRuntimeNames(spec.services.Keys)
  }

  /** A spec that the parser let through. */
  type ParsedSpec = spec: Spec | ValidSpec(spec)
    witness Spec(map["web" := Service("nginx", false, map[], [], [])], {})

  method CheckService(svc: Service) returns (ok: bool)
    ensures ok <==> ValidService(svc)
    ensures ok ==> forall k | k in svc.env ::
      k != "" && (forall c | c in k :: c !in {'=', '\0', '\r', '\n'}) && '\0' !in svc.env[k]
  {
    if svc.image == "" && !svc.build {
      return false;
    }
    var keys := svc.env.Keys;
    while keys != {}
      invariant keys <= svc.env.Keys
      invariant forall k | k in svc.env.Keys - keys :: ValidEntry(k, svc.env[k])
    {
      var key :| key in keys;
      if !ValidEntry(key, svc.env[key]) {
        return false;
      }
      keys := keys - {key};
    }
    for i := 0 to |svc.volumes|
      invariant forall j | 0 <= j < i :: MountOf(svc.volumes[j]).Some?
    {
      var m := ParseVolumeMount(svc.volumes[i]);
      if m.None? {
        return false;
      }
    }
    return true;
  }

  /** The loop of Parse over the decoded services. Services are visited in any order; `claimed` maps
      each runtime name seen so far to the service that took it. */
  method Check(spec: Spec) returns (ok: bool)
    ensures ok <==> ValidSpec(spec)
    ensures ok ==> forall s | s in spec.services :: 1 <= |s| <= 63 && forall c | c in s :: c !in {'/', '\0', '\r', '\n'}
  {
    if |spec.services| == 0 {
      return false;
    }
    var claimed: map<string, string> := map[];
    var rest := spec.services.Keys;
    while rest != {}
      invariant rest <= spec.services.Keys
      invariant forall r | r in claimed ::
        claimed[r] in spec.services.Keys - rest && Sanitize(claimed[r]) == r
      invariant forall s | s in spec.services.Keys - rest ::
        ValidName(s) && ValidService(spec.services[s]) && Sanitize(s) in claimed && claimed[Sanitize(s)] == s
    {
      var name :| name in rest;
      if !ValidName(name) {
        return false;
      }
      var runtimeName := Sanitize(name);
      if runtimeName in claimed {
        assert claimed[runtimeName] != name;
        return false;
      }
      claimed := claimed[runtimeName := name];
      var good := CheckService(spec.services[name]);
      if !good {
        return false;
      }
      rest := rest - {name};
    }
    assert DistinctRuntimeNames(spec.services.Keys) by {
      forall a, b | a in spec.services && b in spec.services && Sanitize(a) == Sanitize(b)
        ensures a == b
      {
        assert claimed[Sanitize(a)] == a && claimed[Sanitize(b)] == b;
      }
    }
    return true;
  }

  /** ResolveEnv: service values first, app values on top. */
  method ResolveEnv(svc: map<string, string>, app: map<string, string>) returns (out: map<string, string>)
    ensures out == svc + app
  {
    out := Overlay(map[], svc);
    assert map[] + svc == svc;
    out := Overlay(out, app);
  }

  /** Copies every entry of `top` over `base`, in any order. */
  method Overlay(base: map<string, string>, top: map<string, string>) returns (out: map<string, string>)
    ensures out == base + top
  {
    out := base;
    var keys := top.Keys;
    while keys != {}
      invariant keys <= top.Keys
      invariant out == base + (map k | k in top.Keys - keys :: top[k])
    {
      var key :| key in keys;
      out := out[key := top[key]];
      keys := keys - {key};
    }
    assert (map k | k in top.Keys :: top[k]) == top;
  }
}
