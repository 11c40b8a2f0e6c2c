/** internal/web/reconcile.go: which apps may be routed after a restart. */
module Reconcile {
  import opened Common
  import opened Compose
  import opened Operations

  /** The columns of an app row that reconciliation reads, besides its status. */
  datatype App = App(id: string, name: string, slug: string, compose: string)

  /** What the runtime answers about an app: whether the call worked, how many containers there are, and whether
      they all stand still. */
  datatype Containers = Unknown | Seen(count: nat, stopped: bool)

  function RouteName(a: App): string {
    if a.slug != "" then a.slug else a.name
  }

  class Server {
    const store: OperationStore
    const apps: seq<App>
    const parse: string -> Option<ParsedSpec>
    /** Whether call n works, what the runtime shows then, and whether a route sync then writes a file. */
    const works: nat -> bool
    const runtime: nat -> Containers
    const writes: nat -> bool

    var calls: nat
    /** The names of the route files that exist. */
    var published: set<string>
    /** The apps whose containers were started. */
    var started: seq<string>

    constructor (store: OperationStore, apps: seq<App>, parse: string -> Option<ParsedSpec>, works: nat -> bool,
                 runtime: nat -> Containers, writes: nat -> bool, published: set<string>)
      ensures this.store == store && this.apps == apps && this.parse == parse && this.published == published
      ensures started == []
    {
      this.store, this.apps, this.parse, this.works := store, apps, parse, works;
      this.runtime, this.writes, this.calls, this.published := runtime, writes, 0, published;
      started := [];
    }

    /** The app's newest operation ended without recovery. */
    ghost predicate CutOff(a: App)
      reads store`ops
    {
      exists k: nat :: IsNewest(store.ops, a.id, k) && Unrecovered(store.ops[k].status)
    }

    predicate InError(a: App)
      reads store`apps
    {
      a.id in store.apps && store.apps[a.id].status == Failed
    }

    /** An app that must not be reachable. */
    ghost predicate MustBeDark(a: App)
      reads store`ops, store`apps
    {
      parse(a.compose).None? || (InError(a) && CutOff(a))
    }

    /** Only this app's route file is ever touched. */
    twostate predicate OthersKept(a: App)
      reads this`published
    {
      forall n | n != RouteName(a) :: n in published <==> n in old(published)
    }

    method Call() returns (ok: bool)
      modifies this`calls
      ensures ok == works(old(calls)) && calls == old(calls) + 1
    {
      ok := works(calls);
      calls := calls + 1;
    }

    /** Removal is best effort: a failure is logged and the file stays. */
    method RemoveAppRoute(a: App) returns (ok: bool)
      modifies this`calls, this`published
      ensures OthersKept(a)
      ensures ok == works(old(calls)) && calls == old(calls) + 1
      ensures published == if ok then old(published) - {RouteName(a)} else old(published)
    {
      ok := Call();
      if ok {
        published := published - {RouteName(a)};
      }
    }

    /** A sync writes the file of an app that is to be routed and removes that of one that is not. */
    method SyncAppRoute(a: App)
      modifies this`calls, this`published
      ensures OthersKept(a) && calls == old(calls) + 1
      ensures works(old(calls)) ==> (RouteName(a) in published <==> writes(old(calls)))
      ensures !works(old(calls)) ==> published == old(published)
    {
      var write := writes(calls);
      var ok := Call();
      if ok {
        published := if write then published + {RouteName(a)} else published - {RouteName(a)};
      }
    }

    /** A store error reads as "no failed operation". */
    method LastOperationFailedUnrecovered(a: App) returns (read: bool, bad: bool)
      modifies this`calls
      ensures read == works(old(calls)) && calls == old(calls) + 1
      ensures bad <==> read && CutOff(a)
    {
      read := Call();
      bad := false;
      if read {
        var newest := store.NewestOperation(a.id);
        if newest.Some? {
          bad := Unrecovered(store.ops[newest.value].status);
          forall k: nat | IsNewest(store.ops, a.id, k) ensures k == newest.value {
            NewestIsUnique(store.ops, a.id, k, newest.value);
          }
        }
      }
    }

    /** The call on which keeping a dark app dark failed, if any: the removal of its file, or before it the reading of
        its operations. */
    ghost function FailedCall(a: App, first: nat): Option<nat> {
      if !works(first) then Some(first)
      else if parse(a.compose).None? || works(first + 1) then None
      else Some(first + 1)
    }

    /** The call that looks at the containers of an app that may be routed; before it, the operations of an app in
        error are read. */
    function LookedAt(a: App, first: nat): nat
      reads store`apps
    {
      if InError(a) then first + 1 else first
    }

    /** The row says running and the runtime says stopped. */
    predicate StoppedOutside(a: App, look: nat)
      reads store`apps
    {
      a.id in store.apps && store.apps[a.id].status == Running && runtime(look).Seen? && runtime(look).stopped
    }

    /** The call that syncs the route, once containers were seen at `look`: an app stopped from outside is started
        before it, and its status is written when that worked. */
    function SyncedAt(a: App, look: nat): nat
      reads store`apps
    {
      if !StoppedOutside(a, look) then look + 1 else if works(look + 1) then look + 3 else look + 2
    }

    /** What reconciling an app that need not be dark does to its route, `was` and `routed` being whether there is one
        before and after: without an answer from the runtime nothing; without containers the route goes; with containers
        a sync decides. A call that fails changes nothing. */
    ghost predicate Healed(a: App, first: nat, was: bool, routed: bool)
      reads store`apps
    {
      HealedBy(a, LookedAt(a, first), was, routed)
    }

    ghost predicate HealedBy(a: App, look: nat, was: bool, routed: bool)
      reads store`apps
    {
      && (!works(look) || runtime(look).Unknown? ==> routed == was)
      && (works(look) && runtime(look).Seen? && runtime(look).count == 0 ==> routed == (was && !works(look + 1)))
      && (works(look) && runtime(look).Seen? && runtime(look).count > 0 ==>
            routed == if works(SyncedAt(a, look)) then writes(SyncedAt(a, look)) else was)
    }

    /** The first call after the app's turn. */
    function EndsAt(a: App, first: nat): nat
      reads store`apps
    {
      EndsAfter(a, LookedAt(a, first))
    }

    function EndsAfter(a: App, look: nat): nat
      reads store`apps
    {
      if !works(look) || runtime(look).Unknown? then look + 1
      else if runtime(look).count == 0 then look + 2
      else SyncedAt(a, look) + 1
    }

    /** An app is started exactly when it was stopped from outside, and the call works. */
    ghost predicate StartedFor(a: App, first: nat)
      reads store`apps
    {
      StartedAfter(a, LookedAt(a, first))
    }

    ghost predicate StartedAfter(a: App, look: nat)
      reads store`apps
    {
      works(look) && StoppedOutside(a, look) && runtime(look).count > 0 && works(look + 1)
    }

    lemma ErrorIsNotStarted(a: App)
      ensures InError(a) ==> forall look: nat :: !StartedAfter(a, look)
    {
    }

    /** An app that must be dark loses its route, unless one of the calls that takes fails; any other gets the route
        that the runtime and the sync give it, and is started first if it was stopped from outside. */
    method ReconcileApp(a: App) returns (failed: Option<nat>)
      modifies this`calls, this`published, this`started, store`apps
      ensures OthersKept(a) && old(calls) <= calls
      ensures failed.Some? ==> old(calls) <= failed.value < calls && !works(failed.value)
      ensures old(MustBeDark(a)) ==> failed == FailedCall(a, old(calls))
      ensures old(MustBeDark(a)) && failed.None? ==> RouteName(a) !in published
      ensures old(MustBeDark(a)) ==> started == old(started)
      ensures !old(MustBeDark(a)) ==>
        Healed(a, old(calls), old(RouteName(a) in published), RouteName(a) in published)
      ensures !old(MustBeDark(a)) ==> calls == EndsAt(a, old(calls))
      ensures !old(MustBeDark(a)) ==>
        started == old(started) + if StartedFor(a, old(calls)) then [a.id] else []
      ensures store.apps == old(store.apps)
    {
      hide CutOff, Unrecovered, HealedBy, EndsAfter, StartedAfter;
      failed := None;
      ErrorIsNotStarted(a);
      var first := calls;
      if parse(a.compose).None? {
        var removed := RemoveAppRoute(a);
        return if removed then None else Some(first);
      }
      if InError(a) {
        var read, bad := LastOperationFailedUnrecovered(a);
        if bad {
          var removed := RemoveAppRoute(a);
          return if removed then None else Some(first + 1);
        }
        if !read {
          failed := Some(first);
        }
      }
      HealRoute(a);
    }

    /** The app may be routed, and what the runtime shows decides. */
    method HealRoute(a: App)
      modifies this`calls, this`published, this`started, store`apps
      ensures OthersKept(a) && old(calls) < calls == EndsAfter(a, old(calls)) && store.apps == old(store.apps)
      ensures HealedBy(a, old(calls), old(RouteName(a) in published), RouteName(a) in published)
      ensures started == old(started) + if StartedAfter(a, old(calls)) then [a.id] else []
    {
      var view := runtime(calls);
      var ok := Call();
      if !ok || view.Unknown? {
        return;
      }
      if view.count == 0 {
        var _ := RemoveAppRoute(a);
        return;
      }
      if view.stopped && a.id in store.apps && store.apps[a.id].status == Running {
        ok := Call();
        if ok {
          started := started + [a.id];
          ok := Call();
          if ok {
            store.apps := store.apps[a.id := store.apps[a.id].(status := Running)];
          }
        }
      }
      SyncAppRoute(a);
    }

    ghost predicate OwnName(i: nat)
      requires i < |apps|
    {
      forall j | 0 <= j < |apps| && j != i :: RouteName(apps[j]) != RouteName(apps[i]) && apps[j].id != apps[i].id
    }

    /** Each troubled route has a failing call of its own. */
    ghost predicate Blamed(trouble: map<string, nat>, since: nat)
      reads this`calls
    {
      && (forall r | r in trouble :: since <= trouble[r] < calls && !works(trouble[r]))
      && (forall r, q | r in trouble && q in trouble && r != q :: trouble[r] != trouble[q])
    }

    /** The turn of app i began at call `visits[i]` and left its route as it should. */
    ghost predicate Visited(i: nat, visits: seq<nat>, before: set<string>)
      requires i < |apps| && i < |visits|
      reads store`apps, this`published, this`calls
    {
      && EndsAt(apps[i], visits[i]) <= calls
      && Healed(apps[i], visits[i], RouteName(apps[i]) in before, RouteName(apps[i]) in published)
    }

    /** With every call working, an app is routed exactly when containers were seen and its sync writes a file; without
        an answer from the runtime its route is as it was. */
    lemma RoutedIffSeen(i: nat, visits: seq<nat>, before: set<string>, since: nat)
      requires i < |apps| && i < |visits| && since <= visits[i] && Visited(i, visits, before)
      requires forall n: nat | since <= n < calls :: works(n)
      ensures var look := LookedAt(apps[i], visits[i]);
        RouteName(apps[i]) in published <==>
          if runtime(look).Unknown? then RouteName(apps[i]) in before
          else runtime(look).count > 0 && writes(SyncedAt(apps[i], look))
    {
    }

    /** Every app in turn; `trouble` maps a route to the call that failed for it, and `visits` tells at which call each
        app's turn began. */
    method ReconcileRoutes() returns (trouble: map<string, nat>, ghost visits: seq<nat>)
      modifies this`calls, this`published, this`started, store`apps
      ensures old(calls) <= calls && Blamed(trouble, old(calls))
      ensures |visits| == |apps| && forall i | 0 <= i < |visits| :: old(calls) <= visits[i]
      ensures forall i: nat | i < |apps| && OwnName(i) && old(MustBeDark(apps[i])) && RouteName(apps[i]) !in trouble ::
        RouteName(apps[i]) !in published
      ensures forall i: nat | i < |apps| && OwnName(i) && !old(MustBeDark(apps[i])) ::
        Visited(i, visits, old(published))
      ensures store.apps == old(store.apps)
    {
      hide Healed, CutOff, EndsAt;
      trouble, visits := map[], [];
      for n := 0 to |apps|
        invariant old(calls) <= calls && Blamed(trouble, old(calls)) && store.apps == old(store.apps)
        invariant |visits| == n && forall i | 0 <= i < n :: old(calls) <= visits[i]
        invariant forall i: nat | n <= i < |apps| && OwnName(i) ::
          RouteName(apps[i]) in published <==> RouteName(apps[i]) in old(published)
        invariant forall i: nat | i < n && OwnName(i) && old(MustBeDark(apps[i])) && RouteName(apps[i]) !in trouble ::
          RouteName(apps[i]) !in published
        invariant forall i: nat | i < n && OwnName(i) && !old(MustBeDark(apps[i])) ::
          Visited(i, visits, old(published))
      {
        visits := visits + [calls];
        var failed := ReconcileApp(apps[n]);
        if failed.Some? {
          trouble := trouble[RouteName(apps[n]) := failed.value];
        }
      }
    }

    /** No operation of the app is active. */
    predicate Idle(a: App)
      reads store`ops
    {
      !HasActive(store.ops, a.id)
    }

    /** A service start after a crash at any reachable state of the store: first the active operations are
        interrupted, then every app is reconciled. An app whose operation was cut off ends without a route, as
        long as the clock held and its names are its own, unless a call of its own failed; if every call works, every
        such app is dark. An idle app that need not be dark gets the route it should have. */
    method Startup(now: int) returns (trouble: map<string, nat>, ghost visits: seq<nat>)
      requires Inv(store.Value())
      requires forall i | 0 <= i < |apps| :: apps[i].id in store.apps
      modifies this`calls, this`published, this`started, store`ops, store`apps
      ensures old(calls) <= calls && Blamed(trouble, old(calls))
      ensures (forall n: nat | old(calls) <= n < calls :: works(n)) ==> trouble == map[]
      ensures forall i: nat, k: nat | i < |apps| && k < |old(store.ops)| && old(store.ops)[k].appID == apps[i].id
                && Active(old(store.ops)[k].status) && ClockHeld(old(store.ops), k)
                && OwnName(i) && RouteName(apps[i]) !in trouble ::
        RouteName(apps[i]) !in published
      ensures |visits| == |apps| && forall i | 0 <= i < |visits| :: old(calls) <= visits[i]
      ensures store.apps.Keys == old(store.apps.Keys)
      ensures forall i: nat | i < |apps| && OwnName(i) && old(Idle(apps[i]) && !MustBeDark(apps[i])) ::
        store.apps[apps[i].id] == old(store.apps[apps[i].id]) && Visited(i, visits, old(published))
      ensures (forall n: nat | old(calls) <= n < calls :: works(n)) ==>
        forall i: nat | i < |apps| && OwnName(i) && old(Idle(apps[i]) && !MustBeDark(apps[i])) ::
          var look := LookedAt(apps[i], visits[i]);
          RouteName(apps[i]) in published <==>
            if runtime(look).Unknown? then RouteName(apps[i]) in old(published)
            else runtime(look).count > 0 && writes(SyncedAt(apps[i], look))
    {
      hide Healed, EndsAt, LookedAt, SyncedAt;
      ghost var before := store.Value();
      label Crashed:
      store.InterruptActiveOperations(now);
      forall i: nat, k: nat | i < |apps| && k < |before.ops| && before.ops[k].appID == apps[i].id
                && Active(before.ops[k].status) && ClockHeld(before.ops, k)
        ensures MustBeDark(apps[i])
      {
        CrashIsVisible(before, k, now);
        assert IsNewest(store.ops, apps[i].id, k);
      }
      forall i: nat | i < |apps| && !HasActive(before.ops, apps[i].id) && !old@Crashed(MustBeDark(apps[i]))
        ensures !MustBeDark(apps[i])
      {
        forall k: nat | IsNewest(store.ops, apps[i].id, k) ensures IsNewest(before.ops, apps[i].id, k) {
          forall m: nat | m < |before.ops| && before.ops[m].appID == apps[i].id ensures NotNewer(before.ops, m, k) {
            assert NotNewer(store.ops, m, k);
          }
        }
      }
      ghost var since, was := calls, published;
      trouble, visits := ReconcileRoutes();
      if forall n: nat | since <= n < calls :: works(n) {
        forall i: nat | i < |apps| && Visited(i, visits, was)
          ensures var look := LookedAt(apps[i], visits[i]);
            RouteName(apps[i]) in published <==>
              if runtime(look).Unknown? then RouteName(apps[i]) in was
              else runtime(look).count > 0 && writes(SyncedAt(apps[i], look))
        {
          RoutedIffSeen(i, visits, was, since);
        }
      }
    }
  }
}
