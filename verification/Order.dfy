/** TopologicalOrder (internal/composer/parser.go): a depth-first search over a dependency graph that
    may have cycles. */
module Order {
  import opened Compose

  ghost predicate Edge(services: map<string, Service>, a: string, b: string) {
    a in services && b in services && b in services[a].dependsOn
  }

  ghost predicate Path(services: map<string, Service>, p: seq<string>) {
    && |p| >= 2
    && forall i | 0 <= i < |p| - 1 :: Edge(services, p[i], p[i + 1])
  }

  /** `a` depends on `b`, directly or through other services. */
  ghost predicate Reaches(services: map<string, Service>, a: string, b: string) {
    exists p :: Path(services, p) && p[0] == a && p[|p| - 1] == b
  }

  ghost predicate Acyclic(services: map<string, Service>) {
    forall a | a in services :: !Reaches(services, a, a)
  }

  ghost predicate NoRepeats(order: seq<string>) {
    forall i, j | 0 <= i < j < |order| :: order[i] != order[j]
  }

  ghost function Elements(order: seq<string>): set<string> {
    set x | x in order
  }

  /** Every dependency of order[i] comes before it, or depends back on it. */
  ghost predicate EdgesHonoured(services: map<string, Service>, order: seq<string>) {
    forall i, d | 0 <= i < |order| && Edge(services, order[i], d) ::
      d in order[..i] || Reaches(services, d, order[i])
  }

  /** Every dependency comes strictly before its dependent. */
  ghost predicate DependenciesFirst(services: map<string, Service>, order: seq<string>) {
    forall i, k | 0 <= i < |order| && 0 <= k < |order| && Edge(services, order[i], order[k]) :: k < i
  }

  lemma EdgeReaches(services: map<string, Service>, a: string, b: string)
    requires Edge(services, a, b)
    ensures Reaches(services, a, b)
  {
    assert Path(services, [a, b]);
  }

  lemma ReachesThenEdge(services: map<string, Service>, a: string, b: string, c: string)
    requires Reaches(services, a, b) && Edge(services, b, c)
    ensures Reaches(services, a, c)
  {
    var p :| Path(services, p) && p[0] == a && p[|p| - 1] == b;
    assert Path(services, p + [c]);
  }

  class DependencySort {
    const services: map<string, Service>
    var visited: set<string>
    var temp: set<string>
    var order: seq<string>

    constructor (spec: Spec)
      ensures services == spec.services
      ensures visited == {} && temp == {} && order == []
    {
      services := spec.services;
      visited, temp, order := {}, {}, [];
    }

    ghost predicate Valid()
      reads this
    {
      && visited <= services.Keys && temp <= services.Keys && visited !! temp
      && Elements(order) == visited && NoRepeats(order)
      && EdgesHonoured(services, order)
    }

    /** `temp` is the chain of services being visited, so each of them depends on `name`. What remains
        to visit shrinks at every call, cycles or not. */
    method Visit(name: string)
      requires Valid() && name in services
      requires forall t | t in temp :: Reaches(services, t, name)
      modifies this
      ensures Valid() && temp == old(temp)
      ensures old(visited) <= visited && old(order) <= order
      ensures name in visited || name in temp
      decreases services.Keys - visited - temp
    {
      if name in visited || name in temp {
        return;
      }
      temp := temp + {name};
      var deps := services[name].dependsOn;
      for i := 0 to |deps|
        invariant Valid() && temp == old(temp) + {name}
        invariant old(visited) <= visited && old(order) <= order
        invariant forall j | 0 <= j < i && deps[j] in services :: deps[j] in visited || deps[j] in temp
      {
        var dep := deps[i];
        if dep in services {
          assert Edge(services, name, dep);
          forall t | t in temp ensures Reaches(services, t, dep) {
            if t == name {
              EdgeReaches(services, name, dep);
            } else {
              ReachesThenEdge(services, t, name, dep);
            }
          }
          Visit(dep);
        }
      }
      forall d | Edge(services, name, d)
        ensures d in order || Reaches(services, d, name)
      {
        assert d in visited || d in temp;
        if d in visited {
          assert d in Elements(order);
        } else if d == name {
          EdgeReaches(services, name, name);
        }
      }
      AppendHonoured(services, order, name);
      assert name !in order by {
        assert name !in Elements(order);
      }
      assert Elements(order + [name]) == Elements(order) + {name};
      temp := temp - {name};
      visited := visited + {name};
      order := order + [name];
    }
  }

  lemma AppendHonoured(services: map<string, Service>, order: seq<string>, name: string)
    requires EdgesHonoured(services, order)
    requires forall d | Edge(services, name, d) :: d in order || Reaches(services, d, name)
    ensures EdgesHonoured(services, order + [name])
  {
    var longer := order + [name];
    forall i, d | 0 <= i < |longer| && Edge(services, longer[i], d)
      ensures d in longer[..i] || Reaches(services, d, longer[i])
    {
      assert longer[..i] == order[..i];
      if i == |order| {
        assert order[..i] == order;
      }
    }
  }

  /** Terminates on every graph; lists every service exactly once; a dependency placed at or after its
      dependent can reach that dependent, so the edge lies on a cycle. */
  method TopologicalOrder(spec: Spec) returns (order: seq<string>)
    ensures NoRepeats(order) && Elements(order) == spec.services.Keys
    ensures forall i, k | 0 <= i <= k < |order| && Edge(spec.services, order[i], order[k]) ::
      Reaches(spec.services, order[k], order[i])
    ensures DependenciesFirst(spec.services, order) <==> Acyclic(spec.services)
  {
    var sort := new DependencySort(spec);
    var rest := spec.services.Keys;
    while rest != {}
      invariant fresh(sort) && sort.services == spec.services
      invariant sort.Valid() && sort.temp == {}
      invariant rest <= spec.services.Keys && spec.services.Keys - rest <= sort.visited
    {
      var name :| name in rest;
      sort.Visit(name);
      rest := rest - {name};
    }
    order := sort.order;
    LateEdgesReachBack(spec.services, order);
    OrderedIffAcyclic(spec.services, order);
  }

  lemma LateEdgesReachBack(services: map<string, Service>, order: seq<string>)
    requires NoRepeats(order) && EdgesHonoured(services, order)
    ensures forall i, k | 0 <= i <= k < |order| && Edge(services, order[i], order[k]) ::
      Reaches(services, order[k], order[i])
  {
    forall i, k | 0 <= i <= k < |order| && Edge(services, order[i], order[k])
      ensures Reaches(services, order[k], order[i])
    {
      assert order[k] !in order[..i];
    }
  }

  /** Along a path the position in an honoured order only falls. */
  lemma {:induction false} PathFalls(services: map<string, Service>, order: seq<string>, p: seq<string>)
    returns (first: nat, last: nat)
    requires Path(services, p) && Elements(order) == services.Keys && DependenciesFirst(services, order)
    ensures first < |order| && last < |order| && order[first] == p[0] && order[last] == p[|p| - 1]
    ensures last < first
    decreases |p|
  {
    assert Edge(services, p[0], p[1]);
    assert p[0] in Elements(order) && p[1] in Elements(order);
    first :| 0 <= first < |order| && order[first] == p[0];
    if |p| == 2 {
      last :| 0 <= last < |order| && order[last] == p[1];
    } else {
      assert Path(services, p[1..]) by {
        forall i | 0 <= i < |p[1..]| - 1 ensures Edge(services, p[1..][i], p[1..][i + 1]) {
          assert Edge(services, p[i + 1], p[i + 2]);
        }
      }
      var next;
      next, last := PathFalls(services, order, p[1..]);
      assert Edge(services, order[first], order[next]);
    }
  }

  /** The order puts dependencies first exactly when the graph has no cycle. */
  lemma OrderedIffAcyclic(services: map<string, Service>, order: seq<string>)
    requires NoRepeats(order) && Elements(order) == services.Keys && EdgesHonoured(services, order)
    ensures DependenciesFirst(services, order) <==> Acyclic(services)
  {
    if DependenciesFirst(services, order) {
      forall a | a in services ensures !Reaches(services, a, a) {
        if Reaches(services, a, a) {
          var p :| Path(services, p) && p[0] == a && p[|p| - 1] == a;
          var first, last := PathFalls(services, order, p);
          assert false;
        }
      }
    }
    if Acyclic(services) {
      forall i, k | 0 <= i < |order| && 0 <= k < |order| && Edge(services, order[i], order[k])
        ensures k < i
      {
        if i <= k {
          LateEdgesReachBack(services, order);
          ReachesThenEdge(services, order[k], order[i], order[k]);
        }
      }
    }
  }
}
