/**
 The chain validator: names, references, then Kahn's algorithm. The iteration
 order of Go maps is arbitrary, so the initial queue is filled in any order.
 */
module ChainValidation {
  import opened Basics
  import opened ChainGraph

  datatype RefKind = DependsOn | ContextFrom | BranchFrom

  datatype Verdict =
    | Accepted
    | DuplicateName(name: string)
    | UndefinedReference(step: string, kind: RefKind, ref: string)
    | ContainsCycle

  ghost predicate NoDuplicates(s: seq<string>) {
    forall i, j :: 0 <= i < j < |s| ==> s[i] != s[j]
  }

  ghost function Elements(s: seq<string>): set<string> {
    set x | x in s
  }

  ghost function NamesOf(chain: seq<Step>): set<string> {
    set i | 0 <= i < |chain| :: chain[i].name
  }

  /** Every visited step comes after all the steps it depends on. */
  ghost predicate DependenciesFirst(chain: seq<Step>, order: seq<string>) {
    forall k, i, d :: 0 <= k < |order| && 0 <= i < |chain| && chain[i].name == order[k] && d in chain[i].dependsOn
                      ==> d in order[..k]
  }

  ghost predicate TopologicalOrder(chain: seq<Step>, order: seq<string>) {
    && NoDuplicates(order)
    && Elements(order) == NamesOf(chain)
    && DependenciesFirst(chain, order)
  }

  ghost function Unvisited(chain: seq<Step>, order: seq<string>): set<nat> {
    set i: nat | i < |chain| && chain[i].name !in order
  }

  /** Number of entries of a dependency list, repetitions included, not yet done. */
  ghost function OpenDeps(deps: seq<string>, done: set<string>): nat {
    if deps == [] then 0
    else (if deps[0] in done then 0 else 1) + OpenDeps(deps[1..], done)
  }

  lemma {:induction false} OpenDepsAfterVisit(deps: seq<string>, done: set<string>, node: string)
    requires node !in done
    ensures OpenDeps(deps, done) == OpenDeps(deps, done + {node}) + multiset(deps)[node]
  {
    if deps != [] {
      OpenDepsAfterVisit(deps[1..], done, node);
      assert deps == [deps[0]] + deps[1..];
    }
  }

  lemma {:induction false} OpenDepsZero(deps: seq<string>, done: set<string>)
    ensures OpenDeps(deps, done) == 0 <==> forall d :: d in deps ==> d in done
  {
    if deps != [] {
      OpenDepsZero(deps[1..], done);
      assert deps == [deps[0]] + deps[1..];
    }
  }

  lemma {:induction false} OpenDepsAtStart(deps: seq<string>)
    ensures OpenDeps(deps, {}) == |deps|
  {
    if deps != [] {
      OpenDepsAtStart(deps[1..]);
    }
  }

  lemma {:induction false} NoDuplicatesSize(s: seq<string>)
    requires NoDuplicates(s)
    ensures |Elements(s)| == |s|
  {
    if s != [] {
      var t := s[..|s| - 1];
      NoDuplicatesSize(t);
      assert Elements(s) == Elements(t) + {s[|s| - 1]};
    }
  }

  lemma NoDuplicatesAppend(s: seq<string>, t: seq<string>)
    requires NoDuplicates(s) && NoDuplicates(t) && forall x :: x in t ==> x !in s
    ensures NoDuplicates(s + t)
  {
    forall i, j | 0 <= i < j < |s + t| ensures (s + t)[i] != (s + t)[j] {
      if i < |s| <= j {
        assert t[j - |s|] in t && s[i] in s;
      }
    }
  }

  lemma HeadNotVisited(order: seq<string>, queue: seq<string>)
    requires queue != [] && NoDuplicates(order + queue)
    ensures queue[0] !in order
  {
    assert (order + queue)[|order|] == queue[0];
    forall k | 0 <= k < |order| ensures order[k] != queue[0] {
      assert (order + queue)[k] == order[k];
    }
  }

  lemma {:induction false} NamesAppend(chain: seq<Step>)
    requires chain != [] && UniqueNames(chain)
    ensures var t, last := chain[..|chain| - 1], chain[|chain| - 1].name;
            NamesOf(chain) == NamesOf(t) + {last} && last !in NamesOf(t)
  {
    var t, n := chain[..|chain| - 1], |chain| - 1;
    forall x | x in NamesOf(chain) ensures x in NamesOf(t) + {chain[n].name} {
      var i :| 0 <= i < |chain| && chain[i].name == x;
      assert i < n ==> t[i] == chain[i];
    }
    forall x | x in NamesOf(t) ensures x in NamesOf(chain) && x != chain[n].name {
      var i :| 0 <= i < |t| && t[i].name == x;
      assert chain[i].name == x;
    }
  }

  lemma {:induction false} NamesSize(chain: seq<Step>)
    requires UniqueNames(chain)
    ensures |NamesOf(chain)| == |chain|
  {
    if chain != [] {
      NamesSize(chain[..|chain| - 1]);
      NamesAppend(chain);
    }
  }

  ghost function IndexIn(s: seq<string>, x: string): (k: nat)
    requires x in s
    ensures k < |s| && s[k] == x
  {
    var k :| 0 <= k < |s| && s[k] == x; k
  }

  /** The position of a name in the visit order serves as a rank. */
  lemma TopologicalMeansAcyclic(chain: seq<Step>, order: seq<string>)
    requires TopologicalOrder(chain, order)
    ensures !Cyclic(chain)
  {
    assert forall i :: 0 <= i < |chain| ==> chain[i].name in Elements(order);
    var rank := seq(|chain|, i requires 0 <= i < |chain| => IndexIn(order, chain[i].name));
    forall i: nat, j: nat | Edge(chain, i, j)
      ensures rank[j] < rank[i]
    {
      var k := rank[i];
      assert chain[j].name in order[..k];
      var l :| 0 <= l < k && order[l] == chain[j].name;
    }
    RankedMeansAcyclic(chain, rank);
  }

  /** What the queue and the degrees mean between two visits. */
  ghost predicate KahnState(chain: seq<Step>, inDegree: map<string, nat>, order: seq<string>, queue: seq<string>) {
    && inDegree.Keys == NamesOf(chain)
    && NoDuplicates(order + queue)
    && (forall x :: x in order + queue ==> x in NamesOf(chain))
    && (forall i :: 0 <= i < |chain| ==> inDegree[chain[i].name] == OpenDeps(chain[i].dependsOn, Elements(order)))
    && (forall x :: x in inDegree && inDegree[x] == 0 ==> x in order + queue)
    && (forall x :: x in order + queue && x in inDegree ==> inDegree[x] == 0)
    && DependenciesFirst(chain, order)
  }

  /** Fewer visits than steps leave a step unvisited. */
  lemma SomeUnvisited(chain: seq<Step>, order: seq<string>)
    requires UniqueNames(chain) && NoDuplicates(order) && |order| != |chain|
    requires forall x :: x in order ==> x in NamesOf(chain)
    ensures Unvisited(chain, order) != {}
  {
    NoDuplicatesSize(order);
    NamesSize(chain);
    SubsetSize(Elements(order), NamesOf(chain));
    if NamesOf(chain) <= Elements(order) {
      SubsetSize(NamesOf(chain), Elements(order));
    }
    assert !(NamesOf(chain) <= Elements(order));
    var x :| x in NamesOf(chain) && x !in Elements(order);
    var i :| 0 <= i < |chain| && chain[i].name == x;
    assert i in Unvisited(chain, order);
  }

  /** When the queue runs dry early, the unvisited steps wait for one another. */
  lemma StuckMeansCycle(chain: seq<Step>, inDegree: map<string, nat>, order: seq<string>)
    requires UniqueNames(chain) && RefsDefined(chain)
    requires KahnState(chain, inDegree, order, [])
    requires |order| != |chain|
    ensures CycleWithin(chain, Unvisited(chain, order)) && Cyclic(chain)
  {
    var u := Unvisited(chain, order);
    assert order + [] == order;
    SomeUnvisited(chain, order);
    forall i | i in u ensures HasSuccessor(chain, u, i) {
      OpenDepsZero(chain[i].dependsOn, Elements(order));
      var d :| d in chain[i].dependsOn && d !in Elements(order);
      var j := DependencyHasEdge(chain, i, d);
      assert j in u;
    }
    NoSinkMeansCycle(chain, u);
  }

  lemma DrainedMeansTopological(chain: seq<Step>, inDegree: map<string, nat>, order: seq<string>)
    requires UniqueNames(chain)
    requires KahnState(chain, inDegree, order, [])
    requires |order| == |chain|
    ensures TopologicalOrder(chain, order)
  {
    assert order + [] == order;
    NoDuplicatesSize(order);
    NamesSize(chain);
    SubsetSize(Elements(order), NamesOf(chain));
  }

  /** The name set, or the first name that is already in it. */
  method CollectNames(chain: seq<Step>) returns (names: set<string>, duplicate: bool, at: nat)
    ensures !duplicate <==> UniqueNames(chain)
    ensures !duplicate ==> names == NamesOf(chain)
    ensures duplicate ==> at < |chain| && UniqueNames(chain[..at]) && Defined(chain[..at], chain[at].name)
  {
    names, duplicate, at := {}, false, 0;
    while at < |chain|
      invariant at <= |chain|
      invariant UniqueNames(chain[..at])
      invariant names == NamesOf(chain[..at])
    {
      if chain[at].name in names {
        duplicate := true;
        return;
      }
      names := names + {chain[at].name};
      at := at + 1;
    }
    assert chain[..at] == chain;
  }

  lemma NamesAreDefined(chain: seq<Step>, name: string)
    ensures name in NamesOf(chain) <==> Defined(chain, name)
  {
  }

  method FirstUndefined(chain: seq<Step>, names: set<string>, deps: seq<string>) returns (found: bool, at: nat)
    requires names == NamesOf(chain)
    ensures !found <==> forall d :: d in deps ==> Defined(chain, d)
    ensures found ==> at < |deps| && !Defined(chain, deps[at]) && forall k :: 0 <= k < at ==> Defined(chain, deps[k])
  {
    found, at := false, 0;
    while at < |deps|
      invariant at <= |deps|
      invariant forall k :: 0 <= k < at ==> Defined(chain, deps[k])
    {
      NamesAreDefined(chain, deps[at]);
      if deps[at] !in names {
        assert deps[at] in deps;
        found := true;
        return;
      }
      at := at + 1;
    }
    forall d | d in deps ensures Defined(chain, d) {
      var k :| 0 <= k < |deps| && deps[k] == d;
    }
  }

  /** v names the first undefined reference of s, in the order the code looks. */
  ghost predicate FirstBadReference(chain: seq<Step>, s: Step, v: Verdict) {
    && v.UndefinedReference? && v.step == s.name && !Defined(chain, v.ref)
    && match v.kind
       case DependsOn =>
         exists k :: 0 <= k < |s.dependsOn| && s.dependsOn[k] == v.ref && forall l :: 0 <= l < k ==> Defined(chain, s.dependsOn[l])
       case ContextFrom =>
         v.ref == s.contextFrom != "" && forall d :: d in s.dependsOn ==> Defined(chain, d)
       case BranchFrom =>
         && v.ref == s.branchFrom != "" && (s.contextFrom != "" ==> Defined(chain, s.contextFrom))
         && forall d :: d in s.dependsOn ==> Defined(chain, d)
  }

  method CheckStep(chain: seq<Step>, names: set<string>, s: Step) returns (r: Verdict)
    requires names == NamesOf(chain)
    ensures r.Accepted? <==> RefsOk(chain, s)
    ensures !r.Accepted? ==> FirstBadReference(chain, s, r)
  {
    var found, k := FirstUndefined(chain, names, s.dependsOn);
    if found {
      assert s.dependsOn[k] in s.dependsOn;
      return UndefinedReference(s.name, DependsOn, s.dependsOn[k]);
    }
    NamesAreDefined(chain, s.contextFrom);
    if s.contextFrom != "" && s.contextFrom !in names {
      return UndefinedReference(s.name, ContextFrom, s.contextFrom);
    }
    NamesAreDefined(chain, s.branchFrom);
    if s.branchFrom != "" && s.branchFrom !in names {
      return UndefinedReference(s.name, BranchFrom, s.branchFrom);
    }
    return Accepted;
  }

  method CheckReferences(chain: seq<Step>, names: set<string>) returns (r: Verdict, at: nat)
    requires names == NamesOf(chain)
    ensures r.Accepted? <==> RefsDefined(chain)
    ensures !r.Accepted? ==> at < |chain| && FirstBadReference(chain, chain[at], r)
    ensures forall k :: 0 <= k < at <= |chain| ==> RefsOk(chain, chain[k])
  {
    at := 0;
    while at < |chain|
      invariant at <= |chain|
      invariant forall k {:trigger RefsOk(chain, chain[k])} :: 0 <= k < at ==> RefsOk(chain, chain[k])
    {
      r := CheckStep(chain, names, chain[at]);
      if !r.Accepted? {
        return;
      }
      at := at + 1;
    }
    return Accepted, at;
  }

  function AdjacentTo(adj: map<string, seq<string>>, x: string): seq<string> {
    if x in adj then adj[x] else []
  }

  /** How often x is listed as a neighbour of d. */
  ghost function EdgeCount(adj: map<string, seq<string>>, d: string, x: string): nat {
    multiset(AdjacentTo(adj, d))[x]
  }

  lemma EdgeAdded(adj: map<string, seq<string>>, dep: string, name: string)
    ensures forall d, x :: EdgeCount(adj[dep := AdjacentTo(adj, dep) + [name]], d, x)
                           == EdgeCount(adj, d, x) + if d == dep && x == name then 1 else 0
  {
  }

  /** The list of each dependency has gained the name as often as it is repeated. */
  ghost predicate EdgesAdded(adj0: map<string, seq<string>>, adj: map<string, seq<string>>, name: string, deps: seq<string>) {
    forall d, x :: EdgeCount(adj, d, x) == EdgeCount(adj0, d, x) + if x == name then multiset(deps)[d] else 0
  }

  lemma OneMore(deps: seq<string>, k: nat)
    requires k < |deps|
    ensures forall d :: multiset(deps[..k + 1])[d] == multiset(deps[..k])[d] + if d == deps[k] then 1 else 0
  {
    assert deps[..k + 1] == deps[..k] + [deps[k]];
  }

  lemma AddEdge(adj0: map<string, seq<string>>, adj: map<string, seq<string>>, name: string, deps: seq<string>, k: nat)
    requires k < |deps| && EdgesAdded(adj0, adj, name, deps[..k])
    ensures EdgesAdded(adj0, adj[deps[k] := AdjacentTo(adj, deps[k]) + [name]], name, deps[..k + 1])
  {
    EdgeAdded(adj, deps[k], name);
    OneMore(deps, k);
  }

  /** One inner loop of the degree table: the entries of step i's list up to k. */
  method AddEdges(name: string, deps: seq<string>, inDegree0: map<string, nat>, adj0: map<string, seq<string>>)
    returns (inDegree: map<string, nat>, adj: map<string, seq<string>>)
    requires name in inDegree0
    ensures inDegree == inDegree0[name := inDegree0[name] + |deps|]
    ensures EdgesAdded(adj0, adj, name, deps)
  {
    inDegree, adj := inDegree0, adj0;
    for k := 0 to |deps|
      invariant inDegree == inDegree0[name := inDegree0[name] + k]
      invariant EdgesAdded(adj0, adj, name, deps[..k])
    {
      AddEdge(adj0, adj, name, deps, k);
      adj := adj[deps[k] := AdjacentTo(adj, deps[k]) + [name]];
      inDegree := inDegree[name := inDegree[name] + 1];
    }
    assert deps[..|deps|] == deps;
  }

  /** The adjacency lists are those of the first n steps. */
  ghost predicate ListsFor(chain: seq<Step>, n: nat, adj: map<string, seq<string>>)
    requires n <= |chain|
  {
    && (forall d, i :: 0 <= i < n ==> EdgeCount(adj, d, chain[i].name) == multiset(chain[i].dependsOn)[d])
    && (forall d, x :: x in AdjacentTo(adj, d) ==> x in NamesOf(chain[..n]))
  }

  lemma ListsGrow(chain: seq<Step>, n: nat, before: map<string, seq<string>>, adj: map<string, seq<string>>)
    requires UniqueNames(chain) && n < |chain| && ListsFor(chain, n, before)
    requires EdgesAdded(before, adj, chain[n].name, chain[n].dependsOn)
    ensures ListsFor(chain, n + 1, adj)
  {
    var s := chain[n];
    assert chain[..n + 1][..n] == chain[..n];
    NamesAppend(chain[..n + 1]);
    forall d ensures EdgeCount(before, d, s.name) == 0 {
      assert s.name !in AdjacentTo(before, d);
    }
    forall d, x | x in AdjacentTo(adj, d) ensures x in NamesOf(chain[..n + 1]) {
      assert EdgeCount(adj, d, x) > 0;
      if x != s.name {
        assert x in multiset(AdjacentTo(before, d));
        assert x in AdjacentTo(before, d);
      }
    }
  }

  method BuildDegrees(chain: seq<Step>) returns (inDegree: map<string, nat>, adj: map<string, seq<string>>)
    requires UniqueNames(chain)
    ensures inDegree.Keys == NamesOf(chain)
    ensures forall i :: 0 <= i < |chain| ==> inDegree[chain[i].name] == |chain[i].dependsOn|
    ensures forall d, i :: 0 <= i < |chain| ==>
                             EdgeCount(adj, d, chain[i].name) == multiset(chain[i].dependsOn)[d]
    ensures forall d, x :: x in AdjacentTo(adj, d) ==> x in NamesOf(chain)
  {
    inDegree, adj := map[], map[];
    for n := 0 to |chain|
      invariant inDegree.Keys == NamesOf(chain[..n])
      invariant forall i :: 0 <= i < n ==> inDegree[chain[i].name] == |chain[i].dependsOn|
      invariant ListsFor(chain, n, adj)
    {
      var s := chain[n];
      assert chain[..n + 1] == chain[..n] + [s];
      assert NamesOf(chain[..n + 1]) == NamesOf(chain[..n]) + {s.name};
      assert s.name !in NamesOf(chain[..n]);
      if s.name !in inDegree {
        inDegree := inDegree[s.name := 0];
      }
      ghost var before := adj;
      inDegree, adj := AddEdges(s.name, s.dependsOn, inDegree, adj);
      ListsGrow(chain, n, before, adj);
    }
    assert chain[..|chain|] == chain;
  }

  /** The names of degree zero, in whatever order the map yields them. */
  method InitialQueue(inDegree: map<string, nat>) returns (queue: seq<string>)
    ensures NoDuplicates(queue)
    ensures forall x :: x in queue <==> x in inDegree && inDegree[x] == 0
  {
    queue := [];
    var rest := inDegree.Keys;
    while rest != {}
      invariant rest <= inDegree.Keys
      invariant NoDuplicates(queue)
      invariant forall x :: x in queue <==> x in inDegree && x !in rest && inDegree[x] == 0
    {
      var x :| x in rest;
      rest := rest - {x};
      if inDegree[x] == 0 {
        queue := queue + [x];
      }
    }
  }

  /** Count every edge out of a visited step as done; queue what became free. */
  method Relax(neighbours: seq<string>, inDegree0: map<string, nat>, queue0: seq<string>)
    returns (inDegree: map<string, nat>, queue: seq<string>, ghost freed: seq<string>)
    requires forall x :: x in neighbours ==> x in inDegree0 && multiset(neighbours)[x] <= inDegree0[x]
    ensures inDegree.Keys == inDegree0.Keys
    ensures forall x :: x in inDegree0 ==> inDegree[x] + multiset(neighbours)[x] == inDegree0[x]
    ensures queue == queue0 + freed && NoDuplicates(freed)
    ensures forall x :: x in freed <==> x in inDegree0 && inDegree0[x] > 0 && inDegree[x] == 0
  {
    inDegree, queue, freed := inDegree0, queue0, [];
    for k := 0 to |neighbours|
      invariant inDegree.Keys == inDegree0.Keys
      invariant forall x :: x in inDegree0 ==> inDegree[x] + multiset(neighbours[..k])[x] == inDegree0[x]
      invariant queue == queue0 + freed && NoDuplicates(freed)
      invariant forall x :: x in freed <==> x in inDegree0 && inDegree0[x] > 0 && inDegree[x] == 0
    {
      var x := neighbours[k];
      assert neighbours[..k + 1] == neighbours[..k] + [x];
      assert neighbours == neighbours[..k] + [x] + neighbours[k + 1..];
      assert x in neighbours;
      assert multiset(neighbours)[x] == multiset(neighbours[..k])[x] + 1 + multiset(neighbours[k + 1..])[x];
      assert x !in freed;
      inDegree := inDegree[x := inDegree[x] - 1];
      if inDegree[x] == 0 {
        queue := queue + [x];
        freed := freed + [x];
      }
    }
    assert neighbours[..|neighbours|] == neighbours;
  }

  lemma VisitKeepsOrder(chain: seq<Step>, inDegree: map<string, nat>, order: seq<string>, node: string)
    requires inDegree.Keys == NamesOf(chain) && node in inDegree && inDegree[node] == 0
    requires forall i :: 0 <= i < |chain| ==> inDegree[chain[i].name] == OpenDeps(chain[i].dependsOn, Elements(order))
    requires DependenciesFirst(chain, order)
    ensures DependenciesFirst(chain, order + [node])
  {
    var order' := order + [node];
    forall k, i, d | 0 <= k < |order'| && 0 <= i < |chain| && chain[i].name == order'[k] && d in chain[i].dependsOn
      ensures d in order'[..k]
    {
      if k < |order| {
        assert order'[..k] == order[..k];
      } else {
        OpenDepsZero(chain[i].dependsOn, Elements(order));
        assert order'[..k] == order;
      }
    }
  }

  /** Visiting the head of the queue keeps the meaning of queue and degrees. */
  lemma VisitKeepsKahnState(chain: seq<Step>, adj: map<string, seq<string>>,
                            inDegree: map<string, nat>, order: seq<string>, queue: seq<string>,
                            inDegree': map<string, nat>, freed: seq<string>)
    requires queue != [] && KahnState(chain, inDegree, order, queue)
    requires forall i :: 0 <= i < |chain| ==>
                           EdgeCount(adj, queue[0], chain[i].name) == multiset(chain[i].dependsOn)[queue[0]]
    requires inDegree'.Keys == inDegree.Keys && NoDuplicates(freed)
    requires forall x :: x in inDegree ==> inDegree'[x] + EdgeCount(adj, queue[0], x) == inDegree[x]
    requires forall x :: x in freed <==> x in inDegree && inDegree[x] > 0 && inDegree'[x] == 0
    ensures KahnState(chain, inDegree', order + [queue[0]], queue[1..] + freed)
  {
    var node := queue[0];
    var order' := order + [node];
    var queue' := queue[1..] + freed;
    assert order' + queue' == (order + queue) + freed;
    HeadNotVisited(order, queue);
    NoDuplicatesAppend(order + queue, freed);
    assert Elements(order') == Elements(order) + {node};
    forall i | 0 <= i < |chain|
      ensures inDegree'[chain[i].name] == OpenDeps(chain[i].dependsOn, Elements(order'))
    {
      assert chain[i].name in NamesOf(chain);
      OpenDepsAfterVisit(chain[i].dependsOn, Elements(order), node);
    }
    VisitKeepsOrder(chain, inDegree, order, node);
  }

  lemma StartsAsKahnState(chain: seq<Step>, inDegree: map<string, nat>, queue: seq<string>)
    requires inDegree.Keys == NamesOf(chain)
    requires forall i :: 0 <= i < |chain| ==> inDegree[chain[i].name] == |chain[i].dependsOn|
    requires NoDuplicates(queue) && forall x :: x in queue <==> x in inDegree && inDegree[x] == 0
    ensures KahnState(chain, inDegree, [], queue)
  {
    assert [] + queue == queue;
    assert Elements([]) == {};
    forall i | 0 <= i < |chain|
      ensures inDegree[chain[i].name] == OpenDeps(chain[i].dependsOn, Elements([]))
    {
      OpenDepsAtStart(chain[i].dependsOn);
    }
  }

  /** No degree is ever counted below zero. */
  lemma NeighboursFit(chain: seq<Step>, adj: map<string, seq<string>>, inDegree: map<string, nat>,
                      order: seq<string>, node: string)
    requires inDegree.Keys == NamesOf(chain) && node !in order
    requires forall i :: 0 <= i < |chain| ==> inDegree[chain[i].name] == OpenDeps(chain[i].dependsOn, Elements(order))
    requires forall d, i :: 0 <= i < |chain| ==>
                              EdgeCount(adj, d, chain[i].name) == multiset(chain[i].dependsOn)[d]
    requires forall d, x :: x in AdjacentTo(adj, d) ==> x in NamesOf(chain)
    ensures forall x :: x in AdjacentTo(adj, node) ==>
                          x in inDegree && EdgeCount(adj, node, x) <= inDegree[x]
  {
    forall x | x in AdjacentTo(adj, node)
      ensures x in inDegree && EdgeCount(adj, node, x) <= inDegree[x]
    {
      assert x in NamesOf(chain);
      var i :| 0 <= i < |chain| && chain[i].name == x;
      OpenDepsAfterVisit(chain[i].dependsOn, Elements(order), node);
    }
  }

  lemma {:induction false} NamesAtMost(chain: seq<Step>)
    ensures |NamesOf(chain)| <= |chain|
  {
    if chain != [] {
      var t := chain[..|chain| - 1];
      NamesAtMost(t);
      assert NamesOf(chain) == NamesOf(t) + {chain[|chain| - 1].name};
    }
  }

  lemma VisitsAreBounded(chain: seq<Step>, order: seq<string>, queue: seq<string>)
    requires NoDuplicates(order + queue) && forall x :: x in order + queue ==> x in NamesOf(chain)
    ensures |order| + |queue| <= |chain|
  {
    NoDuplicatesSize(order + queue);
    assert Elements(order + queue) <= NamesOf(chain);
    SubsetSize(Elements(order + queue), NamesOf(chain));
    NamesAtMost(chain);
  }

  /**
   ValidateChainDAG. Accepts exactly the valid DAGs; `order` records the visits,
   which the code only counts.
   */
  method ValidateChainDAG(chain: seq<Step>) returns (r: Verdict, ghost order: seq<string>)
    ensures r.Accepted? <==> ValidDag(chain)
    ensures r.Accepted? ==> TopologicalOrder(chain, order)
    ensures r.DuplicateName? <==> !UniqueNames(chain)
    ensures r.DuplicateName? ==> exists at :: 0 <= at < |chain| && chain[at].name == r.name
                                              && UniqueNames(chain[..at]) && Defined(chain[..at], r.name)
    ensures r.UndefinedReference? <==> UniqueNames(chain) && !RefsDefined(chain)
    ensures r.UndefinedReference? ==> exists at :: 0 <= at < |chain| && FirstBadReference(chain, chain[at], r)
                                                   && forall k :: 0 <= k < at ==> RefsOk(chain, chain[k])
    ensures r.ContainsCycle? <==> UniqueNames(chain) && RefsDefined(chain) && Cyclic(chain)
    ensures r.ContainsCycle? ==> CycleWithin(chain, Unvisited(chain, order))
  {
    order := [];
    var names, duplicate, at := CollectNames(chain);
    if duplicate {
      return DuplicateName(chain[at].name), order;
    }
    r, at := CheckReferences(chain, names);
    if !r.Accepted? {
      return;
    }
    var inDegree, adj := BuildDegrees(chain);
    var queue := InitialQueue(inDegree);
    var visited := 0;
    StartsAsKahnState(chain, inDegree, queue);
    while |queue| > 0
      invariant KahnState(chain, inDegree, order, queue)
      invariant visited == |order|
      decreases |chain| - |order|
    {
      var node := queue[0];
      assert node in order + queue;
      ghost var before, waiting := inDegree, queue;
      HeadNotVisited(order, queue);
      NeighboursFit(chain, adj, inDegree, order, node);
      ghost var freed;
      inDegree, queue, freed := Relax(AdjacentTo(adj, node), inDegree, queue[1..]);
      visited := visited + 1;
      VisitKeepsKahnState(chain, adj, before, order, waiting, inDegree, freed);
      order := order + [node];
      VisitsAreBounded(chain, order, queue);
    }
    assert queue == [];
    if visited != |chain| {
      StuckMeansCycle(chain, inDegree, order);
      return ContainsCycle, order;
    }
    DrainedMeansTopological(chain, inDegree, order);
    TopologicalMeansAcyclic(chain, order);
    return Accepted, order;
  }
}
