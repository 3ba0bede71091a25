/**
 The steps of a chain and the dependency graph they span. Nodes are positions
 in the step list; an edge leads from a step to each step it depends on.
 */
module ChainGraph {

  datatype Step = Step(
    name: string,
    templateRef: string,
    dependsOn: seq<string>,
    contextFrom: string,
    branchFrom: string)

  ghost predicate UniqueNames(chain: seq<Step>) {
    forall i, j :: 0 <= i < j < |chain| ==> chain[i].name != chain[j].name
  }

  /** Some step of the chain carries this name. */
  predicate Defined(chain: seq<Step>, name: string) {
    exists i :: 0 <= i < |chain| && chain[i].name == name
  }

  /** Every name a step refers to is a step; the empty string means "no reference". */
  predicate RefsOk(chain: seq<Step>, s: Step) {
    && (forall d :: d in s.dependsOn ==> Defined(chain, d))
    && (s.contextFrom != "" ==> Defined(chain, s.contextFrom))
    && (s.branchFrom != "" ==> Defined(chain, s.branchFrom))
  }

  predicate RefsDefined(chain: seq<Step>) {
    forall i {:trigger RefsOk(chain, chain[i])} :: 0 <= i < |chain| ==> RefsOk(chain, chain[i])
  }

  predicate Edge(chain: seq<Step>, i: nat, j: nat) {
    i < |chain| && j < |chain| && chain[j].name in chain[i].dependsOn
  }

  ghost predicate IsPath(chain: seq<Step>, p: seq<nat>) {
    forall k, l :: 0 <= k && l == k + 1 && l < |p| ==> Edge(chain, p[k], p[l])
  }

  /** p is a dependency path with at least one edge, from i to j. */
  ghost predicate Links(chain: seq<Step>, p: seq<nat>, i: nat, j: nat) {
    |p| >= 2 && p[0] == i && p[|p| - 1] == j && IsPath(chain, p)
  }

  /** j is a transitive dependency of i. */
  ghost predicate Reaches(chain: seq<Step>, i: nat, j: nat) {
    exists p :: Links(chain, p, i, j)
  }

  /** Some non-empty dependency path that stays inside u leads from a step to itself. */
  ghost predicate CycleWithin(chain: seq<Step>, u: set<nat>) {
    exists p, i :: Links(chain, p, i, i) && (forall k :: 0 <= k < |p| ==> p[k] in u)
  }

  ghost predicate Cyclic(chain: seq<Step>) {
    exists i :: Reaches(chain, i, i)
  }

  /** A chain the validator should accept. */
  ghost predicate ValidDag(chain: seq<Step>) {
    UniqueNames(chain) && RefsDefined(chain) && !Cyclic(chain)
  }

  ghost predicate HasSuccessor(chain: seq<Step>, u: set<nat>, i: nat) {
    exists j :: j in u && Edge(chain, i, j)
  }

  /** Every node of u has a dependency in u. */
  ghost predicate NoSink(chain: seq<Step>, u: set<nat>) {
    forall i {:trigger HasSuccessor(chain, u, i)} :: i in u ==> HasSuccessor(chain, u, i)
  }

  ghost predicate Ranked(chain: seq<Step>, rank: seq<nat>) {
    |rank| == |chain| && forall i: nat, j: nat :: Edge(chain, i, j) ==> rank[j] < rank[i]
  }

  lemma EdgeReaches(chain: seq<Step>, i: nat, j: nat)
    requires Edge(chain, i, j)
    ensures Reaches(chain, i, j)
  {
    assert Links(chain, [i, j], i, j);
  }

  lemma ConsReaches(chain: seq<Step>, i: nat, k: nat, j: nat)
    requires Edge(chain, i, k) && Reaches(chain, k, j)
    ensures Reaches(chain, i, j)
  {
    var p :| Links(chain, p, k, j);
    assert Links(chain, [i] + p, i, j);
  }

  /** Every name a defined dependency list mentions belongs to an edge of the graph. */
  lemma DependencyHasEdge(chain: seq<Step>, i: nat, d: string) returns (j: nat)
    requires RefsDefined(chain) && i < |chain| && d in chain[i].dependsOn
    ensures j < |chain| && chain[j].name == d && Edge(chain, i, j)
  {
    assert RefsOk(chain, chain[i]);
    assert Defined(chain, d);
    j :| 0 <= j < |chain| && chain[j].name == d;
  }

  /** A sequence longer than the set it draws from repeats an element. */
  lemma Pigeonhole(p: seq<nat>, u: set<nat>) returns (a: nat, b: nat)
    requires |p| > |u|
    requires forall k :: 0 <= k < |p| ==> p[k] in u
    ensures a < b < |p| && p[a] == p[b]
  {
    var x := p[0];
    if b' :| 1 <= b' < |p| && p[b'] == x {
      a, b := 0, b';
    } else {
      a, b := Pigeonhole(p[1..], u - {x});
      a, b := a + 1, b + 1;
    }
  }

  /** Inside a set where every node has a successor, walks of every length exist. */
  lemma WalkOfLength(chain: seq<Step>, u: set<nat>, start: nat, n: nat) returns (p: seq<nat>)
    requires start in u
    requires NoSink(chain, u)
    ensures |p| == n + 1 && p[0] == start && IsPath(chain, p)
    ensures forall k :: 0 <= k < |p| ==> p[k] in u
    decreases n
  {
    if n == 0 {
      p := [start];
    } else {
      assert HasSuccessor(chain, u, start);
      var next :| next in u && Edge(chain, start, next);
      var tail := WalkOfLength(chain, u, next, n - 1);
      p := [start] + tail;
    }
  }

  /**
   The one fact every descent along dependencies rests on: a non-empty finite
   set of steps, each of which depends on a member of the set, holds a cycle.
   */
  lemma NoSinkMeansCycle(chain: seq<Step>, u: set<nat>)
    requires u != {}
    requires NoSink(chain, u)
    ensures CycleWithin(chain, u) && Cyclic(chain)
  {
    var start :| start in u;
    var p := WalkOfLength(chain, u, start, |u|);
    var a, b := Pigeonhole(p, u);
    var q := p[a..b + 1];
    assert Links(chain, q, p[a], p[a]);
    assert Reaches(chain, p[a], p[a]);
  }

  /** A rank that falls along every edge rules cycles out. */
  lemma RankFallsAlongPath(chain: seq<Step>, rank: seq<nat>, p: seq<nat>, k: nat)
    requires 1 <= k < |p| && IsPath(chain, p)
    requires Ranked(chain, rank)
    ensures p[0] < |chain| && p[k] < |chain| && rank[p[k]] < rank[p[0]]
  {
    assert Edge(chain, p[k - 1], p[k]);
    if k > 1 {
      RankFallsAlongPath(chain, rank, p, k - 1);
    }
  }

  lemma RankedMeansAcyclic(chain: seq<Step>, rank: seq<nat>)
    requires Ranked(chain, rank)
    ensures !Cyclic(chain)
  {
    if Cyclic(chain) {
      var i :| Reaches(chain, i, i);
      var p :| Links(chain, p, i, i);
      RankFallsAlongPath(chain, rank, p, |p| - 1);
      assert false;
    }
  }
}
