/**
  The composition graph: what an action can set off when it runs.  Edges lead from actions and
  reactions to activations, getters and pull ports, from activations to push ports, from push
  ports to the reactions bound to them and from pull ports to getters.
  */
module Graphs {
  import opened InstanceSets

  datatype Node =
    | Action(instance: nat, precondition: Access, immutablePhase: Access, out: seq<nat>)
    | Reaction(instance: nat, immutablePhase: Access, out: seq<nat>)
    | Getter(instance: nat, immutablePhase: Access, out: seq<nat>)
    | Activation(instance: nat, mutablePhase: Access, out: seq<nat>)
    | PushPort(out: seq<nat>)
    | PullPort(out: seq<nat>)

  type Graph = seq<Node>

  ghost predicate ValidGraph(g: Graph) {
    forall n, i :: 0 <= n < |g| && 0 <= i < |g[n].out| ==> g[n].out[i] < |g|
  }

  /** The accesses that a node makes itself. */
  function Own(n: Node): seq<Entry> {
    match n
    case Action(i, p, a, _) => [Entry(i, p), Entry(i, a)]
    case Reaction(i, a, _) => [Entry(i, a)]
    case Getter(i, a, _) => [Entry(i, a)]
    case Activation(i, a, _) => [Entry(i, a)]
    case PushPort(_) => []
    case PullPort(_) => []
  }

  /** Nodes whose children run at the same point, in no particular order. */
  predicate Simultaneous(n: Node) { n.Activation? || n.PushPort? || n.PullPort? }

  // ----- paths

  ghost predicate Edge(g: Graph, a: nat, b: nat) {
    a < |g| && b < |g| && b in g[a].out
  }

  ghost predicate IsPath(g: Graph, p: seq<nat>) {
    && p != []
    && (forall i :: 0 <= i < |p| ==> p[i] < |g|)
    && (forall i :: 0 <= i < |p| - 1 ==> Edge(g, p[i], p[i + 1]))
  }

  ghost predicate PathFromTo(g: Graph, p: seq<nat>, a: nat, b: nat) {
    IsPath(g, p) && p[0] == a && p[|p| - 1] == b
  }

  ghost predicate Reaches(g: Graph, a: nat, b: nat) {
    exists p :: PathFromTo(g, p, a, b)
  }

  /** Some way leads from the node back to itself. */
  ghost predicate OnCycle(g: Graph, v: nat) {
    exists p :: PathFromTo(g, p, v, v) && |p| > 1
  }

  ghost predicate CycleBelow(g: Graph, root: nat) {
    exists v :: Reaches(g, root, v) && OnCycle(g, v)
  }

  lemma ReachesSelf(g: Graph, a: nat)
    requires a < |g|
    ensures Reaches(g, a, a)
  {
    assert PathFromTo(g, [a], a, a);
  }

  lemma ReachesChild(g: Graph, a: nat, b: nat, m: nat)
    requires Edge(g, a, b) && Reaches(g, b, m)
    ensures Reaches(g, a, m)
  {
    var p :| PathFromTo(g, p, b, m);
    var q := [a] + p;
    assert forall i :: 0 < i < |q| ==> q[i] == p[i - 1];
    assert PathFromTo(g, q, a, m);
  }

  /** What a node reaches is itself and what its children reach. */
  lemma ReachesSplit(g: Graph, a: nat, m: nat)
    requires Reaches(g, a, m)
    ensures a < |g| && m < |g|
    ensures m == a || exists b :: Edge(g, a, b) && Reaches(g, b, m)
  {
    var p :| PathFromTo(g, p, a, m);
    if |p| > 1 {
      assert Edge(g, p[0], p[1]);
      assert PathFromTo(g, p[1..], p[1], m);
    }
  }

  // ----- acyclicity

  /** Every edge out of an element of `order` leads to an earlier element. */
  ghost predicate Topological(g: Graph, order: seq<nat>) {
    && (forall i :: 0 <= i < |order| ==> order[i] < |g|)
    && (forall i, b :: 0 <= i < |order| && b in g[order[i]].out ==> b in order[..i])
    && (forall i, j :: 0 <= i < j < |order| ==> order[i] != order[j])
  }

  lemma ExtendTopological(g: Graph, order: seq<nat>, n: nat)
    requires Topological(g, order) && n < |g| && n !in order
    requires forall k :: 0 <= k < |g[n].out| ==> g[n].out[k] in order
    ensures Topological(g, order + [n])
  {
    var longer := order + [n];
    forall i, b | 0 <= i < |longer| && b in g[longer[i]].out ensures b in longer[..i] {
      assert longer[..i] == order[..i];
    }
  }

  /** Along a path that starts inside a topological order, positions only go down. */
  lemma {:induction false} PathGoesDown(g: Graph, order: seq<nat>, p: seq<nat>, i: nat)
    requires Topological(g, order) && IsPath(g, p) && i < |order| && order[i] == p[0]
    ensures exists j :: 0 <= j && j + |p| - 1 <= i && order[j] == p[|p| - 1]
    decreases |p|
  {
    if |p| > 1 {
      assert Edge(g, p[0], p[1]);
      assert p[1] in order[..i];
      var k :| 0 <= k < i && order[k] == p[1];
      PathGoesDown(g, order, p[1..], k);
      assert p[1..][|p| - 2] == p[|p| - 1];
    }
  }

  /** The order bounds how deep reactions can nest: no path is longer than it. */
  lemma NestingIsBounded(g: Graph, order: seq<nat>, p: seq<nat>)
    requires Topological(g, order) && IsPath(g, p) && p[0] in order
    ensures |p| <= |order|
  {
    var i :| 0 <= i < |order| && order[i] == p[0];
    PathGoesDown(g, order, p, i);
  }

  lemma TopologicalMeansAcyclic(g: Graph, order: seq<nat>, root: nat)
    requires Topological(g, order) && root in order
    ensures !CycleBelow(g, root)
  {
    if CycleBelow(g, root) {
      var v :| Reaches(g, root, v) && OnCycle(g, v);
      var p :| PathFromTo(g, p, root, v);
      var i :| 0 <= i < |order| && order[i] == root;
      PathGoesDown(g, order, p, i);
      var j :| 0 <= j <= i && order[j] == v;
      var cycle :| PathFromTo(g, cycle, v, v) && |cycle| > 1;
      PathGoesDown(g, order, cycle, j);
    }
  }

  /** A path that returns to one of its nodes closes a cycle below its first node. */
  lemma ClosedPathIsCycle(g: Graph, path: seq<nat>, n: nat)
    requires IsPath(g, path) && Edge(g, path[|path| - 1], n) && n in path
    ensures CycleBelow(g, path[0])
  {
    var i :| 0 <= i < |path| && path[i] == n;
    assert PathFromTo(g, path[..i + 1], path[0], n);
    var cycle := path[i..] + [n];
    forall k | 0 <= k < |cycle| - 1 ensures Edge(g, cycle[k], cycle[k + 1]) {
      assert cycle[k] == path[i + k];
      if k < |cycle| - 2 {
        assert cycle[k + 1] == path[i + k + 1];
      }
    }
    assert PathFromTo(g, cycle, n, n);
    assert OnCycle(g, n);
  }

  // ----- recursion over children, without marks

  /** A recursion that visits all children of a node, and theirs, ends within this depth. */
  ghost predicate Completes(g: Graph, n: nat, depth: nat)
    requires ValidGraph(g)
    decreases depth
  {
    n < |g| && depth > 0 && forall k :: 0 <= k < |g[n].out| ==> Completes(g, g[n].out[k], depth - 1)
  }

  ghost predicate Ends(g: Graph, n: nat)
    requires ValidGraph(g)
  {
    exists depth: nat :: Completes(g, n, depth)
  }

  ghost predicate Simple(p: seq<nat>) {
    forall i, j :: 0 <= i < j < |p| ==> p[i] != p[j]
  }

  function NodesBelow(n: nat): (r: set<nat>)
    ensures |r| == n && forall k: nat :: k in r <==> k < n
  {
    if n == 0 then {} else NodesBelow(n - 1) + {n - 1}
  }

  lemma {:induction false} SimpleFits(p: seq<nat>, nodes: set<nat>)
    requires Simple(p) && forall i :: 0 <= i < |p| ==> p[i] in nodes
    ensures |p| <= |nodes|
  {
    if p != [] {
      var n := |p| - 1;
      SimpleFits(p[..n], nodes - {p[n]});
    }
  }

  /** A path that meets no node twice is no longer than the graph. */
  lemma SimpleIsShort(p: seq<nat>, n: nat)
    requires Simple(p) && forall i :: 0 <= i < |p| ==> p[i] < n
    ensures |p| <= n
  {
    SimpleFits(p, NodesBelow(n));
  }

  /** With no cycle below its first node, what comes after a simple path can be visited in the depth left. */
  lemma {:induction false} NoCycleCompletes(g: Graph, path: seq<nat>)
    requires ValidGraph(g) && IsPath(g, path) && Simple(path) && !CycleBelow(g, path[0])
    ensures |path| <= |g| && Completes(g, path[|path| - 1], |g| - |path| + 1)
    decreases |g| - |path|
  {
    SimpleIsShort(path, |g|);
    var n := path[|path| - 1];
    forall k | 0 <= k < |g[n].out|
      ensures |path| < |g| && Completes(g, g[n].out[k], |g| - |path|)
    {
      var m := g[n].out[k];
      assert Edge(g, n, m);
      if m in path {
        ClosedPathIsCycle(g, path, m);
        assert false;
      }
      var longer := path + [m];
      assert IsPath(g, longer) && Simple(longer);
      SimpleIsShort(longer, |g|);
      NoCycleCompletes(g, longer);
    }
  }

  lemma {:induction false} PathCompletes(g: Graph, p: seq<nat>, depth: nat)
    requires ValidGraph(g) && IsPath(g, p) && Completes(g, p[0], depth)
    ensures |p| <= depth && Completes(g, p[|p| - 1], depth + 1 - |p|)
    decreases |p|
  {
    if |p| > 1 {
      assert Edge(g, p[0], p[1]);
      var k :| 0 <= k < |g[p[0]].out| && g[p[0]].out[k] == p[1];
      PathCompletes(g, p[1..], depth - 1);
      assert p[1..][|p| - 2] == p[|p| - 1];
    }
  }

  lemma {:induction false} CycleNeverCompletes(g: Graph, v: nat, depth: nat)
    requires ValidGraph(g) && OnCycle(g, v)
    ensures !Completes(g, v, depth)
    decreases depth
  {
    if Completes(g, v, depth) {
      var p :| PathFromTo(g, p, v, v) && |p| > 1;
      PathCompletes(g, p, depth);
      CycleNeverCompletes(g, v, depth + 1 - |p|);
    }
  }

  /** Such a recursion ends if and only if it starts where no cycle can be reached. */
  lemma RecursionEnds(g: Graph, n: nat)
    requires ValidGraph(g) && n < |g|
    ensures Ends(g, n) <==> !CycleBelow(g, n)
    ensures Ends(g, n) ==> Completes(g, n, |g|)
  {
    if CycleBelow(g, n) {
      var v :| Reaches(g, n, v) && OnCycle(g, v);
      var p :| PathFromTo(g, p, n, v);
      forall depth: nat
        ensures !Completes(g, n, depth)
      {
        if Completes(g, n, depth) {
          PathCompletes(g, p, depth);
          CycleNeverCompletes(g, v, depth + 1 - |p|);
        }
      }
    } else {
      NoCycleCompletes(g, [n]);
    }
  }
}
