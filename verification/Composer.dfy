/** The checks that accept or reject a composition, and the instance sets of its nodes. */
module Composition {
  import opened InstanceSets
  import opened Graphs
  import opened AccessSets

  datatype Color = Unmarked | Temporary | Marked

  datatype Outcome = Accepted | Rejected

  ghost function NodesOf(state: seq<Color>, color: Color): set<nat> {
    set n: nat | n < |state| && state[n] == color
  }

  /** The nodes of the path are the temporarily marked ones. */
  ghost predicate PathMarked(state: seq<Color>, path: seq<nat>) {
    forall m: nat :: m in path <==> m < |state| && state[m] == Temporary
  }

  /** The finished nodes are the marked ones. */
  ghost predicate OrderMarked(state: seq<Color>, order: seq<nat>) {
    forall n: nat :: n in order <==> n < |state| && state[n] == Marked
  }

  lemma StartNode(state: seq<Color>, path: seq<nat>, order: seq<nat>, n: nat)
    requires n < |state| && state[n] == Unmarked && PathMarked(state, path) && OrderMarked(state, order)
    ensures PathMarked(state[n := Temporary], path + [n]) && OrderMarked(state[n := Temporary], order)
    ensures NodesOf(state[n := Temporary], Unmarked) < NodesOf(state, Unmarked)
    ensures n !in path && n !in order
  {
    assert n in NodesOf(state, Unmarked);
  }

  lemma FinishNode(state: seq<Color>, path: seq<nat>, order: seq<nat>, n: nat)
    requires n < |state| && PathMarked(state, path + [n]) && n !in path && OrderMarked(state, order)
    ensures PathMarked(state[n := Marked], path) && OrderMarked(state[n := Marked], order + [n])
    ensures NodesOf(state[n := Marked], Unmarked) == NodesOf(state, Unmarked) && n !in order
  {
    assert forall m: nat :: m in path + [n] <==> m in path || m == n;
  }

  lemma MarkMeans(state: seq<Color>, path: seq<nat>, order: seq<nat>, n: nat)
    requires n < |state| && PathMarked(state, path) && OrderMarked(state, order)
    ensures state[n] == Temporary ==> n in path
    ensures state[n] == Marked ==> n in order
  {
  }

  lemma ChildOnPath(g: Graph, path: seq<nat>, n: nat, i: nat)
    requires ValidGraph(g) && n < |g| && i < |g[n].out|
    requires path != [] ==> IsPath(g, path) && Edge(g, path[|path| - 1], n)
    ensures IsPath(g, path + [n]) && Edge(g, n, g[n].out[i]) && g[n].out[i] < |g|
  {
  }

  class Composer {
    const graph: Graph
    var state: seq<Color>
    ghost var order: seq<nat>  // the marked nodes in the order in which they were finished

    /** Marks cover the graph, and the marked nodes are finished children first. */
    ghost predicate Valid()
      reads this
    {
      && ValidGraph(graph)
      && |state| == |graph|
      && Topological(graph, order)
      && OrderMarked(state, order)
    }

    constructor (graph: Graph)
      requires ValidGraph(graph)
      ensures Valid() && this.graph == graph && order == [] && state == seq(|graph|, _ => Unmarked)
    {
      this.graph := graph;
      state := seq(|graph|, _ => Unmarked);
      order := [];
    }

    /**
      Visits node `n`.  `path` leads from the root of the search to a node with an edge to `n`;
      its nodes are the temporarily marked ones.
      */
    method Tarjan(n: nat, ghost path: seq<nat>) returns (outcome: Outcome)
      requires Valid() && n < |graph|
      requires path != [] ==> IsPath(graph, path) && Edge(graph, path[|path| - 1], n)
      requires PathMarked(state, path)
      modifies this
      ensures outcome == Accepted ==>
                && Valid()
                && n in order
                && old(order) <= order
                && PathMarked(state, path)
                && NodesOf(state, Unmarked) <= old(NodesOf(state, Unmarked))
      ensures outcome == Rejected ==> CycleBelow(graph, if path == [] then n else path[0])
      decreases NodesOf(state, Unmarked)
    {
      hide NodesOf, PathMarked, OrderMarked, Topological, IsPath, Edge, CycleBelow, ValidGraph;
      match state[n]
      case Unmarked =>
        StartNode(state, path, order, n);
        state := state[n := Temporary];
        ghost var longer := path + [n];
        var i := 0;
        while i < |graph[n].out|
          invariant Valid() && i <= |graph[n].out|
          invariant old(order) <= order && PathMarked(state, longer)
          invariant forall k :: 0 <= k < i ==> graph[n].out[k] in order
          invariant NodesOf(state, Unmarked) < old(NodesOf(state, Unmarked))
        {
          ChildOnPath(graph, path, n, i);
          outcome := Tarjan(graph[n].out[i], longer);
          if outcome == Rejected {
            return;
          }
          i := i + 1;
        }
        FinishNode(state, path, order, n);
        ExtendTopological(graph, order, n);
        state := state[n := Marked];
        order := order + [n];
        outcome := Accepted;
      case Temporary =>
        MarkMeans(state, path, order, n);
        ClosedPathIsCycle(graph, path, n);
        outcome := Rejected;
      case Marked =>
        MarkMeans(state, path, order, n);
        outcome := Accepted;
    }

    /** Searches from every action in turn. */
    method CheckAcyclic(actions: seq<nat>) returns (outcome: Outcome)
      requires Valid() && forall m: nat :: m < |state| ==> state[m] != Temporary
      requires forall i :: 0 <= i < |actions| ==> actions[i] < |graph|
      modifies this
      ensures outcome == Accepted <==> forall a :: a in actions ==> !CycleBelow(graph, a)
      ensures outcome == Accepted ==> Valid() && forall a :: a in actions ==> a in order
    {
      for i := 0 to |actions|
        invariant Valid() && forall m: nat :: m < |state| ==> state[m] != Temporary
        invariant forall k :: 0 <= k < i ==> actions[k] in order
      {
        outcome := Tarjan(actions[i], []);
        if outcome == Rejected {
          assert actions[i] in actions;
          return;
        }
      }
      forall a | a in actions ensures !CycleBelow(graph, a) {
        TopologicalMeansAcyclic(graph, order, a);
      }
      outcome := Accepted;
    }
  }

  /** Asks every action for its instance set. */
  method ComputeInstanceSets(graph: Graph, ghost order: seq<nat>, actions: seq<nat>) returns (ok: bool,
      sets: seq<seq<Entry>>)
    requires ValidGraph(graph) && Topological(graph, order)
    requires forall a :: a in actions ==> a in order && a < |graph|
    ensures ok <==> forall a :: a in actions ==> Deterministic(graph, a)
    ensures ok ==> |sets| == |actions| && forall i :: 0 <= i < |actions| ==> Summary(sets[i], Below(graph, actions[i]))
  {
    hide Deterministic, Summary, Below;
    var computation := new SetComputation(graph, order);
    sets := [];
    for i := 0 to |actions|
      invariant computation.Valid() && computation.graph == graph && computation.order == order && fresh(computation)
      invariant |sets| == i && forall k :: 0 <= k < i ==> Right(graph, actions[k], sets[k])
    {
      assert actions[i] in actions;
      var good, s := computation.InstanceSet(actions[i]);
      if !good {
        return false, sets;
      }
      sets := sets + [s];
    }
    forall a | a in actions ensures Deterministic(graph, a) {
      var k :| 0 <= k < |actions| && actions[k] == a;
      assert Right(graph, actions[k], sets[k]);
    }
    ok := true;
  }

  /**
    The whole analysis: a composition is accepted exactly when no action can set itself off and
    nothing below an action is non-deterministic, and then every action gets its instance set.
    */
  method Analyze(graph: Graph, actions: seq<nat>) returns (outcome: Outcome, sets: seq<seq<Entry>>)
    requires ValidGraph(graph) && forall i :: 0 <= i < |actions| ==> actions[i] < |graph|
    ensures outcome == Accepted <==> forall a :: a in actions ==> !CycleBelow(graph, a) && Deterministic(graph, a)
    ensures outcome == Accepted ==>
      |sets| == |actions| && forall i :: 0 <= i < |actions| ==> Summary(sets[i], Below(graph, actions[i]))
  {
    var composer := new Composer(graph);
    outcome := composer.CheckAcyclic(actions);
    sets := [];
    if outcome == Accepted {
      var ok;
      ok, sets := ComputeInstanceSets(graph, composer.order, actions);
      outcome := if ok then Accepted else Rejected;
    }
  }
}
