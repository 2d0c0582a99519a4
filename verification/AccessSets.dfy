/** What an instance set says about the nodes that can be reached from a node. */
module AccessSets {
  import opened InstanceSets
  import opened Graphs

  /** Running node `n` can lead to access `e`, made by `n` or by a node that it reaches. */
  ghost predicate Touches(g: Graph, n: nat, e: Entry) {
    exists m: nat :: Reaches(g, n, m) && m < |g| && e in Own(g[m])
  }

  ghost predicate ChildTouches(g: Graph, n: nat, k: nat, e: Entry)
    requires n < |g| && k <= |g[n].out|
  {
    exists i: nat :: i < k && Touches(g, g[n].out[i], e)
  }

  ghost function Below(g: Graph, n: nat): iset<Entry> {
    iset e: Entry | Touches(g, n, e)
  }

  ghost function BelowChildren(g: Graph, n: nat, k: nat): iset<Entry>
    requires n < |g| && k <= |g[n].out|
  {
    iset e: Entry | ChildTouches(g, n, k, e)
  }

  ghost function Listed(es: seq<Entry>): iset<Entry> {
    iset e | e in es
  }

  lemma TouchesSplit(g: Graph, n: nat, e: Entry)
    requires ValidGraph(g) && n < |g|
    ensures Touches(g, n, e) <==> ChildTouches(g, n, |g[n].out|, e) || e in Own(g[n])
  {
    if Touches(g, n, e) {
      var m: nat :| Reaches(g, n, m) && m < |g| && e in Own(g[m]);
      ReachesSplit(g, n, m);
      if m != n {
        var b :| Edge(g, n, b) && Reaches(g, b, m);
        var i :| 0 <= i < |g[n].out| && g[n].out[i] == b;
        assert Touches(g, g[n].out[i], e);
      }
    }
    ReachesSelf(g, n);
    if ChildTouches(g, n, |g[n].out|, e) {
      var i: nat :| i < |g[n].out| && Touches(g, g[n].out[i], e);
      var m: nat :| Reaches(g, g[n].out[i], m) && m < |g| && e in Own(g[m]);
      ReachesChild(g, n, g[n].out[i], m);
    }
  }

  lemma BelowSplit(g: Graph, n: nat)
    requires ValidGraph(g) && n < |g|
    ensures Below(g, n) == BelowChildren(g, n, |g[n].out|) + Listed(Own(g[n]))
  {
    forall e { TouchesSplit(g, n, e); }
  }

  lemma NothingBelowYet(g: Graph, n: nat)
    requires n < |g|
    ensures Summary([], BelowChildren(g, n, 0)) && ChildrenCompatible(g, n, 0)
  {
  }

  lemma BelowNextChild(g: Graph, n: nat, k: nat)
    requires n < |g| && k < |g[n].out|
    ensures BelowChildren(g, n, k + 1) == BelowChildren(g, n, k) + Below(g, g[n].out[k])
  {
    forall e
      ensures ChildTouches(g, n, k + 1, e) <==> ChildTouches(g, n, k, e) || Touches(g, g[n].out[k], e)
    {
      if ChildTouches(g, n, k + 1, e) && !Touches(g, g[n].out[k], e) {
        var i: nat :| i < k + 1 && Touches(g, g[n].out[i], e);
        assert i < k;
      }
    }
  }

  /** `s` gives every instance the strongest access that `touched` contains for it, and no other. */
  ghost predicate Summary(s: seq<Entry>, touched: iset<Entry>) {
    && Sorted(s)
    && (forall e :: e in touched ==> Level(s, e.instance) >= Rank(e.access))
    && (forall i :: Level(s, i) > 0 ==> exists a :: Entry(i, a) in touched && Rank(a) == Level(s, i))
  }

  lemma SummaryOfUnion(s: seq<Entry>, t: seq<Entry>, r: seq<Entry>, a: iset<Entry>, b: iset<Entry>)
    requires Summary(s, a) && Summary(t, b)
    requires Sorted(r) && forall i :: Level(r, i) == Max(Level(s, i), Level(t, i))
    ensures Summary(r, a + b)
  {
  }

  lemma SummaryOfInsert(s: seq<Entry>, e: Entry, a: iset<Entry>, b: iset<Entry>)
    requires Summary(s, a)
    requires forall x :: x in b <==> x in a || x == e
    ensures Summary(Insert(s, e), b)
  {
    forall i: nat
      ensures Level(Insert(s, e), i) == if i == e.instance then Max(Level(s, i), Rank(e.access)) else Level(s, i)
    {
      InsertRaisesLevel(s, e, i);
    }
    assert Entry(e.instance, e.access) in b;
  }

  lemma LevelOfWrite(s: seq<Entry>, a: iset<Entry>, i: nat)
    requires Summary(s, a)
    ensures Level(s, i) == Rank(AccessWrite) <==> Entry(i, AccessWrite) in a
  {
    if Level(s, i) == Rank(AccessWrite) {
      var access :| Entry(i, access) in a && Rank(access) == Level(s, i);
      assert access == AccessWrite;
    }
  }

  /** Two groups of accesses that write the same instance. */
  ghost predicate Conflict(a: iset<Entry>, b: iset<Entry>) {
    exists i: nat :: Entry(i, AccessWrite) in a && Entry(i, AccessWrite) in b
  }

  lemma CompatibleMeansNoConflict(s: seq<Entry>, t: seq<Entry>, a: iset<Entry>, b: iset<Entry>)
    requires Summary(s, a) && Summary(t, b)
    ensures WritesDisjoint(s, t) <==> !Conflict(a, b)
  {
    forall i: nat
      ensures Level(s, i) == Rank(AccessWrite) <==> Entry(i, AccessWrite) in a
      ensures Level(t, i) == Rank(AccessWrite) <==> Entry(i, AccessWrite) in b
    {
      LevelOfWrite(s, a, i);
      LevelOfWrite(t, b, i);
    }
  }

  /** No two of the first `k` children of a node write the same instance. */
  ghost predicate ChildrenCompatible(g: Graph, n: nat, k: nat)
    requires n < |g| && k <= |g[n].out|
  {
    forall i, j :: 0 <= i < j < k ==> !Conflict(Below(g, g[n].out[i]), Below(g, g[n].out[j]))
  }

  lemma CompatibleNextChild(g: Graph, n: nat, k: nat)
    requires n < |g| && k < |g[n].out|
    ensures ChildrenCompatible(g, n, k + 1) <==>
            ChildrenCompatible(g, n, k) && !Conflict(BelowChildren(g, n, k), Below(g, g[n].out[k]))
  {
    if Conflict(BelowChildren(g, n, k), Below(g, g[n].out[k])) {
      var i: nat :| Entry(i, AccessWrite) in BelowChildren(g, n, k) && Entry(i, AccessWrite) in Below(g, g[n].out[k]);
      var j: nat :| j < k && Touches(g, g[n].out[j], Entry(i, AccessWrite));
      assert Conflict(Below(g, g[n].out[j]), Below(g, g[n].out[k]));
    } else {
      forall j: nat | j < k ensures !Conflict(Below(g, g[n].out[j]), Below(g, g[n].out[k])) {
        forall i: nat | Entry(i, AccessWrite) in Below(g, g[n].out[j])
          ensures Entry(i, AccessWrite) in BelowChildren(g, n, k)
        {
        }
      }
    }
  }

  /** Nothing that runs simultaneously below node `n` writes the same instance. */
  ghost predicate Deterministic(g: Graph, n: nat) {
    forall m: nat :: Reaches(g, n, m) && m < |g| && Simultaneous(g[m]) ==> ChildrenCompatible(g, m, |g[m].out|)
  }

  ghost predicate ChildrenDeterministic(g: Graph, n: nat, k: nat)
    requires n < |g| && k <= |g[n].out|
  {
    forall i :: 0 <= i < k ==> Deterministic(g, g[n].out[i])
  }

  lemma DeterministicNextChild(g: Graph, n: nat, k: nat)
    requires n < |g| && k < |g[n].out| && ChildrenDeterministic(g, n, k) && Deterministic(g, g[n].out[k])
    ensures ChildrenDeterministic(g, n, k + 1)
  {
  }

  lemma DeterministicFromChildren(g: Graph, n: nat)
    requires ValidGraph(g) && n < |g|
    requires ChildrenDeterministic(g, n, |g[n].out|)
    requires Simultaneous(g[n]) ==> ChildrenCompatible(g, n, |g[n].out|)
    ensures Deterministic(g, n)
  {
    forall m: nat | Reaches(g, n, m) && m < |g| && Simultaneous(g[m]) ensures ChildrenCompatible(g, m, |g[m].out|) {
      ReachesSplit(g, n, m);
      if m != n {
        var b :| Edge(g, n, b) && Reaches(g, b, m);
        assert Deterministic(g, b);
      }
    }
  }

  lemma DeterministicChild(g: Graph, n: nat, b: nat)
    requires Edge(g, n, b) && Deterministic(g, n)
    ensures Deterministic(g, b)
  {
    forall m: nat | Reaches(g, b, m) { ReachesChild(g, n, b, m); }
  }

  /** An instance set is determined by what it summarises. */
  lemma SummaryIsUnique(s: seq<Entry>, t: seq<Entry>, a: iset<Entry>)
    requires Summary(s, a) && Summary(t, a)
    ensures forall i :: Level(s, i) == Level(t, i)
  {
  }

  // ----- computing the sets

  ghost function Position(order: seq<nat>, n: nat): nat
    requires n in order
  {
    if order[0] == n then 0 else 1 + Position(order[1..], n)
  }

  lemma {:induction false} PositionIsFirst(order: seq<nat>, k: nat, n: nat)
    requires k <= |order| && n in order[..k]
    ensures n in order && Position(order, n) < k
    decreases |order|
  {
    assert order[..k][0] == order[0];
    if order[0] != n {
      assert order[..k] == [order[0]] + order[1..][..k - 1];
      PositionIsFirst(order[1..], k - 1, n);
    }
  }

  lemma {:induction false} PositionAt(order: seq<nat>, n: nat)
    requires n in order
    ensures Position(order, n) < |order| && order[Position(order, n)] == n
    decreases |order|
  {
    if order[0] != n {
      PositionAt(order[1..], n);
    }
  }

  /** Children come earlier in a topological order. */
  lemma ChildComesFirst(g: Graph, order: seq<nat>, n: nat, b: nat)
    requires Topological(g, order) && n in order && n < |g| && b in g[n].out
    ensures b in order && Position(order, b) < Position(order, n)
  {
    PositionAt(order, n);
    PositionIsFirst(order, Position(order, n), b);
  }

  /** A result that is right and that no conflict below the node spoils. */
  ghost predicate Right(g: Graph, n: nat, s: seq<Entry>) {
    Summary(s, Below(g, n)) && Deterministic(g, n)
  }

  ghost predicate Extends(before: map<nat, seq<Entry>>, after: map<nat, seq<Entry>>) {
    forall m :: m in before ==> m in after && after[m] == before[m]
  }

  class SetComputation {
    const graph: Graph
    ghost const order: seq<nat>
    var computed: map<nat, seq<Entry>>  // the instance sets that have been computed

    ghost predicate Valid()
      reads this
    {
      && ValidGraph(graph) && Topological(graph, order)
      && forall n :: n in computed ==> Right(graph, n, computed[n])
    }

    constructor (graph: Graph, ghost order: seq<nat>)
      requires ValidGraph(graph) && Topological(graph, order)
      ensures Valid() && this.graph == graph && this.order == order
    {
      this.graph := graph;
      this.order := order;
      computed := map[];
    }

    /**
      The instance set of node `n`, computed once.  Succeeds exactly when nothing below the node
      is non-deterministic.
      */
    method InstanceSet(n: nat) returns (ok: bool, s: seq<Entry>)
      requires Valid() && n in order && n < |graph|
      modifies this`computed
      ensures Valid()
      ensures ok <==> Deterministic(graph, n)
      ensures ok ==> Right(graph, n, s) && n in computed && computed[n] == s
      ensures Extends(old(computed), computed)
      decreases Position(order, n)
    {
      hide Deterministic, Summary, Topological, ChildrenCompatible, InsertOwn;
      if n in computed {
        return true, computed[n];
      }
      s := [];
      var node := graph[n];
      var i := 0;
      NothingBelowYet(graph, n);
      while i < |node.out|
        invariant Valid() && i <= |node.out|
        invariant Summary(s, BelowChildren(graph, n, i))
        invariant ChildrenDeterministic(graph, n, i)
        invariant Simultaneous(node) ==> ChildrenCompatible(graph, n, i)
        invariant Extends(old(computed), computed)
      {
        var child := node.out[i];
        ChildComesFirst(graph, order, n, child);
        var good, t := InstanceSet(child);
        if good {
          DeterministicNextChild(graph, n, i);
          good, s := AddChild(graph, n, i, s, t);
        }
        if !good {
          NotDeterministic(graph, n, i);
          return false, s;
        }
        i := i + 1;
      }
      SummaryOfNode(graph, n, s);
      s := InsertOwn(s, node);
      DeterministicFromChildren(graph, n);
      assert Right(graph, n, s);
      computed := computed[n := s];
      ok := true;
    }
  }

  lemma NotDeterministic(g: Graph, n: nat, k: nat)
    requires ValidGraph(g) && n < |g| && k < |g[n].out|
    requires !Deterministic(g, g[n].out[k]) || (Simultaneous(g[n]) && !ChildrenCompatible(g, n, k + 1))
    ensures !Deterministic(g, n)
  {
    ReachesSelf(g, n);
    assert Edge(g, n, g[n].out[k]);
    if Deterministic(g, n) {
      DeterministicChild(g, n, g[n].out[k]);
    }
  }

  /** Adds the set of child `k`, after checking it against the children before it. */
  method AddChild(g: Graph, n: nat, k: nat, s: seq<Entry>, t: seq<Entry>) returns (ok: bool, r: seq<Entry>)
    requires n < |g| && k < |g[n].out|
    requires Summary(s, BelowChildren(g, n, k)) && Summary(t, Below(g, g[n].out[k]))
    requires Simultaneous(g[n]) ==> ChildrenCompatible(g, n, k)
    ensures ok <==> (Simultaneous(g[n]) ==> ChildrenCompatible(g, n, k + 1))
    ensures ok ==> Summary(r, BelowChildren(g, n, k + 1))
  {
    ghost var (before, added) := (BelowChildren(g, n, k), Below(g, g[n].out[k]));
    CompatibleNextChild(g, n, k);
    CompatibleMeansNoConflict(s, t, before, added);
    ok := true;
    if Simultaneous(g[n]) {
      ok := IsCompatible(s, t);
    }
    r := s;
    if ok {
      r := AddUnion(s, t);
      BelowNextChild(g, n, k);
      SummaryOfUnion(s, t, r, before, added);
    }
  }

  /** Inserts the accesses of the node itself. */
  function InsertOwn(s: seq<Entry>, node: Node): seq<Entry>
    requires Sorted(s)
  {
    match node
    case Action(i, p, a, _) => Insert(Insert(s, Entry(i, p)), Entry(i, a))
    case Reaction(i, a, _) => Insert(s, Entry(i, a))
    case Getter(i, a, _) => Insert(s, Entry(i, a))
    case Activation(i, a, _) => Insert(s, Entry(i, a))
    case PushPort(_) => s
    case PullPort(_) => s
  }

  lemma SummaryOfNode(g: Graph, n: nat, s: seq<Entry>)
    requires ValidGraph(g) && n < |g| && Summary(s, BelowChildren(g, n, |g[n].out|))
    ensures Sorted(s) && Summary(InsertOwn(s, g[n]), Below(g, n))
  {
    var touched := BelowChildren(g, n, |g[n].out|);
    var all := Below(g, n);
    assert forall e :: e in all <==> e in touched || e in Own(g[n]) by { BelowSplit(g, n); }
    match g[n]
    case Action(i, p, a, _) =>
      var first := Entry(i, p);
      SummaryOfInsert(s, first, touched, touched + iset{first});
      SummaryOfInsert(Insert(s, first), Entry(i, a), touched + iset{first}, all);
    case Reaction(i, a, _) => SummaryOfInsert(s, Entry(i, a), touched, all);
    case Getter(i, a, _) => SummaryOfInsert(s, Entry(i, a), touched, all);
    case Activation(i, a, _) => SummaryOfInsert(s, Entry(i, a), touched, all);
    case PushPort(_) => assert all == touched;
    case PullPort(_) => assert all == touched;
  }
}
