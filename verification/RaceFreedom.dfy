/**
  From the declared accesses of a composition to the absence of races at run time: the instance
  sets computed for the actions are the lists of locks that their tasks take.
  */
module RaceFreedom {
  import opened InstanceSets
  import opened Graphs
  import opened AccessSets
  import opened LockProtocol
  import opened LockProtocolInvariant
  import opened LockSafety

  /** A task that executes holds the lock of every instance of its set, in the declared mode. */
  lemma ExecutingHoldsAll(c: Config, s: State, t: nat, i: nat)
    requires ValidConfig(c) && Inv(c, s) && t < |c.sets| && s.place[t] == Executing
    requires Level(c.sets[t], i) > 0
    ensures Holds(c, s, t, i, Level(c.sets[t], i) == Rank(AccessWrite))
  {
    assert TaskInv(c, s, t);
    var k :| 0 <= k < |c.sets[t]| && c.sets[t][k].instance == i && Rank(c.sets[t][k].access) == Level(c.sets[t], i);
    assert HoldsAt(c, s, t, k);
  }

  /** Tasks that execute at the same time do not touch what the other one writes. */
  lemma ExecutingSetsAreDisjoint(c: Config, s: State, t: nat, u: nat, i: nat)
    requires ValidConfig(c) && Reachable(c, s) && Shaped(c, s) && t < |c.sets| && u < |c.sets| && t != u
    requires s.place[t] == Executing && s.place[u] == Executing
    requires Level(c.sets[t], i) == Rank(AccessWrite)
    ensures Level(c.sets[u], i) == 0
  {
    ReachableInv(c, s);
    if Level(c.sets[u], i) > 0 {
      ExecutingHoldsAll(c, s, t, i);
      ExecutingHoldsAll(c, s, u, i);
      MutualExclusion(c, s, i, t, u, Level(c.sets[u], i) == Rank(AccessWrite));
    }
  }

  /** Task `t` runs action node `a`: its locks are the instance set of the action. */
  ghost predicate RunsAction(c: Config, g: Graph, t: nat, a: nat) {
    t < |c.sets| && a < |g| && Summary(c.sets[t], Below(g, a))
  }

  /** The set of a task that runs an action covers what any node below the action touches. */
  lemma LevelOfTouched(c: Config, g: Graph, t: nat, a: nat, m: nat, e: Entry)
    requires RunsAction(c, g, t, a) && Reaches(g, a, m) && m < |g| && e in Own(g[m])
    ensures t < |c.sets| && Level(c.sets[t], e.instance) >= Rank(e.access) > 0
    ensures e.access == AccessWrite ==> Level(c.sets[t], e.instance) == Rank(AccessWrite)
  {
    hide Reaches;
    assert Touches(g, a, e) && e in Below(g, a);
  }

  /**
    Race freedom.  Whenever two actions execute at once, no instance that some node below the one
    writes is touched at all by any node below the other.
    */
  lemma NoRaces(c: Config, g: Graph, s: State, t: nat, u: nat, a: nat, b: nat, m: nat, n: nat, e: Entry, f: Entry)
    requires ValidConfig(c) && Reachable(c, s) && Shaped(c, s) && t != u
    requires RunsAction(c, g, t, a) && RunsAction(c, g, u, b)
    requires s.place[t] == Executing && s.place[u] == Executing
    requires Reaches(g, a, m) && m < |g| && e in Own(g[m])
    requires Reaches(g, b, n) && n < |g| && f in Own(g[n])
    requires e.access == AccessWrite
    ensures f.instance != e.instance
  {
    hide Reachable, Shaped, Reaches, ValidConfig, Level, RunsAction;
    LevelOfTouched(c, g, t, a, m, e);
    LevelOfTouched(c, g, u, b, n, f);
    if f.instance == e.instance {
      ExecutingSetsAreDisjoint(c, s, t, u, e.instance);
    }
  }

  /** The set of the task that collects the garbage of an instance. */
  const CollectorAccess := AccessWrite

  function CollectorSet(instance: nat): seq<Entry> { [Entry(instance, CollectorAccess)] }

  /** While the garbage of an instance is collected, no executing action can touch the instance. */
  lemma CollectorRunsAlone(c: Config, g: Graph, s: State, t: nat, u: nat, instance: nat, b: nat, n: nat, f: Entry)
    requires ValidConfig(c) && Reachable(c, s) && Shaped(c, s) && t != u
    requires t < |c.sets| && c.sets[t] == CollectorSet(instance)
    requires RunsAction(c, g, u, b)
    requires s.place[t] == Executing && s.place[u] == Executing
    requires Reaches(g, b, n) && n < |g| && f in Own(g[n])
    ensures f.instance != instance
  {
    if f.instance == instance {
      assert Touches(g, b, f);
      ExecutingSetsAreDisjoint(c, s, t, u, instance);
    }
  }
}
