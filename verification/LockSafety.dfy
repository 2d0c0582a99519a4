/** What holds in every state that the tasks and executors can reach. */
module LockSafety {
  import opened InstanceSets
  import opened ReaderWriterLock
  import opened LockProtocol
  import opened LockProtocolInvariant

  // ----- runs

  /** The tasks on the idle list of executor `e`, in order, counting from task `from`. */
  ghost function Owned(c: Config, e: nat, from: nat): (q: seq<nat>)
    requires ValidConfig(c) && from <= |c.owner|
    ensures NoDuplicates(q)
    ensures forall t :: t in q <==> from <= t < |c.owner| && c.owner[t] == e
    decreases |c.owner| - from
  {
    if from == |c.owner| then []
    else if c.owner[from] == e then [from] + Owned(c, e, from + 1)
    else Owned(c, e, from + 1)
  }

  /** Every lock is free, every task is on the idle list of its executor, and no executor has exited. */
  ghost function Initial(c: Config): State
    requires ValidConfig(c)
  {
    State(seq(c.locks, _ => UNLOCKED), seq(|c.sets|, _ => 0), seq(|c.sets|, _ => Idle),
          seq(c.executors, e requires 0 <= e < c.executors => Executor(Owned(c, e, 0), [], Nothing, [], false)))
  }

  lemma InitialInv(c: Config)
    requires ValidConfig(c)
    ensures Inv(c, Initial(c))
  {
    var s := Initial(c);
    forall e: nat | e < c.executors ensures ExecutorShaped(c, s.executors[e]) {
      var q := s.executors[e].idle;
      assert forall i :: 0 <= i < |q| ==> q[i] in q;
    }
    forall l: nat | l < c.locks ensures LockInv(c, s, l) {
      assert Holders(c, s, l, false) == {} && Holders(c, s, l, true) == {};
    }
  }

  lemma InvKept(c: Config, s: State, step: Step)
    requires ValidConfig(c) && Inv(c, s) && Enabled(c, s, step)
    ensures Inv(c, Next(c, s, step))
  {
    match step
    case Start(e) => StartKeepsInv(c, s, e);
    case Resume(e) => ResumeKeepsInv(c, s, e);
    case Acquire(e) => AcquireKeepsInv(c, s, e);
    case Begin(e) => StageKeepsInv(c, s, e, step);
    case End(e) => StageKeepsInv(c, s, e, step);
    case Unlock(e) => UnlockKeepsInv(c, s, e);
    case Deliver(e) => DeliverKeepsInv(c, s, e);
    case Finish(e) => FinishKeepsInv(c, s, e);
    case Exit(e) => ExitKeepsInv(c, s, e);
  }

  /** `states` is a run that takes the given steps. */
  ghost predicate IsRun(c: Config, states: seq<State>, steps: seq<Step>) {
    && ValidConfig(c)
    && |states| == |steps| + 1
    && forall i :: 0 <= i < |steps| ==>
      Shaped(c, states[i]) && Enabled(c, states[i], steps[i]) && states[i + 1] == Next(c, states[i], steps[i])
  }

  lemma {:induction false} RunKeepsInv(c: Config, states: seq<State>, steps: seq<Step>, i: nat)
    requires IsRun(c, states, steps) && Inv(c, states[0]) && i <= |steps|
    ensures Inv(c, states[i])
  {
    if i > 0 {
      RunKeepsInv(c, states, steps, i - 1);
      InvKept(c, states[i - 1], steps[i - 1]);
    }
  }

  ghost predicate Reachable(c: Config, s: State)
    requires ValidConfig(c)
  {
    exists states, steps :: IsRun(c, states, steps) && states[0] == Initial(c) && states[|steps|] == s
  }

  lemma ReachableInv(c: Config, s: State)
    requires ValidConfig(c) && Reachable(c, s)
    ensures Inv(c, s)
  {
    var states, steps :| IsRun(c, states, steps) && states[0] == Initial(c) && states[|steps|] == s;
    InitialInv(c);
    RunKeepsInv(c, states, steps, |steps|);
  }

  // ----- mutual exclusion

  lemma HoldersExclude(lock: LockState, readers: set<nat>, writers: set<nat>, t: nat, u: nat)
    requires Counted(lock, readers, writers) && t in writers && t != u
    ensures u !in readers && u !in writers
  {
    assert |writers - {t}| == |writers| - 1 == 0;
    assert u !in writers - {t};
  }

  /** A task that holds a lock for writing is its only holder. */
  lemma MutualExclusion(c: Config, s: State, l: nat, t: nat, u: nat, write: bool)
    requires ValidConfig(c) && Reachable(c, s) && Shaped(c, s)
    requires t < |c.sets| && u < |c.sets| && t != u
    requires Holds(c, s, t, l, true)
    ensures !Holds(c, s, u, l, write)
  {
    ReachableInv(c, s);
    assert LockInv(c, s, l);
    HoldersExclude(s.locks[l], Holders(c, s, l, false), Holders(c, s, l, true), t, u);
  }

  /** The assertions of the unlock operations: what is released is held, in the mode released. */
  lemma UnlockAssertions(c: Config, s: State, e: nat)
    requires ValidConfig(c) && Reachable(c, s) && Shaped(c, s) && Enabled(c, s, Unlock(e))
    ensures var t := s.executors[e].current.id;
            var entry := c.sets[t][s.pos[t]];
            var count := s.locks[entry.instance].count;
            if Writes(entry) then count == -1 else count > 0
  {
    ReachableInv(c, s);
    GrantedWaiters(c, s, e);
  }

  // ----- conservation of tasks

  /** A place in the data structures of the program that can hold a task. */
  datatype Spot =
    | OnIdle(e: nat, i: nat)
    | OnReady(e: nat, i: nat)
    | InBatch(e: nat, i: nat)
    | Run(e: nat)
    | InQueue(l: nat, i: nat)

  ghost predicate Occupies(c: Config, s: State, t: nat, spot: Spot)
    requires Shaped(c, s)
  {
    match spot
    case OnIdle(e, i) => e < c.executors && i < |s.executors[e].idle| && s.executors[e].idle[i] == t
    case OnReady(e, i) => e < c.executors && i < |s.executors[e].ready| && s.executors[e].ready[i] == t
    case InBatch(e, i) => e < c.executors && i < |s.executors[e].batch| && s.executors[e].batch[i] == t
    case Run(e) => e < c.executors && s.executors[e].current == Task(t)
    case InQueue(l, i) => l < c.locks && i < |s.locks[l].queue| && s.locks[l].queue[i].task == t
  }

  /** Where the invariant says that a task is. */
  lemma SpotOf(c: Config, s: State, t: nat) returns (spot: Spot)
    requires ValidConfig(c) && Inv(c, s) && t < |c.sets|
    ensures Occupies(c, s, t, spot)
  {
    assert TaskInv(c, s, t);
    var e := c.owner[t];
    match s.place[t] {
      case Idle => var i :| 0 <= i < |s.executors[e].idle| && s.executors[e].idle[i] == t; spot := OnIdle(e, i);
      case Ready => var i :| 0 <= i < |s.executors[e].ready| && s.executors[e].ready[i] == t; spot := OnReady(e, i);
      case Granted(f) =>
        var batch := s.executors[f].batch;
        var i :| 0 <= i < |batch| && batch[i] == t;
        spot := InBatch(f, i);
      case Waiting =>
        var entry := c.sets[t][s.pos[t] - 1];
        var w := Waiter(t, !Writes(entry));
        var i :| 0 <= i < |s.locks[entry.instance].queue| && s.locks[entry.instance].queue[i] == w;
        spot := InQueue(entry.instance, i);
      case _ => spot := Run(e);
    }
  }

  lemma SpotIsUnique(c: Config, s: State, t: nat, a: Spot, b: Spot)
    requires ValidConfig(c) && Inv(c, s) && t < |c.sets|
    requires Occupies(c, s, t, a) && Occupies(c, s, t, b)
    ensures a == b
  {
    SpotTellsPlace(c, s, t, a);
    SpotTellsPlace(c, s, t, b);
    match a
    case OnIdle(e, i) => assert ExecutorInv(c, s, e);
    case OnReady(e, i) => assert ExecutorInv(c, s, e);
    case InBatch(e, i) => assert ExecutorInv(c, s, e);
    case Run(e) =>
    case InQueue(l, i) => assert QueueInv(c, s, l);
  }

  lemma SpotTellsPlace(c: Config, s: State, t: nat, spot: Spot)
    requires ValidConfig(c) && Inv(c, s) && t < |c.sets| && Occupies(c, s, t, spot)
    ensures match spot
            case OnIdle(e, _) => s.place[t] == Idle && e == c.owner[t]
            case OnReady(e, _) => s.place[t] == Ready && e == c.owner[t]
            case InBatch(e, _) => s.place[t] == Granted(e)
            case Run(e) => Running(s.place[t]) && e == c.owner[t]
            case InQueue(l, i) => WaitsFor(c, s, t, l, s.locks[l].queue[i].read)
  {
    match spot
    case OnIdle(e, i) => assert ExecutorInv(c, s, e) && t in s.executors[e].idle;
    case OnReady(e, i) => assert ExecutorInv(c, s, e) && t in s.executors[e].ready;
    case InBatch(e, i) => assert ExecutorInv(c, s, e) && t in s.executors[e].batch;
    case Run(e) => assert ExecutorInv(c, s, e);
    case InQueue(l, i) => assert QueueInv(c, s, l);
  }

  /**
    No task is lost or duplicated: at every moment every task occupies exactly one spot.  In
    particular a task that is put on a list was on none, which is what the list operations assert.
    */
  lemma TasksAreConserved(c: Config, s: State, t: nat)
    requires ValidConfig(c) && Reachable(c, s) && Shaped(c, s) && t < |c.sets|
    ensures exists spot :: Occupies(c, s, t, spot)
    ensures forall a, b :: Occupies(c, s, t, a) && Occupies(c, s, t, b) ==> a == b
    ensures forall e, i ::
      Occupies(c, s, t, OnIdle(e, i)) || Occupies(c, s, t, OnReady(e, i)) || Occupies(c, s, t, Run(e)) ==>
          e == c.owner[t]
  {
    ReachableInv(c, s);
    var spot := SpotOf(c, s, t);
    forall a, b | Occupies(c, s, t, a) && Occupies(c, s, t, b) ensures a == b {
      SpotIsUnique(c, s, t, a, b);
    }
    forall e, i | Occupies(c, s, t, OnIdle(e, i)) ensures e == c.owner[t] { SpotTellsPlace(c, s, t, OnIdle(e, i)); }
    forall e, i | Occupies(c, s, t, OnReady(e, i)) ensures e == c.owner[t] { SpotTellsPlace(c, s, t, OnReady(e, i)); }
    forall e | Occupies(c, s, t, Run(e)) ensures e == c.owner[t] { SpotTellsPlace(c, s, t, Run(e)); }
  }
}
