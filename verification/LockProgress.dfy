/**
  Deadlock freedom.  Waiting tasks cannot wait for each other, because every task takes its locks
  in the same order; and once no new work is started, everything that is in flight drains, except
  for what executors leave behind that exit while one of their tasks is suspended.
  */
module LockProgress {
  import opened InstanceSets
  import opened ReaderWriterLock
  import opened LockProtocol
  import opened LockProtocolInvariant
  import opened LockSafety

  // ----- a waiting task implies a holder that does not wait

  /** The lock that a waiting task waits for. */
  ghost function Wanted(c: Config, s: State, t: nat): nat
    requires ValidConfig(c) && Inv(c, s) && t < |c.sets| && s.place[t] == Waiting
  {
    assert TaskInv(c, s, t);
    c.sets[t][s.pos[t] - 1].instance
  }

  /** A task that waits for the greatest lock that any of the first `n` tasks waits for. */
  lemma {:induction false} GreatestWanted(c: Config, s: State, n: nat, t: nat) returns (g: nat)
    requires ValidConfig(c) && Inv(c, s) && t < n <= |c.sets| && s.place[t] == Waiting
    ensures g < n && s.place[g] == Waiting
    ensures forall u :: 0 <= u < n && s.place[u] == Waiting ==> Wanted(c, s, u) <= Wanted(c, s, g)
  {
    if t == n - 1 && forall u :: 0 <= u < n - 1 ==> s.place[u] != Waiting {
      g := t;
    } else {
      var u :| 0 <= u < n - 1 && (u == t || s.place[u] == Waiting) && s.place[u] == Waiting;
      g := GreatestWanted(c, s, n - 1, u);
      if s.place[n - 1] == Waiting && Wanted(c, s, n - 1) > Wanted(c, s, g) {
        g := n - 1;
      }
    }
  }

  /** A holder of a lock that somebody waits for. */
  lemma HolderOfWanted(c: Config, s: State, t: nat) returns (h: nat, write: bool)
    requires ValidConfig(c) && Inv(c, s) && t < |c.sets| && s.place[t] == Waiting
    ensures h < |c.sets| && Holds(c, s, h, Wanted(c, s, t), write)
  {
    var l := Wanted(c, s, t);
    assert TaskInv(c, s, t) && LockInv(c, s, l);
    assert s.locks[l].queue != [];
    write := s.locks[l].count < 0;
    assert Holders(c, s, l, write) != {};
    h :| h in Holders(c, s, l, write);
  }

  /** Whatever a waiting task holds comes before the lock it waits for. */
  lemma HeldBeforeWanted(c: Config, s: State, h: nat, l: nat, write: bool)
    requires ValidConfig(c) && Inv(c, s) && h < |c.sets| && s.place[h] == Waiting
    requires Holds(c, s, h, l, write)
    ensures l < Wanted(c, s, h)
  {
    assert TaskInv(c, s, h);
  }

  lemma BlockingHolder(c: Config, s: State, t: nat) returns (l: nat, h: nat, write: bool)
    requires ValidConfig(c) && Inv(c, s) && t < |c.sets| && s.place[t] == Waiting
    ensures forall u :: 0 <= u < |c.sets| && s.place[u] == Waiting ==> Wanted(c, s, u) <= l
    ensures h < |c.sets| && Holds(c, s, h, l, write) && s.place[h] != Waiting && s.place[h] != Idle
  {
    var g := GreatestWanted(c, s, |c.sets|, t);
    l := Wanted(c, s, g);
    h, write := HolderOfWanted(c, s, g);
    if s.place[h] == Waiting {
      HeldBeforeWanted(c, s, h, l, write);
      assert false;
    }
  }

  /**
    If some task waits, then some lock has a holder that does not wait, so it is ready, about to
    be delivered, or running; the greatest lock that anyone waits for is such a lock.
    */
  lemma NoDeadlock(c: Config, s: State, t: nat)
    requires ValidConfig(c) && Reachable(c, s) && Shaped(c, s) && t < |c.sets| && s.place[t] == Waiting
    ensures Inv(c, s)
    ensures exists l: nat, h: nat, write: bool ::
      && h < |c.sets| && Holds(c, s, h, l, write) && s.place[h] != Waiting && s.place[h] != Idle
      && forall u :: 0 <= u < |c.sets| && s.place[u] == Waiting ==> Wanted(c, s, u) <= l
  {
    ReachableInv(c, s);
    var l, h, write := BlockingHolder(c, s, t);
  }

  // ----- what is in flight drains

  /**
    An upper bound on the number of steps that a task still causes before it is idle again.
    Asking for a lock can cost four: ask, be granted, be delivered, be resumed.
    */
  ghost function Remaining(p: Place, pos: nat, size: nat): nat
    requires pos <= size
  {
    match p
    case Idle => 0
    case Releasing => size - pos + 1
    case Executing => size + 2
    case Acquiring => 4 * (size - pos) + size + 3
    case Ready => 4 * (size - pos) + size + 4
    case Granted(_) => 4 * (size - pos) + size + 5
    case Waiting => 4 * (size - pos) + size + 6
  }

  ghost function TaskWork(c: Config, s: State, t: nat): nat
    requires Shaped(c, s) && t < |c.sets|
  {
    Remaining(s.place[t], s.pos[t], |c.sets[t]|)
  }

  ghost function Work(c: Config, s: State, n: nat): nat
    requires Shaped(c, s) && n <= |c.sets|
  {
    if n == 0 then 0 else Work(c, s, n - 1) + TaskWork(c, s, n - 1)
  }

  lemma {:induction false} WorkDecreases(c: Config, s: State, s': State, n: nat, t: nat)
    requires Shaped(c, s) && Shaped(c, s') && n <= |c.sets|
    requires forall u :: 0 <= u < n ==> TaskWork(c, s', u) <= TaskWork(c, s, u)
    requires t < |c.sets| && TaskWork(c, s', t) < TaskWork(c, s, t)
    ensures Work(c, s', n) <= Work(c, s, n)
    ensures t < n ==> Work(c, s', n) < Work(c, s, n)
  {
    if n > 0 {
      WorkDecreases(c, s, s', n - 1, t);
    }
  }

  /** The number of the first `n` executors that have not exited. */
  ghost function Live(s: State, n: nat): nat
    requires n <= |s.executors|
  {
    if n == 0 then 0 else Live(s, n - 1) + if s.executors[n - 1].exited then 0 else 1
  }

  /** An upper bound on the number of steps other than `Start`. */
  ghost function Effort(c: Config, s: State): nat
    requires Shaped(c, s)
  {
    Work(c, s, |c.sets|) + Live(s, c.executors)
  }

  lemma {:induction false} LiveAfter(s: State, s': State, e: nat, n: nat)
    requires n <= |s.executors| == |s'.executors| && e < |s.executors|
    requires forall f :: 0 <= f < |s.executors| && f != e ==> s'.executors[f].exited == s.executors[f].exited
    requires s.executors[e].exited ==> s'.executors[e].exited
    ensures s'.executors[e].exited == s.executors[e].exited || e >= n ==> Live(s', n) == Live(s, n)
    ensures s'.executors[e].exited != s.executors[e].exited && e < n ==> Live(s', n) < Live(s, n)
  {
    if n > 0 {
      LiveAfter(s, s', e, n - 1);
    }
  }

  /** A step on a task that is in flight: neither starting another one nor returning from the loop. */
  predicate Carries(step: Step) { !step.Start? && !step.Exit? }

  /** The task that a step brings closer to being idle. */
  ghost function Mover(c: Config, s: State, step: Step): nat
    requires ValidConfig(c) && Shaped(c, s) && Enabled(c, s, step) && Carries(step)
  {
    var x := s.executors[step.e];
    if step.Resume? then x.ready[0]
    else if step.Deliver? then x.batch[0]
    else x.current.id
  }

  lemma StepMovesTasks(c: Config, s: State, step: Step)
    requires ValidConfig(c) && Inv(c, s) && Enabled(c, s, step) && Carries(step) && !step.Unlock?
    requires Shaped(c, Next(c, s, step))
    ensures var t := Mover(c, s, step);
            && t < |c.sets| && TaskWork(c, Next(c, s, step), t) < TaskWork(c, s, t)
    ensures forall u :: 0 <= u < |c.sets| ==> TaskWork(c, Next(c, s, step), u) <= TaskWork(c, s, u)
  {
    var t := Mover(c, s, step);
    assert ExecutorInv(c, s, step.e);
    assert step.Deliver? ==> t in s.executors[step.e].batch;
    assert step.Resume? ==> t in s.executors[step.e].ready;
    assert TaskInv(c, s, t);
  }

  lemma UnlockMovesTasks(c: Config, s: State, e: nat)
    requires ValidConfig(c) && Inv(c, s) && Enabled(c, s, Unlock(e))
    requires Shaped(c, Next(c, s, Unlock(e)))
    ensures var t := s.executors[e].current.id; TaskWork(c, Next(c, s, Unlock(e)), t) < TaskWork(c, s, t)
    ensures forall u :: 0 <= u < |c.sets| ==> TaskWork(c, Next(c, s, Unlock(e)), u) <= TaskWork(c, s, u)
  {
    var t := s.executors[e].current.id;
    var entry := c.sets[t][s.pos[t]];
    var ts := TaskIds(GiveUp(s.locks[entry.instance], entry).granted);
    assert forall u :: u in ts ==> s.place[u] == Waiting by { GrantedWaiters(c, s, e); }
  }

  lemma StepUsesWork(c: Config, s: State, step: Step)
    requires ValidConfig(c) && Inv(c, s) && Enabled(c, s, step) && Carries(step)
    ensures Inv(c, Next(c, s, step))
    ensures Work(c, Next(c, s, step), |c.sets|) < Work(c, s, |c.sets|)
  {
    InvKept(c, s, step);
    if step.Unlock? {
      UnlockMovesTasks(c, s, step.e);
    } else {
      StepMovesTasks(c, s, step);
    }
    WorkDecreases(c, s, Next(c, s, step), |c.sets|, Mover(c, s, step));
  }

  /** Only returning from the loop changes which executors have exited. */
  lemma WhoExits(c: Config, s: State, step: Step, f: nat)
    requires ValidConfig(c) && Shaped(c, s) && Enabled(c, s, step) && f < c.executors
    ensures |Next(c, s, step).executors| == c.executors
    ensures Next(c, s, step).executors[f].exited == (s.executors[f].exited || step == Exit(f))
  {
  }

  lemma {:induction false} SameWork(c: Config, s: State, s': State, n: nat)
    requires Shaped(c, s) && Shaped(c, s') && n <= |c.sets| && s'.place == s.place && s'.pos == s.pos
    ensures Work(c, s', n) == Work(c, s, n)
  {
    if n > 0 {
      SameWork(c, s, s', n - 1);
    }
  }

  lemma StepUsesEffort(c: Config, s: State, step: Step)
    requires ValidConfig(c) && Inv(c, s) && Enabled(c, s, step) && !step.Start?
    ensures Inv(c, Next(c, s, step))
    ensures Effort(c, Next(c, s, step)) < Effort(c, s)
  {
    ReachesShape(c, s, step);
    hide Inv, Enabled, Next, Work, Live;
    var s' := Next(c, s, step);
    forall f: nat | f < c.executors ensures s'.executors[f].exited == (s.executors[f].exited || step == Exit(f)) {
      WhoExits(c, s, step, f);
    }
    LiveAfter(s, s', step.e, c.executors);
    if step.Exit? {
      ExitIsNew(c, s, step);
      SameWork(c, s, s', |c.sets|);
    } else {
      StepUsesWork(c, s, step);
    }
  }

  lemma ReachesShape(c: Config, s: State, step: Step)
    requires ValidConfig(c) && Inv(c, s) && Enabled(c, s, step)
    ensures Shaped(c, s) && Inv(c, Next(c, s, step)) && Shaped(c, Next(c, s, step)) && step.e < c.executors
  {
    InvKept(c, s, step);
  }

  lemma ExitIsNew(c: Config, s: State, step: Step)
    requires ValidConfig(c) && Shaped(c, s) && Enabled(c, s, step) && step.Exit?
    ensures !s.executors[step.e].exited
    ensures Next(c, s, step).place == s.place && Next(c, s, step).pos == s.pos
  {
  }

  // ----- what is left behind by executors that exit

  /** No task in flight can be brought any further. */
  ghost predicate Quiet(c: Config, s: State)
    requires ValidConfig(c) && Shaped(c, s)
  {
    forall step :: Enabled(c, s, step) ==> !Carries(step)
  }

  ghost predicate AllDone(c: Config, s: State)
    requires ValidConfig(c) && Shaped(c, s)
  {
    && (forall t :: 0 <= t < |c.sets| ==> s.place[t] == Idle && t in s.executors[c.owner[t]].idle)
    && (forall l :: 0 <= l < c.locks ==> s.locks[l] == UNLOCKED)
  }

  /** In the queue of a lock, in a batch that is being delivered, or on a ready list. */
  predicate Suspended(p: Place) { p == Waiting || p == Ready || p.Granted? }

  /** Task `t` is suspended, and the executor that would have to resume it has exited. */
  ghost predicate Abandoned(c: Config, s: State, t: nat)
    requires ValidConfig(c) && Shaped(c, s)
  {
    t < |c.sets| && Suspended(s.place[t]) && s.executors[c.owner[t]].exited
  }

  ghost predicate SomeAbandoned(c: Config, s: State)
    requires ValidConfig(c) && Shaped(c, s)
  {
    exists t :: Abandoned(c, s, t)
  }

  /** An executor exits between two tasks only, so its tasks are idle or suspended. */
  lemma NotRunning(c: Config, s: State, t: nat)
    requires ValidConfig(c) && Inv(c, s) && t < |c.sets| && s.executors[c.owner[t]].exited
    ensures s.place[t] == Idle || Suspended(s.place[t])
  {
    assert TaskInv(c, s, t) && ExecutorInv(c, s, c.owner[t]);
  }

  /** Whatever is done, starting others included, an abandoned task stays one, with the locks that it holds. */
  lemma AbandonedStays(c: Config, s: State, step: Step, t: nat)
    requires ValidConfig(c) && Inv(c, s) && Enabled(c, s, step) && Abandoned(c, s, t)
    ensures Inv(c, Next(c, s, step)) && Abandoned(c, Next(c, s, step), t)
    ensures forall l, write :: Holds(c, s, t, l, write) ==> Holds(c, Next(c, s, step), t, l, write)
  {
    ReachesShape(c, s, step);
    assert ExecutorInv(c, s, step.e) && ExecutorInv(c, s, c.owner[t]);
    hide Inv, ExecutorInv, Next, Enabled, Holds;
    WhoExits(c, s, step, c.owner[t]);
    SuspendedStays(c, s, step, t);
    StillHolds(c, s, Next(c, s, step), t);
  }

  lemma StillHolds(c: Config, s: State, s': State, t: nat)
    requires Shaped(c, s) && Shaped(c, s') && t < |c.sets| && Suspended(s.place[t]) && Suspended(s'.place[t])
    requires s'.pos[t] == s.pos[t] && (s'.place[t] == Waiting ==> s.place[t] == Waiting)
    ensures forall l, write :: Holds(c, s, t, l, write) ==> Holds(c, s', t, l, write)
  {
    assert forall k: nat :: HoldsAt(c, s, t, k) ==> HoldsAt(c, s', t, k);
  }

  /** Only the executor of a suspended task can resume it. */
  lemma SuspendedStays(c: Config, s: State, step: Step, t: nat)
    requires ValidConfig(c) && Shaped(c, s) && Enabled(c, s, step) && Abandoned(c, s, t)
    requires ExecutorInv(c, s, step.e)
    ensures |Next(c, s, step).place| == |Next(c, s, step).pos| == |c.sets| && Suspended(Next(c, s, step).place[t])
    ensures Next(c, s, step).pos[t] == s.pos[t]
    ensures Next(c, s, step).place[t] == Waiting ==> s.place[t] == Waiting
  {
    hide NoDuplicates, GiveUp, AskFor;
    if step.Start? {
      assert s.executors[step.e].idle[0] in s.executors[step.e].idle;
    } else if step.Resume? {
      assert s.executors[step.e].ready[0] in s.executors[step.e].ready;
    }
  }

  /** A task becomes abandoned only when its executor exits. */
  lemma AbandonedBefore(c: Config, s: State, step: Step, t: nat)
    requires ValidConfig(c) && Inv(c, s) && Enabled(c, s, step) && t < |c.sets| && step != Exit(c.owner[t])
    requires Inv(c, Next(c, s, step)) && Abandoned(c, Next(c, s, step), t)
    ensures Abandoned(c, s, t)
  {
    hide QueueInv, LockInv, TaskInv, NoDuplicates, GiveUp, AskFor;
    WhoExits(c, s, step, c.owner[t]);
    NotRunning(c, s, t);
    if s.place[t] == Idle {
      IdleStays(c, s, step, t);
    }
  }

  lemma IdleStays(c: Config, s: State, step: Step, t: nat)
    requires ValidConfig(c) && Inv(c, s) && Enabled(c, s, step) && t < |c.sets| && s.place[t] == Idle
    requires !step.Start? || step.e != c.owner[t]
    ensures |Next(c, s, step).place| == |c.sets| && Next(c, s, step).place[t] == Idle
  {
    assert ExecutorInv(c, s, step.e);
    if step.Unlock? {
      GrantedLeave(c, s, step.e);
    } else if step.Start? {
      assert s.executors[step.e].idle[0] in s.executors[step.e].idle;
    } else if step.Resume? {
      assert s.executors[step.e].ready[0] in s.executors[step.e].ready;
    } else if step.Deliver? {
      assert s.executors[step.e].batch[0] in s.executors[step.e].batch;
    }
  }

  lemma QuietMeansSuspended(c: Config, s: State, t: nat)
    requires ValidConfig(c) && Inv(c, s) && Quiet(c, s) && t < |c.sets|
    ensures s.place[t] == Idle || s.place[t] == Waiting || Abandoned(c, s, t)
  {
    hide Quiet;
    if s.place[t] != Idle && s.place[t] != Waiting && !Abandoned(c, s, t) {
      TaskCanStep(c, s, t);
    }
  }

  lemma TaskCanStep(c: Config, s: State, t: nat)
    requires ValidConfig(c) && Inv(c, s) && t < |c.sets| && s.place[t] != Idle && s.place[t] != Waiting
    requires !Abandoned(c, s, t)
    ensures !Quiet(c, s)
  {
    assert TaskInv(c, s, t);
    var e := c.owner[t];
    if s.place[t].Granted? {
      GrantedCanStep(c, s, t);
    } else if s.place[t] == Ready && s.executors[e].current == Nothing {
      assert Enabled(c, s, Resume(e));
    } else {
      RunningCanStep(c, s, e);
    }
  }

  lemma GrantedCanStep(c: Config, s: State, t: nat)
    requires ValidConfig(c) && Inv(c, s) && t < |c.sets| && s.place[t].Granted?
    ensures !Quiet(c, s)
  {
    assert TaskInv(c, s, t);
    assert Enabled(c, s, Deliver(s.place[t].giver));
  }

  lemma RunningCanStep(c: Config, s: State, e: nat)
    requires ValidConfig(c) && Inv(c, s) && e < c.executors && s.executors[e].current.Task?
    ensures !Quiet(c, s)
  {
    assert ExecutorInv(c, s, e);
    var t := s.executors[e].current.id;
    match s.place[t]
    case Acquiring => assert Enabled(c, s, Acquire(e)) || Enabled(c, s, Begin(e));
    case Executing => assert Enabled(c, s, End(e));
    case Releasing => assert Enabled(c, s, Deliver(e)) || Enabled(c, s, Unlock(e)) || Enabled(c, s, Finish(e));
  }

  /** Where nothing in flight can move, everything is idle and free if and only if no task is abandoned. */
  lemma QuietMeansDone(c: Config, s: State)
    requires ValidConfig(c) && Reachable(c, s) && Shaped(c, s) && Quiet(c, s)
    ensures AllDone(c, s) <==> !SomeAbandoned(c, s)
  {
    ReachableInv(c, s);
    if !SomeAbandoned(c, s) {
      forall t: nat | t < |c.sets| ensures s.place[t] == Idle && t in s.executors[c.owner[t]].idle {
        hide LockInv, QueueInv;
        NobodyBlocks(c, s, t);
        assert TaskInv(c, s, t);
      }
      forall l: nat | l < c.locks ensures s.locks[l] == UNLOCKED {
        assert LockInv(c, s, l);
        assert Holders(c, s, l, false) == {} && Holders(c, s, l, true) == {};
      }
    }
  }

  lemma NobodyBlocks(c: Config, s: State, t: nat)
    requires ValidConfig(c) && Inv(c, s) && Quiet(c, s) && !SomeAbandoned(c, s) && t < |c.sets|
    ensures s.place[t] == Idle
  {
    hide Quiet, Holds, QueueInv, LockInv, TaskInv, ExecutorInv;
    QuietMeansSuspended(c, s, t);
    if s.place[t] == Waiting {
      var l, h, write := BlockingHolder(c, s, t);
      QuietMeansSuspended(c, s, h);
      assert false;
    }
  }

  /** The length of a run without `Start` steps is bounded by the effort that its first state calls for. */
  lemma {:induction false} DrainIsBounded(c: Config, states: seq<State>, steps: seq<Step>, n: nat)
    requires IsRun(c, states, steps) && Inv(c, states[0]) && n <= |steps|
    requires forall i :: 0 <= i < n ==> !steps[i].Start?
    ensures Inv(c, states[n])
    ensures n + Effort(c, states[n]) <= Effort(c, states[0])
  {
    hide Effort, Next, Enabled, Inv;
    if n > 0 {
      DrainIsBounded(c, states, steps, n - 1);
      StepUsesEffort(c, states[n - 1], steps[n - 1]);
    }
  }

  /** In every run an abandoned task stays one and keeps its locks; without `Exit` steps no task becomes one. */
  lemma {:induction false} AbandonedInRun(c: Config, states: seq<State>, steps: seq<Step>, n: nat, t: nat)
    requires IsRun(c, states, steps) && Inv(c, states[0]) && n <= |steps|
    ensures Inv(c, states[n])
    ensures Abandoned(c, states[0], t) ==> Abandoned(c, states[n], t)
    ensures t < |c.sets| && Abandoned(c, states[0], t) ==>
              forall l, write :: Holds(c, states[0], t, l, write) ==> Holds(c, states[n], t, l, write)
    ensures Abandoned(c, states[n], t) && (forall i :: 0 <= i < n ==> !steps[i].Exit?) ==> Abandoned(c, states[0], t)
  {
    hide Abandoned, Next, Enabled, Inv, Holds;
    if n > 0 {
      var s, step := states[n - 1], steps[n - 1];
      AbandonedInRun(c, states, steps, n - 1, t);
      InvKept(c, s, step);
      if Abandoned(c, s, t) {
        AbandonedStays(c, s, step, t);
      } else if Abandoned(c, states[n], t) && !step.Exit? {
        TaskOfAbandoned(c, states[n], t);
        AbandonedBefore(c, s, step, t);
      }
    }
  }

  lemma TaskOfAbandoned(c: Config, s: State, t: nat)
    requires ValidConfig(c) && Shaped(c, s) && Abandoned(c, s, t)
    ensures t < |c.sets|
  {
  }

  /**
    From every reachable state, a run that starts no new task is finite, whatever the interleaving;
    where it cannot go on, every task is idle and every lock is free if and only if no executor
    that has exited owns a suspended task.  Who exits during the run decides that, and if nobody
    does, it was decided at its beginning.
    */
  lemma EverythingDrains(c: Config, states: seq<State>, steps: seq<Step>)
    requires IsRun(c, states, steps) && Reachable(c, states[0])
    requires forall i :: 0 <= i < |steps| ==> !steps[i].Start?
    ensures Shaped(c, states[0]) && |steps| <= Effort(c, states[0])
    ensures Shaped(c, states[|steps|])
    ensures Quiet(c, states[|steps|]) ==> (AllDone(c, states[|steps|]) <==> !SomeAbandoned(c, states[|steps|]))
    ensures SomeAbandoned(c, states[0]) ==> SomeAbandoned(c, states[|steps|])
    ensures (forall i :: 0 <= i < |steps| ==> !steps[i].Exit?) && SomeAbandoned(c, states[|steps|]) ==>
              SomeAbandoned(c, states[0])
  {
    hide Abandoned, Effort, Quiet, AllDone, Next, Enabled;
    var n := |steps|;
    ReachableInv(c, states[0]);
    DrainIsBounded(c, states, steps, n);
    ReachableExtends(c, states, steps, n);
    if Quiet(c, states[n]) {
      QuietMeansDone(c, states[n]);
    }
    if t: nat :| Abandoned(c, states[0], t) {
      AbandonedInRun(c, states, steps, n, t);
    }
    if t: nat :| Abandoned(c, states[n], t) {
      AbandonedInRun(c, states, steps, n, t);
    }
  }

  /** Some run that only brings tasks in flight further ends with every task idle and every lock free. */
  ghost predicate CanDrain(c: Config, s: State)
    requires ValidConfig(c)
  {
    exists states, steps :: DrainsBy(c, s, states, steps)
  }

  ghost predicate DrainsBy(c: Config, s: State, states: seq<State>, steps: seq<Step>)
    requires ValidConfig(c)
  {
    && IsRun(c, states, steps) && states[0] == s && (forall i :: 0 <= i < |steps| ==> Carries(steps[i]))
    && Shaped(c, states[|steps|]) && AllDone(c, states[|steps|])
  }

  /** What is in flight can drain if and only if no executor that has exited owns a suspended task. */
  lemma DrainsUnlessAbandoned(c: Config, s: State)
    requires ValidConfig(c) && Reachable(c, s) && Shaped(c, s)
    ensures CanDrain(c, s) <==> !SomeAbandoned(c, s)
  {
    hide IsRun, AllDone, Abandoned;
    ReachableInv(c, s);
    if SomeAbandoned(c, s) {
      forall states, steps ensures !DrainsBy(c, s, states, steps) {
        if DrainsBy(c, s, states, steps) {
          IsRunLength(c, states, steps);
          var t: nat :| Abandoned(c, s, t);
          AbandonedInRun(c, states, steps, |steps|, t);
          NotDone(c, states[|steps|], t);
        }
      }
    } else {
      Drain(c, s);
    }
  }

  lemma IsRunLength(c: Config, states: seq<State>, steps: seq<Step>)
    requires IsRun(c, states, steps)
    ensures |states| == |steps| + 1
  {
  }

  lemma NotDone(c: Config, s: State, t: nat)
    requires ValidConfig(c) && Shaped(c, s) && Abandoned(c, s, t)
    ensures !AllDone(c, s)
  {
  }

  lemma {:induction false} Drain(c: Config, s: State)
    requires ValidConfig(c) && Reachable(c, s) && Shaped(c, s) && !SomeAbandoned(c, s)
    ensures CanDrain(c, s)
    decreases Work(c, s, |c.sets|)
  {
    hide Inv, Enabled, Next, AllDone, Abandoned, Reachable, Work;
    ReachableInv(c, s);
    if Quiet(c, s) {
      QuietMeansDone(c, s);
      assert DrainsBy(c, s, [s], []);
    } else {
      var step :| Enabled(c, s, step) && Carries(step);
      var s' := Next(c, s, step);
      StepUsesWork(c, s, step);
      ReachableStep(c, s, step);
      ReachesShape(c, s, step);
      if t: nat :| Abandoned(c, s', t) {
        TaskOfAbandoned(c, s', t);
        AbandonedBefore(c, s, step, t);
        assert false;
      }
      Drain(c, s');
      var states, steps :| DrainsBy(c, s', states, steps);
      DrainsLonger(c, s, step, states, steps);
    }
  }

  lemma DrainsLonger(c: Config, s: State, step: Step, states: seq<State>, steps: seq<Step>)
    requires ValidConfig(c) && Shaped(c, s) && Enabled(c, s, step) && Carries(step)
    requires DrainsBy(c, Next(c, s, step), states, steps)
    ensures CanDrain(c, s)
  {
    hide Shaped, Enabled, Next, AllDone, ValidConfig;
    var (longer, taken) := ([s] + states, [step] + steps);
    forall i | 0 <= i < |taken|
      ensures Shaped(c, longer[i]) && Enabled(c, longer[i], taken[i]) && longer[i + 1] == Next(c, longer[i], taken[i])
      ensures Carries(taken[i])
    {
      if i > 0 {
        assert longer[i] == states[i - 1] && longer[i + 1] == states[i] && taken[i] == steps[i - 1];
      }
    }
    assert longer[|taken|] == states[|steps|];
    assert DrainsBy(c, s, longer, taken);
  }

  lemma ReachableStep(c: Config, s: State, step: Step)
    requires ValidConfig(c) && Reachable(c, s) && Shaped(c, s) && Enabled(c, s, step)
    ensures Reachable(c, Next(c, s, step))
  {
    hide Next, Enabled, Initial, Shaped, ValidConfig;
    var states, steps :| IsRun(c, states, steps) && states[0] == Initial(c) && states[|steps|] == s;
    var (longer, taken) := (states + [Next(c, s, step)], steps + [step]);
    forall i | 0 <= i < |taken|
      ensures Shaped(c, longer[i]) && Enabled(c, longer[i], taken[i]) && longer[i + 1] == Next(c, longer[i], taken[i])
    {
      if i < |steps| {
        assert longer[i] == states[i] && longer[i + 1] == states[i + 1] && taken[i] == steps[i];
      } else {
        assert longer[i] == s && taken[i] == step;
      }
    }
    assert IsRun(c, longer, taken);
  }

  lemma {:induction false} ReachableExtends(c: Config, states: seq<State>, steps: seq<Step>, n: nat)
    requires IsRun(c, states, steps) && Reachable(c, states[0]) && n <= |steps|
    ensures Reachable(c, states[n])
  {
    if n > 0 {
      ReachableExtends(c, states, steps, n - 1);
      ReachableStep(c, states[n - 1], steps[n - 1]);
    }
  }
}
