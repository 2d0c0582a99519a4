/**
  Short runs: tasks do wait for each other, readers do execute at the same time, and an executor
  that exits early leaves a task with a lock behind.
  */
module LockExamples {
  import opened InstanceSets
  import opened ReaderWriterLock
  import opened LockProtocol
  import opened LockSafety
  import opened LockProgress

  /** Two tasks on two executors that access the same instance. */
  function TwoTasks(access: Access): Config {
    Config([[Entry(0, access)], [Entry(0, access)]], [0, 1], 2, 1)
  }

  function Alone(t: nat): Executor { Executor([t], [], Nothing, [], false) }

  function Busy(t: nat): Executor { Executor([], [], Task(t), [], false) }

  function Free(): Executor { Executor([], [], Nothing, [], false) }

  /** An executor that has exited, with a ready list. */
  function Gone(ready: seq<nat>): Executor { Executor([], ready, Nothing, [], true) }

  ghost predicate CanReach(c: Config, s: State) {
    ValidConfig(c) && Shaped(c, s) && Reachable(c, s)
  }

  lemma Goes(c: Config, s: State, step: Step, s': State)
    requires CanReach(c, s) && Enabled(c, s, step) && Same(Next(c, s, step), s') && Shaped(c, s')
    ensures CanReach(c, s')
  {
    hide Enabled, Next, Reachable, ValidConfig, Shaped;
    ReachableStep(c, s, step);
    assert Next(c, s, step).executors == s'.executors && Next(c, s, step).locks == s'.locks;
  }

  ghost predicate Same(s: State, s': State) {
    && |s.executors| == |s'.executors| && (forall e :: 0 <= e < |s.executors| ==> s.executors[e] == s'.executors[e])
    && |s.locks| == |s'.locks| == 1 && s.locks[0].count == s'.locks[0].count && s.locks[0].queue == s'.locks[0].queue
    && s.pos == s'.pos && s.place == s'.place
  }

  lemma OwnedByTwo(c: Config)
    requires ValidConfig(c) && c.owner == [0, 1]
    ensures Owned(c, 0, 0) == [0] && Owned(c, 1, 0) == [1]
  {
    assert Owned(c, 0, 2) == [] && Owned(c, 1, 2) == [];
    assert Owned(c, 0, 1) == [] && Owned(c, 1, 1) == [1] + Owned(c, 1, 2);
    assert Owned(c, 0, 0) == [0] + Owned(c, 0, 1) && Owned(c, 1, 0) == Owned(c, 1, 1);
  }

  lemma Starts(access: Access)
    ensures CanReach(TwoTasks(access), State([UNLOCKED], [0, 0], [Idle, Idle], [Alone(0), Alone(1)]))
  {
    var c := TwoTasks(access);
    assert ValidConfig(c);
    OwnedByTwo(c);
    hide Owned, Next, Enabled, LockInv, QueueInv, ExecutorInv, TaskInv;
    var s := State([UNLOCKED], [0, 0], [Idle, Idle], [Alone(0), Alone(1)]);
    assert Initial(c).executors == s.executors && Initial(c).locks == s.locks && Initial(c).place == s.place;
    assert Initial(c) == s;
    assert IsRun(c, [s], []);
    InitialInv(c);
  }

  function FirstAsks(): State { State([UNLOCKED], [0, 0], [Acquiring, Idle], [Busy(0), Alone(1)]) }

  lemma FirstStarts(access: Access)
    ensures CanReach(TwoTasks(access), FirstAsks())
  {
    Starts(access);
    hide CanReach, GiveUp, AskFor, Delivered;
    Goes(TwoTasks(access), State([UNLOCKED], [0, 0], [Idle, Idle], [Alone(0), Alone(1)]), Start(0), FirstAsks());
  }

  /** The first task takes the lock of the instance. */
  lemma FirstHolds(access: Access)
    ensures CanReach(TwoTasks(access), Held(access, Acquiring))
  {
    FirstStarts(access);
    hide CanReach, GiveUp, Delivered;
    Goes(TwoTasks(access), FirstAsks(), Acquire(0), Held(access, Acquiring));
  }

  function Held(access: Access, place: Place): State {
    State([LockState(if access == AccessWrite then -1 else 1, [])], [1, 0], [place, Idle], [Busy(0), Alone(1)])
  }

  function BothRun(access: Access, first: Place): State {
    State([LockState(if access == AccessWrite then -1 else 1, [])], [1, 0], [first, Acquiring], [Busy(0), Busy(1)])
  }

  lemma SecondAsks()
    ensures CanReach(TwoTasks(AccessWrite), BothRun(AccessWrite, Acquiring))
  {
    FirstHolds(AccessWrite);
    hide CanReach, GiveUp, AskFor, Delivered;
    Goes(TwoTasks(AccessWrite), Held(AccessWrite, Acquiring), Start(1), BothRun(AccessWrite, Acquiring));
  }

  /** The second task asks for the lock while the first one holds it to write. */
  lemma SecondIsParked()
    ensures CanReach(TwoTasks(AccessWrite), Parked(Acquiring, Free()))
  {
    SecondAsks();
    hide CanReach, GiveUp, Delivered;
    Goes(TwoTasks(AccessWrite), BothRun(AccessWrite, Acquiring), Acquire(1), Parked(Acquiring, Free()));
  }

  /** Tasks do wait for locks. */
  lemma TasksCanWait()
    ensures exists c, s :: ValidConfig(c) && Shaped(c, s) && Reachable(c, s) && |c.sets| == 2 && s.place[1] == Waiting
  {
    hide Reachable, ValidConfig, Shaped;
    SecondIsParked();
    var c := TwoTasks(AccessWrite);
    var s := Parked(Acquiring, Free());
    assert CanReach(c, s) && s.place[1] == Waiting;
  }

  function Parked(place: Place, second: Executor): State {
    State([LockState(-1, [Waiter(1, false)])], [if place == Releasing then 0 else 1, 1], [place, Waiting],
          [Busy(0), second])
  }

  /** The second executor exits while its task is in the queue; the first task executes. */
  lemma SecondExits()
    ensures CanReach(TwoTasks(AccessWrite), Parked(Releasing, Gone([])))
  {
    hide CanReach, GiveUp, AskFor, Delivered;
    var c := TwoTasks(AccessWrite);
    SecondIsParked();
    Goes(c, Parked(Acquiring, Free()), Exit(1), Parked(Acquiring, Gone([])));
    Goes(c, Parked(Acquiring, Gone([])), Begin(0), Parked(Executing, Gone([])));
    Goes(c, Parked(Executing, Gone([])), End(0), Parked(Releasing, Gone([])));
  }

  /** The lock belongs to the second task. */
  function HandedOver(first: Place, second: Place, x: Executor, y: Executor): State {
    State([LockState(-1, [])], [1, 1], [first, second], [x, y])
  }

  /** The only waiter of a lock is granted it. */
  lemma GivesToWaiter()
    ensures var r := GiveUp(LockState(-1, [Waiter(1, false)]), Entry(0, AccessWrite));
            r.lock == LockState(-1, []) && TaskIds(r.granted) == [1]
  {
    ServiceIsMaximal(LockState(-1, [Waiter(1, false)]), 0);
    var r := GiveUp(LockState(-1, [Waiter(1, false)]), Entry(0, AccessWrite));
    assert r.lock.queue == [] && r.granted == [Waiter(1, false)];
    assert TaskIds(r.granted) == [1];
  }

  /** The first task releases the lock, which the second one is granted. */
  lemma GrantedLate()
    ensures CanReach(TwoTasks(AccessWrite), HandedOver(Releasing, Granted(0), Busy(0).(batch := [1]), Gone([])))
  {
    SecondExits();
    GivesToWaiter();
    hide CanReach, GiveUp, TaskIds;
    Goes(TwoTasks(AccessWrite), Parked(Releasing, Gone([])), Unlock(0),
         HandedOver(Releasing, Granted(0), Busy(0).(batch := [1]), Gone([])));
  }

  /** It is put on the ready list of the executor that has exited. */
  lemma DeliveredLate()
    ensures CanReach(TwoTasks(AccessWrite), HandedOver(Releasing, Ready, Busy(0), Gone([1])))
  {
    GrantedLate();
    hide CanReach, GiveUp, TaskIds, AskFor;
    Goes(TwoTasks(AccessWrite), HandedOver(Releasing, Granted(0), Busy(0).(batch := [1]), Gone([])), Deliver(0),
         HandedOver(Releasing, Ready, Busy(0), Gone([1])));
  }

  lemma FinishedFirst()
    ensures CanReach(TwoTasks(AccessWrite), HandedOver(Idle, Ready, Alone(0), Gone([1])))
  {
    DeliveredLate();
    hide CanReach, GiveUp, TaskIds, AskFor, Delivered;
    Goes(TwoTasks(AccessWrite), HandedOver(Releasing, Ready, Busy(0), Gone([1])), Finish(0),
         HandedOver(Idle, Ready, Alone(0), Gone([1])));
  }

  /** The task is ready and holds its lock, its executor has exited, and nothing in flight can move. */
  lemma ExitCanAbandon()
    ensures exists c, s :: ValidConfig(c) && Shaped(c, s) && Reachable(c, s) && Quiet(c, s)
                           && Abandoned(c, s, 1) && Holds(c, s, 1, 0, true)
  {
    hide Reachable, ValidConfig, Shaped;
    FinishedFirst();
    var c, s := TwoTasks(AccessWrite), HandedOver(Idle, Ready, Alone(0), Gone([1]));
    assert CanReach(c, s);
    assert Quiet(c, s);
    assert HoldsAt(c, s, 1, 0);
  }

  lemma FirstBegins()
    ensures CanReach(TwoTasks(AccessRead), Held(AccessRead, Executing))
  {
    FirstHolds(AccessRead);
    hide CanReach, GiveUp, AskFor, Delivered;
    Goes(TwoTasks(AccessRead), Held(AccessRead, Acquiring), Begin(0), Held(AccessRead, Executing));
  }

  lemma FirstExecutes()
    ensures CanReach(TwoTasks(AccessRead), BothRun(AccessRead, Executing))
  {
    FirstBegins();
    hide CanReach, GiveUp, AskFor, Delivered;
    Goes(TwoTasks(AccessRead), Held(AccessRead, Executing), Start(1), BothRun(AccessRead, Executing));
  }

  function BothHold(second: Place): State {
    State([LockState(2, [])], [1, 1], [Executing, second], [Busy(0), Busy(1)])
  }

  lemma SecondExecutes()
    ensures CanReach(TwoTasks(AccessRead), BothHold(Executing))
  {
    hide CanReach, GiveUp, Delivered;
    FirstExecutes();
    Goes(TwoTasks(AccessRead), BothRun(AccessRead, Executing), Acquire(1), BothHold(Acquiring));
    Goes(TwoTasks(AccessRead), BothHold(Acquiring), Begin(1), BothHold(Executing));
  }

  /** Tasks that read the same instance do execute at the same time. */
  lemma ReadersExecuteTogether()
    ensures exists c, s :: ValidConfig(c) && Shaped(c, s) && Reachable(c, s) && |c.sets| == 2
                           && s.place[0] == Executing && s.place[1] == Executing
  {
    hide Reachable, ValidConfig, Shaped;
    SecondExecutes();
    var c, s := TwoTasks(AccessRead), BothHold(Executing);
    assert CanReach(c, s) && s.place[0] == s.place[1] == Executing;
  }
}
