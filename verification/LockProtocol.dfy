/**
  Tasks, their executors and the instance locks, as a state machine.  One step is what a thread
  does inside one spin-lock or mutex section, so any interleaving of executors is a run.

  A task takes the locks of its instance set one at a time, in the order of the set.  When a lock
  refuses it, it stays behind in the queue of that lock and its executor goes on; the thread that
  later grants the lock puts it on the ready list of its executor, which resumes it.
  */
module LockProtocol {
  import opened InstanceSets
  import opened ReaderWriterLock

  /** What does not change: the instance set and the executor of every task, the number of locks. */
  datatype Config = Config(sets: seq<seq<Entry>>, owner: seq<nat>, executors: nat, locks: nat)

  ghost predicate ValidConfig(c: Config) {
    && |c.owner| == |c.sets|
    && (forall t :: 0 <= t < |c.owner| ==> c.owner[t] < c.executors)
    && (forall t :: 0 <= t < |c.sets| ==> Sorted(c.sets[t]))
    && (forall t, k :: 0 <= t < |c.sets| && 0 <= k < |c.sets[t]| ==> c.sets[t][k].instance < c.locks)
  }

  predicate Writes(e: Entry) { e.access == AccessWrite }

  /**
    Where a task is.  The program has no such field: it follows from the lists, and `Inv` below
    says how.  `Granted(e)` is a task that executor `e` took out of a queue and has not delivered
    yet; the last three are stages of the task that an executor is running.
    */
  datatype Place = Idle | Ready | Waiting | Granted(giver: nat) | Acquiring | Executing | Releasing

  predicate Running(p: Place) { p == Acquiring || p == Executing || p == Releasing }

  datatype Current = Nothing | Task(id: nat)

  /**
    An executor: its two lists, the task it runs, granted tasks it has yet to deliver, and whether its
    loop has returned.  Other threads put tasks on the ready list of an executor that has exited, too.
    */
  datatype Executor = Executor(idle: seq<nat>, ready: seq<nat>, current: Current, batch: seq<nat>, exited: bool)

  /** `pos[t]` is the position of task `t` in its instance set. */
  datatype State = State(locks: seq<LockState>, pos: seq<nat>, place: seq<Place>, executors: seq<Executor>)

  // ----- steps

  datatype Step =
    | Start(e: nat)    // take the head of the idle list
    | Resume(e: nat)   // take the head of the ready list
    | Acquire(e: nat)  // ask for the next lock
    | Begin(e: nat)    // all locks held: execute
    | End(e: nat)      // executed: start unlocking
    | Unlock(e: nat)   // release the next lock
    | Deliver(e: nat)  // put one granted task on the ready list of its executor
    | Finish(e: nat)   // all locks released: back to the idle list
    | Exit(e: nat)     // between two tasks: return from the loop

  ghost predicate Shaped(c: Config, s: State) {
    && |s.locks| == c.locks
    && |s.pos| == |s.place| == |c.sets|
    && |s.executors| == c.executors
    && (forall t :: 0 <= t < |s.pos| ==> s.pos[t] <= |c.sets[t]|)
    && (forall e :: 0 <= e < |s.executors| ==> ExecutorShaped(c, s.executors[e]))
  }

  ghost predicate ExecutorShaped(c: Config, x: Executor) {
    && (forall i :: 0 <= i < |x.idle| ==> x.idle[i] < |c.sets|)
    && (forall i :: 0 <= i < |x.ready| ==> x.ready[i] < |c.sets|)
    && (forall i :: 0 <= i < |x.batch| ==> x.batch[i] < |c.sets|)
    && (x.current.Task? ==> x.current.id < |c.sets|)
  }

  ghost predicate RunsAt(c: Config, s: State, e: nat, p: Place)
    requires ValidConfig(c) && Shaped(c, s)
  {
    e < c.executors && s.executors[e].current.Task? && s.place[s.executors[e].current.id] == p
  }

  ghost predicate Enabled(c: Config, s: State, step: Step)
    requires ValidConfig(c) && Shaped(c, s)
  {
    var e := step.e;
    e < c.executors &&
    var x := s.executors[e];
    match step
    case Start(_) => x.current == Nothing && !x.exited && x.idle != []
    case Resume(_) => x.current == Nothing && !x.exited && x.ready != []
    case Acquire(_) => RunsAt(c, s, e, Acquiring) && s.pos[x.current.id] < |c.sets[x.current.id]|
    case Begin(_) => RunsAt(c, s, e, Acquiring) && s.pos[x.current.id] == |c.sets[x.current.id]|
    case End(_) => RunsAt(c, s, e, Executing)
    case Unlock(_) => RunsAt(c, s, e, Releasing) && x.batch == [] && s.pos[x.current.id] < |c.sets[x.current.id]|
    case Deliver(_) => x.batch != []
    case Finish(_) => RunsAt(c, s, e, Releasing) && x.batch == [] && s.pos[x.current.id] == |c.sets[x.current.id]|
    case Exit(_) => x.current == Nothing && !x.exited
  }

  ghost function AskFor(l: LockState, t: nat, entry: Entry): Request {
    if Writes(entry) then AfterWriteLock(l, t) else AfterReadLock(l, t)
  }

  ghost function GiveUp(l: LockState, entry: Entry): Release {
    if Writes(entry) then AfterWriteUnlock(l) else AfterReadUnlock(l)
  }

  ghost function TaskIds(ws: seq<Waiter>): (ts: seq<nat>)
    ensures |ts| == |ws| && forall i :: 0 <= i < |ws| ==> ts[i] == ws[i].task
  {
    seq(|ws|, i requires 0 <= i < |ws| => ws[i].task)
  }

  /** `place` with every task of `ts` moved to `p`. */
  ghost function Moved(place: seq<Place>, ts: seq<nat>, p: Place): (r: seq<Place>)
    ensures |r| == |place|
    ensures forall t :: 0 <= t < |place| ==> r[t] == if t in ts then p else place[t]
  {
    seq(|place|, t requires 0 <= t < |place| => if t in ts then p else place[t])
  }

  /** The head of the batch of executor `e` goes to the end of the ready list of executor `o`. */
  ghost function Delivered(xs: seq<Executor>, e: nat, o: nat): (r: seq<Executor>)
    requires e < |xs| && xs[e].batch != []
    ensures |r| == |xs|
    ensures forall f :: 0 <= f < |xs| ==>
      && r[f].idle == xs[f].idle && r[f].current == xs[f].current && r[f].exited == xs[f].exited
      && r[f].batch == (if f == e then xs[f].batch[1..] else xs[f].batch)
      && r[f].ready == (if f == o then xs[f].ready + [xs[e].batch[0]] else xs[f].ready)
  {
    seq(|xs|, f requires 0 <= f < |xs| =>
      xs[f].(batch := if f == e then xs[f].batch[1..] else xs[f].batch,
             ready := if f == o then xs[f].ready + [xs[e].batch[0]] else xs[f].ready))
  }

  ghost function Next(c: Config, s: State, step: Step): State
    requires ValidConfig(c) && Shaped(c, s) && Enabled(c, s, step)
  {
    var e := step.e;
    var x := s.executors[e];
    match step
    case Start(_) =>
      var t := x.idle[0];
      s.(pos := s.pos[t := 0], place := s.place[t := Acquiring],
         executors := s.executors[e := x.(idle := x.idle[1..], current := Task(t))])
    case Resume(_) =>
      var t := x.ready[0];
      s.(place := s.place[t := Acquiring],
         executors := s.executors[e := x.(ready := x.ready[1..], current := Task(t))])
    case Acquire(_) =>
      var t := x.current.id;
      var entry := c.sets[t][s.pos[t]];
      var r := AskFor(s.locks[entry.instance], t, entry);
      var s' := s.(locks := s.locks[entry.instance := r.lock], pos := s.pos[t := s.pos[t] + 1]);
      if r.parked then
        s'.(place := s.place[t := Waiting], executors := s.executors[e := x.(current := Nothing)])
      else s'
    case Begin(_) =>
      s.(place := s.place[x.current.id := Executing])
    case End(_) =>
      var t := x.current.id;
      s.(pos := s.pos[t := 0], place := s.place[t := Releasing])
    case Unlock(_) =>
      var t := x.current.id;
      var entry := c.sets[t][s.pos[t]];
      var r := GiveUp(s.locks[entry.instance], entry);
      var batch := TaskIds(r.granted);
      s.(locks := s.locks[entry.instance := r.lock], pos := s.pos[t := s.pos[t] + 1],
         place := Moved(s.place, batch, Granted(e)),
         executors := s.executors[e := x.(batch := batch)])
    case Deliver(_) =>
      var t := x.batch[0];
      s.(place := s.place[t := Ready], executors := Delivered(s.executors, e, c.owner[t]))
    case Finish(_) =>
      var t := x.current.id;
      s.(place := s.place[t := Idle],
         executors := s.executors[e := x.(idle := x.idle + [t], current := Nothing)])
    case Exit(_) =>
      s.(executors := s.executors[e := x.(exited := true)])
  }

  // ----- who holds what

  /** The positions of its instance set that a task holds, as a half-open interval. */
  ghost function HeldFrom(p: Place, pos: nat): nat { if p == Releasing then pos else 0 }

  ghost function HeldTo(p: Place, pos: nat, size: nat): int {
    match p
    case Idle => 0
    case Waiting => pos - 1
    case Executing => size
    case Releasing => size
    case _ => pos
  }

  ghost predicate HoldsAt(c: Config, s: State, t: nat, k: nat)
    requires Shaped(c, s) && t < |c.sets|
  {
    && k < |c.sets[t]|
    && HeldFrom(s.place[t], s.pos[t]) <= k < HeldTo(s.place[t], s.pos[t], |c.sets[t]|)
  }

  ghost predicate Holds(c: Config, s: State, t: nat, l: nat, write: bool)
    requires Shaped(c, s) && t < |c.sets|
  {
    exists k: nat :: HoldsAt(c, s, t, k) && c.sets[t][k].instance == l && Writes(c.sets[t][k]) == write
  }

  ghost function Holders(c: Config, s: State, l: nat, write: bool): set<nat>
    requires Shaped(c, s)
  {
    set t: nat | t < |c.sets| && Holds(c, s, t, l, write)
  }

  // ----- invariant

  ghost predicate NoDuplicates(q: seq<nat>) {
    forall i, j :: 0 <= i < j < |q| ==> q[i] != q[j]
  }

  /** The lists of an executor are what the places say. */
  ghost predicate ExecutorInv(c: Config, s: State, e: nat)
    requires ValidConfig(c) && Shaped(c, s) && e < c.executors
  {
    var x := s.executors[e];
    && NoDuplicates(x.idle) && NoDuplicates(x.ready) && NoDuplicates(x.batch)
    && (forall t :: t in x.idle ==> c.owner[t] == e && s.place[t] == Idle)
    && (forall t :: t in x.ready ==> c.owner[t] == e && s.place[t] == Ready)
    && (forall t :: t in x.batch ==> s.place[t] == Granted(e))
    && (x.current.Task? ==> c.owner[x.current.id] == e && Running(s.place[x.current.id]))
    && (x.batch != [] ==> RunsAt(c, s, e, Releasing))
    && (x.exited ==> x.current == Nothing)
  }

  /** A waiting task waits for the last lock it asked for. */
  ghost predicate WaitsFor(c: Config, s: State, t: nat, l: nat, read: bool)
    requires ValidConfig(c) && Shaped(c, s)
  {
    && t < |c.sets| && s.place[t] == Waiting && s.pos[t] > 0
    && c.sets[t][s.pos[t] - 1].instance == l
    && read == !Writes(c.sets[t][s.pos[t] - 1])
  }

  ghost predicate QueueInv(c: Config, s: State, l: nat)
    requires ValidConfig(c) && Shaped(c, s) && l < c.locks
  {
    var q := s.locks[l].queue;
    && (forall i, j :: 0 <= i < j < |q| ==> q[i].task != q[j].task)
    && (forall i :: 0 <= i < |q| ==> WaitsFor(c, s, q[i].task, l, q[i].read))
  }

  /** Every task is on the list that its place names. */
  ghost predicate TaskInv(c: Config, s: State, t: nat)
    requires ValidConfig(c) && Shaped(c, s) && t < |c.sets|
  {
    var x := s.executors[c.owner[t]];
    match s.place[t]
    case Idle => t in x.idle
    case Ready => t in x.ready
    case Granted(e) => e < c.executors && t in s.executors[e].batch
    case Waiting =>
      && s.pos[t] > 0
      && var entry := c.sets[t][s.pos[t] - 1];
         Waiter(t, !Writes(entry)) in s.locks[entry.instance].queue
    case Executing => x.current == Task(t) && s.pos[t] == |c.sets[t]|
    case _ => x.current == Task(t)
  }

  /** The count of a lock is its number of readers, or -1 for its one writer. */
  ghost predicate LockInv(c: Config, s: State, l: nat)
    requires ValidConfig(c) && Shaped(c, s) && l < c.locks
  {
    && WellFormed(s.locks[l])
    && s.locks[l].count == |Holders(c, s, l, false)| - |Holders(c, s, l, true)|
    && (s.locks[l].count == -1 ==> Holders(c, s, l, false) == {})
    && (s.locks[l].count >= 0 ==> Holders(c, s, l, true) == {})
  }

  ghost predicate Inv(c: Config, s: State)
    requires ValidConfig(c)
  {
    && Shaped(c, s)
    && (forall e :: 0 <= e < c.executors ==> ExecutorInv(c, s, e))
    && (forall l :: 0 <= l < c.locks ==> QueueInv(c, s, l))
    && (forall t :: 0 <= t < |c.sets| ==> TaskInv(c, s, t))
    && (forall l :: 0 <= l < c.locks ==> LockInv(c, s, l))
  }
}
