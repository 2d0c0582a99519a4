/**
  The loop of an executor thread: it runs its tasks until all of them have been skipped since the
  last one that was not, and agrees with the other executors on when to stop by messages that go
  around a ring.  One move is what the loop does with one task or one message.
  */
module ExecutorStates {

  datatype State = Normal | ShootDown | Wait1 | DoubleCheck | Wait2 | Poll

  datatype Kind = Hit | Skip

  /** What a task remembers: how its last execution went, and in which generation that was. */
  datatype TaskRecord = TaskRecord(last: Kind, generation: nat)

  /** What running a task leads to: it stays behind in the queue of a lock, or it gets to execute. */
  datatype Outcome = Parked | Executed(hit: bool)

  datatype ExecutionResult = None | Skipped | Taken | FirstSkip | FirstHit

  /** Where and in which state a message was sent on, and after which resets. */
  datatype Stamp = Stamp(executor: nat, state: State, resets: seq<nat>)

  datatype MessageKind = StartShootDown | StartWaiting1 | StartDoubleCheck | StartWaiting2 | Terminate | Reset

  /**
    `trail` and `born` are not part of the program: they record by whom the message was sent on, and
    which resets its sender had been through when it made the message.
    */
  datatype Message = Message(kind: MessageKind, id: nat, trail: seq<Stamp>, born: seq<nat>)

  datatype Status = Running | Exited | Failed

  /**
    An executor; `idle` and `ready` are lists of tasks, `inbox` is its message queue.  `checked` says
    that it has just found the ready list and the queue empty: by the time it acts on that, other
    threads may have put something there.  `resets` is not part of the program: it counts, for each
    executor, how often that one has sent this one back to the normal state.
    */
  datatype Loop = Loop(id: nat, state: State, generation: nat, points: int, tasks: seq<TaskRecord>,
                       idle: seq<nat>, ready: seq<nat>, inbox: seq<Message>, status: Status, checked: bool,
                       resets: seq<nat>)

  /** The executor after a move, and the messages it sent to its neighbor. */
  datatype Moved = Moved(loop: Loop, sent: seq<Message>)

  // ----- running a task

  function Classify(last: Kind, hit: bool): ExecutionResult {
    match last
    case Hit => if hit then Taken else FirstSkip
    case Skip => if hit then FirstHit else Skipped
  }

  /** The record of a task before it executes: one from another generation counts as a hit. */
  function Current(r: TaskRecord, generation: nat): TaskRecord {
    if generation != r.generation then TaskRecord(Hit, generation) else r
  }

  function Recorded(r: TaskRecord, generation: nat, outcome: Outcome): (TaskRecord, ExecutionResult) {
    match outcome
    case Parked => (r, None)
    case Executed(hit) =>
      (TaskRecord(if hit then Hit else Skip, generation), Classify(Current(r, generation).last, hit))
  }

  /** A message that starts its way around the ring. */
  function New(l: Loop, kind: MessageKind): Message { Message(kind, l.id, [], l.resets) }

  function Enter(l: Loop, state: State): Loop {
    l.(state := state, generation := l.generation + 1, points := 0)
  }

  function OneMore(resets: seq<nat>, id: nat): seq<nat> {
    if id < |resets| then resets[id := resets[id] + 1] else resets
  }

  /** Back to the normal state because executor `id` is. */
  function ResetBy(l: Loop, id: nat): Loop {
    Enter(l, Normal).(resets := OneMore(l.resets, id))
  }

  function BackToNormal(l: Loop): Moved {
    Moved(ResetBy(l, l.id), [New(l, Reset)])
  }

  /** How much the result of a task adds to the skips of this generation. */
  function Change(result: ExecutionResult): int {
    if result == FirstSkip then 1 else if result == FirstHit then -1 else 0
  }

  /** What the executor does with the result of a task. */
  function Counted(l: Loop, result: ExecutionResult): Moved {
    match l.state
    case Normal =>
      Moved(l.(points := l.points + Change(result)), [])
    case ShootDown => CountedDown(l, result)
    case DoubleCheck => CountedDown(l, result)
    case _ => Moved(l, [])
  }

  function CountedDown(l: Loop, result: ExecutionResult): Moved {
    if result == Taken || result == FirstHit then BackToNormal(l)
    else Moved(l.(points := l.points + if result == FirstSkip then 1 else 0), [])
  }

  function Ran(l: Loop, t: nat, outcome: Outcome): Moved
    requires t < |l.tasks|
  {
    var (r, result) := Recorded(l.tasks[t], l.generation, outcome);
    var l1 := l.(tasks := l.tasks[t := r], idle := if outcome.Parked? then l.idle else l.idle + [t]);
    Counted(l1, result)
  }

  // ----- messages

  function Forward(l: Loop, m: Message): Message {
    m.(trail := m.trail + [Stamp(l.id, l.state, l.resets)])
  }

  function Received(l: Loop, m: Message): Moved {
    match m.kind
    case StartShootDown =>
      if m.id != l.id && l.state == Normal then Moved(Enter(l, ShootDown), [Forward(l, m)]) else Moved(l, [])
    case StartWaiting1 =>
      if l.state != Wait1 then Moved(l, [])
      else if m.id != l.id then Moved(l, [Forward(l, m)])
      else Moved(Enter(l, DoubleCheck), [New(l, StartDoubleCheck)])
    case StartDoubleCheck =>
      if m.id != l.id && l.state == Wait1 then Moved(Enter(l, DoubleCheck), [Forward(l, m)]) else Moved(l, [])
    case StartWaiting2 =>
      if l.state != Wait2 then Moved(l, [])
      else if m.id != l.id then Moved(l, [Forward(l, m)])
      else Moved(l.(status := Exited), [New(l, Terminate)])
    case Terminate =>
      if l.state == Wait2 then Moved(l.(status := Exited), [Forward(l, m)]) else Moved(l.(status := Failed), [])
    case Reset =>
      if m.id != l.id then Moved(ResetBy(l, m.id), [Forward(l, m)]) else Moved(l, [])
  }

  // ----- nothing to run that has not been skipped

  /** `watching` says whether a precondition asked for a file descriptor, `poll` that one is ready. */
  function Advanced(l: Loop, watching: bool, poll: bool): Moved {
    match l.state
    case Normal => Moved(Enter(l, ShootDown), [New(l, StartShootDown)])
    case ShootDown => Moved(l.(state := Wait1), [New(l, StartWaiting1)])
    case DoubleCheck =>
      if watching then Moved(l.(state := Poll), [])
      else Moved(l.(state := Wait2), [New(l, StartWaiting2)])
    case Poll => if poll then BackToNormal(l) else Moved(l, [])
    case _ => Moved(l, [])
  }

  // ----- moves

  datatype Move =
    | Check                                  // find the ready list and the queue empty
    | RunReady(outcome: Outcome)             // resume the first task of the ready list
    | RunIdle(outcome: Outcome)              // execute the first task of the idle list, if any
    | Receive                                // take the first message out of the queue
    | Advance(watching: bool, poll: bool)    // every task has been skipped
    | Grant(task: nat)                       // another thread puts a task on the ready list
    | Deliver(message: Message)              // another thread puts a message in the queue

  predicate Allowed(l: Loop, move: Move) {
    match move
    case Check => l.status == Running && !l.checked && l.ready == [] && l.inbox == []
    case RunReady(_) => l.status == Running && !l.checked && l.ready != []
    case Receive => l.status == Running && !l.checked && l.inbox != []
    case Advance(_, _) => l.status == Running && l.checked && l.points == |l.tasks|
    case RunIdle(_) => l.status == Running && l.checked && l.points != |l.tasks|
    case Grant(t) => t < |l.tasks| && t !in l.idle && t !in l.ready
    case Deliver(_) => true
  }

  predicate Tasks(l: Loop) {
    && (forall i :: 0 <= i < |l.idle| ==> l.idle[i] < |l.tasks|)
    && (forall i :: 0 <= i < |l.ready| ==> l.ready[i] < |l.tasks|)
  }

  /** A ready task while polling, or an idle task while waiting, is where the program gives up. */
  function Moves(l: Loop, move: Move): Moved
    requires Tasks(l) && Allowed(l, move)
  {
    match move
    case Check => Moved(l.(checked := true), [])
    case RunReady(outcome) =>
      if l.state == Poll then Moved(l.(status := Failed), [])
      else Ran(l.(ready := l.ready[1..]), l.ready[0], outcome)
    case RunIdle(outcome) =>
      if l.idle == [] then Moved(l.(checked := false), [])
      else if !Counting(l.state) then Moved(l.(status := Failed, checked := false), [])
      else Ran(l.(idle := l.idle[1..], checked := false), l.idle[0], outcome)
    case Receive => Received(l.(inbox := l.inbox[1..]), l.inbox[0])
    case Advance(watching, poll) => Advanced(l.(checked := false), watching, poll)
    case Grant(t) => Moved(l.(ready := l.ready + [t]), [])
    case Deliver(m) => Moved(l.(inbox := l.inbox + [m]), [])
  }

  // ----- skip accounting

  predicate SkippedIn(r: TaskRecord, generation: nat) { r == TaskRecord(Skip, generation) }

  /** The number of tasks whose last execution in this generation was a skip. */
  function Skips(tasks: seq<TaskRecord>, generation: nat): nat {
    if tasks == [] then 0
    else Skips(tasks[..|tasks| - 1], generation) + if SkippedIn(tasks[|tasks| - 1], generation) then 1 else 0
  }

  predicate Counting(state: State) { state == Normal || state == ShootDown || state == DoubleCheck }

  /** In the counting states the points are the skips of this generation, else the number of tasks. */
  ghost predicate Inv(l: Loop) {
    && Tasks(l)
    && (forall t :: 0 <= t < |l.tasks| ==> l.tasks[t].generation <= l.generation)
    && l.points == if Counting(l.state) then Skips(l.tasks, l.generation) else |l.tasks|
  }

  ghost predicate AllSkipped(l: Loop) {
    forall t :: 0 <= t < |l.tasks| ==> SkippedIn(l.tasks[t], l.generation)
  }

  lemma {:induction false} SkipsAfter(tasks: seq<TaskRecord>, generation: nat, t: nat, r: TaskRecord)
    requires t < |tasks|
    ensures Skips(tasks[t := r], generation) ==
            Skips(tasks, generation) + (if SkippedIn(r, generation) then 1 else 0)
                                     - (if SkippedIn(tasks[t], generation) then 1 else 0)
  {
    var n := |tasks| - 1;
    if t < n {
      SkipsAfter(tasks[..n], generation, t, r);
      assert tasks[t := r][..n] == tasks[..n][t := r];
    } else {
      assert tasks[t := r][..n] == tasks[..n];
    }
  }

  lemma {:induction false} NoSkipsYet(tasks: seq<TaskRecord>, generation: nat)
    requires forall t :: 0 <= t < |tasks| ==> tasks[t].generation < generation
    ensures Skips(tasks, generation) == 0
  {
    if tasks != [] {
      NoSkipsYet(tasks[..|tasks| - 1], generation);
    }
  }

  /** The count reaches the number of tasks exactly when every task was skipped. */
  lemma {:induction false} CountIsFull(tasks: seq<TaskRecord>, generation: nat)
    ensures Skips(tasks, generation) <= |tasks|
    ensures Skips(tasks, generation) == |tasks| <==> forall t :: 0 <= t < |tasks| ==> SkippedIn(tasks[t], generation)
  {
    if tasks != [] {
      CountIsFull(tasks[..|tasks| - 1], generation);
    }
  }

  lemma RanKeepsInv(l: Loop, t: nat, outcome: Outcome)
    requires Inv(l) && t < |l.tasks| && l.state != Poll
    ensures Inv(Ran(l, t, outcome).loop)
  {
    hide Skips, Recorded, Counted;
    var (r, result) := Recorded(l.tasks[t], l.generation, outcome);
    var l1 := l.(tasks := l.tasks[t := r], idle := if outcome.Parked? then l.idle else l.idle + [t]);
    ResultTells(l.tasks[t], l.generation, outcome);
    SkipsAfter(l.tasks, l.generation, t, r);
    CountedKeepsInv(l1, result);
  }

  lemma ResultTells(before: TaskRecord, generation: nat, outcome: Outcome)
    requires before.generation <= generation
    ensures var (r, result) := Recorded(before, generation, outcome);
            && r.generation <= generation
            && Change(result) == (if SkippedIn(r, generation) then 1 else 0)
                                 - (if SkippedIn(before, generation) then 1 else 0)
  {
  }

  lemma CountedKeepsInv(l: Loop, result: ExecutionResult)
    requires Tasks(l) && forall t :: 0 <= t < |l.tasks| ==> l.tasks[t].generation <= l.generation
    requires l.state != Poll
    requires l.points == if Counting(l.state) then Skips(l.tasks, l.generation) - Change(result) else |l.tasks|
    ensures Inv(Counted(l, result).loop)
  {
    hide Skips;
    NoSkipsYet(l.tasks, l.generation + 1);
  }

  lemma ReceivedKeepsInv(l: Loop, m: Message)
    requires Inv(l)
    ensures Inv(Received(l, m).loop)
  {
    hide Skips;
    NoSkipsYet(l.tasks, l.generation + 1);
  }

  lemma AdvancedKeepsInv(l: Loop, watching: bool, poll: bool)
    requires Inv(l) && l.points == |l.tasks|
    ensures Inv(Advanced(l, watching, poll).loop)
  {
    hide Skips;
    NoSkipsYet(l.tasks, l.generation + 1);
  }

  /** The counters never underflow and always mean the same, whatever the executor does. */
  lemma MoveKeepsInv(l: Loop, move: Move)
    requires Inv(l) && Allowed(l, move)
    ensures Inv(Moves(l, move).loop)
  {
    hide Received, Advanced, Ran, Skips;
    match move
    case RunReady(outcome) =>
      if l.state != Poll {
        RanKeepsInv(l.(ready := l.ready[1..]), l.ready[0], outcome);
      }
    case RunIdle(outcome) =>
      if Counting(l.state) && l.idle != [] {
        RanKeepsInv(l.(idle := l.idle[1..], checked := false), l.idle[0], outcome);
      }
    case Receive =>
      ReceivedKeepsInv(l.(inbox := l.inbox[1..]), l.inbox[0]);
    case Advance(watching, poll) =>
      AdvancedKeepsInv(l.(checked := false), watching, poll);
    case _ =>
  }

  lemma PointsAreInRange(l: Loop)
    requires Inv(l)
    ensures 0 <= l.points <= |l.tasks|
    ensures Counting(l.state) && l.points == |l.tasks| ==> AllSkipped(l)
  {
    CountIsFull(l.tasks, l.generation);
  }

  /** While it waits or polls, an executor does not get to its idle list. */
  lemma IdleTasksWait(l: Loop, outcome: Outcome)
    requires Inv(l) && Allowed(l, RunIdle(outcome))
    ensures Counting(l.state)
  {
  }

  /** The executor gives up only on a ready task while polling, or on an early Terminate message. */
  lemma FailsOnlyIf(l: Loop, move: Move)
    requires Inv(l) && Allowed(l, move) && l.status == Running
    ensures Moves(l, move).loop.status == Failed <==>
            || (move.RunReady? && l.state == Poll)
            || (move.Receive? && l.inbox[0].kind == Terminate && l.state != Wait2)
  {
    if move.RunIdle? {
      IdleTasksWait(l, move.outcome);
    }
  }

  /** What a task executed while waiting makes no difference to the state or the count. */
  lemma StragglersAreIgnored(l: Loop, outcome: Outcome)
    requires Inv(l) && Allowed(l, RunReady(outcome)) && (l.state == Wait1 || l.state == Wait2)
    ensures var m := Moves(l, RunReady(outcome));
            m.sent == [] && m.loop.state == l.state && m.loop.points == l.points && m.loop.generation == l.generation
  {
  }

  /** The move runs a task, and what it does is not a skip. */
  predicate Hits(l: Loop, move: Move) {
    match move
    case RunReady(outcome) => l.ready != [] && outcome == Executed(true)
    case RunIdle(outcome) => l.idle != [] && outcome == Executed(true)
    case _ => false
  }

  /**
    While an executor shoots down or checks again, running a task makes it go back to normal if and only if
    the task was not skipped, whatever the task did before: in a new generation, with nothing counted and
    one Reset message sent.  Otherwise it stays where it is and sends nothing.
    */
  lemma HitGoesBack(l: Loop, move: Move)
    requires Inv(l) && Allowed(l, move) && (l.state == ShootDown || l.state == DoubleCheck)
    requires (move.RunReady? && l.ready != []) || (move.RunIdle? && l.idle != [])
    ensures var m := Moves(l, move);
            if Hits(l, move)
            then m.loop.state == Normal && m.loop.generation == l.generation + 1 && m.loop.points == 0 &&
              m.sent == [Message(Reset, l.id, [], l.resets)]
            else m.loop.state == l.state && m.loop.generation == l.generation && m.sent == []
  {
    hide Skips;
  }

  /** In the normal state a task never makes the executor change its state, and nothing is sent. */
  lemma NormalGoesOn(l: Loop, move: Move)
    requires Inv(l) && Allowed(l, move) && l.state == Normal && (move.RunReady? || move.RunIdle?)
    ensures var m := Moves(l, move); m.loop.state == Normal && m.loop.generation == l.generation && m.sent == []
  {
    hide Skips;
  }

  // ----- runs

  /** One state follows the other by a task that was not skipped. */
  ghost predicate HitStep(l: Loop, l': Loop) {
    Tasks(l) && exists move :: Allowed(l, move) && Hits(l, move) && Moves(l, move).loop == l'
  }

  /** No task was hit on the way from `i` to `k`. */
  ghost predicate NoHits(run: seq<Loop>, i: nat, k: nat) {
    forall m :: i < m <= k && m < |run| ==> !HitStep(run[m - 1], run[m])
  }

  ghost predicate Initial(l: Loop) {
    && Tasks(l) && l.state == Normal && l.generation == 0 && l.points == 0 && l.status == Running && !l.checked
    && (forall t :: 0 <= t < |l.tasks| ==> l.tasks[t] == TaskRecord(Hit, 0))
    && AllIdle(l) && Apart(l) && l.ready == []
  }

  ghost predicate AllIdle(l: Loop) {
    forall t: nat :: t < |l.tasks| ==> t in l.idle
  }

  /** No task is on the two lists of the executor more than once. */
  ghost predicate Apart(l: Loop) {
    NoneTwice(l.idle + l.ready)
  }

  ghost predicate NoneTwice(q: seq<nat>) {
    forall i, j :: 0 <= i < j < |q| ==> q[i] != q[j]
  }

  ghost predicate Follows(l: Loop, l': Loop) {
    Tasks(l) && exists move :: Allowed(l, move) && Moves(l, move).loop == l'
  }

  ghost predicate IsRun(run: seq<Loop>) {
    run != [] && Initial(run[0]) && forall k :: 0 < k < |run| ==> Follows(run[k - 1], run[k])
  }

  lemma MoveAt(run: seq<Loop>, k: nat) returns (move: Move)
    requires IsRun(run) && 0 < k < |run|
    ensures Tasks(run[k - 1]) && Allowed(run[k - 1], move) && Moves(run[k - 1], move).loop == run[k]
  {
    hide Moves, Allowed;
    assert Follows(run[k - 1], run[k]);
    move :| Allowed(run[k - 1], move) && Moves(run[k - 1], move).loop == run[k];
  }

  lemma {:induction false} RunKeepsInv(run: seq<Loop>, k: nat)
    requires IsRun(run) && k < |run|
    ensures Inv(run[k])
  {
    hide Moves, Allowed;
    if k == 0 {
      NoSkips(run[0].tasks);
    } else {
      RunKeepsInv(run, k - 1);
      var move := MoveAt(run, k);
      MoveKeepsInv(run[k - 1], move);
    }
  }

  lemma {:induction false} NoSkips(tasks: seq<TaskRecord>)
    requires forall t :: 0 <= t < |tasks| ==> tasks[t].last == Hit
    ensures Skips(tasks, 0) == 0
  {
    if tasks != [] {
      NoSkips(tasks[..|tasks| - 1]);
    }
  }

  ghost predicate During(run: seq<Loop>, i: nat, k: nat, state: State, generation: nat) {
    forall m :: i < m <= k && m < |run| ==> run[m].state == state && run[m].generation == generation
  }

  /** From a normal state at `j` on, shooting down in one generation up to `k`, without a hit. */
  ghost predicate Shooting(run: seq<Loop>, j: nat, k: nat) {
    && j < k < |run| && run[j].state == Normal && run[k].generation == run[j].generation + 1
    && During(run, j, k, ShootDown, run[k].generation) && NoHits(run, j, k)
  }

  /** From shooting down, with every task skipped at `i`, on to waiting up to `k`. */
  ghost predicate Waiting(run: seq<Loop>, j: nat, i: nat, k: nat) {
    && Shooting(run, j, i) && i < k < |run| && AllSkipped(run[i])
    && During(run, i, k, Wait1, run[i].generation)
  }

  /** From waiting up to `h` on to checking again, in the next generation, up to `k`, without a hit. */
  ghost predicate Checking(run: seq<Loop>, j: nat, i: nat, h: nat, k: nat) {
    && Waiting(run, j, i, h) && h < k < |run|
    && During(run, h, k, DoubleCheck, run[i].generation + 1) && NoHits(run, h, k)
  }

  ghost predicate Phase(run: seq<Loop>, k: nat)
    requires k < |run|
  {
    match run[k].state
    case ShootDown => exists j: nat :: Shooting(run, j, k)
    case Wait1 => exists j: nat, i: nat :: Waiting(run, j, i, k)
    case DoubleCheck => exists j: nat, i: nat, h: nat :: Checking(run, j, i, h, k)
    case _ => true
  }

  /** How the state can change in one move, and what has to be the case then. */
  ghost predicate StateStep(l: Loop, l': Loop) {
    match l'.state
    case ShootDown =>
      if l.state == ShootDown then l'.generation == l.generation
      else l.state == Normal && l'.generation == l.generation + 1
    case Wait1 =>
      && l'.generation == l.generation
      && (l.state == Wait1 || (l.state == ShootDown && AllSkipped(l)))
    case DoubleCheck =>
      if l.state == DoubleCheck then l'.generation == l.generation
      else l.state == Wait1 && l'.generation == l.generation + 1
    case Wait2 => l'.generation == l.generation && (l.state == Wait2 || (l.state == DoubleCheck && AllSkipped(l)))
    case Poll => l.state == Poll || (l.state == DoubleCheck && AllSkipped(l))
    case Normal => true
  }

  lemma StateChanges(l: Loop, move: Move)
    requires Inv(l) && Allowed(l, move)
    ensures StateStep(l, Moves(l, move).loop)
  {
    hide Skips, AllSkipped;
    PointsAreInRange(l);
  }

  lemma {:induction false} EveryPhase(run: seq<Loop>, k: nat)
    requires IsRun(run) && k < |run|
    ensures Phase(run, k)
  {
    hide Moves, Allowed, Inv;
    if k > 0 {
      EveryPhase(run, k - 1);
      RunKeepsInv(run, k - 1);
      var move := MoveAt(run, k);
      StateChanges(run[k - 1], move);
      if run[k].state == ShootDown || run[k].state == DoubleCheck {
        HitsLeave(run[k - 1], run[k]);
      }
      PhaseContinues(run, k);
    }
  }

  /** A hit does not lead to shooting down or to checking again. */
  lemma HitsLeave(l: Loop, l': Loop)
    requires Inv(l) && (l'.state == ShootDown || l'.state == DoubleCheck)
    ensures !HitStep(l, l')
  {
    if HitStep(l, l') {
      var move :| Allowed(l, move) && Hits(l, move) && Moves(l, move).loop == l';
      HitStays(l, move);
    }
  }

  lemma HitStays(l: Loop, move: Move)
    requires Inv(l) && Allowed(l, move) && Hits(l, move)
    ensures var l' := Moves(l, move).loop; l'.state != ShootDown && l'.state != DoubleCheck
  {
    hide Skips;
    match l.state
    case Normal => NormalGoesOn(l, move);
    case ShootDown | DoubleCheck => HitGoesBack(l, move);
    case _ =>
  }

  /** Every task was skipped in one generation, at `i`, and then in the next one, at `k`, without a hit. */
  ghost predicate TwoRounds(run: seq<Loop>, k: nat)
    requires k < |run|
  {
    AllSkipped(run[k]) && exists j: nat, i: nat, h: nat :: Checking(run, j, i, h, k)
  }

  /**
    An executor waits for the end, or polls, only after every one of its tasks was skipped in each of two
    generations, one right after the other, since it last was in the normal state; no task was hit in either
    of them.
    */
  lemma WaitsOnlyAfterTwoRounds(run: seq<Loop>, k: nat)
    requires IsRun(run) && 0 < k < |run| && (run[k].state == Wait2 || run[k].state == Poll)
    requires run[k - 1].state != run[k].state
    ensures TwoRounds(run, k - 1)
  {
    hide Moves, Allowed, Inv;
    EveryPhase(run, k - 1);
    RunKeepsInv(run, k - 1);
    var move := MoveAt(run, k);
    StateChanges(run[k - 1], move);
  }

  lemma PhaseContinues(run: seq<Loop>, k: nat)
    requires 0 < k < |run| && Phase(run, k - 1) && StateStep(run[k - 1], run[k])
    requires run[k].state == ShootDown || run[k].state == DoubleCheck ==> !HitStep(run[k - 1], run[k])
    ensures Phase(run, k)
  {
    hide HitStep, AllSkipped, During, NoHits;
    var l, l' := run[k - 1], run[k];
    match l'.state
    case ShootDown =>
      if l.state == ShootDown {
        var j: nat :| Shooting(run, j, k - 1);
        Lasts(run, j, k, ShootDown);
        assert Shooting(run, j, k);
      } else {
        Begins(run, k, ShootDown);
        assert Shooting(run, k - 1, k);
      }
    case Wait1 =>
      if l.state == Wait1 {
        var j: nat, i: nat :| Waiting(run, j, i, k - 1);
        LastsUntil(run, i, k - 1, Wait1, run[i].generation);
        Lasts(run, i, k, Wait1);
        assert Waiting(run, j, i, k);
      } else {
        var j: nat :| Shooting(run, j, k - 1);
        Begins(run, k, Wait1);
        LastsUntil(run, j, k - 1, ShootDown, run[k - 1].generation);
        assert Waiting(run, j, k - 1, k);
      }
    case DoubleCheck =>
      if l.state == DoubleCheck {
        var j: nat, i: nat, h: nat :| Checking(run, j, i, h, k - 1);
        LastsUntil(run, h, k - 1, DoubleCheck, run[i].generation + 1);
        Lasts(run, h, k, DoubleCheck);
        assert Checking(run, j, i, h, k);
      } else {
        var j: nat, i: nat :| Waiting(run, j, i, k - 1);
        LastsUntil(run, i, k - 1, Wait1, run[i].generation);
        Begins(run, k, DoubleCheck);
        assert Checking(run, j, i, k - 1, k);
      }
    case _ =>
  }

  lemma Begins(run: seq<Loop>, k: nat, state: State)
    requires 0 < k < |run| && run[k].state == state
    ensures During(run, k - 1, k, state, run[k].generation)
    ensures !HitStep(run[k - 1], run[k]) ==> NoHits(run, k - 1, k)
  {
    hide HitStep;
  }

  lemma Lasts(run: seq<Loop>, i: nat, k: nat, state: State)
    requires i < k - 1 && k < |run| && During(run, i, k - 1, state, run[k].generation) && run[k].state == state
    ensures During(run, i, k, state, run[k].generation)
    ensures NoHits(run, i, k - 1) && !HitStep(run[k - 1], run[k]) ==> NoHits(run, i, k)
  {
    hide HitStep;
  }

  lemma LastsUntil(run: seq<Loop>, i: nat, k: nat, state: State, generation: nat)
    requires i < k < |run| && During(run, i, k, state, generation)
    ensures run[k].state == state && run[k].generation == generation
  {
  }
}
