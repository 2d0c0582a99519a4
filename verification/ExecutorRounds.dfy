/**
  What the moves and the iterations of an executor amount to: every change is announced to the neighbor, the
  lists are queues, and a round in which all tasks are skipped leads from each state to the next one.
  */
module ExecutorRounds {
  import opened ExecutorStates
  import opened ExecutorLoops

  // ----- messages

  /** The message that tells of a state. */
  function Announcement(l: Loop): MessageKind {
    if l.status == Exited then Terminate else
    match l.state
    case ShootDown => StartShootDown
    case Wait1 => StartWaiting1
    case DoubleCheck => StartDoubleCheck
    case Wait2 => StartWaiting2
    case _ => Reset
  }

  predicate Changes(l: Loop, l': Loop) {
    l'.state != l.state || l'.generation != l.generation || l'.status == Exited
  }

  /** The message comes from another executor, and is for one in this state; nobody's own Terminate comes back. */
  predicate Concerns(l: Loop, m: Message) {
    match m.kind
    case StartShootDown => m.id != l.id && l.state == Normal
    case StartWaiting1 => m.id != l.id && l.state == Wait1
    case StartDoubleCheck => m.id != l.id && l.state == Wait1
    case StartWaiting2 => m.id != l.id && l.state == Wait2
    case Terminate => l.state == Wait2
    case Reset => m.id != l.id
  }

  /** The executor's own message has gone around the ring, and it still waits for it. */
  predicate Returns(l: Loop, m: Message) {
    m.id == l.id && ((m.kind == StartWaiting1 && l.state == Wait1) || (m.kind == StartWaiting2 && l.state == Wait2))
  }

  function Stamped(l: Loop, m: Message): Message {
    Message(m.kind, m.id, m.trail + [Stamp(l.id, l.state, l.resets)], m.born)
  }

  predicate PassesOn(l: Loop, move: Move)
    requires Allowed(l, move)
  {
    move.Receive? && Concerns(l, l.inbox[0])
  }

  /**
    An executor tells its neighbor of every change of its state, except that it starts to poll, by one message
    of the kind that belongs to the new state.  The message is a new one of its own, or the one it has received,
    which bears its stamp; and nothing else is sent but messages that are passed on while it waits for them.
    */
  lemma ChangesAreAnnounced(l: Loop, move: Move)
    requires Inv(l) && Allowed(l, move) && l.status == Running
    ensures var (l', sent) := (Moves(l, move).loop, Moves(l, move).sent);
      if PassesOn(l, move) then sent == [Stamped(l, l.inbox[0])] && l.inbox[0].kind == Announcement(l')
      else if Changes(l, l') && l'.state != Poll then sent == [Message(Announcement(l'), l.id, [], l.resets)]
      else sent == []
  {
    hide Skips, Recorded;
  }

  /** What an executor does about a message that does not concern it. */
  lemma OtherMessages(l: Loop)
    requires Inv(l) && Allowed(l, Receive) && !Concerns(l, l.inbox[0])
    ensures var (m, l') := (l.inbox[0], Moves(l, Receive).loop);
      if Returns(l, m) then if m.kind == StartWaiting1 then l'.state == DoubleCheck else l'.status == Exited
      else !Changes(l, l') && (l'.status == Failed <==> m.kind == Terminate)
  {
    hide Skips;
  }

  // ----- lists

  /** A list loses its first entry, or none, and at most one entry comes to its end. */
  ghost predicate Queued<T(!new)>(q: seq<T>, q': seq<T>, taken: bool)
    requires taken ==> q != []
  {
    exists more :: |more| <= 1 && q' == (if taken then q[1..] else q) + more
  }

  lemma RunsQueue(l: Loop, t: nat, outcome: Outcome)
    requires t < |l.tasks|
    ensures var l' := Ran(l, t, outcome).loop;
      && l'.inbox == l.inbox && l'.ready == l.ready && l'.status == l.status
      && l'.idle == l.idle + if outcome.Parked? then [] else [t]
  {
  }

  lemma OthersQueue(l: Loop, m: Message, watching: bool, poll: bool)
    ensures var l' := Received(l, m).loop; l'.inbox == l.inbox && l'.ready == l.ready && l'.idle == l.idle
    ensures var l' := Advanced(l, watching, poll).loop; l'.inbox == l.inbox && l'.ready == l.ready && l'.idle == l.idle
  {
  }

  /** All three lists of an executor are queues. */
  lemma ListsAreQueues(l: Loop, move: Move)
    requires Inv(l) && Allowed(l, move)
    ensures var l' := Moves(l, move).loop;
      && Queued(l.inbox, l'.inbox, move.Receive?)
      && Queued(l.ready, l'.ready, move.RunReady? && l.state != Poll)
      && Queued(l.idle, l'.idle, move.RunIdle? && l.idle != [])
  {
    var l' := Moves(l, move).loop;
    assert move.RunIdle? ==> Counting(l.state) by { if move.RunIdle? { IdleTasksWait(l, move.outcome); } }
    hide Skips, Ran, Received, Advanced, Inv;
    assert l.inbox == l.inbox + [] && l.ready == l.ready + [] && l.idle == l.idle + [];
    match move
    case Receive =>
      OthersQueue(l.(inbox := l.inbox[1..]), l.inbox[0], false, false);
      assert l'.inbox == l.inbox[1..] + [];
    case Advance(watching, poll) => OthersQueue(l.(checked := false), New(l, Reset), watching, poll);
    case RunReady(outcome) =>
      if l.state != Poll {
        RunsQueue(l.(ready := l.ready[1..]), l.ready[0], outcome);
        assert l'.ready == l.ready[1..] + [];
      }
    case RunIdle(outcome) =>
      if l.idle != [] {
        RunsQueue(l.(idle := l.idle[1..], checked := false), l.idle[0], outcome);
      }
    case _ =>
  }

  // ----- iterations

  /** One iteration is one move or two: what holds over all runs of moves holds between iterations. */
  lemma IterationIsMoves(l: Loop, outcome: Outcome, watching: bool, poll: bool)
    requires Inv(l) && l.status == Running && !l.checked
    ensures var l' := Iteration(l, outcome, watching, poll).loop;
      Follows(l, l') || exists l1 :: Follows(l, l1) && Follows(l1, l')
  {
    hide Moves, Skips, Received;
    var l' := Iteration(l, outcome, watching, poll).loop;
    if l.ready != [] {
      var l1 := Moves(l, RunReady(outcome)).loop;
      MoveKeepsInv(l, RunReady(outcome));
      RunningReceives(l, outcome);
      assert Follows(l, l1);
      if l1.status == Running && l.inbox != [] {
        assert Allowed(l1, Receive) && Moves(l1, Receive).loop == l';
      }
    } else if l.inbox != [] {
      assert Moves(l, Receive) == Received(l.(inbox := l.inbox[1..]), l.inbox[0]) by { RunningReceives(l, outcome); }
      assert Follows(l, l');
    } else {
      var l1 := Moves(l, Check).loop;
      assert Follows(l, l1);
      MoveKeepsInv(l, Check);
      Checked(l);
      var move := if l.points == |l.tasks| then Advance(watching, poll) else RunIdle(outcome);
      assert Allowed(l1, move) && Moves(l1, move).loop == l';
    }
  }

  lemma Checked(l: Loop)
    requires Tasks(l) && Allowed(l, Check)
    ensures Moves(l, Check) == Moved(l.(checked := true), [])
  {
  }

  lemma RunningReceives(l: Loop, outcome: Outcome)
    requires Tasks(l) && l.status == Running && !l.checked
    ensures l.inbox != [] ==> Moves(l, Receive) == Received(l.(inbox := l.inbox[1..]), l.inbox[0])
    ensures l.ready != [] ==>
      var l1 := Moves(l, RunReady(outcome)).loop;
      && l1.inbox == l.inbox && !l1.checked
      && (l1.status == Running && l.inbox != [] && Tasks(l1) ==>
            Moves(l1, Receive) == Received(l1.(inbox := l.inbox[1..]), l.inbox[0]))
  {
    hide Recorded;
  }

  /** An iteration takes the first ready task and the first message, if there are any. */
  lemma IterationTakesBoth(l: Loop, outcome: Outcome, watching: bool, poll: bool)
    requires Inv(l) && l.status == Running && !l.checked && (l.ready != [] ==> l.state != Poll)
    ensures var l' := Iteration(l, outcome, watching, poll).loop;
      && (l.ready != [] ==> l'.ready == l.ready[1..]) && (l.inbox != [] ==> l'.inbox == l.inbox[1..])
  {
    hide Skips, Ran, Received;
    if l.ready != [] {
      RunsQueue(l.(ready := l.ready[1..]), l.ready[0], outcome);
      var l1 := Ran(l.(ready := l.ready[1..]), l.ready[0], outcome).loop;
      if l.inbox != [] { OthersQueue(l1.(inbox := l.inbox[1..]), l.inbox[0], false, false); }
    } else if l.inbox != [] {
      OthersQueue(l.(inbox := l.inbox[1..]), l.inbox[0], false, false);
    }
  }

  // ----- a round of skips

  /** An iteration during which nothing arrives, and the task that is run, if any, is skipped. */
  function Quietly(l: Loop): Moved {
    if Tasks(l) && l.status == Running && !l.checked then Iteration(l, Executed(false), false, false) else Moved(l, [])
  }

  function Later(l: Loop, n: nat): Loop {
    if n == 0 then l else Quietly(Later(l, n - 1)).loop
  }

  /** The round has just begun: all tasks are on the idle list, and none has been skipped yet. */
  ghost predicate Fresh(l: Loop) {
    && Inv(l) && Counting(l.state) && AllIdle(l) && NoneTwice(l.idle) && l.ready == [] && l.inbox == []
    && l.status == Running && !l.checked && forall t :: 0 <= t < |l.tasks| ==> !SkippedIn(l.tasks[t], l.generation)
  }

  /** The first `k` tasks of the idle list have been skipped, and are at its end. */
  ghost predicate SkippedFirst(l: Loop, x: Loop, k: nat) {
    && k <= |l.idle| && Inv(x) && |x.tasks| == |l.tasks| && x.points == k && x.idle == l.idle[k..] + l.idle[..k]
    && x == l.(tasks := x.tasks, points := k, idle := x.idle)
    && forall t :: 0 <= t < |l.tasks| ==> (SkippedIn(x.tasks[t], l.generation) <==> t in l.idle[..k])
  }

  ghost function Entries(q: seq<nat>): set<nat> { set t | t in q }

  lemma {:induction false} CountEntries(q: seq<nat>)
    requires NoneTwice(q)
    ensures |Entries(q)| == |q|
  {
    if q != [] {
      var n := |q| - 1;
      CountEntries(q[..n]);
      assert q == q[..n] + [q[n]] && q[n] !in q[..n];
      assert Entries(q) == Entries(q[..n]) + {q[n]};
    }
  }

  ghost function UpTo(n: nat): set<nat> { if n == 0 then {} else UpTo(n - 1) + {n - 1} }

  lemma {:induction false} CountUpTo(n: nat)
    ensures |UpTo(n)| == n && forall t: nat :: t in UpTo(n) <==> t < n
  {
    if n > 0 {
      CountUpTo(n - 1);
    }
  }

  lemma AllOnIdleList(l: Loop)
    requires Tasks(l) && AllIdle(l) && NoneTwice(l.idle)
    ensures |l.idle| == |l.tasks|
  {
    CountEntries(l.idle);
    CountUpTo(|l.tasks|);
    assert Entries(l.idle) == UpTo(|l.tasks|);
  }

  /** One task that had not been skipped in this generation is. */
  lemma OneSkip(x: Loop)
    requires Inv(x) && Counting(x.state) && x.status == Running && !x.checked && x.ready == [] && x.inbox == []
    requires x.idle != [] && x.points != |x.tasks| && !SkippedIn(x.tasks[x.idle[0]], x.generation)
    ensures var t := x.idle[0];
      Quietly(x) == Moved(x.(tasks := x.tasks[t := TaskRecord(Skip, x.generation)], points := x.points + 1,
                             idle := x.idle[1..] + [t]), [])
  {
    hide Skips;
  }

  lemma {:induction false} NothingCounted(tasks: seq<TaskRecord>, generation: nat)
    requires forall t :: 0 <= t < |tasks| ==> !SkippedIn(tasks[t], generation)
    ensures Skips(tasks, generation) == 0
  {
    if tasks != [] {
      NothingCounted(tasks[..|tasks| - 1], generation);
    }
  }

  /** After `k` such iterations the first `k` tasks have been skipped, and no message has been sent. */
  lemma {:induction false} RoundGoesOn(l: Loop, k: nat)
    requires Fresh(l) && k <= |l.tasks|
    ensures |l.idle| == |l.tasks| && SkippedFirst(l, Later(l, k), k)
    ensures k < |l.tasks| ==> Quietly(Later(l, k)).sent == []
  {
    hide Quietly, Skips;
    AllOnIdleList(l);
    if k == 0 {
      NothingCounted(l.tasks, l.generation);
    } else {
      RoundGoesOn(l, k - 1);
      NextSkip(l, Later(l, k - 1), k - 1);
    }
    if k < |l.tasks| {
      FirstIsLeft(l, Later(l, k), k);
      OneSkip(Later(l, k));
    }
  }

  lemma FirstIsLeft(l: Loop, x: Loop, k: nat)
    requires Fresh(l) && |l.idle| == |l.tasks| && k < |l.tasks| && SkippedFirst(l, x, k)
    ensures x.idle[0] == l.idle[k] && l.idle[k] !in l.idle[..k] && !SkippedIn(x.tasks[x.idle[0]], x.generation)
    ensures x.idle[1..] + [x.idle[0]] == l.idle[k + 1..] + l.idle[..k + 1]
  {
    hide Skips;
  }

  lemma NextSkip(l: Loop, x: Loop, k: nat)
    requires Fresh(l) && |l.idle| == |l.tasks| && k < |l.tasks| && SkippedFirst(l, x, k)
    ensures SkippedFirst(l, Quietly(x).loop, k + 1)
  {
    hide Skips, Quietly;
    FirstIsLeft(l, x, k);
    OneSkip(x);
    IterationKeepsInv(x, Executed(false), false, false);
    assert l.idle[..k + 1] == l.idle[..k] + [l.idle[k]];
  }

  /** What the executor does when all tasks have been skipped: it goes to the next state, and announces it. */
  ghost predicate LeadsOn(l: Loop, m: Moved, watching: bool) {
    && m.loop.inbox == [] && m.loop.status == Running && m.loop.id == l.id && |m.loop.tasks| == |l.tasks|
    && Inv(m.loop) && AllIdle(m.loop) && NoneTwice(m.loop.idle) && m.loop.ready == [] && !m.loop.checked
    && match l.state
       case Normal =>
         Fresh(m.loop) && m.loop.state == ShootDown && m.sent == [Message(StartShootDown, l.id, [], l.resets)]
       case ShootDown => m.loop.state == Wait1 && m.sent == [Message(StartWaiting1, l.id, [], l.resets)]
       case _ =>
         if watching then m.loop.state == Poll && m.sent == []
         else m.loop.state == Wait2 && m.sent == [Message(StartWaiting2, l.id, [], l.resets)]
  }

  /**
    After as many iterations as there are tasks all of them have been skipped, and the next iteration leads on:
    to the next state, which is announced.
    */
  lemma RoundEnds(l: Loop, outcome: Outcome, watching: bool, poll: bool)
    requires Fresh(l)
    ensures var x := Later(l, |l.tasks|);
      && Tasks(x) && x.status == Running && !x.checked && x.state == l.state && AllSkipped(x)
      && LeadsOn(l, Iteration(x, outcome, watching, poll), watching)
  {
    hide Skips, LeadsOn, Iteration;
    var x := Later(l, |l.tasks|);
    RoundGoesOn(l, |l.tasks|);
    Around(l, x);
    GoesOn(l, x, outcome, watching, poll);
  }

  lemma GoesOn(l: Loop, x: Loop, outcome: Outcome, watching: bool, poll: bool)
    requires Inv(x) && Counting(x.state) && AllIdle(x) && NoneTwice(x.idle) && AllSkipped(x)
    requires x == l.(tasks := x.tasks, points := |x.tasks|, idle := x.idle) && |x.tasks| == |l.tasks|
    requires x.ready == [] && x.inbox == [] && x.status == Running && !x.checked
    ensures LeadsOn(l, Iteration(x, outcome, watching, poll), watching)
  {
    hide Skips, AllSkipped;
    IterationKeepsInv(x, outcome, watching, poll);
  }

  /** At the end of the round the idle list is the one from its beginning. */
  lemma Around(l: Loop, x: Loop)
    requires Fresh(l) && |l.idle| == |l.tasks| && SkippedFirst(l, x, |l.tasks|)
    ensures x.idle == l.idle && AllSkipped(x)
  {
    hide Skips;
    assert l.idle[..|l.tasks|] == l.idle;
  }

  /** A polling executor with nothing else to do goes back to normal, in a new generation, when the poll succeeds. */
  lemma PollGoesBack(l: Loop, outcome: Outcome, watching: bool, poll: bool)
    requires Inv(l) && l.state == Poll && l.ready == [] && l.inbox == [] && l.status == Running && !l.checked
    ensures var m := Iteration(l, outcome, watching, poll);
      if poll
      then m.loop.state == Normal && m.loop.generation == l.generation + 1 && m.loop.points == 0 &&
        m.sent == [Message(Reset, l.id, [], l.resets)]
      else m == Moved(l, [])
  {
    hide Skips;
  }

  // ----- an executor on its own

  lemma InitialIsFresh(l: Loop)
    requires Initial(l) && l.inbox == []
    ensures Fresh(l)
  {
    NoSkips(l.tasks);
    assert l.idle + l.ready == l.idle;
  }

  /** One iteration of an executor that is its own neighbor. */
  function Alone(l: Loop): Loop {
    var m := Quietly(l);
    m.loop.(inbox := m.loop.inbox + m.sent)
  }

  function AloneLater(l: Loop, n: nat): Loop {
    if n == 0 then l else Alone(AloneLater(l, n - 1))
  }

  lemma {:induction false} AloneInRound(l: Loop, k: nat)
    requires Fresh(l) && k <= |l.tasks|
    ensures AloneLater(l, k) == Later(l, k)
  {
    hide Quietly, Fresh;
    if k > 0 {
      AloneInRound(l, k - 1);
      RoundGoesOn(l, k - 1);
      var m := Quietly(Later(l, k - 1));
      assert m.loop.inbox + [] == m.loop.inbox;
    }
  }

  lemma {:induction false} AloneTwice(l: Loop, n: nat, k: nat)
    ensures AloneLater(AloneLater(l, n), k) == AloneLater(l, n + k)
  {
    hide Alone;
    if k > 0 {
      AloneTwice(l, n, k - 1);
    }
  }

  /** A round of an executor on its own ends with its own message in its queue. */
  ghost predicate HasOwn(x: Loop, state: State, kind: MessageKind) {
    && x.status == Running && x.ready == [] && !x.checked && |x.inbox| == 1 && Inv(x) && AllIdle(x)
    && NoneTwice(x.idle) && x.inbox[0].id == x.id && x.state == state && x.inbox[0].kind == kind
  }

  lemma AloneRound(l: Loop)
    requires Fresh(l)
    ensures EndsRound(l, AloneLater(l, |l.tasks| + 1))
  {
    hide Fresh, LeadsOn, EndsRound, Iteration, AllSkipped;
    AloneInRound(l, |l.tasks|);
    RoundEnds(l, Executed(false), false, false);
    Hears(l, Quietly(Later(l, |l.tasks|)));
  }

  ghost predicate EndsRound(l: Loop, x: Loop) {
    && |x.tasks| == |l.tasks|
    && match l.state
       case Normal => HasOwn(x, ShootDown, StartShootDown) && Fresh(x.(inbox := []))
       case ShootDown => HasOwn(x, Wait1, StartWaiting1)
       case _ => HasOwn(x, Wait2, StartWaiting2)
  }

  lemma Hears(l: Loop, m: Moved)
    requires LeadsOn(l, m, false)
    ensures EndsRound(l, m.loop.(inbox := m.loop.inbox + m.sent))
  {
    hide Skips;
    var x := m.loop.(inbox := m.loop.inbox + m.sent);
    assert x.(inbox := []) == m.loop;
  }

  /** It ignores the messages that only others go along with. */
  lemma IgnoresOwn(x: Loop, state: State, kind: MessageKind)
    requires HasOwn(x, state, kind) && (kind == StartShootDown || kind == StartDoubleCheck)
    ensures Alone(x) == x.(inbox := []) && x.state == state
  {
    hide Skips;
  }

  lemma ChecksAgain(x: Loop)
    requires HasOwn(x, Wait1, StartWaiting1)
    ensures var y := Alone(x);
      HasOwn(y, DoubleCheck, StartDoubleCheck) && Fresh(y.(inbox := [])) && |y.tasks| == |x.tasks|
  {
    hide Skips;
    NoSkipsYet(x.tasks, x.generation + 1);
  }

  lemma ExitsAlone(x: Loop)
    requires HasOwn(x, Wait2, StartWaiting2)
    ensures Alone(x).status == Exited && x.status == Running
  {
    hide Skips;
  }

  /**
    An executor on its own whose tasks are all skipped leaves its loop: it runs each task three times, and takes
    four messages.
    */
  lemma AloneExits(l: Loop)
    requires Fresh(l) && l.state == Normal
    ensures var n := 3 * (|l.tasks| + 1) + 4;
      AloneLater(l, n).status == Exited && AloneLater(l, n - 1).status == Running
  {
    hide Fresh, HasOwn, Alone;
    var n := |l.tasks| + 1;
    AloneRound(l);
    var x1 := AloneLater(l, n);
    IgnoresOwn(x1, ShootDown, StartShootDown);
    var y1 := AloneLater(x1, 1);
    AloneTwice(l, n, 1);
    AloneRound(y1);
    var x2 := AloneLater(y1, n);
    AloneTwice(l, n + 1, n);
    ChecksAgain(x2);
    IgnoresOwn(Alone(x2), DoubleCheck, StartDoubleCheck);
    var y2 := AloneLater(x2, 2);
    assert y2 == Alone(AloneLater(x2, 1)) && AloneLater(x2, 1) == Alone(x2);
    AloneTwice(l, 2 * n + 1, 2);
    AloneRound(y2);
    var x3 := AloneLater(y2, n);
    AloneTwice(l, 2 * n + 3, n);
    ExitsAlone(x3);
  }
}
