/**
  An executor that polls can be given a ready task, which its loop does not allow for: a task that was
  skipped may be run again before the others have been, and then stay behind in the queue of a lock.
  */
module PollingFailures {
  import opened ExecutorStates
  import opened MessageRings
  import opened RingFailures

  /** An executor with two tasks. */
  function Double(state: State, generation: nat, points: nat, first: TaskRecord, second: TaskRecord,
                  idle: seq<nat>, ready: seq<nat>): Loop {
    Loop(0, state, generation, points, [first, second], idle, ready, [], Running, false, [])
  }

  ghost predicate EndsIn(run: seq<Loop>, l: Loop) { IsRun(run) && run[|run| - 1] == l }

  ghost predicate CanCome(l: Loop) { exists run :: EndsIn(run, l) }

  lemma Goes(l: Loop, move: Move, l': Loop)
    requires CanCome(l) && Tasks(l) && Allowed(l, move) && Moves(l, move).loop == l'
    ensures CanCome(l')
  {
    hide Moves, Allowed, Initial;
    var run :| EndsIn(run, l);
    var run' := run + [l'];
    forall k | 0 < k < |run'|
      ensures Follows(run'[k - 1], run'[k])
    {
      if k < |run| {
        assert Follows(run[k - 1], run[k]);
      }
    }
    assert EndsIn(run', l');
  }

  /** Runs the first task of the idle list. */
  lemma Runs(l: Loop, outcome: Outcome, l': Loop)
    requires CanCome(l) && Tasks(l) && Allowed(l, Check) && l.idle != [] && Counting(l.state) && l.points != |l.tasks|
    requires Ran(l.(idle := l.idle[1..]), l.idle[0], outcome).loop == l'
    ensures CanCome(l')
  {
    hide CanCome;
    Goes(l, Check, l.(checked := true));
    assert l.(idle := l.idle[1..]) == l.(idle := l.idle[1..], checked := false);
    Goes(l.(checked := true), RunIdle(outcome), l');
  }

  /** A task that counts as hit in this generation. */
  predicate Due(r: TaskRecord, generation: nat) { r.generation != generation || r.last == Hit }

  /** Both tasks are skipped. */
  lemma SkipsBoth(state: State, generation: nat, a: TaskRecord, b: TaskRecord)
    requires Counting(state) && Due(a, generation) && Due(b, generation)
    requires CanCome(Double(state, generation, 0, a, b, [0, 1], []))
    ensures CanCome(Double(state, generation, 2, TaskRecord(Skip, generation), TaskRecord(Skip, generation), [0, 1],
      []))
  {
    hide CanCome;
    var skipped := TaskRecord(Skip, generation);
    var l, l1 := Double(state, generation, 0, a, b, [0, 1], []), Double(state, generation, 1, skipped, b, [1, 0], []);
    assert l.idle[1..] + [0] == l1.idle && l.tasks[0 := skipped] == l1.tasks;
    Runs(l, Executed(false), l1);
    var l2 := Double(state, generation, 2, skipped, skipped, [0, 1], []);
    assert l1.idle[1..] + [1] == l2.idle && l1.tasks[1 := skipped] == l2.tasks;
    Runs(l1, Executed(false), l2);
  }

  /** Goes on when both tasks were skipped; a precondition asked for a file descriptor. */
  lemma GoesOn(l: Loop, l': Loop)
    requires CanCome(l) && Tasks(l) && Allowed(l, Check) && l.points == |l.tasks|
    requires Advanced(l, true, false).loop == l'
    ensures CanCome(l')
  {
    hide CanCome;
    Goes(l, Check, l.(checked := true));
    assert l.(checked := true).(checked := false) == l;
    Goes(l.(checked := true), Advance(true, false), l');
  }

  /** The message that it waits for comes back. */
  lemma Accepts(l: Loop, l': Loop)
    requires CanCome(l) && Tasks(l) && Allowed(l, Check)
    requires Received(l, New(l, StartWaiting1)).loop == l'
    ensures CanCome(l')
  {
    hide CanCome, Received;
    var m := New(l, StartWaiting1);
    Goes(l, Deliver(m), l.(inbox := [m]));
    assert l.(inbox := [m]).(inbox := [m][1..]) == l;
    Goes(l.(inbox := [m]), Receive, l');
  }

  // ----- the run

  lemma Starts()
    ensures CanCome(Double(Normal, 0, 0, TaskRecord(Hit, 0), TaskRecord(Hit, 0), [0, 1], []))
  {
    var l := Double(Normal, 0, 0, TaskRecord(Hit, 0), TaskRecord(Hit, 0), [0, 1], []);
    assert EndsIn([l], l);
  }

  /** Both tasks are skipped, and the executor starts shooting down. */
  lemma CountsBoth()
    ensures CanCome(Double(ShootDown, 1, 0, TaskRecord(Skip, 0), TaskRecord(Skip, 0), [0, 1], []))
  {
    hide CanCome;
    Starts();
    SkipsBoth(Normal, 0, TaskRecord(Hit, 0), TaskRecord(Hit, 0));
    GoesOn(Double(Normal, 0, 2, TaskRecord(Skip, 0), TaskRecord(Skip, 0), [0, 1], []),
           Double(ShootDown, 1, 0, TaskRecord(Skip, 0), TaskRecord(Skip, 0), [0, 1], []));
  }

  /** Both are skipped again, and the executor waits. */
  lemma WaitsOnce()
    ensures CanCome(Double(Wait1, 1, 2, TaskRecord(Skip, 1), TaskRecord(Skip, 1), [0, 1], []))
  {
    hide CanCome;
    CountsBoth();
    SkipsBoth(ShootDown, 1, TaskRecord(Skip, 0), TaskRecord(Skip, 0));
    GoesOn(Double(ShootDown, 1, 2, TaskRecord(Skip, 1), TaskRecord(Skip, 1), [0, 1], []),
           Double(Wait1, 1, 2, TaskRecord(Skip, 1), TaskRecord(Skip, 1), [0, 1], []));
  }

  /** Its message comes back, so it checks again; one task is skipped. */
  lemma ChecksAgain()
    ensures CanCome(Double(DoubleCheck, 2, 1, TaskRecord(Skip, 2), TaskRecord(Skip, 1), [1, 0], []))
  {
    hide CanCome;
    var l := Double(Wait1, 1, 2, TaskRecord(Skip, 1), TaskRecord(Skip, 1), [0, 1], []);
    WaitsOnce();
    Accepts(l, Double(DoubleCheck, 2, 0, TaskRecord(Skip, 1), TaskRecord(Skip, 1), [0, 1], []));
    l := Double(DoubleCheck, 2, 0, TaskRecord(Skip, 1), TaskRecord(Skip, 1), [0, 1], []);
    Runs(l, Executed(false), Double(DoubleCheck, 2, 1, TaskRecord(Skip, 2), TaskRecord(Skip, 1), [1, 0], []));
  }

  /** The other task is parked in the queue of a lock, and so is the first one, which is run again. */
  lemma BothParked()
    ensures CanCome(Double(DoubleCheck, 2, 1, TaskRecord(Skip, 2), TaskRecord(Skip, 1), [], []))
  {
    hide CanCome;
    var l := Double(DoubleCheck, 2, 1, TaskRecord(Skip, 2), TaskRecord(Skip, 1), [1, 0], []);
    ChecksAgain();
    Runs(l, Parked, Double(DoubleCheck, 2, 1, TaskRecord(Skip, 2), TaskRecord(Skip, 1), [0], []));
    l := Double(DoubleCheck, 2, 1, TaskRecord(Skip, 2), TaskRecord(Skip, 1), [0], []);
    Runs(l, Parked, Double(DoubleCheck, 2, 1, TaskRecord(Skip, 2), TaskRecord(Skip, 1), [], []));
  }

  /** The other one is granted its lock and is skipped: the executor has counted both. */
  lemma CountedBoth()
    ensures CanCome(Double(DoubleCheck, 2, 2, TaskRecord(Skip, 2), TaskRecord(Skip, 2), [1], []))
  {
    hide CanCome;
    var l := Double(DoubleCheck, 2, 1, TaskRecord(Skip, 2), TaskRecord(Skip, 1), [], []);
    BothParked();
    Goes(l, Grant(1), Double(DoubleCheck, 2, 1, TaskRecord(Skip, 2), TaskRecord(Skip, 1), [], [1]));
    l := Double(DoubleCheck, 2, 1, TaskRecord(Skip, 2), TaskRecord(Skip, 1), [], [1]);
    Goes(l, RunReady(Executed(false)), Double(DoubleCheck, 2, 2, TaskRecord(Skip, 2), TaskRecord(Skip, 2), [1], []));
  }

  /** The executor polls. */
  lemma Polls()
    ensures CanCome(Double(Poll, 2, 2, TaskRecord(Skip, 2), TaskRecord(Skip, 2), [1], []))
  {
    hide CanCome;
    CountedBoth();
    GoesOn(Double(DoubleCheck, 2, 2, TaskRecord(Skip, 2), TaskRecord(Skip, 2), [1], []),
           Double(Poll, 2, 2, TaskRecord(Skip, 2), TaskRecord(Skip, 2), [1], []));
  }

  /** The first task is granted its lock while the executor polls. */
  lemma PollingCanFail()
    ensures exists run: seq<Loop> :: IsRun(run) && run[|run| - 1].state == Poll && run[|run| - 1].status == Failed
  {
    var l := Double(Poll, 2, 2, TaskRecord(Skip, 2), TaskRecord(Skip, 2), [1], []);
    assert CanCome(l) by {
      hide CanCome;
      Polls();
    }
    var l1 := l.(ready := [0]);
    Goes(l, Grant(0), l1);
    Goes(l1, RunReady(Executed(false)), l1.(status := Failed));
    var run :| EndsIn(run, l1.(status := Failed));
  }

  // ----- an exit with a parked task

  /** The executor has counted both and waits for the end, while the first task is still in the queue of a lock. */
  lemma WaitsWithParkedTask()
    ensures CanCome(Double(Wait2, 2, 2, TaskRecord(Skip, 2), TaskRecord(Skip, 2), [1], []))
  {
    hide CanCome;
    var l := Double(DoubleCheck, 2, 2, TaskRecord(Skip, 2), TaskRecord(Skip, 2), [1], []);
    CountedBoth();
    Goes(l, Check, l.(checked := true));
    Goes(l.(checked := true), Advance(false, false), l.(state := Wait2));
  }

  /** The task is in the queue of a lock, or running. */
  predicate OnNoList(l: Loop, t: nat) { t < |l.tasks| && t !in l.idle && t !in l.ready }

  /** An executor can exit while one of its tasks is on neither of its lists. */
  lemma ExitsWithParkedTask()
    ensures exists l, t: nat :: CanCome(l) && l.status == Exited && OnNoList(l, t)
  {
    var l := Double(Wait2, 2, 2, TaskRecord(Skip, 2), TaskRecord(Skip, 2), [1], []);
    var m := New(l, StartWaiting2);
    WaitsWithParkedTask();
    Goes(l, Deliver(m), l.(inbox := [m]));
    assert l.(inbox := [m]).(inbox := [m][1..]) == l;
    Goes(l.(inbox := [m]), Receive, l.(status := Exited));
    assert OnNoList(l.(status := Exited), 0);
  }

  // ----- exactly when polling can fail

  ghost predicate IsPolling(ring: seq<Loop>, i: nat) {
    i < |ring| && ring[i].status == Running && ring[i].state == Poll
  }

  /** The next move of executor `i`, other than taking a message, may be one on which it fails. */
  ghost predicate FailsNext(ring: seq<Loop>, i: nat) {
    exists move :: MayTurn(ring, i, move) && !move.Receive? && Moves(ring[i], move).loop.status == Failed
  }

  ghost predicate FailsAfter(run: seq<seq<Loop>>, ring: seq<Loop>, i: nat) {
    Continues(run, ring) && (forall k :: 0 <= k < |run| ==> IsPolling(run[k], i)) && FailsNext(run[|run| - 1], i)
  }

  /** Executor `i` can come to fail, other than on a message, without having stopped polling before. */
  ghost predicate PollCanFail(ring: seq<Loop>, i: nat) {
    exists run :: FailsAfter(run, ring, i)
  }

  lemma WithoutOne(q: seq<nat>, k: nat)
    requires NoneTwice(q) && k < |q|
    ensures NoneTwice(q[..k] + q[k + 1..])
  {
  }

  lemma FirstToEnd(q: seq<nat>, r: seq<nat>)
    requires q != [] && NoneTwice(q + r)
    ensures NoneTwice(q[1..] + [q[0]] + r)
  {
    var s, t := q + r, q[1..] + [q[0]] + r;
    forall i, j | 0 <= i < j < |t| ensures t[i] != t[j] {
      assert t[i] == s[if i < |q| - 1 then i + 1 else if i == |q| - 1 then 0 else i];
      assert t[j] == s[if j < |q| - 1 then j + 1 else if j == |q| - 1 then 0 else j];
    }
  }

  lemma OneMoreTask(q: seq<nat>, t: nat)
    requires NoneTwice(q) && t !in q
    ensures NoneTwice(q + [t])
  {
  }

  lemma RanLists(l: Loop, t: nat, outcome: Outcome)
    requires t < |l.tasks|
    ensures var l' := Ran(l, t, outcome).loop;
            && l'.idle == (if outcome.Parked? then l.idle else l.idle + [t]) && l'.ready == l.ready
            && |l'.tasks| == |l.tasks|
  {
  }

  /** Whatever an executor does with a ready or an idle task, no task gets on its lists twice. */
  lemma RanKeepsApart(l: Loop, outcome: Outcome)
    requires Tasks(l) && Apart(l)
    ensures l.ready != [] ==> Apart(Ran(l.(ready := l.ready[1..]), l.ready[0], outcome).loop)
    ensures l.idle != [] ==> Apart(Ran(l.(idle := l.idle[1..], checked := false), l.idle[0], outcome).loop)
  {
    hide NoneTwice, Ran;
    var q := l.idle + l.ready;
    if l.ready != [] {
      RanLists(l.(ready := l.ready[1..]), l.ready[0], outcome);
      WithoutOne(q, |l.idle|);
      assert l.idle + l.ready[1..] == q[..|l.idle|] + q[|l.idle| + 1..];
      assert l.idle + [l.ready[0]] + l.ready[1..] == q;
    }
    if l.idle != [] {
      RanLists(l.(idle := l.idle[1..], checked := false), l.idle[0], outcome);
      WithoutOne(q, 0);
      assert l.idle[1..] + l.ready == q[..0] + q[1..];
      FirstToEnd(l.idle, l.ready);
    }
  }

  lemma MoveKeepsApart(l: Loop, move: Move)
    requires Inv(l) && Allowed(l, move) && Apart(l)
    ensures Apart(Moves(l, move).loop)
  {
    hide NoneTwice, Received, Advanced, Ran, Skips;
    match move
    case RunReady(outcome) => RanKeepsApart(l, outcome);
    case RunIdle(outcome) => RanKeepsApart(l, outcome);
    case Receive => ReceiveKeepsLists(l.(inbox := l.inbox[1..]), l.inbox[0]);
    case Advance(watching, poll) => AdvanceKeepsLists(l.(checked := false), watching, poll);
    case Grant(t) =>
      OneMoreTask(l.idle + l.ready, t);
      assert l.idle + (l.ready + [t]) == l.idle + l.ready + [t];
    case _ =>
  }

  ghost predicate SameLists(l: Loop, l': Loop) {
    l'.idle == l.idle && l'.ready == l.ready && |l'.tasks| == |l.tasks|
  }

  lemma ReceiveKeepsLists(l: Loop, m: Message)
    ensures SameLists(l, Received(l, m).loop)
  {
  }

  lemma AdvanceKeepsLists(l: Loop, watching: bool, poll: bool)
    ensures SameLists(l, Advanced(l, watching, poll).loop)
  {
  }

  /** A turn is a move for one executor, and the others at most get messages. */
  lemma TurnAt(ring: seq<Loop>, i: nat, move: Move, k: nat)
    requires MayTurn(ring, i, move) && k < |ring|
    ensures |Turn(ring, i, move)| == |ring|
    ensures var l := if k == i then Moves(ring[i], move).loop else ring[k];
            Turn(ring, i, move)[k] == l.(inbox := Turn(ring, i, move)[k].inbox)
  {
    hide Moves, Allowed;
  }

  lemma {:induction false} RunKeepsApart(run: seq<seq<Loop>>, k: nat, i: nat)
    requires IsRingRun(run) && k < |run| && i < |run[k]|
    ensures Inv(run[k][i]) && Apart(run[k][i])
  {
    hide Moves, Allowed, Turn, Inv;
    RunKeepsRingInv(run, k);
    if k > 0 {
      assert TurnsTo(run[k - 1], run[k]);
      var j: nat, move :| MayTurn(run[k - 1], j, move) && Turn(run[k - 1], j, move) == run[k];
      SameSize(run[k - 1], j, move);
      TurnAt(run[k - 1], j, move, i);
      RunKeepsApart(run, k - 1, i);
      if i == j {
        MoveKeepsApart(run[k - 1][i], move);
      }
    }
  }

  lemma SameSize(ring: seq<Loop>, i: nat, move: Move)
    requires MayTurn(ring, i, move)
    ensures |Turn(ring, i, move)| == |ring|
  {
  }

  /** With all its tasks on the idle list, an executor that goes on polling gets no ready task. */
  lemma PollKeepsIdle(l: Loop, move: Move)
    requires Inv(l) && Allowed(l, move) && Apart(l) && AllIdle(l) && l.state == Poll && l.status == Running
    ensures AllIdle(Moves(l, move).loop) && (!move.Receive? ==> Moves(l, move).loop.status == Running)
  {
    hide Skips, Received, Advanced;
    NoneReady(l);
    match move
    case Receive => ReceiveKeepsLists(l.(inbox := l.inbox[1..]), l.inbox[0]);
    case Advance(watching, poll) =>
      AdvanceKeepsLists(l.(checked := false), watching, poll);
      AdvanceKeepsStatus(l.(checked := false), watching, poll);
    case _ =>
  }

  lemma AdvanceKeepsStatus(l: Loop, watching: bool, poll: bool)
    ensures Advanced(l, watching, poll).loop.status == l.status
  {
  }

  lemma Different(q: seq<nat>, i: nat, j: nat)
    requires NoneTwice(q) && i < j < |q|
    ensures q[i] != q[j]
  {
  }

  lemma NoneReady(l: Loop)
    requires Tasks(l) && Apart(l) && AllIdle(l)
    ensures l.ready == []
  {
    hide NoneTwice;
    if l.ready != [] {
      var r: nat := l.ready[0];
      assert r in l.idle;
      var i :| 0 <= i < |l.idle| && l.idle[i] == r;
      Different(l.idle + l.ready, i, |l.idle|);
    }
  }

  lemma {:induction false} IdleNeverFails(run: seq<seq<Loop>>, ring: seq<Loop>, i: nat, k: nat)
    requires Continues(run, ring) && k < |run| && forall h :: 0 <= h < |run| ==> IsPolling(run[h], i)
    requires i < |ring| && Inv(ring[i]) && Apart(ring[i]) && AllIdle(ring[i])
    ensures i < |run[k]| && Inv(run[k][i]) && Apart(run[k][i]) && AllIdle(run[k][i]) && !FailsNext(run[k], i)
  {
    hide Moves, Allowed, Turn, Inv, Apart, AllIdle;
    if k > 0 {
      IdleNeverFails(run, ring, i, k - 1);
      assert TurnsTo(run[k - 1], run[k]);
      var j: nat, move :| MayTurn(run[k - 1], j, move) && Turn(run[k - 1], j, move) == run[k];
      assert IsPolling(run[k - 1], i);
      TurnAt(run[k - 1], j, move, i);
      var l := run[k - 1][i];
      var l' := if i == j then Moves(l, move).loop else l;
      if i == j {
        MoveKeepsApart(l, move);
        MoveKeepsInv(l, move);
        PollKeepsIdle(l, move);
      }
      OtherQueue(l', run[k][i].inbox);
    }
    forall move | MayTurn(run[k], i, move) && !move.Receive?
      ensures Moves(run[k][i], move).loop.status != Failed
    {
      assert IsPolling(run[k], i);
      PollKeepsIdle(run[k][i], move);
    }
  }

  lemma OtherQueue(l: Loop, inbox: seq<Message>)
    requires Inv(l) && Apart(l) && AllIdle(l)
    ensures Inv(l.(inbox := inbox)) && Apart(l.(inbox := inbox)) && AllIdle(l.(inbox := inbox))
  {
    hide Skips;
  }

  lemma FailsLater(ring: seq<Loop>, i: nat, move: Move)
    requires IsPolling(ring, i) && MayTurn(ring, i, move) && PollCanFail(Turn(ring, i, move), i)
    ensures PollCanFail(ring, i)
  {
    hide Moves, Allowed, Turn, FailsNext;
    var run :| FailsAfter(run, Turn(ring, i, move), i);
    var run' := [ring] + run;
    assert TurnsTo(ring, Turn(ring, i, move));
    forall k | 0 < k < |run'|
      ensures TurnsTo(run'[k - 1], run'[k])
    {
      if k > 1 {
        assert TurnsTo(run[k - 2], run[k - 1]);
      }
    }
    assert run'[|run'| - 1] == run[|run| - 1];
    assert FailsAfter(run', ring, i);
  }

  lemma ReadyFailsNow(ring: seq<Loop>, i: nat)
    requires IsPolling(ring, i) && Inv(ring[i]) && ring[i].ready != [] && !ring[i].checked
    ensures PollCanFail(ring, i)
  {
    assert MayTurn(ring, i, RunReady(Parked));
    assert FailsNext(ring, i);
    assert FailsAfter([ring], ring, i);
  }

  /** A ready task makes a polling executor fail, once it looks at its lists again. */
  lemma ReadyFails(ring: seq<Loop>, i: nat)
    requires IsPolling(ring, i) && Inv(ring[i]) && ring[i].ready != []
    ensures PollCanFail(ring, i)
  {
    if ring[i].checked {
      LooksAgain(ring, i);
      ReadyFailsNow(Turn(ring, i, Advance(true, false)), i);
      FailsLater(ring, i, Advance(true, false));
    } else {
      ReadyFailsNow(ring, i);
    }
  }

  /** Nothing to poll for is ready. */
  lemma LooksAgain(ring: seq<Loop>, i: nat)
    requires IsPolling(ring, i) && Inv(ring[i]) && ring[i].checked
    ensures MayTurn(ring, i, Advance(true, false))
    ensures var ring' := Turn(ring, i, Advance(true, false));
            && IsPolling(ring', i) && ring'[i] == ring[i].(checked := false) && Inv(ring'[i])
  {
    hide Skips;
    assert ring[i].(inbox := ring[i].inbox + []) == ring[i];
  }

  lemma Granted(ring: seq<Loop>, i: nat, t: nat)
    requires IsPolling(ring, i) && Inv(ring[i]) && OnNoList(ring[i], t)
    ensures MayTurn(ring, i, Grant(t))
    ensures var ring' := Turn(ring, i, Grant(t)); IsPolling(ring', i) && ring'[i].ready != [] && Inv(ring'[i])
  {
    hide Skips;
  }

  /** While executor `i` polls, it can come to fail if and only if one of its tasks is not on its idle list. */
  lemma PollingFailsExactlyIf(run: seq<seq<Loop>>, k: nat, i: nat)
    requires IsRingRun(run) && k < |run| && IsPolling(run[k], i)
    ensures PollCanFail(run[k], i) <==> !AllIdle(run[k][i])
  {
    hide Inv, Apart, Moves, Allowed, Turn, FailsNext, IsRingRun;
    RunKeepsApart(run, k, i);
    if AllIdle(run[k][i]) {
      forall rest ensures !FailsAfter(rest, run[k], i) {
        if FailsAfter(rest, run[k], i) {
          IdleNeverFails(rest, run[k], i, |rest| - 1);
        }
      }
    } else if run[k][i].ready != [] {
      ReadyFails(run[k], i);
    } else {
      var t: nat :| t < |run[k][i].tasks| && t !in run[k][i].idle;
      Granted(run[k], i, t);
      ReadyFails(Turn(run[k], i, Grant(t)), i);
      FailsLater(run[k], i, Grant(t));
    }
  }
}
