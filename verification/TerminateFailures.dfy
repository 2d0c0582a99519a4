/**
  A run of three executors in which a Terminate message reaches an executor that is shooting down: one
  that exits takes a message of its own, from before a reset, for one of its second wait.
  */
module TerminateFailures {
  import opened ExecutorStates
  import opened MessageRings
  import opened RingRounds
  import opened RingWaits
  import opened RingEnds
  import opened RingFailures
  import opened RingViews
  import StalledRings

  function With(state: State, queue: seq<Note>): View { Calm(state).(queue := queue) }

  function Due(state: State, queue: seq<Note>): View {
    Calm(state).(counted := true, checked := true, queue := queue)
  }

  function Shoots(id: nat): Note { Note(MessageKind.StartShootDown, id) }

  function Waits(id: nat): Note { Note(MessageKind.StartWaiting1, id) }

  function Asks(id: nat): Note { Note(MessageKind.StartDoubleCheck, id) }

  function Ends(id: nat): Note { Note(MessageKind.StartWaiting2, id) }

  function Back(id: nat): Note { Note(Reset, id) }

  // ----- the run

  lemma Do(views: seq<View>, i: nat, act: Act) returns (views': seq<View>)
    requires |views| == 3 && i < 3 && Comes(views) && Goes(views[i], i, act)
    ensures Comes(views') && |views'| == 3
    ensures views'[i] == Acts(views[i], i, act).view
    ensures forall h: nat :: h < 3 && h != i ==>
      views'[h] == views[h].(queue := views[h].queue + if h == Next(3, i) then Acts(views[i], i, act).sent else [])
  {
    hide Comes, Acts, CanAct;
    var v, sent := Begin(views, i);
    v, sent := Step(views, i, v, sent, act);
    views' := After(views, i, v, sent);
    assert [] + Acts(views[i], i, act).sent == Acts(views[i], i, act).sent;
    assert forall h: nat :: h < 3 ==> views[h].queue + [] == views[h].queue;
  }

  lemma IsDue(views: seq<View>, i: nat) returns (views': seq<View>)
    requires |views| == 3 && i < 3 && Comes(views) && Counting(views[i].state) && views[i] == Calm(views[i].state)
    ensures Comes(views') && |views'| == 3 && views'[i] == Due(views[i].state, [])
    ensures forall h: nat :: h < 3 && h != i ==> views'[h] == views[h]
  {
    hide Comes;
    views' := Do(views, i, Checks);
    views' := Do(views', i, SkipsTask);
    views' := Do(views', i, Checks);
    assert forall h: nat :: h < 3 ==> views[h].queue + [] == views[h].queue;
  }

  lemma GoesOn(views: seq<View>, i: nat) returns (views': seq<View>)
    requires |views| == 3 && i < 3 && Comes(views) && Counting(views[i].state) && views[i] == Calm(views[i].state)
    ensures Comes(views') && |views'| == 3
    ensures views'[i] == Acts(Due(views[i].state, []), i, Advances).view
    ensures forall h: nat :: h < 3 && h != i ==>
      views'[h] == views[h].(queue := views[h].queue
                                      + if h == Next(3, i) then Acts(Due(views[i].state, []), i, Advances).sent else [])
  {
    hide Comes;
    views' := IsDue(views, i);
    views' := Do(views', i, Advances);
  }

  function Shooting(): seq<View> { [With(ShootDown, []), With(ShootDown, []), With(ShootDown, [])] }

  lemma ComesShooting()
    ensures Comes(Shooting())
  {
    hide Comes;
    StalledRings.ShootingEnds(3);
    var views := StalledRings.Train(3, Calm(ShootDown), Calm(ShootDown), Calm(Wait1), Calm(ShootDown), 2, []);
    assert views[0] == views[1] == views[2] == With(ShootDown, []);
    assert views == Shooting();
  }

  function ThreeDue(): seq<View> {
    [Due(ShootDown, []), Due(ShootDown, []), Due(ShootDown, [])]
  }

  /** All skip their tasks and find their queues empty. */
  lemma ComesThreeDue()
    ensures Comes(ThreeDue())
  {
    hide Comes;
    ComesShooting();
    var r := Shooting();
    r := IsDue(r, 0);
    r := IsDue(r, 1);
    r := IsDue(r, 2);
    assert r[0] == ThreeDue()[0] && r[1] == ThreeDue()[1] && r[2] == ThreeDue()[2];
    assert r == ThreeDue();
  }

  function ThreeWait(): seq<View> {
    [With(Wait1, [Waits(2)]), With(Wait1, [Waits(0)]), With(Wait1, [Waits(1)])]
  }

  /** All wait, and each has sent its message. */
  lemma ComesThreeWait()
    ensures Comes(ThreeWait())
  {
    hide Comes;
    ComesThreeDue();
    var r := ThreeDue();
    r := Do(r, 0, Advances);
    r := Do(r, 1, Advances);
    r := Do(r, 2, Advances);
    assert r[0] == ThreeWait()[0] && r[1] == ThreeWait()[1] && r[2] == ThreeWait()[2];
    assert r == ThreeWait();
  }

  function HalfWay(): seq<View> {
    [With(Wait1, [Waits(1)]), With(Wait1, [Waits(2)]), With(Wait1, [Waits(0)])]
  }

  /** Each message is one place from its sender. */
  lemma ComesHalfWay()
    ensures Comes(HalfWay())
  {
    hide Comes;
    ComesThreeWait();
    var r := ThreeWait();
    r := Do(r, 1, Receives);
    r := Do(r, 2, Receives);
    r := Do(r, 0, Receives);
    assert r[0] == HalfWay()[0] && r[1] == HalfWay()[1] && r[2] == HalfWay()[2];
    assert r == HalfWay();
  }

  function AllBack(): seq<View> {
    [With(Wait1, [Waits(0)]), With(Wait1, [Waits(1)]), With(Wait1, [Waits(2)])]
  }

  /** Each message is back at its sender. */
  lemma ComesAllBack()
    ensures Comes(AllBack())
  {
    hide Comes;
    ComesHalfWay();
    var r := HalfWay();
    r := Do(r, 0, Receives);
    r := Do(r, 1, Receives);
    r := Do(r, 2, Receives);
    assert r[0] == AllBack()[0] && r[1] == AllBack()[1] && r[2] == AllBack()[2];
    assert r == AllBack();
  }

  function ZeroDue(): seq<View> {
    [Due(DoubleCheck, []), With(Wait1, [Waits(1), Asks(0)]), With(Wait1, [Waits(2)])]
  }

  /** Executor 0 checks again, skips its task and finds its queue empty. */
  lemma ComesZeroDue()
    ensures Comes(ZeroDue())
  {
    hide Comes;
    ComesAllBack();
    var r := AllBack();
    r := Do(r, 0, Receives);
    r := IsDue(r, 0);
    assert r[0] == ZeroDue()[0] && r[1] == ZeroDue()[1] && r[2] == ZeroDue()[2];
    assert r == ZeroDue();
  }

  function TwoHit(): seq<View> {
    [Due(DoubleCheck, [Asks(2), Back(2), Shoots(2), Waits(2)]), With(Wait1, [Waits(1), Asks(0)]), With(Wait1, [])]
  }

  /** The task of executor 2 is not skipped, and it comes to wait again. */
  lemma ComesTwoHit()
    ensures Comes(TwoHit())
  {
    hide Comes;
    ComesZeroDue();
    var r := ZeroDue();
    r := Do(r, 2, Receives);
    r := Do(r, 2, Checks);
    r := Do(r, 2, HitsTask);
    r := GoesOn(r, 2);
    r := GoesOn(r, 2);
    assert r[0] == TwoHit()[0] && r[1] == TwoHit()[1] && r[2] == TwoHit()[2];
    assert r == TwoHit();
  }

  function OneDone(): seq<View> {
    [Due(DoubleCheck, [Asks(2), Back(2), Shoots(2), Waits(2)]), With(Wait2, []), With(Wait1, [Asks(1), Ends(1)])]
  }

  /** Executor 1 gets to its second wait. */
  lemma ComesOneDone()
    ensures Comes(OneDone())
  {
    hide Comes;
    ComesTwoHit();
    var r := TwoHit();
    r := Do(r, 1, Receives);
    r := Do(r, 1, Receives);
    r := GoesOn(r, 1);
    assert r[0] == OneDone()[0] && r[1] == OneDone()[1] && r[2] == OneDone()[2];
    assert r == OneDone();
  }

  function ZeroReset(): seq<View> {
    [With(Normal, [Shoots(2), Waits(2)]), With(Wait2, [Ends(0), Back(2)]), With(Wait1, [Asks(1), Ends(1)])]
  }

  /** Executor 0 gets there too, sends its message, and is brought back by the reset. */
  lemma ComesZeroReset()
    ensures Comes(ZeroReset())
  {
    hide Comes;
    ComesOneDone();
    var r := OneDone();
    r := Do(r, 0, Advances);
    r := Do(r, 0, Receives);
    r := Do(r, 0, Receives);
    assert r[0] == ZeroReset()[0] && r[1] == ZeroReset()[1] && r[2] == ZeroReset()[2];
    assert r == ZeroReset();
  }

  function ZeroWaits(): seq<View> {
    [With(Wait1, []), With(Wait2, [Ends(0), Back(2), Shoots(2), Waits(0)]), With(Wait1, [Asks(1), Ends(1)])]
  }

  /** It comes to wait again. */
  lemma ComesZeroWaits()
    ensures Comes(ZeroWaits())
  {
    hide Comes;
    ComesZeroReset();
    var r := ZeroReset();
    r := Do(r, 0, Receives);
    r := Do(r, 0, Receives);
    r := GoesOn(r, 0);
    assert r[0] == ZeroWaits()[0] && r[1] == ZeroWaits()[1] && r[2] == ZeroWaits()[2];
    assert r == ZeroWaits();
  }

  function TwoDone(): seq<View> {
    [With(Wait1, [Asks(1), Ends(2)]), With(Wait2, [Ends(0), Back(2), Shoots(2), Waits(0)]), With(Wait2, [])]
  }

  /** By the message of executor 1, executor 2 gets to its second wait. */
  lemma ComesTwoDone()
    ensures Comes(TwoDone())
  {
    hide Comes;
    ComesZeroWaits();
    var r := ZeroWaits();
    r := Do(r, 2, Receives);
    r := Do(r, 2, Receives);
    r := GoesOn(r, 2);
    assert r[0] == TwoDone()[0] && r[1] == TwoDone()[1] && r[2] == TwoDone()[2];
    assert r == TwoDone();
  }

  function ZeroDone(): seq<View> {
    [With(Wait2, []), With(Wait2, [Ends(0), Back(2), Shoots(2), Waits(0), Asks(1), Ends(0)]), With(Wait2, [])]
  }

  /** And so does executor 0. */
  lemma ComesZeroDone()
    ensures Comes(ZeroDone())
  {
    hide Comes;
    ComesTwoDone();
    var r := TwoDone();
    r := Do(r, 0, Receives);
    r := Do(r, 0, Receives);
    r := GoesOn(r, 0);
    assert r[0] == ZeroDone()[0] && r[1] == ZeroDone()[1] && r[2] == ZeroDone()[2];
    assert r == ZeroDone();
  }

  function OldIsBack(): seq<View> {
    [With(Wait2, [Ends(0)]), With(Wait2, [Back(2), Shoots(2), Waits(0), Asks(1), Ends(0)]), With(Wait2, [])]
  }

  /** The message that executor 0 sent before the reset is back. */
  lemma ComesOldIsBack()
    ensures Comes(OldIsBack())
  {
    hide Comes;
    ComesZeroDone();
    var r := ZeroDone();
    r := Do(r, 1, Receives);
    r := Do(r, 2, Receives);
    assert r[0] == OldIsBack()[0] && r[1] == OldIsBack()[1] && r[2] == OldIsBack()[2];
    assert r == OldIsBack();
  }

  // ----- the result

  ghost predicate EndsFailing(run: seq<seq<Loop>>, n: nat, i: nat) {
    IsRingRun(run) && |run[|run| - 1]| == n && Fails(run[|run| - 1], i)
  }

  /** A run goes on with what can follow its last ring. */
  lemma Joined(run: seq<seq<Loop>>, rest: seq<seq<Loop>>)
    requires IsRingRun(run) && Continues(rest, run[|run| - 1])
    ensures IsRingRun(run + rest[1..]) && (run + rest[1..])[|run| + |rest| - 2] == rest[|rest| - 1]
  {
    hide TurnsTo, Started;
    var joined := run + rest[1..];
    forall k | 0 < k < |joined|
      ensures TurnsTo(joined[k - 1], joined[k])
    {
      if k < |run| {
        assert TurnsTo(run[k - 1], run[k]);
      } else {
        assert TurnsTo(rest[k - |run|], rest[k - |run| + 1]);
      }
    }
  }

  /** Executor 0 exits, and executor 1 has yet to learn of the reset. */
  lemma ZeroExits(ring: seq<Loop>)
    requires RingInv(ring) && ShowsAll(ring, OldIsBack())
    ensures MayTurn(ring, 0, Receive)
    ensures var ring' := Turn(ring, 0, Receive);
            |ring'| == 3 && SomeExited(ring') && NoneFailed(ring') && !AllSafe(ring')
  {
    hide Inv, AllTrailed, Ended, Skips;
    assert forall i: nat :: i < 3 ==> Shows(ring[i], OldIsBack()[i]);
    RingId(ring, 0);
    RingId(ring, 1);
    InvTasks(ring[0]);
    var ring' := Turn(ring, 0, Receive);
    assert ring[0].inbox[0].kind == StartWaiting2 && ring[0].inbox[0].id == 0 by {
      assert NoteOf(ring[0].inbox[0]) == Ends(0);
    }
    assert NoteOf(ring[1].inbox[0]) == Back(2);
    assert ring'[0].status == Exited && ring'[1].status == Running && ring'[1].inbox[0] == ring[1].inbox[0];
    assert Disturbed(ring'[1], 0);
  }

  /** Three executors can come to a Terminate message that its receiver does not expect. */
  lemma TerminateCanFail()
    ensures exists run: seq<seq<Loop>>, i: nat :: EndsFailing(run, 3, i)
  {
    hide RingInv, ShowsAll, Allowed, Moves, Turn, AllSafe, SomeExited, NoneFailed, Fails, OldIsBack, Started;
    ComesOldIsBack();
    var run :| ComesTo(run, OldIsBack());
    var ring := run[|run| - 1];
    RunKeepsRingInv(run, |run| - 1);
    ZeroExits(ring);
    var ring' := Turn(ring, 0, Receive);
    assert Continues([ring, ring'], ring);
    Joined(run, [ring, ring']);
    var run' := run + [ring, ring'][1..];
    TerminatesExactlyIfSafe(run', |run|);
    var rest, i: nat :| FailsAtEnd(rest, ring', i);
    Joined(run', rest);
    RingSize(rest, ring', |rest| - 1);
    assert EndsFailing(run' + rest[1..], 3, i);
  }

  lemma {:induction false} RingSize(rest: seq<seq<Loop>>, ring: seq<Loop>, k: nat)
    requires Continues(rest, ring) && k < |rest|
    ensures |rest[k]| == |ring|
  {
    hide Moves, Allowed;
    if k > 0 {
      RingSize(rest, ring, k - 1);
      assert TurnsTo(rest[k - 1], rest[k]);
    }
  }
}
