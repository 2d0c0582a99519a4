/**
  Exactly when a Terminate message can find its receiver outside of the second wait, once an executor
  has exited: it is decided by what the queues hold at that time.
  */
module RingFailures {
  import opened ExecutorStates
  import opened MessageRings
  import opened RingRounds
  import opened RingWaits
  import opened RingEnds

  /** The executor exits when it receives this message in its second wait. */
  predicate Stops(l: Loop, m: Message) {
    m.kind == Terminate || (m.kind == StartWaiting2 && m.id == l.id)
  }

  predicate Foreign(l: Loop, m: Message) { m.kind == Reset && m.id != l.id }

  /** A message ends the second wait, and no message before it lets the executor exit. */
  ghost predicate Disturbed(l: Loop, p: nat) {
    p < |l.inbox| && Foreign(l, l.inbox[p]) && forall q: nat :: q < p ==> !Stops(l, l.inbox[q])
  }

  /** The executor is in its second wait and will exit from there. */
  ghost predicate Safe(l: Loop) {
    l.state == Wait2 && forall p: nat :: !Disturbed(l, p)
  }

  ghost predicate AllSafe(ring: seq<Loop>) {
    forall i: nat :: i < |ring| && ring[i].status == Running ==> Safe(ring[i])
  }

  /** Executor `i` is about to fail on a Terminate message. */
  ghost predicate Fails(ring: seq<Loop>, i: nat) {
    MayTurn(ring, i, Receive) && ring[i].inbox != [] && ring[i].inbox[0].kind == Terminate && ring[i].state != Wait2
  }

  ghost predicate Continues(run: seq<seq<Loop>>, ring: seq<Loop>) {
    run != [] && run[0] == ring && forall k :: 0 < k < |run| ==> TurnsTo(run[k - 1], run[k])
  }

  ghost predicate FailsAtEnd(run: seq<seq<Loop>>, ring: seq<Loop>, i: nat) {
    Continues(run, ring) && Fails(run[|run| - 1], i)
  }

  ghost predicate CanFail(ring: seq<Loop>) {
    exists run, i: nat :: FailsAtEnd(run, ring, i)
  }

  // ----- a safe ring stays safe

  lemma SafeMove(l: Loop, move: Move)
    requires Inv(l) && Allowed(l, move) && !move.Deliver? && l.state == Wait2
    requires move.Receive? && l.inbox != [] ==> !Foreign(l, l.inbox[0])
    ensures var m := Moves(l, move);
            && m.loop.state == Wait2 && m.loop.id == l.id
            && (m.sent != [] ==> m.sent[0].kind == Terminate || m.sent[0].kind == StartWaiting2)
            && (move.Receive? && l.inbox != [] && Stops(l, l.inbox[0]) ==> m.loop.status == Exited)
  {
    hide Skips;
  }

  lemma IdleSends(l: Loop, move: Move)
    requires Inv(l) && Allowed(l, move) && !move.Deliver? && l.status != Running
    ensures var m := Moves(l, move);
            m.sent == [] && m.loop.status == l.status && m.loop.state == l.state && !move.Receive?
  {
  }

  lemma SafeMover(ring: seq<Loop>, i: nat, move: Move)
    requires RingInv(ring) && AllSafe(ring) && MayTurn(ring, i, move)
    ensures var m := Moves(ring[i], move);
            && (m.loop.status == Running ==> Safe(Turn(ring, i, move)[i]))
            && (m.sent != [] ==> m.sent[0].kind == Terminate || m.sent[0].kind == StartWaiting2)
  {
    hide Moves, Allowed, Inv, AllTrailed, Ended, Turn, Stops, Foreign;
    TurnSize(ring, i, move);
    var l, m, l' := ring[i], Moves(ring[i], move), Turn(ring, i, move)[i];
    TurnIs(ring, i, move, i);
    RingId(ring, i);
    if l.status == Running {
      assert Safe(l);
      assert !Disturbed(l, 0);
      SafeMove(l, move);
      if m.loop.status == Running {
        forall p: nat
          ensures !Disturbed(l', p)
        {
          if Disturbed(l', p) {
            LaterDisturbed(ring, i, move, l', p);
          }
        }
      }
    } else {
      IdleSends(l, move);
    }
  }

  lemma LaterDisturbed(ring: seq<Loop>, i: nat, move: Move, l': Loop, p: nat)
    requires RingInv(ring) && MayTurn(ring, i, move) && Safe(ring[i]) && ring[i].status == Running
    requires l' == Turn(ring, i, move)[i] && Moves(ring[i], move).loop.status == Running
    ensures !Disturbed(l', p)
  {
    hide Moves, Allowed, Inv, AllTrailed, Ended, Turn;
    var l, m := ring[i], Moves(ring[i], move);
    TurnIs(ring, i, move, i);
    TurnSends(ring, i, move);
    RingId(ring, i);
    assert !Disturbed(l, 0);
    SafeMove(l, move);
    var q := p + Popped(i, move, i);
    if p < |l'.inbox| && Foreign(l', l'.inbox[p]) {
      assert q < |l.inbox| && l.inbox[q] == l'.inbox[p];
      assert !Disturbed(l, q);
      var r: nat :| r < q && Stops(l, l.inbox[r]);
      assert l'.inbox[r - Popped(i, move, i)] == l.inbox[r];
    }
  }

  lemma SafeStays(ring: seq<Loop>, i: nat, move: Move)
    requires RingInv(ring) && AllSafe(ring) && MayTurn(ring, i, move)
    ensures AllSafe(Turn(ring, i, move))
  {
    hide Moves, Allowed, Inv, AllTrailed, Ended, Turn, Stops;
    var m, ring' := Moves(ring[i], move), Turn(ring, i, move);
    TurnSize(ring, i, move);
    SafeMover(ring, i, move);
    TurnSends(ring, i, move);
    forall k: nat | k < |ring| && ring'[k].status == Running
      ensures Safe(ring'[k])
    {
      TurnIs(ring, i, move, k);
      if k != i {
        assert Safe(ring[k]);
        forall p: nat
          ensures !Disturbed(ring'[k], p)
        {
          assert !Disturbed(ring[k], p);
          assert forall q: nat :: q < |ring[k].inbox| ==> ring'[k].inbox[q] == ring[k].inbox[q];
          SameNumber(ring[k], ring'[k]);
          if p < |ring'[k].inbox| && Foreign(ring'[k], ring'[k].inbox[p]) {
            assert p < |ring[k].inbox| by { NotForeign(ring'[k], m, p); }
          }
        }
      }
    }
  }

  lemma NotForeign(l: Loop, m: Moved, p: nat)
    requires p < |l.inbox| && Foreign(l, l.inbox[p])
    requires m.sent != [] ==> m.sent[0].kind == Terminate || m.sent[0].kind == StartWaiting2
    ensures m.sent == [] || l.inbox[p] != m.sent[0]
  {
  }

  lemma {:induction false} SafeNeverFails(run: seq<seq<Loop>>, ring: seq<Loop>, k: nat)
    requires RingInv(ring) && AllSafe(ring) && Continues(run, ring) && k < |run|
    ensures RingInv(run[k]) && AllSafe(run[k])
  {
    hide RingInv, AllSafe, Turn, Allowed, Moves;
    if k > 0 {
      SafeNeverFails(run, ring, k - 1);
      assert TurnsTo(run[k - 1], run[k]);
      var i: nat, move :| MayTurn(run[k - 1], i, move) && Turn(run[k - 1], i, move) == run[k];
      TurnKeepsInv(run[k - 1], i, move);
      SafeStays(run[k - 1], i, move);
    }
  }

  lemma SafeCannotFail(ring: seq<Loop>)
    requires RingInv(ring) && AllSafe(ring)
    ensures !CanFail(ring)
  {
    hide RingInv, Fails, AllSafe, TurnsTo;
    forall run, i: nat
      ensures !FailsAtEnd(run, ring, i)
    {
      if Continues(run, ring) {
        SafeNeverFails(run, ring, |run| - 1);
        SafeNow(run[|run| - 1], i);
      }
    }
  }

  lemma SafeNow(ring: seq<Loop>, i: nat)
    requires AllSafe(ring)
    ensures !Fails(ring, i)
  {
  }

  // ----- an unsafe ring can fail

  /** The neighbor of an executor that has exited has been sent a Terminate message. */
  ghost predicate Ending(ring: seq<Loop>) {
    forall i: nat :: i < |ring| && ring[i].status == Exited && ring[Next(|ring|, i)].status == Running ==>
      HasTerminate(ring[Next(|ring|, i)].inbox)
  }

  ghost predicate HasTerminate(inbox: seq<Message>) {
    exists p: nat :: p < |inbox| && inbox[p].kind == Terminate
  }

  ghost predicate NoneFailed(ring: seq<Loop>) {
    forall i: nat :: i < |ring| ==> ring[i].status != Failed
  }

  lemma TerminateMove(l: Loop, move: Move)
    requires Inv(l) && Allowed(l, move) && !move.Deliver?
    ensures var m := Moves(l, move);
            && (m.loop.status == Exited && l.status != Exited ==> m.sent != [] && m.sent[0].kind == Terminate)
            && (move.Receive? && l.inbox != [] && l.inbox[0].kind == Terminate ==> m.loop.status != Running)
            && (m.loop.status == Running ==> l.status == Running)
  {
    hide Skips;
  }

  lemma TurnKeepsEnding(ring: seq<Loop>, i: nat, move: Move)
    requires RingInv(ring) && Ending(ring) && MayTurn(ring, i, move)
    ensures Ending(Turn(ring, i, move))
  {
    hide Moves, Allowed, Inv, AllTrailed, Ended, Turn;
    var m, ring' := Moves(ring[i], move), Turn(ring, i, move);
    TurnSize(ring, i, move);
    RingId(ring, i);
    TerminateMove(ring[i], move);
    forall k: nat | k < |ring| && ring'[k].status == Exited && ring'[Next(|ring|, k)].status == Running
      ensures HasTerminate(ring'[Next(|ring|, k)].inbox)
    {
      var j := Next(|ring|, k);
      TurnIs(ring, i, move, k);
      TurnIs(ring, i, move, j);
      if ring[k].status == Exited {
        var p: nat :| p < |ring[j].inbox| && ring[j].inbox[p].kind == Terminate;
        assert ring'[j].inbox[p - Popped(i, move, j)] == ring[j].inbox[p];
      } else {
        assert ring'[j].inbox[|ring[j].inbox| - Popped(i, move, j)] == m.sent[0];
      }
    }
  }

  /** How far it is from executor `k` on to executor `j`. */
  function Distance(n: nat, k: nat, j: nat): nat
    requires k < n && j < n
  {
    if k < j then j - k else j + n - k
  }

  /** What an executor that has looked at its queue can do without entering its second wait. */
  function Onward(l: Loop): Move {
    if !l.checked then Receive else if l.points == |l.tasks| then Advance(true, false) else RunIdle(Parked)
  }

  lemma OnwardIs(l: Loop)
    requires Inv(l) && l.status == Running && l.inbox != []
    ensures Allowed(l, Onward(l))
    ensures var m := Moves(l, Onward(l));
            && (l.state != Wait2 ==> m.loop.state != Wait2 && m.loop.status != Exited)
            && (l.checked ==> !m.loop.checked && m.loop.status == Running && m.loop.state == Wait2 ==> l.state == Wait2)
            && (l.checked ==> !m.loop.checked && m.loop.status == Running && !Onward(l).Receive?)
            && (m.loop.status == Failed ==> Onward(l) == Receive && l.inbox[0].kind == Terminate && l.state != Wait2)
            && (l.checked && l.state == Wait2 ==> m.loop.state == Wait2)
            && (!l.checked && l.state == Wait2 && Foreign(l, l.inbox[0]) ==> m.loop.state == Normal)
            && (l.state == Wait2 && m.loop.status == Exited ==> !l.checked && Stops(l, l.inbox[0]))
            && m.loop.id == l.id && (!l.checked ==> !m.loop.checked)
  {
    hide Skips;
    CountIsFull(l.tasks, l.generation);
  }

  /** An executor that is not safe does not become so, nor exit, by going on. */
  lemma UnsafeStays(ring: seq<Loop>, e: nat, j: nat)
    requires RingInv(ring) && e < |ring| && j < |ring| && ring[e].status == ring[j].status == Running
    requires ring[e].inbox != [] && !Safe(ring[j]) && MayTurn(ring, e, Onward(ring[e]))
    requires e != Next(|ring|, e) && Moves(ring[e], Onward(ring[e])).loop.status != Failed
    ensures var l' := Turn(ring, e, Onward(ring[e]))[j]; l'.status == Running && !Safe(l')
  {
    hide Moves, Allowed, Inv, AllTrailed, Ended, Turn, Onward, Stops, Foreign;
    var move := Onward(ring[e]);
    TurnSize(ring, e, move);
    var m, l, l' := Moves(ring[e], move), ring[j], Turn(ring, e, move)[j];
    TurnIs(ring, e, move, j);
    RingId(ring, e);
    OnwardIs(ring[e]);
    if l.state == Wait2 {
      var p: nat :| Disturbed(l, p);
      if e == j {
        UnsafeMover(ring, e, p);
      } else {
        assert forall q: nat :: q < |l.inbox| ==> l'.inbox[q] == l.inbox[q];
        SameNumber(l, l');
        assert Disturbed(l', p);
      }
    }
  }

  lemma SameNumber(l: Loop, l': Loop)
    requires l.id == l'.id
    ensures forall m :: Stops(l, m) == Stops(l', m) && Foreign(l, m) == Foreign(l', m)
  {
  }

  lemma UnsafeMover(ring: seq<Loop>, e: nat, p: nat)
    requires RingInv(ring) && e < |ring| && ring[e].status == Running && ring[e].state == Wait2
    requires Disturbed(ring[e], p) && MayTurn(ring, e, Onward(ring[e])) && e != Next(|ring|, e)
    requires Moves(ring[e], Onward(ring[e])).loop.status != Failed
    ensures var l' := Turn(ring, e, Onward(ring[e]))[e]; l'.status == Running && !Safe(l')
  {
    hide Moves, Allowed, Inv, AllTrailed, Ended, Turn, Stops, Foreign;
    var move := Onward(ring[e]);
    TurnSize(ring, e, move);
    var l, l' := ring[e], Turn(ring, e, move)[e];
    TurnIs(ring, e, move, e);
    RingId(ring, e);
    OnwardIs(l);
    SameNumber(l, l');
    assert !Stops(l, l.inbox[0]) by {
      if p == 0 {
        ForeignGoesOn(l, l.inbox[0]);
      }
    }
    if l'.state == Wait2 {
      if l.checked {
        assert l'.inbox == l.inbox && Disturbed(l', p);
      } else {
        assert forall q: nat :: q < |l'.inbox| ==> l'.inbox[q] == l.inbox[q + 1];
        assert Disturbed(l', p - 1);
      }
    }
  }

  lemma ForeignGoesOn(l: Loop, m: Message)
    requires Foreign(l, m)
    ensures !Stops(l, m)
  {
  }

  lemma Prepend(ring: seq<Loop>, ring': seq<Loop>)
    requires TurnsTo(ring, ring') && CanFail(ring')
    ensures CanFail(ring)
  {
    hide Fails, TurnsTo;
    var run, i: nat :| FailsAtEnd(run, ring', i);
    var longer := [ring] + run;
    forall k | 0 < k < |longer|
      ensures TurnsTo(longer[k - 1], longer[k])
    {
      if k > 1 {
        assert TurnsTo(run[k - 2], run[k - 1]);
      }
    }
    assert FailsAtEnd(longer, ring, i);
  }

  /** A Terminate message goes from an executor that has exited on to one that is not safe, and fails there at last. */
  lemma {:induction false} UnsafeCanFail(ring: seq<Loop>, k: nat, j: nat)
    requires RingInv(ring) && Ending(ring) && NoneFailed(ring) && k < |ring| && j < |ring|
    requires ring[k].status == Exited && ring[j].status == Running && !Safe(ring[j])
    ensures CanFail(ring)
    decreases Distance(|ring|, k, j), |ring[Next(|ring|, k)].inbox|, ring[Next(|ring|, k)].checked
  {
    hide Moves, Allowed, Inv, AllTrailed, Ended, Turn, Onward, Safe, RingInv, CanFail;
    var e := Next(|ring|, k);
    if ring[e].status == Exited {
      UnsafeCanFail(ring, e, j);
    } else {
      assert HasTerminate(ring[e].inbox);
      RingId(ring, e);
      OnwardIs(ring[e]);
      InvTasks(ring[e]);
      var move := Onward(ring[e]);
      assert MayTurn(ring, e, move) by { OnwardIsNoDelivery(ring[e]); }
      if Moves(ring[e], move).loop.status == Failed {
        assert Continues([ring], ring) && Fails([ring][0], e);
        assert FailsAtEnd([ring], ring, e);
        assert CanFail(ring) by { Witness([ring], ring, e); }
      } else {
        OneOnward(ring, k, j);
      }
    }
  }

  lemma Witness(run: seq<seq<Loop>>, ring: seq<Loop>, i: nat)
    requires FailsAtEnd(run, ring, i)
    ensures CanFail(ring)
  {
  }

  lemma OnwardIsNoDelivery(l: Loop)
    ensures !Onward(l).Deliver?
  {
  }

  lemma {:induction false} OneOnward(ring: seq<Loop>, k: nat, j: nat)
    requires RingInv(ring) && Ending(ring) && NoneFailed(ring) && k < |ring| && j < |ring|
    requires ring[k].status == Exited && ring[j].status == Running && !Safe(ring[j])
    requires var e := Next(|ring|, k);
             ring[e].status == Running && ring[e].inbox != [] && MayTurn(ring, e, Onward(ring[e]))
             && Moves(ring[e], Onward(ring[e])).loop.status != Failed
    ensures CanFail(ring)
    decreases Distance(|ring|, k, j), |ring[Next(|ring|, k)].inbox|, ring[Next(|ring|, k)].checked, 0
  {
    hide Moves, Allowed, Inv, AllTrailed, Ended, Turn, Onward, Safe, RingInv, CanFail;
    var e := Next(|ring|, k);
    var move := Onward(ring[e]);
    var m, ring' := Moves(ring[e], move), Turn(ring, e, move);
    RingId(ring, e);
    OnwardIs(ring[e]);
    TurnSize(ring, e, move);
    TurnKeepsInv(ring, e, move);
    TurnKeepsEnding(ring, e, move);
    UnsafeStays(ring, e, j);
    TurnIs(ring, e, move, e);
    TurnIs(ring, e, move, k);
    OnwardChecked(ring, e);
    forall h: nat | h < |ring|
      ensures ring'[h].status != Failed
    {
      TurnIs(ring, e, move, h);
    }
    if m.loop.status == Exited {
      UnsafeCanFail(ring', e, j);
    } else {
      UnsafeCanFail(ring', k, j);
    }
    assert TurnsTo(ring, ring');
    Prepend(ring, ring');
  }

  lemma OnwardChecked(ring: seq<Loop>, e: nat)
    requires RingInv(ring) && e < |ring| && ring[e].status == Running && ring[e].inbox != []
    requires MayTurn(ring, e, Onward(ring[e])) && e != Next(|ring|, e)
    ensures Turn(ring, e, Onward(ring[e]))[e].checked == false
    ensures Onward(ring[e]).Receive? == !ring[e].checked
  {
    hide Moves, Allowed, Inv, AllTrailed, Ended;
    RingId(ring, e);
    OnwardIs(ring[e]);
  }

  // ----- the two together

  lemma {:induction false} RunKeepsEnding(run: seq<seq<Loop>>, k: nat)
    requires IsRingRun(run) && k < |run|
    ensures RingInv(run[k]) && Ending(run[k])
  {
    hide Moves, Allowed, Turn, RingInv;
    if k == 0 {
      StartIsEnding(run[0]);
      RunKeepsRingInv(run, 0);
    } else {
      RunKeepsEnding(run, k - 1);
      assert TurnsTo(run[k - 1], run[k]);
      var i: nat, move :| MayTurn(run[k - 1], i, move) && Turn(run[k - 1], i, move) == run[k];
      TurnKeepsInv(run[k - 1], i, move);
      TurnKeepsEnding(run[k - 1], i, move);
    }
  }

  lemma StartIsEnding(ring: seq<Loop>)
    requires Started(ring)
    ensures Ending(ring)
  {
    assert forall i: nat :: i < |ring| ==> Initial(ring[i]);
  }

  /**
    Once an executor has exited, and while none has failed: no Terminate message will find its receiver
    outside of the second wait, whatever happens, if and only if every executor that still runs is in
    its second wait and has, before any Reset message of another one, none in its queue or one by which
    it exits.
    */
  lemma TerminatesExactlyIfSafe(run: seq<seq<Loop>>, k: nat)
    requires IsRingRun(run) && k < |run| && SomeExited(run[k]) && NoneFailed(run[k])
    ensures AllSafe(run[k]) <==> !CanFail(run[k])
  {
    hide IsRingRun, RingInv, CanFail, Safe, Ending;
    RunKeepsEnding(run, k);
    if AllSafe(run[k]) {
      SafeCannotFail(run[k]);
    } else {
      var e: nat :| e < |run[k]| && run[k][e].status == Exited;
      var j: nat :| j < |run[k]| && run[k][j].status == Running && !Safe(run[k][j]);
      UnsafeCanFail(run[k], e, j);
    }
  }
}
