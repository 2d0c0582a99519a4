/**
  When a Terminate message finds its receiver in the second wait.  An executor that exits by a message of
  the current round leaves all others waiting in that round, for good.
  */
module RingEnds {
  import opened ExecutorStates
  import opened MessageRings
  import opened RingRounds
  import opened RingWaits

  /** The executor exits because its own message is back. */
  predicate Ends(l: Loop, move: Move) {
    move.Receive? && l.inbox != [] && l.state == Wait2 && l.inbox[0].kind == StartWaiting2 && l.inbox[0].id == l.id
  }

  /** It does so by a message that it made before a reset it has been through. */
  predicate StaleEnd(l: Loop, move: Move) { Ends(l, move) && l.inbox[0].born != l.resets }

  /** Made or sent on by executor `e`. */
  ghost predicate Passed(m: Message, e: nat) {
    m.id == e || exists k: nat :: k < |m.trail| && m.trail[k].executor == e
  }

  ghost predicate InOneRound(m: Message) {
    forall k: nat :: k < |m.trail| ==> m.trail[k].resets == m.born
  }

  /** A reset by an executor that the message has not come to yet, since the message was made. */
  ghost predicate Overtaken(ring: seq<Loop>, m: Message, d: nat) {
    d < |ring| && !Passed(m, d) && d < |m.born| && d < |ring[d].resets| && m.born[d] < ring[d].resets[d]
  }

  /** Whoever has sent the message on is still in its round, or it will come to an executor that is not. */
  ghost predicate Whole(ring: seq<Loop>, m: Message) {
    m.kind == StartWaiting2 && InOneRound(m) ==>
      forall e: nat :: e < |ring| && Passed(m, e) ==>
        ring[e].resets == m.born || exists d: nat :: Overtaken(ring, m, d)
  }

  ghost predicate AllWhole(ring: seq<Loop>, inbox: seq<Message>) {
    forall p: nat :: p < |inbox| ==> Whole(ring, inbox[p])
  }

  /** All are in the second wait of the same round. */
  ghost predicate AllRest(ring: seq<Loop>) {
    forall e: nat :: e < |ring| ==> ring[e].state == Wait2 && ring[e].resets == ring[0].resets
  }

  ghost predicate SomeExited(ring: seq<Loop>) {
    exists e: nat :: e < |ring| && ring[e].status == Exited
  }

  ghost predicate FreshEnds(ring: seq<Loop>) {
    && (forall i: nat :: i < |ring| ==> AllWhole(ring, ring[i].inbox))
    && (SomeExited(ring) ==> AllRest(ring))
  }

  // ----- moves

  /** In the second wait nothing but a Reset message of another executor moves it on. */
  lemma RestIs(l: Loop, move: Move)
    requires Inv(l) && Allowed(l, move) && !move.Deliver? && l.state == Wait2
    ensures var m := Moves(l, move);
            if move.Receive? && l.inbox != [] && l.inbox[0].kind == Reset && l.inbox[0].id != l.id
            then m.loop.state == Normal else m.loop.state == Wait2 && m.loop.resets == l.resets
  {
    hide Skips;
  }

  /** Such messages come from executors that are in the second wait, or enter it. */
  lemma EndMessageIs(l: Loop, move: Move)
    requires Inv(l) && Allowed(l, move) && !move.Deliver?
    ensures var m := Moves(l, move);
            && (m.sent != [] && m.sent[0].kind == StartWaiting2 ==>
                  && m.loop.resets == l.resets
                  && (m.sent == [New(l, StartWaiting2)]
                      || (move.Receive? && l.inbox != [] && l.inbox[0].id != l.id &&
                          m.sent == [Forward(l, l.inbox[0])])))
            && (m.loop.status == Exited && l.status != Exited ==>
                  Ends(l, move) || (move.Receive? && l.inbox != [] && l.inbox[0].kind == Terminate && l.state == Wait2))
  {
    hide Skips;
    if move.Receive? {
      assert Forward(l.(inbox := l.inbox[1..]), l.inbox[0]) == Forward(l, l.inbox[0]);
    }
  }

  // ----- messages stay whole

  lemma PassedInRound(ring: seq<Loop>, m: Message, e: nat)
    requires Remembered(ring, m) && InOneRound(m) && m.kind == StartWaiting2 && Passed(m, e) && e < |ring|
    requires forall k: nat :: k < |m.trail| ==> m.trail[k].state == Wait2
    requires ring[e].resets == m.born
    ensures ring[e].state == Wait2
  {
  }

  lemma OvertakenKept(ring: seq<Loop>, i: nat, move: Move, m: Moved, ring': seq<Loop>, r: Message, d: nat)
    requires Turned(ring, i, move, m, ring') && Overtaken(ring, r, d)
    ensures Overtaken(ring', r, d)
  {
    hide Turned;
    StateIs(ring, i, move, m, ring', d);
    ResetsGrow(ring, i, move, m, ring', d);
  }

  lemma TrailIsRest(ring: seq<Loop>, i: nat, p: nat)
    requires Rounds(ring) && i < |ring| && p < |ring[i].inbox| && ring[i].inbox[p].kind == StartWaiting2
    ensures forall k: nat :: k < |ring[i].inbox[p].trail| ==> ring[i].inbox[p].trail[k].state == Wait2
  {
    hide Inv, InOrder, Ended, HandedOn, AllRemembered;
    assert AllTrailed(|ring|, i, ring[i].inbox);
    assert Trailed(|ring|, i, ring[i].inbox[p]);
  }

  /** An executor that is reset although it was in the round of the message: that reset came from elsewhere. */
  lemma ResetOvertakes(ring: seq<Loop>, i: nat, move: Move, q: nat, r: Message)
    requires Rounds(ring) && MayTurn(ring, i, move) && q < |ring| && r in ring[q].inbox && Whole(ring, r)
    requires r.kind == StartWaiting2 && InOneRound(r) && Passed(r, i)
    requires ring[i].resets == r.born && Moves(ring[i], move).loop.resets != ring[i].resets
    ensures exists d: nat :: Overtaken(ring, r, d)
  {
    hide Moves, Allowed, Inv, RingInv, InOrder, HandedOn, Whole, Remembered, OwnFirst, InOneRound, Passed;
    var p: nat :| p < |ring[q].inbox| && ring[q].inbox[p] == r;
    assert AllRemembered(ring, ring[q].inbox);
    TrailIsRest(ring, q, p);
    PassedInRound(ring, r, i);
    IdIs(ring, i);
    RestIs(ring[i], move);
    assert Sized(ring[i], |ring|);
    var d := ring[i].inbox[0].id;
    assert d < |ring| && Sized(ring[d], |ring|);
    assert Due(ring[i], 1, d) == ring[i].resets[d] + 1 by {
      assert ring[i].inbox[..1] == [ring[i].inbox[0]];
      assert Pending([ring[i].inbox[0]], d) == 1;
    }
    DueIsMade(ring, i, 1, d);
    if Passed(r, d) {
      assert ring[d].resets != r.born;
      WholeAt(ring, r, d);
    } else {
      assert Overtaken(ring, r, d);
    }
  }

  lemma WholeAt(ring: seq<Loop>, m: Message, e: nat)
    requires Whole(ring, m) && m.kind == StartWaiting2 && InOneRound(m) && e < |ring| && Passed(m, e)
    requires ring[e].resets != m.born
    ensures exists d: nat :: Overtaken(ring, m, d)
  {
  }

  lemma WholeKept(ring: seq<Loop>, i: nat, move: Move, ring': seq<Loop>, q: nat, r: Message)
    requires Rounds(ring) && MayTurn(ring, i, move) && q < |ring| && r in ring[q].inbox && Whole(ring, r)
    requires Turned(ring, i, move, Moves(ring[i], move), ring')
    ensures Whole(ring', r)
  {
    hide Moves, Allowed, Inv, Rounds, Turned, Overtaken, Passed, InOneRound, Whole;
    var m := Moves(ring[i], move);
    TurnedSize(ring, i, move, m, ring');
    if r.kind == StartWaiting2 && InOneRound(r) {
      forall e: nat | e < |ring| && Passed(r, e)
        ensures ring'[e].resets == r.born || exists d: nat :: Overtaken(ring', r, d)
      {
        StateIs(ring, i, move, m, ring', e);
        if ring'[e].resets != r.born {
          if ring[e].resets == r.born {
            ResetOvertakes(ring, i, move, q, r);
          } else {
            WholeAt(ring, r, e);
          }
          var d: nat :| Overtaken(ring, r, d);
          OvertakenKept(ring, i, move, m, ring', r, d);
        }
      }
    }
    MakeWhole(ring', r);
  }

  lemma MakeWhole(ring: seq<Loop>, r: Message)
    requires r.kind == StartWaiting2 && InOneRound(r) ==> forall e: nat | e < |ring| && Passed(r, e) ::
      ring[e].resets == r.born || exists d: nat :: Overtaken(ring, r, d)
    ensures Whole(ring, r)
  {
  }

  lemma ForwardWhole(ring: seq<Loop>, l: Loop, r: Message)
    requires Whole(ring, r) && l.id < |ring| == |l.resets| && ring[l.id].resets == l.resets
    ensures Whole(ring, Forward(l, r))
  {
    var f := Forward(l, r);
    if f.kind == StartWaiting2 && InOneRound(f) {
      assert f.trail[|r.trail|].resets == f.born;
      assert forall k: nat :: k < |r.trail| ==> f.trail[k] == r.trail[k];
      assert InOneRound(r);
      forall e: nat | e < |ring| && Passed(f, e)
        ensures ring[e].resets == f.born || exists d: nat :: Overtaken(ring, f, d)
      {
        if e != l.id && ring[e].resets != f.born {
          assert Passed(r, e);
          var d: nat :| Overtaken(ring, r, d);
          assert Overtaken(ring, f, d);
        }
      }
    }
  }

  lemma NewWhole(ring: seq<Loop>, l: Loop, kind: MessageKind)
    requires l.id < |ring| && ring[l.id].resets == l.resets
    ensures Whole(ring, New(l, kind))
  {
  }

  lemma SentWhole(ring: seq<Loop>, i: nat, move: Move, ring': seq<Loop>)
    requires Rounds(ring) && MayTurn(ring, i, move) && AllWhole(ring, ring[i].inbox)
    requires Turned(ring, i, move, Moves(ring[i], move), ring') && Moves(ring[i], move).sent != []
    ensures Whole(ring', Moves(ring[i], move).sent[0])
  {
    hide Moves, Allowed, Inv, Turned, Whole, RingInv, InOrder, HandedOn, OwnFirst, AllRemembered;
    var m, l := Moves(ring[i], move), ring[i];
    IdIs(ring, i);
    TurnedSize(ring, i, move, m, ring');
    StateIs(ring, i, move, m, ring', i);
    if m.sent[0].kind == StartWaiting2 {
      EndMessageIs(l, move);
      assert Sized(l, |ring|);
      if m.sent == [New(l, StartWaiting2)] {
        NewWhole(ring', l, StartWaiting2);
      } else {
        assert l.inbox[0] in ring[i].inbox;
        WholeKept(ring, i, move, ring', i, l.inbox[0]);
        ForwardWhole(ring', l, l.inbox[0]);
      }
    } else {
      MakeWhole(ring', m.sent[0]);
    }
  }

  lemma TurnKeepsWhole(ring: seq<Loop>, i: nat, move: Move, ring': seq<Loop>, k: nat)
    requires Rounds(ring) && MayTurn(ring, i, move) && k < |ring|
    requires forall h: nat :: h < |ring| ==> AllWhole(ring, ring[h].inbox)
    requires Turned(ring, i, move, Moves(ring[i], move), ring')
    ensures |ring'| == |ring| && AllWhole(ring', ring'[k].inbox)
  {
    hide Moves, Allowed, Inv, Turned, Whole, Rounds;
    var m := Moves(ring[i], move);
    TurnedSize(ring, i, move, m, ring');
    assert AllWhole(ring, ring[k].inbox) && AllWhole(ring, ring[i].inbox);
    forall p: nat | p < |ring'[k].inbox|
      ensures Whole(ring', ring'[k].inbox[p])
    {
      QueuedIs(ring, i, move, m, ring', k, p);
      var q := p + Popped(i, move, k);
      if q < |ring[k].inbox| {
        assert ring[k].inbox[q] in ring[k].inbox;
        WholeKept(ring, i, move, ring', k, ring[k].inbox[q]);
      } else {
        SentWhole(ring, i, move, ring');
      }
    }
  }

  // ----- exits in time

  lemma ReturnedIsWhole(ring: seq<Loop>, i: nat)
    requires Rounds(ring) && i < |ring| && Ends(ring[i], Receive) && ring[i].inbox[0].born == ring[i].resets
    ensures InOneRound(ring[i].inbox[0])
    ensures forall e: nat :: e < |ring| ==> Passed(ring[i].inbox[0], e)
  {
    hide Inv, Ended, HandedOn, OwnFirst, AllRemembered, RingInv;
    var n, l, m := |ring|, ring[i], ring[i].inbox[0];
    IdIs(ring, i);
    assert Sized(l, n) && InOrder(l);
    assert Rising(m);
    forall d: nat | d < n
      ensures Last(m)[d] <= l.resets[d]
    {
      assert Due(l, 0, d) == l.resets[d];
    }
    forall k: nat | k < |m.trail|
      ensures m.trail[k].resets == m.born
    {
      SameResets(m.trail[k].resets, m.born);
    }
    forall e: nat | e < n
      ensures Passed(m, e)
    {
      if e != i {
        SentOnInRound(ring, i, e);
      }
    }
  }

  /** Who exits in time leaves everybody in the second wait of its round. */
  lemma EndsAllRest(ring: seq<Loop>, i: nat)
    requires Rounds(ring) && i < |ring| && Ends(ring[i], Receive) && ring[i].inbox[0].born == ring[i].resets
    requires AllWhole(ring, ring[i].inbox)
    ensures AllRest(ring)
  {
    hide Rounds, Passed, InOneRound;
    var l, m := ring[i], ring[i].inbox[0];
    IdIs(ring, i);
    ReturnedIsWhole(ring, i);
    assert AllWaitedAt(ring, l.resets, Wait2) by { AllWaited(ring, i, Wait2); }
    forall e: nat | e < |ring|
      ensures ring[e].state == Wait2 && ring[e].resets == l.resets
    {
      assert Whole(ring, m);
      assert !exists d: nat :: Overtaken(ring, m, d);
      assert Since(Point(l.resets, Wait2), PointOf(ring[e]));
    }
  }

  lemma NoResetAtRest(ring: seq<Loop>, i: nat)
    requires Rounds(ring) && AllRest(ring) && i < |ring| && ring[i].inbox != []
    ensures ring[i].inbox[0].kind == Reset ==> ring[i].inbox[0].id == i
  {
    hide RingInv, InOrder, AllRemembered, OwnFirst;
    var h, m := Prev(|ring|, i), ring[i].inbox[0];
    assert Sized(ring[h], |ring|) && Sized(ring[i], |ring|) && HandedOn(ring[h], ring[Next(|ring|, h)]);
    assert ring[i].id == i by { RingId(ring, i); }
    if m.id != i {
      assert ring[h].resets[m.id] == Due(ring[i], |ring[i].inbox|, m.id);
      assert ring[i].inbox[..|ring[i].inbox|] == ring[i].inbox;
      assert Pending(ring[i].inbox, m.id) == 0;
    }
  }

  lemma AllRestKept(ring: seq<Loop>, i: nat, move: Move, ring': seq<Loop>)
    requires Rounds(ring) && MayTurn(ring, i, move) && AllRest(ring)
    requires Turned(ring, i, move, Moves(ring[i], move), ring')
    ensures AllRest(ring')
  {
    hide Moves, Allowed, Inv, Turned, Rounds;
    IdIs(ring, i);
    RestIs(ring[i], move);
    if ring[i].inbox != [] {
      NoResetAtRest(ring, i);
    }
    TurnedSize(ring, i, move, Moves(ring[i], move), ring');
    StateIs(ring, i, move, Moves(ring[i], move), ring', 0);
    forall e: nat | e < |ring|
      ensures ring'[e].state == Wait2 && ring'[e].resets == ring'[0].resets
    {
      StateIs(ring, i, move, Moves(ring[i], move), ring', e);
    }
  }

  lemma TerminateMeansExited(ring: seq<Loop>, i: nat)
    requires Rounds(ring) && i < |ring| && ring[i].inbox != [] && ring[i].inbox[0].kind == Terminate
    ensures SomeExited(ring)
  {
    hide Inv, InOrder, HandedOn, OwnFirst, AllRemembered, AllTrailed;
    assert Ended(ring, ring[i].inbox);
    assert Sized(ring[i], |ring|);
  }

  lemma RestOnceExited(ring: seq<Loop>, i: nat, move: Move)
    requires Rounds(ring) && FreshEnds(ring) && MayTurn(ring, i, move) && !StaleEnd(ring[i], move)
    requires SomeExited(Turn(ring, i, move))
    ensures AllRest(ring)
  {
    hide Moves, Allowed, Inv, Rounds, Turn, AllRest, AllWhole;
    var e: nat :| e < |Turn(ring, i, move)| && Turn(ring, i, move)[e].status == Exited;
    TurnSize(ring, i, move);
    RunningIs(ring, i, move, e);
    if !SomeExited(ring) {
      IdIs(ring, i);
      EndMessageIs(ring[i], move);
      if Ends(ring[i], move) {
        assert AllWhole(ring, ring[i].inbox);
        EndsAllRest(ring, i);
      } else {
        TerminateMeansExited(ring, i);
      }
    }
  }

  lemma TurnKeepsFreshEnds(ring: seq<Loop>, i: nat, move: Move)
    requires Rounds(ring) && FreshEnds(ring) && MayTurn(ring, i, move) && !StaleEnd(ring[i], move)
    ensures FreshEnds(Turn(ring, i, move))
  {
    hide Moves, Allowed, Inv, Rounds, Turn, AllRest, AllWhole, StaleEnd, SomeExited, Turned;
    var ring' := Turn(ring, i, move);
    TurnIsTurned(ring, i, move);
    TurnSize(ring, i, move);
    forall k: nat | k < |ring|
      ensures AllWhole(ring', ring'[k].inbox)
    {
      TurnKeepsWhole(ring, i, move, ring', k);
    }
    if SomeExited(ring') {
      RestOnceExited(ring, i, move);
      AllRestKept(ring, i, move, ring');
    }
  }

  // ----- runs

  ghost predicate EndsInTime(ring: seq<Loop>, ring': seq<Loop>) {
    exists i: nat, move :: TakesTurn(ring, i, move, ring') && !StaleEnd(ring[i], move)
  }

  /** A run in which no executor exits by a message of its own from an earlier round. */
  ghost predicate ExitsInTime(run: seq<seq<Loop>>) {
    && run != [] && Started(run[0])
    && forall k :: 0 < k < |run| ==> EndsInTime(run[k - 1], run[k])
  }

  lemma {:induction false} RunKeepsFreshEnds(run: seq<seq<Loop>>, k: nat)
    requires ExitsInTime(run) && k < |run|
    ensures Rounds(run[k]) && FreshEnds(run[k])
  {
    hide Moves, Allowed, Turn, Rounds, FreshEnds, StaleEnd;
    if k == 0 {
      StartHasRounds(run[0]);
      StartIsFresh(run[0]);
    } else {
      RunKeepsFreshEnds(run, k - 1);
      assert EndsInTime(run[k - 1], run[k]);
      var i: nat, move :| TakesTurn(run[k - 1], i, move, run[k]) && !StaleEnd(run[k - 1][i], move);
      TurnKeepsRounds(run[k - 1], i, move);
      TurnKeepsFreshEnds(run[k - 1], i, move);
    }
  }

  lemma StartIsFresh(ring: seq<Loop>)
    requires Started(ring)
    ensures FreshEnds(ring)
  {
  }

  /**
    In such a run, once an executor has exited all of them are in the second wait, in the same round; so
    a Terminate message never fails.
    */
  lemma AllRestAtExit(run: seq<seq<Loop>>, k: nat)
    requires ExitsInTime(run) && k < |run|
    ensures SomeExited(run[k]) ==> AllRest(run[k])
    ensures forall i: nat :: i < |run[k]| && run[k][i].inbox != [] && run[k][i].inbox[0].kind == Terminate ==>
      run[k][i].state == Wait2
  {
    hide ExitsInTime, Rounds, AllWhole;
    RunKeepsFreshEnds(run, k);
    forall i: nat | i < |run[k]| && run[k][i].inbox != [] && run[k][i].inbox[0].kind == Terminate
      ensures run[k][i].state == Wait2
    {
      TerminateMeansExited(run[k], i);
    }
  }
}
