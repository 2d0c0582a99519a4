/**
  When the executors of a ring can all be left waiting.  A wait ends early when an executor acts on a
  message of an earlier round; as long as that does not happen, some executor goes on.
  */
module RingWaits {
  import opened ExecutorStates
  import opened MessageRings
  import opened RingRounds

  /** In its first wait, the executor gets the message that lets it go on. */
  predicate EndsWait(l: Loop, m: Message) {
    l.state == Wait1 && if m.id == l.id then m.kind == StartWaiting1 else m.kind == StartDoubleCheck
  }

  /** It does so with a message that was made before a reset it has been through. */
  predicate StaleWait(l: Loop, move: Move) {
    move.Receive? && l.inbox != [] && EndsWait(l, l.inbox[0]) && l.inbox[0].born != l.resets
  }

  /** Checking again, or further. */
  predicate Past(state: State) { Rank(state) >= 3 }

  /** Every executor has been waiting, at least, since the one with these resets was. */
  ghost predicate AllWaitedAt(ring: seq<Loop>, resets: seq<nat>, state: State) {
    forall f: nat :: f < |ring| ==> Since(Point(resets, state), PointOf(ring[f]))
  }

  /** The neighbor, which waits in the same round, is about to be told to check again. */
  ghost predicate Told(l: Loop, next: Loop) {
    Past(l.state) && next.state == Wait1 && l.resets == next.resets ==>
      exists p: nat :: p < |next.inbox| && EndsWait(next, next.inbox[p]) && next.inbox[p].id != next.id
  }

  ghost predicate ChecksAgree(ring: seq<Loop>, inbox: seq<Message>) {
    forall p: nat :: p < |inbox| && inbox[p].kind == StartDoubleCheck ==> AllWaitedAt(ring, inbox[p].born, Wait1)
  }

  ghost predicate FreshWaits(ring: seq<Loop>) {
    && (forall i: nat :: i < |ring| ==> ChecksAgree(ring, ring[i].inbox))
    && (forall i: nat :: i < |ring| && Past(ring[i].state) ==> AllWaitedAt(ring, ring[i].resets, Wait1))
    && (forall i: nat :: i < |ring| ==> Told(ring[i], ring[Next(|ring|, i)]))
  }

  // ----- moves

  /** How an executor gets past its first wait, and what it sends when it does. */
  lemma PastIs(l: Loop, move: Move)
    requires Inv(l) && Allowed(l, move) && !move.Deliver?
    ensures var m := Moves(l, move);
            && (Past(m.loop.state) ==> m.loop.resets == l.resets)
            && (Past(m.loop.state) && !Past(l.state) ==>
                  && move.Receive? && l.inbox != [] && EndsWait(l, l.inbox[0])
                  && m.sent == [if l.inbox[0].id == l.id then New(l, StartDoubleCheck) else Forward(l, l.inbox[0])])
            && (m.sent != [] && m.sent[0].kind == StartDoubleCheck ==>
                  move.Receive? && l.inbox != [] && EndsWait(l, l.inbox[0])
                  && m.sent == [if l.inbox[0].id == l.id then New(l, StartDoubleCheck) else Forward(l, l.inbox[0])])
            && (m.loop.state == Wait1 ==> (l.state == Wait1 || l.state == ShootDown) && m.loop.resets == l.resets)
            && (m.loop.state == Wait1 && move.Receive? ==> l.inbox != [] && !EndsWait(l, l.inbox[0]))
  {
    hide Skips;
    if move.Receive? {
      assert Forward(l.(inbox := l.inbox[1..]), l.inbox[0]) == Forward(l, l.inbox[0]);
    }
  }

  /** A message that comes back in the round it was made in was sent on by everyone in that round. */
  lemma SentOnInRound(ring: seq<Loop>, i: nat, f: nat)
    requires Rounds(ring) && i < |ring| && f < |ring| && f != i && ring[i].inbox != []
    requires ring[i].inbox[0].id == i && ring[i].inbox[0].born == ring[i].resets
    ensures exists k: nat :: k < |ring[i].inbox[0].trail| && SentInRound(ring[i].inbox[0], k, f, ring[i].resets)
  {
    hide Inv, Ended, HandedOn, OwnFirst, AllRemembered, Next;
    var n, l, m := |ring|, ring[i], ring[i].inbox[0];
    assert AllTrailed(n, i, l.inbox);
    assert Trailed(n, i, m);
    var k: nat := Hops(n, i, f);
    assert m.trail[k].executor == f;
    assert Sized(l, n) && InOrder(l);
    assert Rising(m);
    forall d: nat | d < n
      ensures Last(m)[d] <= l.resets[d]
    {
      assert Due(l, 0, d) == l.resets[d];
    }
    SameResets(m.trail[k].resets, l.resets);
    assert SentInRound(m, k, f, l.resets);
  }

  ghost predicate SentInRound(m: Message, k: nat, f: nat, resets: seq<nat>) {
    k < |m.trail| && m.trail[k].executor == f && m.trail[k].resets == resets && SentOnIn(m.kind, m.trail[k].state)
  }

  lemma AllWaited(ring: seq<Loop>, i: nat, state: State)
    requires Rounds(ring) && i < |ring| && ring[i].inbox != [] && ring[i].state == state
    requires ring[i].inbox[0].id == i && ring[i].inbox[0].born == ring[i].resets
    requires forall s :: SentOnIn(ring[i].inbox[0].kind, s) ==> s == state
    ensures AllWaitedAt(ring, ring[i].resets, state)
  {
    hide RingInv, HandedOn, OwnFirst, InOrder, Sized, SentOnIn, Before;
    var l, m := ring[i], ring[i].inbox[0];
    forall f: nat | f < |ring|
      ensures Since(Point(l.resets, state), PointOf(ring[f]))
    {
      if f != i {
        SentOnInRound(ring, i, f);
        var k: nat :| k < |m.trail| && SentInRound(m, k, f, l.resets);
        assert AllRemembered(ring, l.inbox);
        assert Remembered(ring, m);
      } else {
        assert Before(state, state) by { BeforeItself(state); }
      }
    }
  }

  lemma BeforeItself(s: State)
    ensures Before(s, s)
  {
  }

  lemma AllWaitedKept(ring: seq<Loop>, i: nat, move: Move, m: Moved, ring': seq<Loop>, resets: seq<nat>, state: State)
    requires Turned(ring, i, move, m, ring') && AllWaitedAt(ring, resets, state)
    ensures AllWaitedAt(ring', resets, state)
  {
    hide Turned, Since;
    TurnedSize(ring, i, move, m, ring');
    forall f: nat | f < |ring|
      ensures Since(Point(resets, state), PointOf(ring'[f]))
    {
      ResetsGrow(ring, i, move, m, ring', f);
      SinceThen(Point(resets, state), PointOf(ring[f]), PointOf(ring'[f]));
    }
  }

  // ----- fresh waits stay fresh

  /** Who gets past its first wait in time knows that all have been waiting since. */
  lemma PassedInTime(ring: seq<Loop>, i: nat)
    requires Rounds(ring) && FreshWaits(ring) && i < |ring| && ring[i].inbox != [] &&
      EndsWait(ring[i], ring[i].inbox[0])
    requires ring[i].inbox[0].born == ring[i].resets
    ensures AllWaitedAt(ring, ring[i].resets, Wait1)
  {
    hide Rounds, AllWaitedAt, Told;
    var m := ring[i].inbox[0];
    if m.id == ring[i].id {
      assert ring[i].id == i by { IdIs(ring, i); }
      AllWaited(ring, i, Wait1);
    } else {
      assert ChecksAgree(ring, ring[i].inbox);
    }
  }

  lemma IdIs(ring: seq<Loop>, i: nat)
    requires Rounds(ring) && i < |ring|
    ensures ring[i].id == i && Inv(ring[i])
  {
    RingId(ring, i);
  }

  lemma TurnKeepsChecks(ring: seq<Loop>, i: nat, move: Move, ring': seq<Loop>, k: nat)
    requires Rounds(ring) && FreshWaits(ring) && MayTurn(ring, i, move) && !StaleWait(ring[i], move) && k < |ring|
    requires Turned(ring, i, move, Moves(ring[i], move), ring')
    ensures ChecksAgree(ring', ring'[k].inbox)
  {
    hide Rounds, Turned, AllWaitedAt, Moves, Allowed, Told, Inv;
    var m := Moves(ring[i], move);
    TurnedSize(ring, i, move, m, ring');
    IdIs(ring, i);
    PastIs(ring[i], move);
    forall p: nat | p < |ring'[k].inbox| && ring'[k].inbox[p].kind == StartDoubleCheck
      ensures AllWaitedAt(ring', ring'[k].inbox[p].born, Wait1)
    {
      QueuedIs(ring, i, move, m, ring', k, p);
      if p + Popped(i, move, k) < |ring[k].inbox| {
        assert ChecksAgree(ring, ring[k].inbox);
      } else {
        PassedInTime(ring, i);
      }
      AllWaitedKept(ring, i, move, m, ring', ring'[k].inbox[p].born, Wait1);
    }
  }

  lemma TurnKeepsPast(ring: seq<Loop>, i: nat, move: Move, ring': seq<Loop>, k: nat)
    requires Rounds(ring) && FreshWaits(ring) && MayTurn(ring, i, move) && !StaleWait(ring[i], move) && k < |ring|
    requires Turned(ring, i, move, Moves(ring[i], move), ring') && Past(ring'[k].state)
    ensures AllWaitedAt(ring', ring'[k].resets, Wait1)
  {
    hide Rounds, Turned, AllWaitedAt, Moves, Allowed, Told, Inv, ChecksAgree, EndsWait, Past;
    var m := Moves(ring[i], move);
    TurnedSize(ring, i, move, m, ring');
    IdIs(ring, i);
    PastIs(ring[i], move);
    StateIs(ring, i, move, m, ring', k);
    if !Past(ring[k].state) {
      PassedInTime(ring, i);
    }
    AllWaitedKept(ring, i, move, m, ring', ring[k].resets, Wait1);
  }

  lemma StateIs(ring: seq<Loop>, i: nat, move: Move, m: Moved, ring': seq<Loop>, k: nat)
    requires Turned(ring, i, move, m, ring') && k < |ring|
    ensures |ring'| == |ring|
    ensures ring'[k].state == (if k == i then m.loop.state else ring[k].state)
    ensures ring'[k].resets == (if k == i then m.loop.resets else ring[k].resets)
    ensures ring[k].id == ring'[k].id == k
    ensures Popped(i, move, k) <= |ring[k].inbox|
    ensures ring'[k].inbox == ring[k].inbox[Popped(i, move, k)..] + if k == Next(|ring|, i) then m.sent else []
  {
    hide Steps;
    assert TurnedAt(ring, i, move, m, ring', k);
  }

  /** A message stays in its queue until it is the first one and its executor receives it. */
  lemma StaysQueued(ring: seq<Loop>, i: nat, move: Move, m: Moved, ring': seq<Loop>, k: nat, p: nat)
    requires Turned(ring, i, move, m, ring') && k < |ring| && p < |ring[k].inbox| && Popped(i, move, k) <= p
    ensures |ring'| == |ring| && p - Popped(i, move, k) < |ring'[k].inbox|
    ensures ring'[k].inbox[p - Popped(i, move, k)] == ring[k].inbox[p]
  {
    hide Turned;
    StateIs(ring, i, move, m, ring', k);
  }

  /** Of an executor that was past its first wait, the neighbor stays told. */
  lemma StillTold(ring: seq<Loop>, i: nat, move: Move, ring': seq<Loop>, k: nat, j: nat)
    requires Rounds(ring) && FreshWaits(ring) && MayTurn(ring, i, move) && k < |ring| && j == Next(|ring|, k)
    requires Turned(ring, i, move, Moves(ring[i], move), ring') && |ring'| == |ring| && j < |ring|
    requires Past(ring[k].state) && Past(ring'[k].state)
    ensures Told(ring'[k], ring'[j])
  {
    hide Rounds, Turned, Moves, Allowed, Inv, ChecksAgree, Past;
    var m, next := Moves(ring[i], move), ring[j];
    IdIs(ring, i);
    PastIs(ring[i], move);
    StateIs(ring, i, move, m, ring', k);
    StateIs(ring, i, move, m, ring', j);
    if ring'[j].state == Wait1 && ring'[k].resets == ring'[j].resets {
      assert AllWaitedAt(ring, ring[k].resets, Wait1) && Told(ring[k], next);
      assert Since(Point(ring[k].resets, Wait1), PointOf(next));
      assert next.state == Wait1;
      var p: nat :| p < |next.inbox| && EndsWait(next, next.inbox[p]) && next.inbox[p].id != next.id;
      StaysQueued(ring, i, move, m, ring', j, p);
    }
  }

  lemma NowTold(ring: seq<Loop>, i: nat, move: Move, ring': seq<Loop>, j: nat)
    requires Rounds(ring) && MayTurn(ring, i, move) && !StaleWait(ring[i], move) && j == Next(|ring|, i)
    requires Turned(ring, i, move, Moves(ring[i], move), ring') && |ring'| == |ring| && j < |ring|
    requires !Past(ring[i].state) && Past(ring'[i].state)
    ensures Told(ring'[i], ring'[j])
  {
    hide Rounds, Turned, Moves, Allowed, Inv;
    var m := Moves(ring[i], move);
    IdIs(ring, i);
    PastIs(ring[i], move);
    StateIs(ring, i, move, m, ring', i);
    StateIs(ring, i, move, m, ring', j);
    assert m.sent[0] == ring'[j].inbox[|ring'[j].inbox| - 1];
    if ring[i].inbox[0].id == j && j != i && ring[i].resets == ring[j].resets {
      JoinedTooLate(ring, i, j);
    }
  }

  lemma TurnKeepsTold(ring: seq<Loop>, i: nat, move: Move, ring': seq<Loop>, k: nat)
    requires Rounds(ring) && FreshWaits(ring) && MayTurn(ring, i, move) && !StaleWait(ring[i], move) && k < |ring|
    requires Turned(ring, i, move, Moves(ring[i], move), ring')
    ensures |ring'| == |ring| && Told(ring'[k], ring'[Next(|ring|, k)])
  {
    hide Rounds, Turned, Moves, Allowed, Inv, FreshWaits, StaleWait, EndsWait, Past;
    StateIs(ring, i, move, Moves(ring[i], move), ring', k);
    if Past(ring'[k].state) {
      if Past(ring[k].state) {
        StillTold(ring, i, move, ring', k, Next(|ring|, k));
      } else {
        NowTold(ring, i, move, ring', Next(|ring|, k));
      }
    }
  }

  /** The executor that made the message it joins has not been waiting since, in that round. */
  lemma JoinedTooLate(ring: seq<Loop>, k: nat, j: nat)
    requires Rounds(ring) && k < |ring| && j < |ring| && ring[k].inbox != [] && ring[k].inbox[0].id == j
    requires ring[k].inbox[0].kind == StartDoubleCheck && ring[k].inbox[0].born == ring[j].resets
    ensures ring[j].state != Wait1
  {
    assert AllRemembered(ring, ring[k].inbox);
    assert Remembered(ring, ring[k].inbox[0]);
  }

  lemma TurnKeepsFreshWaits(ring: seq<Loop>, i: nat, move: Move)
    requires Rounds(ring) && FreshWaits(ring) && MayTurn(ring, i, move) && !StaleWait(ring[i], move)
    ensures FreshWaits(Turn(ring, i, move))
  {
    hide Moves, Allowed, Inv, Turn, Rounds, Turned, ChecksAgree, AllWaitedAt, Told, StaleWait, Past;
    var ring' := Turn(ring, i, move);
    TurnIsTurned(ring, i, move);
    TurnedSize(ring, i, move, Moves(ring[i], move), ring');
    forall k: nat | k < |ring|
      ensures ChecksAgree(ring', ring'[k].inbox) && Told(ring'[k], ring'[Next(|ring|, k)])
      ensures Past(ring'[k].state) ==> AllWaitedAt(ring', ring'[k].resets, Wait1)
    {
      TurnKeepsChecks(ring, i, move, ring', k);
      TurnKeepsTold(ring, i, move, ring', k);
      if Past(ring'[k].state) {
        TurnKeepsPast(ring, i, move, ring', k);
      }
    }
  }

  // ----- while all wait for the same, a message is under way

  /** The message that an executor in this wait sends. */
  function WaitMessage(second: bool): MessageKind {
    if second then MessageKind.StartWaiting2 else MessageKind.StartWaiting1
  }

  function WaitState(second: bool): State { if second then Wait2 else Wait1 }

  ghost predicate AllIn(ring: seq<Loop>, state: State) {
    forall i: nat :: i < |ring| ==> ring[i].status == Running && ring[i].state == state
  }

  ghost predicate UnderWay(ring: seq<Loop>, kind: MessageKind) {
    exists i: nat, p: nat :: i < |ring| && p < |ring[i].inbox| && ring[i].inbox[p].kind == kind
  }

  ghost predicate Called(ring: seq<Loop>) {
    forall second :: AllIn(ring, WaitState(second)) ==> UnderWay(ring, WaitMessage(second))
  }

  /** An executor that comes to wait sends such a message, and one that goes on waiting sends it on. */
  lemma WaitIs(l: Loop, move: Move, second: bool)
    requires Inv(l) && Allowed(l, move) && !move.Deliver?
    requires var l' := Moves(l, move).loop; l'.state == WaitState(second) && l'.status == Running
    ensures var m := Moves(l, move);
            if l.state != WaitState(second) || (move.Receive? && l.inbox != [] &&
                l.inbox[0].kind == WaitMessage(second))
            then m.sent != [] && m.sent[0].kind == WaitMessage(second) else l.status == Running
  {
    hide Skips;
  }

  lemma TurnKeepsCalled(ring: seq<Loop>, i: nat, move: Move)
    requires Rounds(ring) && Called(ring) && MayTurn(ring, i, move)
    ensures Called(Turn(ring, i, move))
  {
    hide Moves, Allowed, Inv, Turn, Rounds, Turned, UnderWay, WaitMessage, WaitState;
    var ring' := Turn(ring, i, move);
    TurnIsTurned(ring, i, move);
    forall second | AllIn(ring', WaitState(second))
      ensures UnderWay(ring', WaitMessage(second))
    {
      StillCalled(ring, i, move, ring', second);
    }
  }

  lemma StillCalled(ring: seq<Loop>, i: nat, move: Move, ring': seq<Loop>, second: bool)
    requires Rounds(ring) && Called(ring) && MayTurn(ring, i, move)
    requires Turned(ring, i, move, Moves(ring[i], move), ring') && ring' == Turn(ring, i, move)
    requires AllIn(ring', WaitState(second))
    ensures UnderWay(ring', WaitMessage(second))
  {
    hide Moves, Allowed, Inv, Turn, Rounds, Turned, WaitMessage, WaitState;
    var m, j := Moves(ring[i], move), Next(|ring|, i);
    IdIs(ring, i);
    StateIs(ring, i, move, m, ring', i);
    StateIs(ring, i, move, m, ring', j);
    RunningIs(ring, i, move, i);
    WaitIs(ring[i], move, second);
    if m.sent != [] && m.sent[0].kind == WaitMessage(second) {
      assert ring'[j].inbox[|ring[j].inbox[Popped(i, move, j)..]|] == m.sent[0];
    } else {
      forall k: nat | k < |ring|
        ensures ring[k].status == Running && ring[k].state == WaitState(second)
      {
        StateIs(ring, i, move, m, ring', k);
        RunningIs(ring, i, move, k);
      }
      assert AllIn(ring, WaitState(second));
      var k: nat, p: nat :| k < |ring| && p < |ring[k].inbox| && ring[k].inbox[p].kind == WaitMessage(second);
      StaysQueued(ring, i, move, m, ring', k, p);
    }
  }

  lemma RunningIs(ring: seq<Loop>, i: nat, move: Move, k: nat)
    requires Rounds(ring) && MayTurn(ring, i, move) && k < |ring|
    ensures Turn(ring, i, move)[k].status == if k == i then Moves(ring[i], move).loop.status else ring[k].status
  {
    hide Moves, Allowed, Inv, Turn, InOrder, AllRemembered, HandedOn, Sized, OwnFirst;
    TurnIs(ring, i, move, k);
  }

  // ----- runs

  ghost predicate TakesTurn(ring: seq<Loop>, i: nat, move: Move, ring': seq<Loop>) {
    MayTurn(ring, i, move) && Turn(ring, i, move) == ring'
  }

  ghost predicate TurnsInTime(ring: seq<Loop>, ring': seq<Loop>) {
    exists i: nat, move :: TakesTurn(ring, i, move, ring') && !StaleWait(ring[i], move)
  }

  /** A run in which no executor ends its first wait by a message of an earlier round. */
  ghost predicate WaitsInTime(run: seq<seq<Loop>>) {
    && run != [] && Started(run[0])
    && forall k :: 0 < k < |run| ==> TurnsInTime(run[k - 1], run[k])
  }

  lemma StartIsCalled(ring: seq<Loop>)
    requires Started(ring)
    ensures Called(ring) && FreshWaits(ring)
  {
    assert ring[0].state == Normal;
  }

  lemma {:induction false} RunKeepsCalled(run: seq<seq<Loop>>, k: nat)
    requires IsRingRun(run) && k < |run|
    ensures Called(run[k])
  {
    hide Moves, Allowed, Turn, Rounds, Called, Initial;
    if k == 0 {
      StartIsCalled(run[0]);
    } else {
      RunKeepsCalled(run, k - 1);
      RunKeepsRounds(run, k - 1);
      assert TurnsTo(run[k - 1], run[k]);
      var i: nat, move :| MayTurn(run[k - 1], i, move) && Turn(run[k - 1], i, move) == run[k];
      TurnKeepsCalled(run[k - 1], i, move);
    }
  }

  lemma InTimeIsRun(run: seq<seq<Loop>>)
    requires WaitsInTime(run)
    ensures IsRingRun(run)
  {
    hide Moves, Allowed, Turn, Initial, StaleWait;
    forall k | 0 < k < |run|
      ensures TurnsTo(run[k - 1], run[k])
    {
      assert TurnsInTime(run[k - 1], run[k]);
      var i: nat, move :| TakesTurn(run[k - 1], i, move, run[k]) && !StaleWait(run[k - 1][i], move);
    }
  }

  lemma {:induction false} RunKeepsFreshWaits(run: seq<seq<Loop>>, k: nat)
    requires WaitsInTime(run) && k < |run|
    ensures FreshWaits(run[k])
  {
    hide Moves, Allowed, Turn, Rounds, FreshWaits, Initial, StaleWait;
    if k == 0 {
      StartIsCalled(run[0]);
    } else {
      RunKeepsFreshWaits(run, k - 1);
      InTimeIsRun(run);
      RunKeepsRounds(run, k - 1);
      assert TurnsInTime(run[k - 1], run[k]);
      var i: nat, move :| TakesTurn(run[k - 1], i, move, run[k]) && !StaleWait(run[k - 1][i], move);
      TurnKeepsFreshWaits(run[k - 1], i, move);
    }
  }

  /** With empty queues, neighbors have been through the same resets; so all have, going around from `d`. */
  lemma {:induction false} SameRound(ring: seq<Loop>, d: nat, k: nat)
    requires Rounds(ring) && Stalled(ring) && d < |ring| && k < |ring|
    ensures ring[Later0(|ring|, d, k)].resets[d] == ring[d].resets[d]
  {
    hide RingInv, InOrder, AllRemembered, OwnFirst;
    if k > 0 {
      SameRound(ring, d, k - 1);
      var h, j := Later0(|ring|, d, k - 1), Later0(|ring|, d, k);
      assert Sized(ring[h], |ring|) && Sized(ring[j], |ring|);
      assert HandedOn(ring[h], ring[Next(|ring|, h)]);
      assert ring[j].id == j by { RingId(ring, j); }
      assert Stuck(ring[j]);
    }
  }

  /** The executor `k` places after executor `d`. */
  function Later0(n: nat, d: nat, k: nat): nat
    requires d < n && k < n
    ensures Later0(n, d, k) < n
  {
    if d + k < n then d + k else d + k - n
  }

  lemma AllInOneRound(ring: seq<Loop>, i: nat, j: nat)
    requires Rounds(ring) && Stalled(ring) && i < |ring| && j < |ring|
    ensures ring[i].resets == ring[j].resets
  {
    hide RingInv, InOrder, AllRemembered, OwnFirst, HandedOn, Stalled;
    assert Sized(ring[i], |ring|) && Sized(ring[j], |ring|);
    forall d: nat | d < |ring|
      ensures ring[i].resets[d] == ring[j].resets[d]
    {
      SameRound(ring, d, if d <= i then i - d else |ring| + i - d);
      SameRound(ring, d, if d <= j then j - d else |ring| + j - d);
    }
  }

  /** Somewhere the first executor of a wait is followed by one of the other, unless all are in the same. */
  lemma {:induction false} Neighbors(ring: seq<Loop>, i: nat, k: nat) returns (h: nat)
    requires i < |ring| && k < |ring| && ring[i].state == Wait2 && ring[Later0(|ring|, i, k)].state == Wait1
    requires forall e: nat :: e < |ring| ==> ring[e].state == Wait1 || ring[e].state == Wait2
    ensures h < |ring| && ring[h].state == Wait2 && ring[Next(|ring|, h)].state == Wait1
  {
    var j := Later0(|ring|, i, k - 1);
    if ring[j].state == Wait2 {
      h := j;
    } else {
      h := Neighbors(ring, i, k - 1);
    }
  }

  /** A stalled ring has executors in either wait. */
  lemma StalledIsMixed(ring: seq<Loop>) returns (i: nat, j: nat)
    requires Stalled(ring) && Called(ring)
    ensures i < |ring| && j < |ring| && ring[i].state == Wait2 && ring[j].state == Wait1
  {
    assert forall e: nat :: e < |ring| ==> Stuck(ring[e]);
    assert !UnderWay(ring, WaitMessage(false)) && !UnderWay(ring, WaitMessage(true));
    assert !AllIn(ring, WaitState(false)) && !AllIn(ring, WaitState(true));
    i :| i < |ring| && ring[i].state != Wait1;
    j :| j < |ring| && ring[j].state != Wait2;
  }

  /** One executor alone never stalls. */
  lemma OneNeverStalls(run: seq<seq<Loop>>, k: nat)
    requires IsRingRun(run) && k < |run| && |run[k]| == 1
    ensures !Stalled(run[k])
  {
    hide Stalled, Called, IsRingRun;
    if Stalled(run[k]) {
      RunKeepsCalled(run, k);
      var i, j := StalledIsMixed(run[k]);
    }
  }

  /**
    However many executors there are, and whatever they do: unless one of them ends its first wait by a
    message that was made before a reset it has been through, they never stall.
    */
  lemma InTimeNeverStalls(run: seq<seq<Loop>>, k: nat)
    requires WaitsInTime(run) && k < |run|
    ensures !Stalled(run[k])
  {
    hide Stalled, Called, WaitsInTime, IsRingRun, Rounds, FreshWaits;
    if Stalled(run[k]) {
      InTimeIsRun(run);
      RunKeepsCalled(run, k);
      RunKeepsRounds(run, k);
      RunKeepsFreshWaits(run, k);
      FreshIsNotStalled(run[k]);
    }
  }

  lemma FreshIsNotStalled(ring: seq<Loop>)
    requires Rounds(ring) && FreshWaits(ring) && Called(ring)
    ensures !Stalled(ring)
  {
    hide Called, Rounds, ChecksAgree, AllWaitedAt;
    if Stalled(ring) {
      assert forall e: nat :: e < |ring| ==> Stuck(ring[e]);
      var i, j := StalledIsMixed(ring);
      var h := Neighbors(ring, i, if i <= j then j - i else |ring| + j - i);
      assert Told(ring[h], ring[Next(|ring|, h)]) && Stuck(ring[Next(|ring|, h)]);
      AllInOneRound(ring, h, Next(|ring|, h));
    }
  }
}
