/** Executors in a ring: every message goes to the next executor, in the order sent. */
module MessageRings {
  import opened ExecutorStates

  function Next(n: nat, i: nat): nat { if i + 1 == n then 0 else i + 1 }

  ghost predicate IsRing(ring: seq<Loop>) {
    ring != [] && forall i :: 0 <= i < |ring| ==> ring[i].id == i && Inv(ring[i])
  }

  /** One executor makes a move, and its neighbor gets the messages. */
  function Turn(ring: seq<Loop>, i: nat, move: Move): seq<Loop>
    requires i < |ring| && Tasks(ring[i]) && Allowed(ring[i], move)
  {
    var m := Moves(ring[i], move);
    var j := Next(|ring|, i);
    var ring1 := ring[i := m.loop];
    ring1[j := ring1[j].(inbox := ring1[j].inbox + m.sent)]
  }

  ghost predicate MayTurn(ring: seq<Loop>, i: nat, move: Move) {
    i < |ring| && Tasks(ring[i]) && Allowed(ring[i], move) && !move.Deliver?
  }

  // ----- what a message has been through

  /** How often a message of executor `id` was sent on when it is in the queue of executor `j`. */
  function Hops(n: nat, id: nat, j: nat): int {
    if j > id then j - id - 1 else n - 1 - id + j
  }

  /** The executor that comes `k + 1` places after executor `id`. */
  function Later(n: nat, id: nat, k: nat): int {
    if id + 1 + k < n then id + 1 + k else id + 1 + k - n
  }

  /** The state in which executors send on messages of this kind. */
  predicate SentOnIn(kind: MessageKind, state: State) {
    match kind
    case StartShootDown => state == Normal
    case StartWaiting1 => state == Wait1
    case StartDoubleCheck => state == Wait1
    case StartWaiting2 => state == Wait2
    case Terminate => state == Wait2
    case Reset => true
  }

  /** A message in the queue of executor `j` was sent on by all executors from its sender to there. */
  ghost predicate Trailed(n: nat, j: nat, m: Message) {
    && m.id < n && |m.trail| == Hops(n, m.id, j)
    && forall k: nat :: k < |m.trail| ==> m.trail[k].executor == Later(n, m.id, k) && SentOnIn(m.kind, m.trail[k].state)
  }

  ghost predicate AllTrailed(n: nat, j: nat, messages: seq<Message>) {
    forall k :: 0 <= k < |messages| ==> Trailed(n, j, messages[k])
  }

  /** A Terminate message comes from an executor that has exited. */
  ghost predicate Ended(ring: seq<Loop>, messages: seq<Message>) {
    forall k :: 0 <= k < |messages| && messages[k].kind == Terminate && messages[k].id < |ring| ==>
      ring[messages[k].id].status == Exited
  }

  ghost predicate RingInv(ring: seq<Loop>) {
    && IsRing(ring)
    && (forall j :: 0 <= j < |ring| ==> AllTrailed(|ring|, j, ring[j].inbox))
    && (forall j :: 0 <= j < |ring| ==> Ended(ring, ring[j].inbox))
  }

  /** A message that starts at this executor. */
  ghost predicate Own(l: Loop, m: Message) { m == New(l, m.kind) }

  ghost predicate Forwards(l: Loop, m: Message, sent: Message) {
    m.id != l.id && SentOnIn(m.kind, l.state) && sent == Forward(l, m)
  }

  /** What one move sends is new, or is the message that was received. */
  lemma SentIs(l: Loop, move: Move)
    requires Inv(l) && Allowed(l, move) && !move.Deliver?
    requires move.Receive? && l.inbox[0].kind == Terminate ==> l.inbox[0].id != l.id
    ensures var m := Moves(l, move);
            && m.loop.id == l.id && (l.status == Exited ==> m.loop.status == Exited)
            && m.loop.inbox == (if move.Receive? then l.inbox[1..] else l.inbox)
            && |m.sent| <= 1
            && (m.sent != [] && !Own(l, m.sent[0]) ==>
                  move.Receive? && l.inbox != [] && Forwards(l, l.inbox[0], m.sent[0]))
            && (m.sent != [] && Own(l, m.sent[0]) && m.sent[0].kind == Terminate ==> m.loop.status == Exited)
  {
    hide Skips, Ran;
    match move
    case RunReady(outcome) =>
      if l.state != Poll { RanSends(l.(ready := l.ready[1..]), l.ready[0], outcome); }
    case RunIdle(outcome) =>
      if Counting(l.state) && l.idle != [] {
        RanSends(l.(idle := l.idle[1..], checked := false), l.idle[0], outcome);
      }
    case Receive =>
      assert Forward(l.(inbox := l.inbox[1..]), l.inbox[0]) == Forward(l, l.inbox[0]);
    case Advance(watching, poll) =>
    case Grant(t) =>
    case Check =>
  }

  lemma ReceivesWhileRunning(l: Loop, move: Move)
    requires Allowed(l, move) && move.Receive?
    ensures l.status == Running && l.inbox != []
  {
  }

  lemma RanSends(l: Loop, t: nat, outcome: Outcome)
    requires t < |l.tasks|
    ensures var m := Ran(l, t, outcome);
            && m.loop.id == l.id && m.loop.status == l.status && m.loop.inbox == l.inbox
            && (m.sent == [] || m.sent == [New(l, Reset)])
  {
  }

  lemma OwnIsTrailed(n: nat, l: Loop, m: Message)
    requires l.id < n && Own(l, m)
    ensures Trailed(n, Next(n, l.id), m)
  {
    assert |m.trail| == 0;
  }

  lemma TrailedId(n: nat, j: nat, m: Message)
    requires Trailed(n, j, m)
    ensures m.id < n
  {
  }

  lemma ForwardIsTrailed(n: nat, l: Loop, m: Message, sent: Message)
    requires l.id < n && Trailed(n, l.id, m) && Forwards(l, m, sent)
    ensures Trailed(n, Next(n, l.id), sent)
  {
  }

  /** What a turn does to the queues, to the numbers of the executors and to those that have exited. */
  lemma TurnIs(ring: seq<Loop>, i: nat, move: Move, k: nat)
    requires RingInv(ring) && MayTurn(ring, i, move) && k < |ring|
    ensures var m, ring' := Moves(ring[i], move), Turn(ring, i, move);
            && ring'[k].inbox == (if k == i && move.Receive? then ring[k].inbox[1..] else ring[k].inbox)
                                 + (if k == Next(|ring|, i) then m.sent else [])
            && ring'[k].id == k && Inv(ring'[k])
            && ring'[k].state == (if k == i then m.loop.state else ring[k].state)
            && ring'[k].resets == (if k == i then m.loop.resets else ring[k].resets)
            && ring'[k].status == (if k == i then m.loop.status else ring[k].status)
            && (ring[k].status == Exited ==> ring'[k].status == Exited)
    ensures move.Receive? ==> ring[i].inbox != []
  {
    hide Moves, Allowed, Inv, AllTrailed, Trailed, Own, Forwards;
    var m := Moves(ring[i], move);
    TurnSends(ring, i, move);
    MoveKeepsInv(ring[i], move);
    InboxGrows(if k == i then m.loop else ring[k], m.sent);
    if move.Receive? {
      ReceivesWhileRunning(ring[i], move);
    }
  }

  lemma TurnSends(ring: seq<Loop>, i: nat, move: Move)
    requires RingInv(ring) && MayTurn(ring, i, move)
    ensures var l, m := ring[i], Moves(ring[i], move);
            && m.loop.id == l.id && (l.status == Exited ==> m.loop.status == Exited)
            && m.loop.inbox == (if move.Receive? then l.inbox[1..] else l.inbox)
            && |m.sent| <= 1
            && (m.sent != [] && !Own(l, m.sent[0]) ==>
                  move.Receive? && l.inbox != [] && Forwards(l, l.inbox[0], m.sent[0]))
            && (m.sent != [] && Own(l, m.sent[0]) && m.sent[0].kind == Terminate ==> m.loop.status == Exited)
  {
    hide Moves, Allowed, Inv, Trailed, Own, Forwards;
    if move.Receive? {
      ReceivesWhileRunning(ring[i], move);
      assert Trailed(|ring|, i, ring[i].inbox[0]);
      assert ring[i].inbox[0].id < |ring| by { TrailedId(|ring|, i, ring[i].inbox[0]); }
      assert Ended(ring, ring[i].inbox);
    }
    SentIs(ring[i], move);
  }

  lemma TurnKeepsTrails(ring: seq<Loop>, i: nat, move: Move, k: nat)
    requires RingInv(ring) && MayTurn(ring, i, move) && k < |ring|
    ensures AllTrailed(|ring|, k, Turn(ring, i, move)[k].inbox)
  {
    hide Moves, Allowed, Inv, Trailed, Own, Forwards, Turn, Ended;
    var n, l, m := |ring|, ring[i], Moves(ring[i], move);
    TurnIs(ring, i, move, k);
    TurnSends(ring, i, move);
    assert AllTrailed(n, i, l.inbox) && AllTrailed(n, k, ring[k].inbox);
    if m.sent != [] {
      if Own(l, m.sent[0]) {
        OwnIsTrailed(n, l, m.sent[0]);
      } else {
        ForwardIsTrailed(n, l, l.inbox[0], m.sent[0]);
      }
    }
  }

  lemma TurnKeepsEnded(ring: seq<Loop>, i: nat, move: Move, k: nat)
    requires RingInv(ring) && MayTurn(ring, i, move) && k < |ring|
    ensures Ended(Turn(ring, i, move), Turn(ring, i, move)[k].inbox)
  {
    var l, m, ring' := ring[i], Moves(ring[i], move), Turn(ring, i, move);
    hide Moves, Allowed, Inv, AllTrailed, Own, Forwards, Turn;
    assert Ended(ring, l.inbox) && Ended(ring, ring[k].inbox);
    TurnSize(ring, i, move);
    TurnIs(ring, i, move, k);
    SentEnded(ring, i, move);
    hide Ended;
    ExitsStay(ring, i, move);
    StillEnded(ring, ring', ring[k].inbox);
    EndedParts(ring', if k == i && move.Receive? then ring[k].inbox[1..] else ring[k].inbox, m.sent);
    EndedParts(ring', ring[k].inbox, []);
  }

  lemma ExitsStay(ring: seq<Loop>, i: nat, move: Move)
    requires RingInv(ring) && MayTurn(ring, i, move)
    ensures |Turn(ring, i, move)| == |ring|
    ensures forall h :: 0 <= h < |ring| && ring[h].status == Exited ==> Turn(ring, i, move)[h].status == Exited
  {
    hide Moves, Allowed, Inv, AllTrailed, Turn, Ended;
    TurnSize(ring, i, move);
    forall h | 0 <= h < |ring| && ring[h].status == Exited
      ensures Turn(ring, i, move)[h].status == Exited
    {
      TurnIs(ring, i, move, h);
    }
  }

  lemma StillEnded(ring: seq<Loop>, ring': seq<Loop>, messages: seq<Message>)
    requires Ended(ring, messages) && |ring'| == |ring|
    requires forall h :: 0 <= h < |ring| && ring[h].status == Exited ==> ring'[h].status == Exited
    ensures Ended(ring', messages)
  {
  }

  lemma EndedParts(ring: seq<Loop>, first: seq<Message>, rest: seq<Message>)
    ensures Ended(ring, first) && Ended(ring, rest) ==> Ended(ring, first + rest)
    ensures Ended(ring, first) && first != [] ==> Ended(ring, first[1..])
  {
  }

  /** A Terminate message is sent by an executor that exits with that, or was received. */
  lemma SentEnded(ring: seq<Loop>, i: nat, move: Move)
    requires RingInv(ring) && MayTurn(ring, i, move)
    ensures Ended(Turn(ring, i, move), Moves(ring[i], move).sent)
  {
    hide Moves, Allowed, Inv, AllTrailed, Own, Forwards, Turn, IsRing, Ended;
    var l, m, ring' := ring[i], Moves(ring[i], move), Turn(ring, i, move);
    TurnSends(ring, i, move);
    ExitsStay(ring, i, move);
    if m.sent != [] {
      TerminateIs(l, m.sent[0]);
      if Own(l, m.sent[0]) {
        TurnIs(ring, i, move, i);
        RingId(ring, i);
      } else {
        FirstEnded(ring, l.inbox);
      }
    }
    OneEnded(ring', m.sent);
  }

  lemma RingId(ring: seq<Loop>, i: nat)
    requires RingInv(ring) && i < |ring|
    ensures ring[i].id == i && Inv(ring[i]) && Ended(ring, ring[i].inbox)
  {
  }

  lemma FirstEnded(ring: seq<Loop>, messages: seq<Message>)
    requires Ended(ring, messages) && messages != []
    ensures messages[0].kind == Terminate && messages[0].id < |ring| ==> ring[messages[0].id].status == Exited
  {
  }

  lemma OneEnded(ring: seq<Loop>, messages: seq<Message>)
    requires |messages| <= 1
    requires messages != [] && messages[0].kind == Terminate && messages[0].id < |ring| ==>
      ring[messages[0].id].status == Exited
    ensures Ended(ring, messages)
  {
  }

  lemma TurnSize(ring: seq<Loop>, i: nat, move: Move)
    requires MayTurn(ring, i, move)
    ensures |Turn(ring, i, move)| == |ring|
  {
  }

  /** The trails stay right through every move of every executor. */
  lemma TurnKeepsInv(ring: seq<Loop>, i: nat, move: Move)
    requires RingInv(ring) && MayTurn(ring, i, move)
    ensures RingInv(Turn(ring, i, move))
  {
    hide Moves, Allowed, Inv, AllTrailed, Ended, Turn;
    TurnSize(ring, i, move);
    forall k: nat | k < |ring|
      ensures var l := Turn(ring, i, move)[k]; l.id == k && Inv(l) && AllTrailed(|ring|, k, l.inbox)
      ensures Ended(Turn(ring, i, move), Turn(ring, i, move)[k].inbox)
    {
      TurnIs(ring, i, move, k);
      TurnKeepsTrails(ring, i, move, k);
      TurnKeepsEnded(ring, i, move, k);
    }
  }

  lemma InboxGrows(l: Loop, sent: seq<Message>)
    requires Inv(l)
    ensures Inv(l.(inbox := l.inbox + sent))
  {
  }

  lemma TerminateIs(l: Loop, sent: Message)
    ensures Own(l, sent) ==> sent.id == l.id
    ensures forall m :: Forwards(l, m, sent) ==> sent.id == m.id && sent.kind == m.kind
  {
  }

  // ----- runs

  ghost predicate Started(ring: seq<Loop>) {
    ring != [] && forall i :: 0 <= i < |ring| ==>
      && ring[i].id == i && Initial(ring[i]) && ring[i].inbox == []
      && |ring[i].resets| == |ring| && forall e :: 0 <= e < |ring| ==> ring[i].resets[e] == 0
  }

  ghost predicate TurnsTo(ring: seq<Loop>, ring': seq<Loop>) {
    exists i: nat, move :: MayTurn(ring, i, move) && Turn(ring, i, move) == ring'
  }

  ghost predicate IsRingRun(run: seq<seq<Loop>>) {
    run != [] && Started(run[0]) && forall k :: 0 < k < |run| ==> TurnsTo(run[k - 1], run[k])
  }

  lemma {:induction false} RunKeepsRingInv(run: seq<seq<Loop>>, k: nat)
    requires IsRingRun(run) && k < |run|
    ensures RingInv(run[k])
  {
    hide Moves, Allowed, Turn;
    if k == 0 {
      forall i | 0 <= i < |run[0]|
        ensures Inv(run[0][i])
      {
        NoSkips(run[0][i].tasks);
      }
    } else {
      RunKeepsRingInv(run, k - 1);
      assert TurnsTo(run[k - 1], run[k]);
      var i: nat, move :| MayTurn(run[k - 1], i, move) && Turn(run[k - 1], i, move) == run[k];
      TurnKeepsInv(run[k - 1], i, move);
    }
  }

  /** Executor `e` sent on this message exactly once, at the place its distance from the sender says. */
  ghost predicate SentOnOnceBy(n: nat, m: Message, e: nat) {
    var h := Hops(n, m.id, e);
    && 0 <= h < |m.trail| && m.trail[h].executor == e && SentOnIn(m.kind, m.trail[h].state)
    && forall k :: 0 <= k < |m.trail| && m.trail[k].executor == e ==> k == h
  }

  /**
    A message that comes back to its sender was sent on by every other executor exactly once, in the
    order of the ring, and in the state that the message stands for.
    */
  lemma CircuitIsComplete(run: seq<seq<Loop>>, k: nat, i: nat, e: nat)
    requires IsRingRun(run) && k < |run| && i < |run[k]| && e < |run[k]| && e != i
    requires run[k][i].inbox != [] && run[k][i].inbox[0].id == i
    ensures SentOnOnceBy(|run[k]|, run[k][i].inbox[0], e)
    ensures |run[k][i].inbox[0].trail| == |run[k]| - 1
  {
    hide Moves, Allowed, Turn, Inv;
    RunKeepsRingInv(run, k);
    assert Trailed(|run[k]|, i, run[k][i].inbox[0]);
  }

  /** An executor goes on from waiting by its own message only after all others waited as well. */
  lemma AcceptedAfterAllWaited(run: seq<seq<Loop>>, k: nat, i: nat, e: nat)
    requires IsRingRun(run) && k < |run| && i < |run[k]| && e < |run[k]| && e != i
    requires MayTurn(run[k], i, Receive) && run[k][i].inbox[0].id == i
    ensures var l, m := run[k][i], run[k][i].inbox[0];
            var l' := Turn(run[k], i, Receive)[i];
            && (l.state == Wait1 && l'.state == DoubleCheck ==>
                  SentOnOnceBy(|run[k]|, m, e) && m.trail[Hops(|run[k]|, i, e)].state == Wait1)
            && (l'.status == Exited ==>
                  SentOnOnceBy(|run[k]|, m, e) && m.trail[Hops(|run[k]|, i, e)].state == Wait2)
  {
    CircuitIsComplete(run, k, i, e);
  }

  // ----- all wait for ever

  /** Every executor waits, no task is ready or parked, and no message is on its way. */
  ghost predicate Stalled(ring: seq<Loop>) {
    ring != [] && forall i :: 0 <= i < |ring| ==> Stuck(ring[i])
  }

  ghost predicate Stuck(l: Loop) {
    && (l.state == Wait1 || l.state == Wait2) && l.status == Running && l.points == |l.tasks|
    && l.ready == [] && l.inbox == [] && Tasks(l) && forall t: nat :: t < |l.tasks| ==> t in l.idle
  }

  /** A ring that is stalled stays so: no executor ever exits. */
  lemma StalledStays(ring: seq<Loop>, i: nat, move: Move)
    requires Stalled(ring) && MayTurn(ring, i, move)
    ensures Stalled(Turn(ring, i, move))
  {
    assert Stuck(ring[i]);
    assert Stuck(Moves(ring[i], move).loop) && Moves(ring[i], move).sent == [];
  }
}
