/**
  How far the executors of a ring have come: an executor that went back to the normal state starts a
  new round, and so does every other one when it learns of that.  What a message was sent on for may
  since be over; whoever can tell such a message from a current one is never left waiting.
  */
module RingRounds {
  import opened ExecutorStates
  import opened MessageRings

  // ----- points in the life of an executor

  ghost predicate AtMost(a: seq<nat>, b: seq<nat>) {
    |a| == |b| && forall d: nat :: d < |a| ==> a[d] <= b[d]
  }

  function Rank(state: State): nat {
    match state
    case Normal => 0
    case ShootDown => 1
    case Wait1 => 2
    case DoubleCheck => 3
    case _ => 4
  }

  /** Between two resets the state only goes forward. */
  predicate Before(s: State, t: State) { s == t || Rank(s) < Rank(t) }

  datatype Point = Point(resets: seq<nat>, state: State)

  function PointOf(l: Loop): Point { Point(l.resets, l.state) }

  ghost predicate Since(p: Point, q: Point) {
    AtMost(p.resets, q.resets) && (p.resets == q.resets ==> Before(p.state, q.state))
  }

  lemma SameResets(a: seq<nat>, b: seq<nat>)
    requires AtMost(a, b) && AtMost(b, a)
    ensures a == b
  {
  }

  lemma SinceThen(p: Point, q: Point, r: Point)
    requires Since(p, q) && Since(q, r)
    ensures Since(p, r)
  {
    if p.resets == r.resets {
      SameResets(p.resets, q.resets);
    }
  }

  // ----- resets under way

  predicate Resets(m: Message, d: nat) { m.kind == Reset && m.id == d }

  /** The number of Reset messages of executor `d` in a queue. */
  function Pending(inbox: seq<Message>, d: nat): nat {
    if inbox == [] then 0 else (if Resets(inbox[0], d) then 1 else 0) + Pending(inbox[1..], d)
  }

  lemma {:induction false} PendingSplits(a: seq<Message>, b: seq<Message>, d: nat)
    ensures Pending(a + b, d) == Pending(a, d) + Pending(b, d)
  {
    if a == [] {
      assert a + b == b;
    } else {
      PendingSplits(a[1..], b, d);
      assert (a + b)[1..] == a[1..] + b;
    }
  }

  /** How many resets by `d` the executor has been through once it has received its first `p` messages. */
  function Due(l: Loop, p: nat, d: nat): nat
    requires d < |l.resets| && p <= |l.inbox|
  {
    l.resets[d] + if d == l.id then 0 else Pending(l.inbox[..p], d)
  }

  /** The resets that the executor had been through that sent the message on last. */
  function Last(m: Message): seq<nat> {
    if m.trail == [] then m.born else m.trail[|m.trail| - 1].resets
  }

  // ----- the effect of one move

  /** The state in which an executor is right after it has sent this message as a new one. */
  function BornIn(kind: MessageKind): State {
    match kind
    case StartWaiting1 => Wait1
    case StartDoubleCheck => DoubleCheck
    case StartWaiting2 => Wait2
    case _ => Normal
  }

  ghost predicate Sized(l: Loop, n: nat) {
    l.id < n == |l.resets| && forall p: nat :: p < |l.inbox| ==> l.inbox[p].id < n
  }

  lemma OneMoreIs(l: Loop, id: nat)
    requires id < |l.resets|
    ensures AtMost(l.resets, OneMore(l.resets, id)) && OneMore(l.resets, id) != l.resets
    ensures forall d: nat :: d < |l.resets| ==>
      OneMore(l.resets, id)[d] == l.resets[d] + Pending([New(l, Reset).(id := id)], d)
  {
    assert OneMore(l.resets, id)[id] != l.resets[id];
  }

  /** What a move does to the resets: those it sends are those it adds. */
  ghost predicate Steps(l: Loop, move: Move, m: Moved) {
    && Since(PointOf(l), PointOf(m.loop))
    && (forall d: nat :: d < |l.resets| ==> m.loop.resets[d] == l.resets[d] + Pending(m.sent, d))
    && (m.sent != [] ==>
          && Last(m.sent[0]) == l.resets
          && (Own(l, m.sent[0]) ==> Since(Point(l.resets, BornIn(m.sent[0].kind)), PointOf(m.loop))))
    && (move.Receive? && l.inbox != [] && l.inbox[0].kind == Reset && l.inbox[0].id != l.id ==>
          m.sent == [Forward(l, l.inbox[0])])
    && (m.sent != [] && m.sent[0].kind == Reset && m.sent[0].id != l.id ==>
          move.Receive? && l.inbox != [] && l.inbox[0].kind == Reset && l.inbox[0].id == m.sent[0].id)
  }

  lemma RunSteps(l: Loop, t: nat, outcome: Outcome)
    requires t < |l.tasks| && l.id < |l.resets|
    ensures Steps(l, RunReady(outcome), Ran(l, t, outcome))
    ensures Steps(l, RunIdle(outcome), Ran(l, t, outcome))
  {
    OneMoreIs(l, l.id);
    assert New(l, Reset).(id := l.id) == New(l, Reset);
  }

  lemma StepsAlike(l: Loop, l1: Loop, move: Move, m: Moved)
    requires Steps(l1, move, m) && !move.Receive?
    requires l.id == l1.id && l.resets == l1.resets && l.state == l1.state
    ensures Steps(l, move, m)
  {
    if m.sent != [] {
      assert New(l, m.sent[0].kind) == New(l1, m.sent[0].kind);
    }
  }

  /** A move that is not part of a reset. */
  lemma PlainSteps(l: Loop, move: Move, m: Moved)
    requires m.loop.resets == l.resets && Before(l.state, m.loop.state) && |m.sent| <= 1
    requires m.sent != [] ==> m.sent[0].kind != Reset && Last(m.sent[0]) == l.resets
    requires m.sent != [] && Own(l, m.sent[0]) ==> Before(BornIn(m.sent[0].kind), m.loop.state)
    requires move.Receive? && l.inbox != [] ==> l.inbox[0].kind != Reset || l.inbox[0].id == l.id
    ensures Steps(l, move, m)
  {
    hide Before, BornIn, Last, Own, Rank;
    if m.sent != [] {
      assert m.sent == [m.sent[0]] && forall d :: Pending([m.sent[0]], d) == 0;
    }
  }

  lemma ReceiveSteps(l: Loop, n: nat)
    requires Sized(l, n) && l.inbox != []
    ensures Steps(l, Receive, Received(l.(inbox := l.inbox[1..]), l.inbox[0]))
  {
    var m := l.inbox[0];
    var l1 := l.(inbox := l.inbox[1..]);
    assert Forward(l1, m) == Forward(l, m) && m.id < n;
    assert forall kind :: New(l1, kind) == New(l, kind);
    if m.kind == Reset && m.id != l.id {
      OneMoreIs(l, m.id);
      assert forall d :: Pending([Forward(l, m)], d) == if m.id == d then 1 else 0;
    } else {
      PlainReceived(l, l1, m);
    }
  }

  lemma PlainReceived(l: Loop, l1: Loop, m: Message)
    requires l.inbox != [] && l1 == l.(inbox := l.inbox[1..]) && m == l.inbox[0] && (m.kind == Reset ==> m.id == l.id)
    requires Forward(l1, m) == Forward(l, m) && forall kind :: New(l1, kind) == New(l, kind)
    ensures Steps(l, Receive, Received(l1, m))
  {
    hide Steps;
    PlainSteps(l, Receive, Received(l1, m));
  }

  lemma AdvanceSteps(l: Loop, l1: Loop, watching: bool, poll: bool)
    requires l.id < |l.resets| && l1 == l.(checked := false)
    ensures Steps(l, Advance(watching, poll), Advanced(l1, watching, poll))
  {
    assert forall kind :: New(l1, kind) == New(l, kind);
    if l.state == Poll && poll {
      OneMoreIs(l, l.id);
      assert New(l, Reset).(id := l.id) == New(l, Reset);
    } else {
      PlainSteps(l, Advance(watching, poll), Advanced(l1, watching, poll));
    }
  }

  lemma MoveSteps(l: Loop, move: Move, n: nat)
    requires Inv(l) && Sized(l, n) && Allowed(l, move) && !move.Deliver?
    ensures Steps(l, move, Moves(l, move))
  {
    hide Skips, Ran, Received, Advanced, Inv, Steps;
    assert Tasks(l) by { InvTasks(l); }
    match move
    case RunReady(outcome) =>
      if l.state != Poll {
        var l1 := l.(ready := l.ready[1..]);
        RunSteps(l1, l.ready[0], outcome);
        StepsAlike(l, l1, move, Moves(l, move));
      } else {
        PlainSteps(l, move, Moves(l, move));
      }
    case RunIdle(outcome) =>
      if Counting(l.state) && l.idle != [] {
        var l1 := l.(idle := l.idle[1..], checked := false);
        RunSteps(l1, l.idle[0], outcome);
        StepsAlike(l, l1, move, Moves(l, move));
      } else {
        PlainSteps(l, move, Moves(l, move));
      }
    case Receive => ReceiveSteps(l, n);
    case Advance(watching, poll) => AdvanceSteps(l, l.(checked := false), watching, poll);
    case Grant(t) => PlainSteps(l, move, Moves(l, move));
    case Check => PlainSteps(l, move, Moves(l, move));
  }

  lemma InvTasks(l: Loop)
    requires Inv(l)
    ensures Tasks(l)
  {
  }

  // ----- the invariant of a ring

  /** Nobody has been through more resets by an executor than that executor itself. */
  ghost predicate OwnFirst(ring: seq<Loop>)
    requires forall i: nat :: i < |ring| ==> |ring[i].resets| == |ring|
  {
    forall i: nat, d: nat :: i < |ring| && d < |ring| ==> ring[i].resets[d] <= ring[d].resets[d]
  }

  /** Every reset an executor has been through, its neighbor has been through or will find in its queue. */
  ghost predicate HandedOn(l: Loop, next: Loop)
    requires |l.resets| == |next.resets|
  {
    forall d: nat :: d < |l.resets| && d != next.id ==> l.resets[d] == Due(next, |next.inbox|, d)
  }

  /** The message was sent on in the order of its trail, and before later resets. */
  ghost predicate Rising(m: Message) {
    AtMost(m.born, Last(m)) && forall k: nat :: k < |m.trail| ==>
      AtMost(m.born, m.trail[k].resets) && AtMost(m.trail[k].resets, Last(m))
  }

  /** By the time a message is received, the resets that came before it have been received too. */
  ghost predicate InOrder(l: Loop) {
    forall p: nat :: p < |l.inbox| ==>
      && Rising(l.inbox[p]) && |Last(l.inbox[p])| == |l.resets|
      && forall d: nat :: d < |l.resets| ==> Last(l.inbox[p])[d] <= Due(l, p, d)
  }

  /** The executors that made the message or sent it on have gone on since, or are where they were. */
  ghost predicate Remembered(ring: seq<Loop>, m: Message) {
    && m.id < |ring| && Since(Point(m.born, BornIn(m.kind)), PointOf(ring[m.id]))
    && forall k: nat :: k < |m.trail| ==>
      && m.trail[k].executor < |ring|
      && Since(Point(m.trail[k].resets, m.trail[k].state), PointOf(ring[m.trail[k].executor]))
  }

  ghost predicate AllRemembered(ring: seq<Loop>, inbox: seq<Message>) {
    forall p: nat :: p < |inbox| ==> Remembered(ring, inbox[p])
  }

  ghost predicate Rounds(ring: seq<Loop>) {
    && RingInv(ring)
    && (forall i: nat :: i < |ring| ==> Sized(ring[i], |ring|))
    && OwnFirst(ring)
    && (forall i: nat :: i < |ring| ==> HandedOn(ring[i], ring[Next(|ring|, i)]))
    && (forall i: nat :: i < |ring| ==> InOrder(ring[i]))
    && (forall i: nat :: i < |ring| ==> AllRemembered(ring, ring[i].inbox))
  }

  /** What a turn does to executor `k`. */
  ghost predicate TurnedAt(ring: seq<Loop>, i: nat, move: Move, m: Moved, ring': seq<Loop>, k: nat)
    requires i < |ring| && k < |ring| == |ring'|
  {
    var l, l' := ring[k], ring'[k];
    && l.id == k && l'.id == k
    && l'.state == (if k == i then m.loop.state else l.state)
    && l'.resets == (if k == i then m.loop.resets else l.resets)
    && (k == i && move.Receive? ==> l.inbox != [])
    && l'.inbox == (if k == i && move.Receive? then l.inbox[1..] else l.inbox)
                   + (if k == Next(|ring|, i) then m.sent else [])
  }

  ghost predicate Turned(ring: seq<Loop>, i: nat, move: Move, m: Moved, ring': seq<Loop>) {
    && i < |ring| == |ring'| && Steps(ring[i], move, m) && |m.sent| <= 1
    && (forall k: nat :: k < |ring| ==> TurnedAt(ring, i, move, m, ring', k))
    && (m.sent != [] && !Own(ring[i], m.sent[0]) ==>
          move.Receive? && ring[i].inbox != [] && Forwards(ring[i], ring[i].inbox[0], m.sent[0]))
  }

  lemma TurnIsTurned(ring: seq<Loop>, i: nat, move: Move)
    requires Rounds(ring) && MayTurn(ring, i, move)
    ensures Turned(ring, i, move, Moves(ring[i], move), Turn(ring, i, move))
  {
    hide Moves, Allowed, Inv, Turn, InOrder, Remembered, AllRemembered, HandedOn, OwnFirst, Steps, Own, Forwards;
    hide AllTrailed, Ended, Sized;
    MoveSteps(ring[i], move, |ring|);
    TurnSize(ring, i, move);
    TurnSends(ring, i, move);
    forall k: nat | k < |ring|
      ensures TurnedAt(ring, i, move, Moves(ring[i], move), Turn(ring, i, move), k)
    {
      TurnIs(ring, i, move, k);
    }
  }

  // ----- what is due stays due

  lemma OneSent(l: Loop, move: Move, m: Moved, d: nat)
    requires Steps(l, move, m) && |m.sent| <= 1 && d != l.id
    ensures Pending(m.sent, d) == if move.Receive? && l.inbox != [] && Resets(l.inbox[0], d) then 1 else 0
  {
    hide Since, Own, Last;
    if m.sent != [] {
      assert m.sent == [m.sent[0]];
      assert Pending(m.sent, d) == if Resets(m.sent[0], d) then 1 else 0;
    }
  }

  function Popped(i: nat, move: Move, k: nat): nat { if k == i && move.Receive? then 1 else 0 }

  /** What an executor owes after its first messages does not change when it receives one of them. */
  lemma DueKept(ring: seq<Loop>, i: nat, move: Move, m: Moved, ring': seq<Loop>, k: nat, p: nat, d: nat)
    requires Turned(ring, i, move, m, ring') && k < |ring| && d < |ring[k].resets| <= |ring'[k].resets|
    requires p + Popped(i, move, k) <= |ring[k].inbox|
    ensures p <= |ring'[k].inbox|
    ensures Due(ring[k], p + Popped(i, move, k), d) <= Due(ring'[k], p, d)
    ensures d != k ==> Due(ring[k], p + Popped(i, move, k), d) == Due(ring'[k], p, d)
  {
    hide Steps, Own, Forwards, Resets;
    var l, l' := ring[k], ring'[k];
    assert TurnedAt(ring, i, move, m, ring', k);
    if k == i {
      assert m.loop.resets[d] == l.resets[d] + Pending(m.sent, d) by { StepResets(l, move, m, d); }
    }
    if d != k {
      if k == i {
        OneSent(l, move, m, d);
      }
      if k == i && move.Receive? {
        assert l.inbox[..p + 1] == [l.inbox[0]] + l.inbox[1..][..p] && l'.inbox[..p] == l.inbox[1..][..p];
        PendingSplits([l.inbox[0]], l.inbox[1..][..p], d);
        assert Pending([l.inbox[0]], d) == if Resets(l.inbox[0], d) then 1 else 0;
      } else {
        assert l'.inbox[..p] == l.inbox[..p];
      }
    }
  }

  lemma StepResets(l: Loop, move: Move, m: Moved, d: nat)
    requires Steps(l, move, m) && d < |l.resets|
    ensures |m.loop.resets| == |l.resets| && m.loop.resets[d] == l.resets[d] + Pending(m.sent, d)
  {
    hide Own, Last, BornIn;
  }

  lemma ResetsGrow(ring: seq<Loop>, i: nat, move: Move, m: Moved, ring': seq<Loop>, k: nat)
    requires Turned(ring, i, move, m, ring') && k < |ring|
    ensures Since(PointOf(ring[k]), PointOf(ring'[k]))
  {
    hide Own, Last, BornIn, Forwards;
    assert TurnedAt(ring, i, move, m, ring', k);
  }

  lemma TurnKeepsHandedOn(ring: seq<Loop>, i: nat, move: Move, m: Moved, ring': seq<Loop>, k: nat)
    requires Turned(ring, i, move, m, ring') && k < |ring| && forall h: nat :: h < |ring| ==> |ring[h].resets| == |ring|
    requires |ring'[k].resets| == |ring'[Next(|ring|, k)].resets| == |ring|
    requires HandedOn(ring[k], ring[Next(|ring|, k)])
    ensures HandedOn(ring'[k], ring'[Next(|ring|, k)])
  {
    hide Steps, Own, Forwards;
    var j := Next(|ring|, k);
    var l, l', next, next' := ring[k], ring'[k], ring[j], ring'[j];
    var sent := if k == i then m.sent else [];
    assert TurnedAt(ring, i, move, m, ring', k) && TurnedAt(ring, i, move, m, ring', j);
    var q := |next.inbox| - Popped(i, move, j);
    forall d: nat | d < |ring| && d != j
      ensures l'.resets[d] == Due(next', |next'.inbox|, d)
    {
      DueKept(ring, i, move, m, ring', j, q, d);
      if k == i {
        StepResets(l, move, m, d);
      }
      assert next'.inbox == next'.inbox[..q] + sent && next'.inbox[..|next'.inbox|] == next'.inbox;
      assert next.inbox[..|next.inbox|] == next.inbox;
      PendingSplits(next'.inbox[..q], sent, d);
    }
  }

  function Prev(n: nat, i: nat): nat
    requires i < n
  {
    if i == 0 then n - 1 else i - 1
  }

  /** A reset that is about to be received has been made by its executor. */
  lemma DueIsMade(ring: seq<Loop>, i: nat, p: nat, d: nat)
    requires Rounds(ring) && i < |ring| && d < |ring| && p <= |ring[i].inbox|
    ensures Due(ring[i], p, d) <= ring[d].resets[d]
  {
    hide RingInv, InOrder, AllRemembered;
    assert Sized(ring[i], |ring|) && Sized(ring[d], |ring|);
    assert ring[i].id == i by { RingId(ring, i); }
    if d != i {
      var h := Prev(|ring|, i);
      assert Sized(ring[h], |ring|) && HandedOn(ring[h], ring[Next(|ring|, h)]);
      assert ring[i].inbox == ring[i].inbox[..p] + ring[i].inbox[p..] &&
          ring[i].inbox[..|ring[i].inbox|] == ring[i].inbox;
      PendingSplits(ring[i].inbox[..p], ring[i].inbox[p..], d);
    }
  }

  lemma TurnKeepsSized(ring: seq<Loop>, i: nat, move: Move, m: Moved, ring': seq<Loop>, k: nat)
    requires Rounds(ring) && Turned(ring, i, move, m, ring') && k < |ring|
    ensures Sized(ring'[k], |ring|)
  {
    hide RingInv, InOrder, AllRemembered, HandedOn, Own, OwnFirst, Last;
    assert TurnedAt(ring, i, move, m, ring', k);
    assert Sized(ring[k], |ring|) && Sized(ring[i], |ring|);
    ResetsGrow(ring, i, move, m, ring', k);
    if m.sent != [] {
      assert m.sent[0].id < |ring| by { SentId(ring, i, move, m, ring'); }
    }
  }

  lemma SentId(ring: seq<Loop>, i: nat, move: Move, m: Moved, ring': seq<Loop>)
    requires Turned(ring, i, move, m, ring') && m.sent != [] && Sized(ring[i], |ring|)
    ensures m.sent[0].id < |ring|
  {
    hide Steps;
  }

  lemma TurnKeepsOwnFirst(ring: seq<Loop>, i: nat, move: Move, m: Moved, ring': seq<Loop>, k: nat, d: nat)
    requires Rounds(ring) && Turned(ring, i, move, m, ring') && k < |ring| && d < |ring|
    requires |ring'| == |ring| && |ring'[k].resets| == |ring'[d].resets| == |ring|
    ensures ring'[k].resets[d] <= ring'[d].resets[d]
  {
    hide RingInv, InOrder, AllRemembered, HandedOn, Turned, TurnedAt, Steps;
    assert Sized(ring[k], |ring|) && Sized(ring[d], |ring|);
    assert ring[k].id == k && ring[d].id == d by { RingId(ring, k); RingId(ring, d); }
    ResetsGrow(ring, i, move, m, ring', d);
    if d != k {
      assert Popped(i, move, k) <= |ring[k].inbox| by { CanPop(ring, i, move, m, ring', k); }
      DueKept(ring, i, move, m, ring', k, 0, d);
      assert ring'[k].id == k by { CanPop(ring, i, move, m, ring', k); }
      DueIsMade(ring, k, Popped(i, move, k), d);
    }
  }

  lemma CanPop(ring: seq<Loop>, i: nat, move: Move, m: Moved, ring': seq<Loop>, k: nat)
    requires Turned(ring, i, move, m, ring') && k < |ring|
    ensures Popped(i, move, k) <= |ring[k].inbox| && ring'[k].id == k
  {
    hide Steps;
    assert TurnedAt(ring, i, move, m, ring', k);
  }

  /** A queued message was queued before, or is the one just sent, which then is the last one. */
  lemma QueuedIs(ring: seq<Loop>, i: nat, move: Move, m: Moved, ring': seq<Loop>, k: nat, p: nat)
    requires Turned(ring, i, move, m, ring') && k < |ring| && p < |ring'[k].inbox|
    ensures var q := p + Popped(i, move, k);
            if q < |ring[k].inbox| then ring'[k].inbox[p] == ring[k].inbox[q]
            else m.sent != [] && ring'[k].inbox[p] == m.sent[0] && k == Next(|ring|, i) && q == |ring[k].inbox|
  {
    hide Steps;
    assert TurnedAt(ring, i, move, m, ring', k);
  }

  lemma SentIsRising(l: Loop, n: nat, move: Move, m: Moved)
    requires Steps(l, move, m) && m.sent != [] && Sized(l, n) && InOrder(l)
    requires !Own(l, m.sent[0]) ==> move.Receive? && l.inbox != [] && Forwards(l, l.inbox[0], m.sent[0])
    ensures Rising(m.sent[0]) && Last(m.sent[0]) == l.resets
  {
    if !Own(l, m.sent[0]) {
      var r := l.inbox[0];
      assert Rising(r);
      forall d: nat | d < n
        ensures Last(r)[d] <= l.resets[d]
      {
        assert Due(l, 0, d) == l.resets[d];
      }
      assert AtMost(Last(r), l.resets);
    }
  }

  lemma TurnKeepsInOrder(ring: seq<Loop>, i: nat, move: Move, m: Moved, ring': seq<Loop>, k: nat)
    requires Rounds(ring) && Turned(ring, i, move, m, ring') && k < |ring|
    ensures InOrder(ring'[k])
  {
    hide RingInv, AllRemembered, TurnedAt, Steps, Own, Forwards, Rising, OwnFirst, Turned;
    assert |ring'| == |ring| by { TurnedSize(ring, i, move, m, ring'); }
    var l, l' := ring[k], ring'[k];
    assert Sized(l, |ring|) && InOrder(l);
    assert Sized(l', |ring|) by { TurnKeepsSized(ring, i, move, m, ring', k); }
    assert |l.resets| == |l'.resets| == |ring|;
    assert l.id == k && l'.id == k by { RingId(ring, k); CanPop(ring, i, move, m, ring', k); }
    forall p: nat | p < |l'.inbox|
      ensures Rising(l'.inbox[p]) && |Last(l'.inbox[p])| == |ring|
      ensures forall d: nat :: d < |ring| ==> Last(l'.inbox[p])[d] <= Due(l', p, d)
    {
      QueuedIs(ring, i, move, m, ring', k, p);
      var q := p + Popped(i, move, k);
      if q < |l.inbox| {
        forall d: nat | d < |ring|
          ensures Last(l.inbox[q])[d] <= Due(l', p, d)
        {
          DueKept(ring, i, move, m, ring', k, p, d);
        }
      } else {
        SentInOrder(ring, i, move, m, ring', k, p);
      }
    }
  }

  lemma SentInOrder(ring: seq<Loop>, i: nat, move: Move, m: Moved, ring': seq<Loop>, k: nat, p: nat)
    requires Rounds(ring) && Turned(ring, i, move, m, ring') && k == Next(|ring|, i) && Sized(ring'[k], |ring|)
    requires p < |ring'[k].inbox| && p + Popped(i, move, k) == |ring[k].inbox|
    requires m.sent != [] && ring'[k].inbox[p] == m.sent[0]
    ensures Rising(m.sent[0]) && Last(m.sent[0]) == ring[i].resets && |ring[i].resets| == |ring|
    ensures forall d: nat :: d < |ring| ==> ring[i].resets[d] <= Due(ring'[k], p, d)
  {
    hide RingInv, AllRemembered, TurnedAt, Steps, Own, Forwards, Rising, Last;
    assert Sized(ring[i], |ring|) && InOrder(ring[i]) && Sized(ring[k], |ring|);
    SentIsRising(ring[i], |ring|, move, m);
    assert HandedOn(ring[i], ring[k]);
    assert ring[k].id == k by { RingId(ring, k); }
    assert ring'[k].id == k by { CanPop(ring, i, move, m, ring', k); }
    forall d: nat | d < |ring|
      ensures ring[i].resets[d] <= Due(ring'[k], p, d)
    {
      DueKept(ring, i, move, m, ring', k, p, d);
    }
  }

  lemma PointKept(ring: seq<Loop>, i: nat, move: Move, m: Moved, ring': seq<Loop>, r: Message)
    requires Turned(ring, i, move, m, ring') && Remembered(ring, r)
    ensures Remembered(ring', r)
  {
    hide Turned, Since, BornIn;
    assert |ring'| == |ring| by { TurnedSize(ring, i, move, m, ring'); }
    ResetsGrow(ring, i, move, m, ring', r.id);
    SinceThen(Point(r.born, BornIn(r.kind)), PointOf(ring[r.id]), PointOf(ring'[r.id]));
    forall k: nat | k < |r.trail|
      ensures Since(Point(r.trail[k].resets, r.trail[k].state), PointOf(ring'[r.trail[k].executor]))
    {
      var e := r.trail[k].executor;
      ResetsGrow(ring, i, move, m, ring', e);
      SinceThen(Point(r.trail[k].resets, r.trail[k].state), PointOf(ring[e]), PointOf(ring'[e]));
    }
  }

  lemma TurnedSize(ring: seq<Loop>, i: nat, move: Move, m: Moved, ring': seq<Loop>)
    requires Turned(ring, i, move, m, ring')
    ensures |ring'| == |ring|
  {
  }

  lemma SentRemembered(ring: seq<Loop>, i: nat, move: Move, m: Moved, ring': seq<Loop>)
    requires Rounds(ring) && Turned(ring, i, move, m, ring') && m.sent != []
    ensures Remembered(ring', m.sent[0])
  {
    hide RingInv, InOrder, HandedOn, OwnFirst, Sized, Since, Steps, Last, BornIn, TurnedAt;
    var l, s := ring[i], m.sent[0];
    assert l.id == i by { RingId(ring, i); }
    assert PointOf(m.loop) == PointOf(ring'[i]) by { MoverIs(ring, i, move, m, ring'); }
    StepForward(l, move, m);
    if !Own(l, s) {
      var r := l.inbox[0];
      assert AllRemembered(ring, l.inbox);
      assert Remembered(ring, r);
      PointKept(ring, i, move, m, ring', r);
    }
  }

  lemma StepForward(l: Loop, move: Move, m: Moved)
    requires Steps(l, move, m)
    ensures Since(PointOf(l), PointOf(m.loop))
    ensures m.sent != [] && Own(l, m.sent[0]) ==> Since(Point(l.resets, BornIn(m.sent[0].kind)), PointOf(m.loop))
  {
  }

  lemma MoverIs(ring: seq<Loop>, i: nat, move: Move, m: Moved, ring': seq<Loop>)
    requires Turned(ring, i, move, m, ring')
    ensures PointOf(m.loop) == PointOf(ring'[i])
  {
    assert TurnedAt(ring, i, move, m, ring', i);
  }

  lemma TurnKeepsRemembered(ring: seq<Loop>, i: nat, move: Move, m: Moved, ring': seq<Loop>, k: nat)
    requires Rounds(ring) && Turned(ring, i, move, m, ring') && k < |ring|
    ensures AllRemembered(ring', ring'[k].inbox)
  {
    hide RingInv, InOrder, HandedOn, OwnFirst, Sized, Turned, Remembered;
    assert AllRemembered(ring, ring[k].inbox);
    assert |ring'| == |ring| by { TurnedSize(ring, i, move, m, ring'); }
    forall p: nat | p < |ring'[k].inbox|
      ensures Remembered(ring', ring'[k].inbox[p])
    {
      QueuedIs(ring, i, move, m, ring', k, p);
      if p + Popped(i, move, k) < |ring[k].inbox| {
        PointKept(ring, i, move, m, ring', ring[k].inbox[p + Popped(i, move, k)]);
      } else {
        SentRemembered(ring, i, move, m, ring');
      }
    }
  }

  /** Every turn keeps what is known of the resets, of their order among the messages, and of the trails. */
  lemma TurnKeepsRounds(ring: seq<Loop>, i: nat, move: Move)
    requires Rounds(ring) && MayTurn(ring, i, move)
    ensures Rounds(Turn(ring, i, move))
  {
    hide Moves, Allowed, Inv, Turn, InOrder, AllRemembered, HandedOn, Turned, Sized, RingInv;
    var m, ring' := Moves(ring[i], move), Turn(ring, i, move);
    TurnIsTurned(ring, i, move);
    TurnKeepsInv(ring, i, move);
    TurnedSize(ring, i, move, m, ring');
    forall k: nat | k < |ring|
      ensures Sized(ring'[k], |ring|) && |ring'[k].resets| == |ring|
    {
      TurnKeepsSized(ring, i, move, m, ring', k);
      SizedIs(ring'[k], |ring|);
    }
    forall k: nat, d: nat | k < |ring| && d < |ring|
      ensures ring'[k].resets[d] <= ring'[d].resets[d]
    {
      TurnKeepsOwnFirst(ring, i, move, m, ring', k, d);
    }
    forall k: nat | k < |ring|
      ensures HandedOn(ring'[k], ring'[Next(|ring|, k)]) && InOrder(ring'[k]) && AllRemembered(ring', ring'[k].inbox)
    {
      forall h: nat | h < |ring|
        ensures |ring[h].resets| == |ring|
      {
        SizedIs(ring[h], |ring|);
      }
      TurnKeepsHandedOn(ring, i, move, m, ring', k);
      TurnKeepsInOrder(ring, i, move, m, ring', k);
      TurnKeepsRemembered(ring, i, move, m, ring', k);
    }
  }

  lemma SizedIs(l: Loop, n: nat)
    requires Sized(l, n)
    ensures |l.resets| == n
  {
  }

  lemma StartHasRounds(ring: seq<Loop>)
    requires Started(ring)
    ensures Rounds(ring)
  {
    hide AllIdle, Apart, Skips;
    forall i | 0 <= i < |ring|
      ensures Inv(ring[i])
    {
      NoSkips(ring[i].tasks);
    }
  }

  lemma {:induction false} RunKeepsRounds(run: seq<seq<Loop>>, k: nat)
    requires IsRingRun(run) && k < |run|
    ensures Rounds(run[k])
  {
    hide Moves, Allowed, Turn, Rounds;
    if k == 0 {
      StartHasRounds(run[0]);
    } else {
      RunKeepsRounds(run, k - 1);
      assert TurnsTo(run[k - 1], run[k]);
      var i: nat, move :| MayTurn(run[k - 1], i, move) && Turn(run[k - 1], i, move) == run[k];
      TurnKeepsRounds(run[k - 1], i, move);
    }
  }
}
