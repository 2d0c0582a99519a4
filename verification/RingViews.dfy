/**
  Rings in which every executor has one task, as far as runs of them depend on: the state, whether the
  task has been counted, and kinds and senders of the queued messages.
  */
module RingViews {
  import opened ExecutorStates
  import opened MessageRings
  import opened RingRounds

  datatype Note = Note(kind: MessageKind, id: nat)

  datatype View = View(state: State, counted: bool, checked: bool, queue: seq<Note>)

  datatype Act = Checks | SkipsTask | HitsTask | Advances | Receives

  /** A view after an act, and the messages that are sent. */
  datatype Acted = Acted(view: View, sent: seq<Note>)

  predicate CanAct(v: View, act: Act) {
    match act
    case Checks => !v.checked && v.queue == []
    case SkipsTask => v.checked && !v.counted && Counting(v.state)
    case HitsTask => v.checked && !v.counted && (v.state == ShootDown || v.state == DoubleCheck)
    case Advances => v.checked && v.counted && Counting(v.state)
    case Receives => !v.checked && v.queue != []
  }

  function Entered(v: View, state: State): View { v.(state := state, counted := false) }

  function Acts(v: View, id: nat, act: Act): Acted
    requires CanAct(v, act)
  {
    match act
    case Checks => Acted(v.(checked := true), [])
    case SkipsTask => Acted(v.(counted := true, checked := false), [])
    case HitsTask => Acted(Entered(v, Normal).(checked := false), [Note(Reset, id)])
    case Advances =>
      var v1 := v.(checked := false);
      (match v.state
       case Normal => Acted(Entered(v1, ShootDown), [Note(StartShootDown, id)])
       case ShootDown => Acted(v1.(state := Wait1), [Note(StartWaiting1, id)])
       case _ => Acted(v1.(state := Wait2), [Note(StartWaiting2, id)]))
    case Receives => Gets(v.(queue := v.queue[1..]), id, v.queue[0])
  }

  /** Without the messages that make an executor exit. */
  function Gets(v: View, id: nat, m: Note): Acted {
    match m.kind
    case StartShootDown =>
      if m.id != id && v.state == Normal then Acted(Entered(v, ShootDown), [m]) else Acted(v, [])
    case StartWaiting1 =>
      if v.state != Wait1 then Acted(v, [])
      else if m.id != id then Acted(v, [m])
      else Acted(Entered(v, DoubleCheck), [Note(StartDoubleCheck, id)])
    case StartDoubleCheck =>
      if m.id != id && v.state == Wait1 then Acted(Entered(v, DoubleCheck), [m]) else Acted(v, [])
    case Reset =>
      if m.id != id then Acted(Entered(v, Normal), [m]) else Acted(v, [])
    case _ =>
      if v.state == Wait2 then Acted(v, [m]) else Acted(v, [])
  }

  // ----- views of executors

  function NoteOf(m: Message): Note { Note(m.kind, m.id) }

  ghost predicate Queued(inbox: seq<Message>, queue: seq<Note>) {
    |inbox| == |queue| && forall p :: 0 <= p < |inbox| ==> NoteOf(inbox[p]) == queue[p]
  }

  ghost predicate Single(l: Loop) {
    Inv(l) && |l.tasks| == 1 && l.idle == [0] && l.ready == [] && l.status == Running
  }

  ghost predicate Shows(l: Loop, v: View) {
    && Single(l) && l.state == v.state && l.checked == v.checked && Queued(l.inbox, v.queue)
    && v.counted == (l.points == 1)
  }

  /** No executor exits here, nor gets a Terminate message. */
  predicate Goes(v: View, id: nat, act: Act) {
    && CanAct(v, act)
    && (act.Receives? ==> v.queue[0].kind != Terminate)
    && (act.Receives? && v.queue[0].kind == StartWaiting2 && v.queue[0].id == id ==> v.state != Wait2)
  }

  function MoveOf(act: Act): Move {
    match act
    case Checks => Move.Check
    case SkipsTask => RunIdle(Executed(false))
    case HitsTask => RunIdle(Executed(true))
    case Advances => Move.Advance(false, false)
    case Receives => Move.Receive
  }

  ghost predicate Simulates(l: Loop, v: View, act: Act)
    requires Goes(v, l.id, act)
  {
    && Allowed(l, MoveOf(act)) && Tasks(l)
    && Shows(Moves(l, MoveOf(act)).loop, Acts(v, l.id, act).view)
    && Queued(Moves(l, MoveOf(act)).sent, Acts(v, l.id, act).sent)
  }

  lemma SkipSimulates(l: Loop, v: View)
    requires Shows(l, v) && Goes(v, l.id, SkipsTask)
    ensures Simulates(l, v, SkipsTask)
  {
    hide Shows, Simulates, Inv, Queued;
    ShowsIs(l, v);
    OneTask(l);
    assert l.(idle := l.idle[1..], checked := false).idle + [0] == [0];
    MoveKeepsInv(l, MoveOf(SkipsTask));
    QueuedAlike(l);
    MakeShows(Moves(l, MoveOf(SkipsTask)).loop, Acts(v, l.id, SkipsTask).view);
    MakeSimulates(l, v, SkipsTask);
  }

  lemma HitSimulates(l: Loop, v: View)
    requires Shows(l, v) && Goes(v, l.id, HitsTask)
    ensures Simulates(l, v, HitsTask)
  {
    hide Shows, Simulates, Inv, Queued;
    ShowsIs(l, v);
    OneTask(l);
    assert l.(idle := l.idle[1..], checked := false).idle + [0] == [0];
    MoveKeepsInv(l, MoveOf(HitsTask));
    QueuedAlike(l);
    MakeShows(Moves(l, MoveOf(HitsTask)).loop, Acts(v, l.id, HitsTask).view);
    MakeSimulates(l, v, HitsTask);
  }

  lemma QueuedAlike(l: Loop)
    ensures Queued([], []) && forall kind :: Queued([New(l, kind)], [Note(kind, l.id)])
    ensures forall m :: Queued([Forward(l, m)], [NoteOf(m)])
  {
  }

  lemma QueuedRest(inbox: seq<Message>, queue: seq<Note>)
    requires Queued(inbox, queue) && queue != []
    ensures inbox != [] && NoteOf(inbox[0]) == queue[0] && Queued(inbox[1..], queue[1..])
  {
  }

  lemma ShowsIs(l: Loop, v: View)
    requires Shows(l, v)
    ensures Single(l) && l.state == v.state && l.checked == v.checked && v.counted == (l.points == 1) &&
      Queued(l.inbox, v.queue)
  {
  }

  lemma MakeShows(l: Loop, v: View)
    requires Single(l) && l.state == v.state && l.checked == v.checked && v.counted == (l.points == 1) &&
      Queued(l.inbox, v.queue)
    ensures Shows(l, v)
  {
  }

  lemma MakeSimulates(l: Loop, v: View, act: Act)
    requires Goes(v, l.id, act) && Allowed(l, MoveOf(act)) && Tasks(l)
    requires Shows(Moves(l, MoveOf(act)).loop, Acts(v, l.id, act).view)
    requires Queued(Moves(l, MoveOf(act)).sent, Acts(v, l.id, act).sent)
    ensures Simulates(l, v, act)
  {
  }

  lemma OneTask(l: Loop)
    requires Single(l)
    ensures Counting(l.state) ==> l.points == (if SkippedIn(l.tasks[0], l.generation) then 1 else 0)
    ensures !Counting(l.state) ==> l.points == 1
  {
    assert l.tasks[..0] == [];
    assert Skips([], l.generation) == 0;
  }

  lemma ReceiveSimulates(l: Loop, v: View)
    requires Shows(l, v) && Goes(v, l.id, Receives)
    ensures Simulates(l, v, Receives)
  {
    hide Shows, Simulates, Skips, Inv, Queued;
    ShowsIs(l, v);
    OneTask(l);
    QueuedRest(l.inbox, v.queue);
    QueuedAlike(l.(inbox := l.inbox[1..]));
    MoveKeepsInv(l, Receive);
    MakeShows(Moves(l, Receive).loop, Acts(v, l.id, Receives).view);
    MakeSimulates(l, v, Receives);
  }

  lemma OtherSimulates(l: Loop, v: View, act: Act)
    requires Shows(l, v) && Goes(v, l.id, act) && (act.Checks? || act.Advances?)
    ensures Simulates(l, v, act)
  {
    hide Shows, Simulates, Skips, Queued;
    ShowsIs(l, v);
    OneTask(l);
    QueuedAlike(l.(checked := false));
    MoveKeepsInv(l, MoveOf(act));
    MakeShows(Moves(l, MoveOf(act)).loop, Acts(v, l.id, act).view);
    MakeSimulates(l, v, act);
  }

  lemma ActSimulates(l: Loop, v: View, act: Act)
    requires Shows(l, v) && Goes(v, l.id, act)
    ensures Simulates(l, v, act)
  {
    hide Shows, Simulates;
    match act
    case SkipsTask => SkipSimulates(l, v);
    case HitsTask => HitSimulates(l, v);
    case Receives => ReceiveSimulates(l, v);
    case _ => OtherSimulates(l, v, act);
  }

  // ----- views of rings

  ghost predicate ShowsAll(ring: seq<Loop>, views: seq<View>) {
    |ring| == |views| && forall i: nat :: i < |ring| ==> Shows(ring[i], views[i])
  }

  ghost predicate ComesTo(run: seq<seq<Loop>>, views: seq<View>) {
    IsRingRun(run) && ShowsAll(run[|run| - 1], views)
  }

  /** A run of the ring ends in a ring of these views. */
  ghost predicate Comes(views: seq<View>) { exists run :: ComesTo(run, views) }

  /** One executor acts, and its neighbor gets the messages. */
  ghost predicate Becomes(views: seq<View>, i: nat, act: Act, views': seq<View>) {
    && i < |views| == |views'| && Goes(views[i], i, act)
    && forall h: nat :: h < |views| ==>
      var v := if h == i then Acts(views[i], i, act).view else views[h];
      views'[h] == v.(queue := v.queue + if h == Next(|views|, i) then Acts(views[i], i, act).sent else [])
  }

  lemma QueuedMore(l: Loop, v: View, sent: seq<Message>, notes: seq<Note>)
    requires Shows(l, v) && Queued(sent, notes)
    ensures Shows(l.(inbox := l.inbox + sent), v.(queue := v.queue + notes))
  {
    hide Skips;
  }

  lemma TurnShows(ring: seq<Loop>, views: seq<View>, i: nat, act: Act, views': seq<View>)
    requires RingInv(ring) && ShowsAll(ring, views) && Becomes(views, i, act, views')
    ensures MayTurn(ring, i, MoveOf(act)) && ShowsAll(Turn(ring, i, MoveOf(act)), views')
  {
    hide Shows, Moves, Allowed, Inv, AllTrailed, Ended, CanAct, Acts, Queued;
    RingId(ring, i);
    assert Shows(ring[i], views[i]);
    ActSimulates(ring[i], views[i], act);
    var m, a := Moves(ring[i], MoveOf(act)), Acts(views[i], i, act);
    forall h: nat | h < |ring|
      ensures Shows(Turn(ring, i, MoveOf(act))[h], views'[h])
    {
      var l, v := if h == i then m.loop else ring[h], if h == i then a.view else views[h];
      assert Shows(l, v);
      if h == Next(|ring|, i) {
        QueuedMore(l, v, m.sent, a.sent);
      }
      assert v.(queue := v.queue + []) == v;
    }
  }

  lemma Does(views: seq<View>, i: nat, act: Act, views': seq<View>)
    requires Comes(views) && Becomes(views, i, act, views')
    ensures Comes(views')
  {
    hide Becomes, ShowsAll, Turn, Started, Allowed, Moves, RingInv;
    var run :| ComesTo(run, views);
    var ring := run[|run| - 1];
    RunKeepsRingInv(run, |run| - 1);
    TurnShows(ring, views, i, act, views');
    var ring' := Turn(ring, i, MoveOf(act));
    assert TurnsTo(ring, ring');
    var run' := run + [ring'];
    forall k | 0 < k < |run'|
      ensures TurnsTo(run'[k - 1], run'[k])
    {
      if k < |run| {
        assert TurnsTo(run[k - 1], run[k]);
      }
    }
    assert ComesTo(run', views');
  }

  /** The views after executor `i` has come to look like `v` and has sent these messages. */
  function After(views: seq<View>, i: nat, v: View, sent: seq<Note>): seq<View>
    requires i < |views|
  {
    Put(views[i := v], Next(|views|, i), sent)
  }

  /** One act of an executor that has come to look like `v` and has sent these messages so far. */
  lemma Step(views: seq<View>, i: nat, v: View, sent: seq<Note>, act: Act) returns (v': View, sent': seq<Note>)
    requires |views| >= 2 && i < |views| && Comes(After(views, i, v, sent)) && Goes(v, i, act)
    ensures v' == Acts(v, i, act).view && sent' == sent + Acts(v, i, act).sent
    ensures Comes(After(views, i, v', sent'))
  {
    hide Acts, Comes, CanAct;
    v', sent' := Acts(v, i, act).view, sent + Acts(v, i, act).sent;
    var before, after := After(views, i, v, sent), After(views, i, v', sent');
    assert v'.(queue := v'.queue + []) == v';
    forall h: nat | h < |views|
      ensures h != i && h != Next(|views|, i) ==> after[h] == before[h].(queue := before[h].queue + [])
      ensures h == Next(|views|, i) ==> after[h] == before[h].(queue := before[h].queue + Acts(v, i, act).sent)
    {
      if h != i {
        assert before[h].queue + [] == before[h].queue;
        assert views[h].queue + sent' == views[h].queue + sent + Acts(v, i, act).sent;
      }
    }
    Does(before, i, act, after);
  }

  lemma Begin(views: seq<View>, i: nat) returns (v: View, sent: seq<Note>)
    requires i < |views| && Comes(views)
    ensures v == views[i] && sent == [] && Comes(After(views, i, v, sent))
  {
    v, sent := views[i], [];
    assert After(views, i, v, sent) == views by {
      var j := Next(|views|, i);
      assert views[j].queue + [] == views[j].queue;
    }
  }

  /** Executor `i` skips its task and goes on. */
  lemma Proceeds(views: seq<View>, i: nat, v0: View, sent0: seq<Note>) returns (v: View, sent: seq<Note>)
    requires |views| >= 2 && i < |views| && Comes(After(views, i, v0, sent0)) && Counting(v0.state) &&
      v0 == Calm(v0.state)
    ensures v == Calm(if v0.state == Normal then ShootDown else if v0.state == ShootDown then Wait1 else Wait2)
    ensures sent == sent0 + [Note(if v0.state == Normal then MessageKind.StartShootDown
                                  else if v0.state == ShootDown then MessageKind.StartWaiting1
                                  else MessageKind.StartWaiting2, i)]
    ensures Comes(After(views, i, v, sent))
  {
    hide Comes, After;
    v, sent := Step(views, i, v0, sent0, Checks);
    v, sent := Step(views, i, v, sent, SkipsTask);
    v, sent := Step(views, i, v, sent, Checks);
    v, sent := Step(views, i, v, sent, Advances);
  }

  /** An executor in this state that has received all messages; while it waits its task counts. */
  function Calm(state: State): View { View(state, !Counting(state), false, []) }

  /** The views with something added to one queue. */
  function Put(views: seq<View>, i: nat, notes: seq<Note>): seq<View>
    requires i < |views|
  {
    views[i := views[i].(queue := views[i].queue + notes)]
  }

  /** An executor of `n` at the start. */
  function Fresh(n: nat, id: nat): Loop {
    Loop(id, Normal, 0, 0, [TaskRecord(Hit, 0)], [0], [], [], Running, false, seq(n, _ => 0))
  }

  /** The views of such a ring when all have the same. */
  function All(n: nat, v: View): seq<View> { seq(n, _ => v) }

  lemma Start(n: nat)
    requires n > 0
    ensures Comes(All(n, Calm(Normal)))
  {
    var ring := seq(n, i requires 0 <= i => Fresh(n, i));
    forall i: nat | i < n
      ensures Initial(ring[i]) && Shows(ring[i], Calm(Normal))
    {
      NoSkips(ring[i].tasks);
    }
    assert ComesTo([ring], All(n, Calm(Normal)));
  }
}
