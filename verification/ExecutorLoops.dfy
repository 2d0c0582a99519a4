/** The loop of an executor, in place. */
module ExecutorLoops {
  import opened ExecutorStates

  /** One iteration: a ready task and a message if there are any, otherwise what the points call for. */
  function Iteration(l: Loop, outcome: Outcome, watching: bool, poll: bool): Moved
    requires Tasks(l) && l.status == Running && !l.checked
  {
    if l.ready != [] || l.inbox != [] then
      var first := if l.ready != [] then Moves(l, RunReady(outcome)) else Moved(l, []);
      if first.loop.status == Running && l.inbox != [] then
        var second := Received(first.loop.(inbox := l.inbox[1..]), l.inbox[0]);
        Moved(second.loop, first.sent + second.sent)
      else first
    else
      var checked := Moves(l, Check).loop;
      Moves(checked, if l.points == |l.tasks| then Advance(watching, poll) else RunIdle(outcome))
  }

  class Executor {
    const id: nat
    var state: State
    var generation: nat
    var points: int
    var tasks: seq<TaskRecord>
    var idle: seq<nat>
    var ready: seq<nat>
    var inbox: seq<Message>
    var status: Status
    var resets: seq<nat>

    function Looks(): Loop
      reads this
    {
      Loop(id, state, generation, points, tasks, idle, ready, inbox, status, false, resets)
    }

    constructor (id: nat, count: nat, executors: nat)
      ensures Initial(Looks()) && this.id == id && |tasks| == count && ready == [] && inbox == []
      ensures |resets| == executors && forall e :: 0 <= e < executors ==> resets[e] == 0
      ensures |idle| == count && forall t :: 0 <= t < count ==> idle[t] == t
    {
      this.id := id;
      state, generation, points, status := Normal, 0, 0, Running;
      tasks := seq(count, _ => TaskRecord(Hit, 0));
      idle := seq(count, t => t);
      ready, inbox := [], [];
      resets := seq(executors, _ => 0);
      new;
      assert AllIdle(Looks()) by {
        forall t: nat | t < |tasks| ensures t in idle { assert idle[t] == t; }
      }
    }

    /** Runs a task that is on no list; once it has executed it goes to the end of the idle list. */
    method Resume(t: nat, outcome: Outcome) returns (result: ExecutionResult)
      requires t < |tasks|
      modifies `tasks, `idle
      ensures tasks == old(tasks)[t := Recorded(old(tasks)[t], generation, outcome).0]
      ensures result == Recorded(old(tasks)[t], generation, outcome).1
      ensures idle == if outcome.Parked? then old(idle) else old(idle) + [t]
    {
      if outcome.Parked? {
        return None;
      }
      if generation != tasks[t].generation {
        tasks := tasks[t := TaskRecord(Hit, generation)];
      }
      match tasks[t].last {
        case Hit =>
          if outcome.hit {
            tasks := tasks[t := tasks[t].(last := Hit)];
            result := Taken;
          } else {
            tasks := tasks[t := tasks[t].(last := Skip)];
            result := FirstSkip;
          }
        case Skip =>
          if outcome.hit {
            tasks := tasks[t := tasks[t].(last := Hit)];
            result := FirstHit;
          } else {
            tasks := tasks[t := tasks[t].(last := Skip)];
            result := Skipped;
          }
      }
      idle := idle + [t];
    }

    method EnterState(next: State)
      modifies `state, `generation, `points
      ensures state == next && generation == old(generation) + 1 && points == 0
    {
      state := next;
      generation := generation + 1;
      points := 0;
    }

    method ResetFor(executor: nat)
      modifies `state, `generation, `points, `resets
      ensures state == Normal && generation == old(generation) + 1 && points == 0
      ensures resets == OneMore(old(resets), executor)
    {
      EnterState(Normal);
      resets := OneMore(resets, executor);
    }

    /** Runs a task and counts its result, as the state calls for. */
    method Run(t: nat, outcome: Outcome) returns (sent: seq<Message>)
      requires t < |tasks|
      modifies `tasks, `idle, `state, `generation, `points, `resets
      ensures Moved(Looks(), sent) == Ran(old(Looks()), t, outcome)
    {
      sent := [];
      var result := Resume(t, outcome);
      match state
      case Normal =>
        match result {
          case FirstSkip => points := points + 1;
          case FirstHit => points := points - 1;
          case _ =>
        }
      case ShootDown | DoubleCheck =>
        match result {
          case FirstSkip => points := points + 1;
          case Taken | FirstHit =>
            sent := [New(Looks(), Reset)];
            ResetFor(id);
          case _ =>
        }
      case _ =>
    }

    method Handle(m: Message) returns (sent: seq<Message>)
      modifies `state, `generation, `points, `status, `resets
      ensures Moved(Looks(), sent) == Received(old(Looks()), m)
    {
      sent := [];
      var forwarded := Forward(Looks(), m);
      match m.kind
      case StartShootDown =>
        if m.id != id && state == Normal {
          EnterState(ShootDown);
          sent := [forwarded];
        }
      case StartWaiting1 =>
        if state == Wait1 {
          if m.id != id {
            sent := [forwarded];
          } else {
            EnterState(DoubleCheck);
            sent := [New(Looks(), StartDoubleCheck)];
          }
        }
      case StartDoubleCheck =>
        if m.id != id && state == Wait1 {
          EnterState(DoubleCheck);
          sent := [forwarded];
        }
      case StartWaiting2 =>
        if state == Wait2 {
          if m.id != id {
            sent := [forwarded];
          } else {
            sent := [New(Looks(), Terminate)];
            status := Exited;
          }
        }
      case Terminate =>
        if state == Wait2 {
          sent := [forwarded];
          status := Exited;
        } else {
          status := Failed;
        }
      case Reset =>
        if m.id != id {
          ResetFor(m.id);
          sent := [forwarded];
        }
    }

    /** What the executor does when every task has been skipped. */
    method Rest(watching: bool, poll: bool) returns (sent: seq<Message>)
      modifies `state, `generation, `points, `resets
      ensures Moved(Looks(), sent) == Advanced(old(Looks()), watching, poll)
    {
      sent := [];
      match state
      case Normal =>
        EnterState(ShootDown);
        sent := [New(Looks(), StartShootDown)];
      case ShootDown =>
        state := Wait1;
        sent := [New(Looks(), StartWaiting1)];
      case DoubleCheck =>
        if watching {
          state := Poll;
        } else {
          state := Wait2;
          sent := [New(Looks(), StartWaiting2)];
        }
      case Poll =>
        if poll {
          sent := [New(Looks(), Reset)];
          ResetFor(id);
        }
      case _ =>
    }

    /** One iteration of the loop. */
    method Iterate(outcome: Outcome, watching: bool, poll: bool) returns (sent: seq<Message>)
      requires Tasks(Looks()) && status == Running
      modifies this
      ensures Moved(Looks(), sent) == Iteration(old(Looks()), outcome, watching, poll)
      ensures old(Inv(Looks())) ==> Inv(Looks())
    {
      hide Ran, Received, Advanced, Inv;
      if Inv(Looks()) {
        IterationKeepsInv(Looks(), outcome, watching, poll);
      }
      sent := [];
      if ready != [] || inbox != [] {
        // A task from the ready list and/or a message.
        var hasTask, hasMessage := ready != [], inbox != [];
        var messages := inbox;
        if hasTask {
          if state == Poll {
            status := Failed;
            return;
          }
          var t := ready[0];
          ready := ready[1..];
          sent := Run(t, outcome);
        }
        if hasMessage {
          inbox := inbox[1..];
          var more := Handle(messages[0]);
          sent := sent + more;
        }
      } else if points == |tasks| {
        sent := Rest(watching, poll);
      } else if idle != [] {
        if state == Wait1 || state == Wait2 || state == Poll {
          status := Failed;
          return;
        }
        var t := idle[0];
        idle := idle[1..];
        sent := Run(t, outcome);
      }
    }
  }

  lemma IterationKeepsInv(l: Loop, outcome: Outcome, watching: bool, poll: bool)
    requires Inv(l) && l.status == Running && !l.checked
    ensures Inv(Iteration(l, outcome, watching, poll).loop)
  {
    if l.ready != [] || l.inbox != [] {
      var first := if l.ready != [] then Moves(l, RunReady(outcome)) else Moved(l, []);
      if l.ready != [] {
        MoveKeepsInv(l, RunReady(outcome));
      }
      if l.inbox != [] {
        ReceivedKeepsInv(first.loop.(inbox := l.inbox[1..]), l.inbox[0]);
      }
    } else {
      MoveKeepsInv(l, Check);
      MoveKeepsInv(Moves(l, Check).loop, if l.points == |l.tasks| then Advance(watching, poll) else RunIdle(outcome));
    }
  }
}
