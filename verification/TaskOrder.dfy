/**
  Executors take tasks from the front of their two lists, and tasks join the lists at the end; so in any run,
  tasks leave a list in the order in which they joined it, and after as many turns as there were tasks ahead.
  */
module TaskOrder {
  import opened LockProtocol
  import opened LockSafety

  /** The ready list, or the idle list. */
  function ListOf(x: Executor, ready: bool): seq<nat> { if ready then x.ready else x.idle }

  predicate Lists(p: Place, ready: bool) { p == if ready then Ready else Idle }

  /** The executor takes a task from that list. */
  predicate Takes(step: Step, e: nat, ready: bool) { step == if ready then Resume(e) else Start(e) }

  /** How often the executor takes a task from that list. */
  function Turns(steps: seq<Step>, e: nat, ready: bool): nat {
    if steps == [] then 0
    else Turns(steps[..|steps| - 1], e, ready) + if Takes(steps[|steps| - 1], e, ready) then 1 else 0
  }

  /** A list loses its first task, or keeps all of them in their order. */
  lemma ListMoves(c: Config, s: State, step: Step, e: nat, ready: bool)
    requires ValidConfig(c) && Shaped(c, s) && Enabled(c, s, step) && e < c.executors
    ensures |Next(c, s, step).executors| == c.executors
    ensures var (q, x') := (ListOf(s.executors[e], ready), Next(c, s, step).executors[e]);
      if Takes(step, e, ready) then q != [] && ListOf(x', ready) == q[1..] && x'.current == Task(q[0])
      else q <= ListOf(x', ready)
  {
    hide AskFor, GiveUp, TaskIds, Moved, ExecutorShaped;
  }

  /** A task that comes to a list is the last one on that list of its executor. */
  lemma JoinsAtEnd(c: Config, s: State, step: Step, t: nat, ready: bool)
    requires ValidConfig(c) && Inv(c, s) && Enabled(c, s, step) && t < |c.sets|
    requires !Lists(s.place[t], ready) && Lists(Next(c, s, step).place[t], ready)
    ensures var e := c.owner[t];
      ListOf(Next(c, s, step).executors[e], ready) == ListOf(s.executors[e], ready) + [t]
  {
    assert ExecutorInv(c, s, step.e) && Shaped(c, s);
    hide Inv, AskFor, GiveUp, TaskIds, ExecutorShaped, QueueInv, LockInv, TaskInv;
  }

  lemma HasExecutors(c: Config, s: State)
    requires Shaped(c, s)
    ensures |s.executors| == c.executors
  {
  }

  /** The task at position `p` moves up by one with every turn; after `p` of them it is first. */
  lemma {:induction false} MovesUp(c: Config, states: seq<State>, steps: seq<Step>, i: nat, j: nat, e: nat,
                                   ready: bool, p: nat)
    requires ValidConfig(c) && IsRun(c, states, steps) && i <= j <= |steps| && e < c.executors
    requires Shaped(c, states[i]) && p < |ListOf(states[i].executors[e], ready)| && Turns(steps[i..j], e, ready) <= p
    ensures var n := Turns(steps[i..j], e, ready);
      && e < |states[j].executors| && p - n < |ListOf(states[j].executors[e], ready)|
      && ListOf(states[j].executors[e], ready)[p - n] == ListOf(states[i].executors[e], ready)[p]
    decreases j - i
  {
    hide Next, Enabled, Shaped, ValidConfig, ListOf;
    HasExecutors(c, states[i]);
    if i < j {
      assert steps[i..j][..j - i - 1] == steps[i..j - 1] && steps[i..j][j - i - 1] == steps[j - 1];
      assert states[j - 1 + 1] == Next(c, states[j - 1], steps[j - 1]);
      MovesUp(c, states, steps, i, j - 1, e, ready, p);
      ListMoves(c, states[j - 1], steps[j - 1], e, ready);
    }
  }

  /** The turn after as many as there were tasks ahead of it is the task's own. */
  lemma GetsItsTurn(c: Config, states: seq<State>, steps: seq<Step>, i: nat, j: nat, e: nat, ready: bool, p: nat)
    requires ValidConfig(c) && IsRun(c, states, steps) && i <= j < |steps| && e < c.executors
    requires p < |ListOf(states[i].executors[e], ready)| && Turns(steps[i..j], e, ready) == p
    requires Takes(steps[j], e, ready)
    ensures states[j + 1].executors[e].current == Task(ListOf(states[i].executors[e], ready)[p])
  {
    hide Next, Enabled, ListOf;
    MovesUp(c, states, steps, i, j, e, ready, p);
    ListMoves(c, states[j], steps[j], e, ready);
  }
}
