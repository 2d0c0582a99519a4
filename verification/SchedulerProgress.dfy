/**
  The workers of the instance scheduler come to an end: whatever they do, they never get stuck, every step
  but a change uses up work, and when no step is left they have all exited with nothing scheduled.
  */
module SchedulerProgress {
  import opened InstanceSchedules
  import opened InstanceScheduler

  lemma {:induction false} SomePass(workers: seq<Worker>) returns (w: nat)
    requires Passes(workers) > 0
    ensures w < |workers| && workers[w].Passing?
  {
    w := |workers| - 1;
    if !workers[w].Passing? {
      w := SomePass(workers[..w]);
    }
  }

  /** As long as some worker has not exited, one of them can go on. */
  lemma NeverStuck(c: Setup, s: State, w: nat) returns (step: Step)
    requires Inv(c, s) && w < |s.workers| && !s.workers[w].Exited?
    ensures Allowed(c, s, step) && !step.Change?
  {
    var x := w;
    if s.workers[w].Looking? {
      if s.schedule != [] { return Take(w); }
      if s.pending == 0 { return Exit(w); }
      x := SomePass(s.workers);
    }
    var worker := s.workers[x];
    assert PassIsValid(c, worker);
    return if worker.owes != [] then Push(x)
           else if worker.tried < c.actions[worker.instance] then Try(x)
           else Finish(x);
  }

  /** A worker has exited only if nothing is scheduled and nothing pending. */
  lemma {:induction false} ExitedMeansQuiet(c: Setup, r: Run, n: nat, w: nat)
    requires IsRun(c, r) && n < |r.states| && w < |r.states[n].workers| && r.states[n].workers[w].Exited?
    requires forall x :: 0 <= x < |r.states[0].workers| ==> !r.states[0].workers[x].Exited?
    ensures Quiet(r.states[n])
  {
    if n > 0 {
      assert Follows(c, r, n - 1);
      var s, step := r.states[n - 1], r.steps[n - 1];
      if s.workers[w].Exited? {
        ExitedMeansQuiet(c, r, n - 1, w);
        RunKeepsInv(c, r, n - 1);
        QuietIsStable(c, s, step);
      }
    }
  }

  // ----- work

  /** More than the number of steps of a pass over the instance. */
  function Cost(c: Setup, i: nat): nat { 3 + if i < |c.actions| then c.actions[i] else 0 }

  function CostOf(c: Setup, list: seq<nat>): nat {
    if list == [] then 0 else CostOf(c, list[..|list| - 1]) + Cost(c, list[|list| - 1])
  }

  function ToDo(c: Setup, worker: Worker): nat {
    match worker
    case Looking => 1
    case Passing(i, tried, owes) =>
      2 + CostOf(c, owes) + |owes| + if i < |c.actions| && tried < c.actions[i] then c.actions[i] - tried else 0
    case Exited => 0
  }

  function AllToDo(c: Setup, workers: seq<Worker>): nat {
    if workers == [] then 0 else AllToDo(c, workers[..|workers| - 1]) + ToDo(c, workers[|workers| - 1])
  }

  function Work(c: Setup, s: State): nat { CostOf(c, s.schedule) + AllToDo(c, s.workers) }

  lemma {:induction false} AllToDoAfter(c: Setup, workers: seq<Worker>, w: nat, x: Worker)
    requires w < |workers|
    ensures AllToDo(c, workers[w := x]) == AllToDo(c, workers) + ToDo(c, x) - ToDo(c, workers[w])
  {
    hide ToDo;
    var n := |workers| - 1;
    if w < n {
      AllToDoAfter(c, workers[..n], w, x);
      assert workers[w := x][..n] == workers[..n][w := x];
    } else {
      assert workers[w := x][..n] == workers[..n];
    }
  }

  lemma {:induction false} CostOfFirst(c: Setup, list: seq<nat>)
    requires list != []
    ensures CostOf(c, list) == Cost(c, list[0]) + CostOf(c, list[1..])
  {
    var n := |list| - 1;
    if n > 0 {
      CostOfFirst(c, list[..n]);
      assert list[..n][1..] == list[1..][..n - 1];
    } else {
      assert list[1..] == list[..n] == [];
    }
  }

  lemma CostOfPushed(c: Setup, list: seq<nat>, i: nat)
    ensures CostOf(c, Pushed(list, i)) <= CostOf(c, list) + Cost(c, i)
  {
    assert (list + [i])[..|list|] == list;
  }

  /** What a change adds: the instances that have to be pushed because of it. */
  function Added(c: Setup, step: Step): nat {
    if step.Change? && step.instance < |c.linked| then
      var owes := [step.instance] + c.linked[step.instance];
      CostOf(c, owes) + |owes|
    else 0
  }

  /** Every step uses up work; only a change adds to it. */
  lemma StepUsesWork(c: Setup, s: State, step: Step)
    requires Inv(c, s) && Allowed(c, s, step)
    ensures if step.Change? then Work(c, Next(c, s, step)) == Work(c, s) + Added(c, step)
            else Work(c, Next(c, s, step)) < Work(c, s)
  {
    var s' := Next(c, s, step);
    var worker := s.workers[step.w];
    assert worker.Passing? ==> PassIsValid(c, worker);
    AllToDoAfter(c, s.workers, step.w, s'.workers[step.w]);
    hide Inv, AllToDo;
    match step
    case Take(_) => CostOfFirst(c, s.schedule);
    case Push(_) =>
      CostOfFirst(c, worker.owes);
      CostOfPushed(c, s.schedule, worker.owes[0]);
    case _ =>
  }

  function AllAdded(c: Setup, steps: seq<Step>): nat {
    if steps == [] then 0 else AllAdded(c, steps[..|steps| - 1]) + Added(c, steps[|steps| - 1])
  }

  function Changes(steps: seq<Step>): nat {
    if steps == [] then 0 else Changes(steps[..|steps| - 1]) + if steps[|steps| - 1].Change? then 1 else 0
  }

  /** A run is no longer than the work there was, what its changes added, and the changes themselves. */
  lemma {:induction false} RunIsBounded(c: Setup, r: Run, n: nat)
    requires IsRun(c, r) && n <= |r.steps|
    ensures n + Work(c, r.states[n]) <= Work(c, r.states[0]) + AllAdded(c, r.steps[..n]) + Changes(r.steps[..n])
  {
    hide Work, Added;
    if n > 0 {
      RunIsBounded(c, r, n - 1);
      RunKeepsInv(c, r, n - 1);
      assert Follows(c, r, n - 1);
      StepUsesWork(c, r.states[n - 1], r.steps[n - 1]);
      assert r.steps[..n][..n - 1] == r.steps[..n - 1];
    }
  }

  /**
    So a run with finitely many changes comes to an end; and when nothing more can be done, all workers have
    exited, and nothing is scheduled or pending.
    */
  lemma EverythingEnds(c: Setup, r: Run)
    requires IsRun(c, r) && r.states[0].workers != []
    requires forall x :: 0 <= x < |r.states[0].workers| ==> !r.states[0].workers[x].Exited?
    ensures |r.steps| <= Work(c, r.states[0]) + AllAdded(c, r.steps) + Changes(r.steps)
    ensures var s := r.states[|r.steps|];
      (forall step :: Allowed(c, s, step) ==> step.Change?) <==>
      (Quiet(s) && forall w :: 0 <= w < |s.workers| ==> s.workers[w].Exited?)
  {
    var n := |r.steps|;
    var s := r.states[n];
    RunIsBounded(c, r, n);
    assert r.steps[..n] == r.steps;
    RunKeepsInv(c, r, n);
    SameWorkers(c, r, n);
    if forall step :: Allowed(c, s, step) ==> step.Change? {
      forall w | 0 <= w < |s.workers| ensures s.workers[w].Exited? {
        if !s.workers[w].Exited? {
          var step := NeverStuck(c, s, w);
          assert false;
        }
      }
      ExitedMeansQuiet(c, r, n, 0);
    }
  }

  lemma {:induction false} SameWorkers(c: Setup, r: Run, n: nat)
    requires IsRun(c, r) && n < |r.states|
    ensures |r.states[n].workers| == |r.states[0].workers|
  {
    if n > 0 {
      SameWorkers(c, r, n - 1);
      assert Follows(c, r, n - 1);
    }
  }
}
