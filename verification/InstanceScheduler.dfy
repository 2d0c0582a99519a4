/**
  Workers that take instances off the schedule and try all of their actions, and exit when the
  schedule is empty and no worker is trying any.  One step is what a worker does while it holds the
  mutex of the list, or one action.
  */
module InstanceScheduler {
  import opened InstanceSchedules

  /**
    A worker looks for an instance, or makes a pass over the actions of one, or is gone.  `owes` is what
    it has to push because the action that it executes has changed an instance.
    */
  datatype Worker = Looking | Passing(instance: nat, tried: nat, owes: seq<nat>) | Exited

  datatype State = State(schedule: seq<nat>, pending: int, workers: seq<Worker>)

  datatype Step =
    | Take(w: nat)               // take the first instance off the schedule
    | Change(w: nat, instance: nat) // the action being executed changes an instance
    | Push(w: nat)               // push the next of the instances that depend on the change
    | Try(w: nat)                // try the next action
    | Finish(w: nat)             // all actions tried, garbage collected
    | Exit(w: nat)               // nothing scheduled and nothing pending

  /** What there is to know about the instances. */
  datatype Setup = Setup(
    actions: seq<nat>,                          // the number of actions of each instance
    linked: seq<seq<nat>>,                      // the instances that are linked to each instance
    watched: map<(nat, nat), set<nat>>)         // the instances that the precondition of an action depends on

  ghost predicate ValidSetup(c: Setup) {
    && |c.linked| == |c.actions|
    && forall x, k :: 0 <= x < |c.linked| && 0 <= k < |c.linked[x]| ==> c.linked[x][k] < |c.actions|
  }

  predicate Allowed(c: Setup, s: State, step: Step) {
    var actions := c.actions;
    step.w < |s.workers| &&
    var worker := s.workers[step.w];
    match step
    case Take(_) => worker.Looking? && s.schedule != []
    case Change(_, i) => worker.Passing? && worker.owes == [] && i < |actions| && i < |c.linked| && worker.tried > 0
    case Push(_) => worker.Passing? && worker.owes != []
    case Try(_) =>
      worker.Passing? && worker.owes == [] && worker.instance < |actions| && worker.tried < actions[worker.instance]
    case Finish(_) =>
      worker.Passing? && worker.owes == [] && worker.instance < |actions| && worker.tried == actions[worker.instance]
    case Exit(_) => worker.Looking? && s.schedule == [] && s.pending == 0
  }

  function Next(c: Setup, s: State, step: Step): State
    requires Allowed(c, s, step)
  {
    var w := step.w;
    var worker := s.workers[w];
    match step
    case Take(_) =>
      State(s.schedule[1..], s.pending + 1, s.workers[w := Passing(s.schedule[0], 0, [])])
    case Change(_, i) => s.(workers := s.workers[w := worker.(owes := [i] + c.linked[i])])
    case Push(_) =>
      s.(schedule := Pushed(s.schedule, worker.owes[0]), workers := s.workers[w := worker.(owes := worker.owes[1..])])
    case Try(_) => s.(workers := s.workers[w := worker.(tried := worker.tried + 1)])
    case Finish(_) => State(s.schedule, s.pending - 1, s.workers[w := Looking])
    case Exit(_) => s.(workers := s.workers[w := Exited])
  }

  // ----- the pending count

  function Passes(workers: seq<Worker>): nat {
    if workers == [] then 0
    else Passes(workers[..|workers| - 1]) + if workers[|workers| - 1].Passing? then 1 else 0
  }

  lemma {:induction false} PassesAfter(workers: seq<Worker>, w: nat, x: Worker)
    requires w < |workers|
    ensures Passes(workers[w := x]) ==
            Passes(workers) + (if x.Passing? then 1 else 0) - (if workers[w].Passing? then 1 else 0)
  {
    var n := |workers| - 1;
    if w < n {
      PassesAfter(workers[..n], w, x);
      assert workers[w := x][..n] == workers[..n][w := x];
    } else {
      assert workers[w := x][..n] == workers[..n];
    }
  }

  lemma {:induction false} NoPasses(workers: seq<Worker>, w: nat)
    requires Passes(workers) == 0 && w < |workers|
    ensures !workers[w].Passing?
  {
    if w < |workers| - 1 {
      NoPasses(workers[..|workers| - 1], w);
    }
  }

  /** The schedule has no instance twice, and the count is the number of passes that are being made. */
  ghost predicate Inv(c: Setup, s: State) {
    && Distinct(s.schedule) && (forall i :: i in s.schedule ==> i < |c.actions|)
    && s.pending == Passes(s.workers)
    && forall w :: 0 <= w < |s.workers| && s.workers[w].Passing? ==> PassIsValid(c, s.workers[w])
  }

  ghost predicate PassIsValid(c: Setup, worker: Worker)
    requires worker.Passing?
  {
    && worker.instance < |c.actions| && worker.tried <= c.actions[worker.instance]
    && forall k :: 0 <= k < |worker.owes| ==> worker.owes[k] < |c.actions|
  }

  lemma NextKeepsInv(c: Setup, s: State, step: Step)
    requires ValidSetup(c) && Inv(c, s) && Allowed(c, s, step)
    ensures Inv(c, Next(c, s, step))
  {
    var s' := Next(c, s, step);
    PassesAfter(s.workers, step.w, s'.workers[step.w]);
    if step.Take? {
      Rest(s.schedule);
    }
  }

  // ----- the end

  ghost predicate Quiet(s: State) { s.schedule == [] && s.pending == 0 }

  /** Once nothing is scheduled and nothing pending it stays so, and workers can only exit. */
  lemma QuietIsStable(c: Setup, s: State, step: Step)
    requires Inv(c, s) && Quiet(s) && Allowed(c, s, step)
    ensures step.Exit? && Quiet(Next(c, s, step))
  {
    NoPasses(s.workers, step.w);
  }

  // ----- runs

  /** States and the steps between them. */
  datatype Run = Run(states: seq<State>, steps: seq<Step>)

  ghost predicate IsRun(c: Setup, r: Run) {
    && ValidSetup(c) && |r.states| == |r.steps| + 1 && Inv(c, r.states[0])
    && forall k :: 0 <= k < |r.steps| ==> Follows(c, r, k)
  }

  ghost predicate Follows(c: Setup, r: Run, k: nat)
    requires k < |r.steps| && |r.states| == |r.steps| + 1
  {
    Allowed(c, r.states[k], r.steps[k]) && r.states[k + 1] == Next(c, r.states[k], r.steps[k])
  }

  lemma {:induction false} RunKeepsInv(c: Setup, r: Run, k: nat)
    requires IsRun(c, r) && k < |r.states|
    ensures Inv(c, r.states[k])
  {
    if k > 0 {
      RunKeepsInv(c, r, k - 1);
      assert Follows(c, r, k - 1);
      NextKeepsInv(c, r.states[k - 1], r.steps[k - 1]);
    }
  }

  /** Instance `i` was to be scheduled at step `p`: it was pushed, or was there from the start. */
  ghost predicate PushedAt(r: Run, p: nat, i: nat)
    requires |r.states| == |r.steps| + 1
  {
    p < |r.states| && i in r.states[p].schedule
  }

  /** At step `b` worker `w` takes instance `i`, and the pass that this begins goes on up to state `n`. */
  ghost predicate InPass(r: Run, i: nat, w: nat, b: nat, n: nat)
    requires |r.states| == |r.steps| + 1
  {
    && b < n < |r.states| && r.steps[b] == Take(w) && r.states[b].schedule != [] && r.states[b].schedule[0] == i
    && (forall m :: b < m <= n ==> IsPassing(r, w, m, i))
  }

  ghost predicate IsPassing(r: Run, w: nat, m: nat, i: nat)
    requires m < |r.states|
  {
    w < |r.states[m].workers| && r.states[m].workers[w].Passing? && r.states[m].workers[w].instance == i
  }

  /** A pass over instance `i` begins at step `b`, tries all actions, and ends at step `e`. */
  ghost predicate FullPass(c: Setup, r: Run, i: nat, w: nat, b: nat, e: nat)
    requires |r.states| == |r.steps| + 1
  {
    && InPass(r, i, w, b, e) && e < |r.steps| && r.steps[e] == Finish(w) && i < |c.actions|
    && forall k: nat :: k < c.actions[i] ==> TriedIn(r, w, b, e, k)
  }

  /** Worker `w` tries action `k` between steps `b` and `e`. */
  ghost predicate TriedIn(r: Run, w: nat, b: nat, e: nat, k: nat)
    requires |r.states| == |r.steps| + 1
  {
    exists m: nat :: b < m < e && m < |r.steps| && r.steps[m] == Try(w) && w < |r.states[m].workers|
                     && r.states[m].workers[w].Passing? && r.states[m].workers[w].tried == k
  }

  /** What has become of instance `i` at state `n`, which was to be scheduled at state `p`. */
  ghost predicate Served(c: Setup, r: Run, i: nat, p: nat, n: nat)
    requires |r.states| == |r.steps| + 1
  {
    || (n < |r.states| && i in r.states[n].schedule)
    || (exists w: nat, b: nat :: p <= b && InPass(r, i, w, b, n))
    || (exists w: nat, b: nat, e: nat :: p <= b && e < n && FullPass(c, r, i, w, b, e))
  }

  /** Along a pass, the actions counted as tried have been tried. */
  lemma {:induction false} PassTries(c: Setup, r: Run, i: nat, w: nat, b: nat, n: nat, k: nat)
    requires IsRun(c, r) && InPass(r, i, w, b, n) && IsPassing(r, w, n, i) && k < r.states[n].workers[w].tried
    ensures TriedIn(r, w, b, n, k)
  {
    hide Inv;
    assert Follows(c, r, n - 1);
    assert IsPassing(r, w, n, i);
    if n - 1 > b {
      assert IsPassing(r, w, n - 1, i);
      if k < r.states[n - 1].workers[w].tried {
        PassTries(c, r, i, w, b, n - 1, k);
      }
    }
  }

  lemma {:induction false} AlwaysServed(c: Setup, r: Run, i: nat, p: nat, n: nat)
    requires IsRun(c, r) && p <= n < |r.states| && PushedAt(r, p, i)
    ensures Served(c, r, i, p, n)
  {
    hide Inv;
    if p < n {
      AlwaysServed(c, r, i, p, n - 1);
      assert Follows(c, r, n - 1);
      var m := n - 1;
      var s, step := r.states[m], r.steps[m];
      if i in s.schedule {
        if i !in r.states[n].schedule {
          assert step.Take? && s.schedule[0] == i;
          assert InPass(r, i, step.w, n - 1, n);
        }
      } else if exists w: nat, b: nat :: p <= b && InPass(r, i, w, b, m) {
        var w: nat, b: nat :| p <= b && InPass(r, i, w, b, m);
        assert IsPassing(r, w, n - 1, i);
        if step == Finish(w) {
          forall k: nat | k < c.actions[i]
            ensures TriedIn(r, w, b, m, k)
          {
            PassTries(c, r, i, w, b, m, k);
          }
          assert FullPass(c, r, i, w, b, m);
        } else {
          assert IsPassing(r, w, n, i);
          assert InPass(r, i, w, b, n);
        }
      } else {
        var w: nat, b: nat, e: nat :| p <= b && e < n - 1 && FullPass(c, r, i, w, b, e);
      }
    }
  }

  /**
    When a worker exits, all actions of every instance that ever was to be scheduled have been tried
    in one pass that began after that, and the pass has ended.
    */
  lemma AllTriedAtExit(c: Setup, r: Run, i: nat, p: nat, n: nat)
    requires IsRun(c, r) && p <= n < |r.steps| && r.steps[n].Exit? && PushedAt(r, p, i)
    ensures exists w: nat, b: nat, e: nat :: p <= b && e < n && FullPass(c, r, i, w, b, e)
  {
    AlwaysServed(c, r, i, p, n);
    RunKeepsInv(c, r, n);
    assert Follows(c, r, n);
    if exists w: nat, b: nat :: p <= b && InPass(r, i, w, b, n) {
      var w: nat, b: nat :| p <= b && InPass(r, i, w, b, n);
      assert IsPassing(r, w, n, i);
      NoPasses(r.states[n].workers, w);
      assert false;
    }
  }

  // ----- changes and the actions that depend on them

  /** Action `k` of instance `j` depends on instance `x`, and comes before the given place of the loops. */
  ghost predicate DependsBefore(watched: map<(nat, nat), set<nat>>, i: nat, k: nat, done: set<nat>, j: nat, h: nat,
      x: nat) {
    && (j, h) in watched && x in watched[(j, h)]
    && (j < i || (j == i && (h < k || (h == k && x in done))))
  }

  ghost predicate LinksAre(watched: map<(nat, nat), set<nat>>, i: nat, k: nat, done: set<nat>, linked: seq<seq<nat>>) {
    forall x: nat, j: nat :: x < |linked| ==>
      (j in linked[x] <==> exists h: nat :: DependsBefore(watched, i, k, done, j, h, x))
  }

  /** Links to every instance the instances with an action whose precondition depends on it. */
  method ComputeDependentInstances(actions: seq<nat>, watched: map<(nat, nat), set<nat>>)
    returns (linked: seq<seq<nat>>)
    requires forall i: nat, k: nat :: (i, k) in watched <==> i < |actions| && k < actions[i]
    requires forall i: nat, k: nat, x :: (i, k) in watched && x in watched[(i, k)] ==> x < |actions|
    ensures ValidSetup(Setup(actions, linked, watched)) && LinksCover(Setup(actions, linked, watched))
    ensures forall x: nat, j: nat :: x < |linked| ==>
      (j in linked[x] <==> exists h: nat :: (j, h) in watched && x in watched[(j, h)])
  {
    hide LinksAre;
    linked := seq(|actions|, _ => []);
    NoLinks(watched, linked);
    var i: nat := 0;
    while i < |actions|
      invariant i <= |actions| == |linked| && LinksAre(watched, i, 0, {}, linked)
    {
      var k: nat := 0;
      while k < actions[i]
        invariant k <= actions[i] && |linked| == |actions| && LinksAre(watched, i, k, {}, linked)
      {
        var rest := watched[(i, k)];
        assert watched[(i, k)] - rest == {};
        while rest != {}
          invariant rest <= watched[(i, k)] && |linked| == |actions|
          invariant LinksAre(watched, i, k, watched[(i, k)] - rest, linked)
          decreases |rest|
        {
          var x :| x in rest;
          LinkMore(watched, i, k, watched[(i, k)] - rest, linked, x);
          assert watched[(i, k)] - (rest - {x}) == watched[(i, k)] - rest + {x};
          rest := rest - {x};
          if i !in linked[x] {
            linked := linked[x := linked[x] + [i]];
          }
        }
        assert watched[(i, k)] - rest == watched[(i, k)];
        LinksNext(watched, i, k, linked);
        k := k + 1;
      }
      LinksNextInstance(watched, i, k, linked);
      i := i + 1;
    }
    LinksEnd(actions, watched, linked);
  }

  lemma NoLinks(watched: map<(nat, nat), set<nat>>, linked: seq<seq<nat>>)
    requires forall x :: 0 <= x < |linked| ==> linked[x] == []
    ensures LinksAre(watched, 0, 0, {}, linked)
  {
  }

  lemma LinkMore(watched: map<(nat, nat), set<nat>>, i: nat, k: nat, done: set<nat>, linked: seq<seq<nat>>, x: nat)
    requires LinksAre(watched, i, k, done, linked) && (i, k) in watched && x in watched[(i, k)] && x < |linked|
    ensures LinksAre(watched, i, k, done + {x}, if i in linked[x] then linked else linked[x := linked[x] + [i]])
  {
    var linked' := if i in linked[x] then linked else linked[x := linked[x] + [i]];
    forall y: nat, j: nat | y < |linked|
      ensures j in linked'[y] <==> exists h: nat :: DependsBefore(watched, i, k, done + {x}, j, h, y)
    {
      if y == x && j == i {
        assert DependsBefore(watched, i, k, done + {x}, i, k, x);
      } else {
        assert forall h: nat ::
          DependsBefore(watched, i, k, done + {x}, j, h, y) <==> DependsBefore(watched, i, k, done, j, h, y);
      }
    }
  }

  lemma LinksNext(watched: map<(nat, nat), set<nat>>, i: nat, k: nat, linked: seq<seq<nat>>)
    requires (i, k) in watched && LinksAre(watched, i, k, watched[(i, k)], linked)
    ensures LinksAre(watched, i, k + 1, {}, linked)
  {
    var n := k + 1;
    forall x: nat, j: nat | x < |linked|
      ensures j in linked[x] <==> exists h: nat :: DependsBefore(watched, i, n, {}, j, h, x)
    {
      assert forall h: nat ::
        DependsBefore(watched, i, k, watched[(i, k)], j, h, x) <==> DependsBefore(watched, i, n, {}, j, h, x);
    }
  }

  lemma LinksNextInstance(watched: map<(nat, nat), set<nat>>, i: nat, k: nat, linked: seq<seq<nat>>)
    requires LinksAre(watched, i, k, {}, linked) && forall h: nat :: (i, h) in watched ==> h < k
    ensures LinksAre(watched, i + 1, 0, {}, linked)
  {
    var n := i + 1;
    forall x: nat, j: nat | x < |linked|
      ensures j in linked[x] <==> exists h: nat :: DependsBefore(watched, n, 0, {}, j, h, x)
    {
      assert forall h: nat ::
        DependsBefore(watched, i, k, {}, j, h, x) <==> DependsBefore(watched, n, 0, {}, j, h, x);
    }
  }

  lemma LinksEnd(actions: seq<nat>, watched: map<(nat, nat), set<nat>>, linked: seq<seq<nat>>)
    requires LinksAre(watched, |actions|, 0, {}, linked) && |linked| == |actions|
    requires forall i: nat, k: nat :: (i, k) in watched ==> i < |actions|
    ensures ValidSetup(Setup(actions, linked, watched)) && LinksCover(Setup(actions, linked, watched))
    ensures forall x: nat, j: nat :: x < |linked| ==>
      (j in linked[x] <==> exists h: nat :: (j, h) in watched && x in watched[(j, h)])
  {
    forall x: nat, j: nat | x < |linked|
      ensures j in linked[x] <==> exists h: nat :: (j, h) in watched && x in watched[(j, h)]
    {
      assert forall h: nat ::
        DependsBefore(watched, |actions|, 0, {}, j, h, x) <==> (j, h) in watched && x in watched[(j, h)];
    }
    forall x, k | 0 <= x < |linked| && 0 <= k < |linked[x]|
      ensures linked[x][k] < |actions|
    {
      assert linked[x][k] in linked[x];
    }
  }

  /** Whatever the precondition of an action depends on is its own instance, or has that one linked to it. */
  ghost predicate LinksCover(c: Setup) {
    forall i: nat, k: nat, x: nat :: (i, k) in c.watched && x in c.watched[(i, k)] && x < |c.linked| ==>
        i == x || i in c.linked[x]
  }

  /** At step `m` action `k` of instance `i` is tried. */
  ghost predicate Tries(r: Run, m: nat, i: nat, k: nat)
    requires |r.states| == |r.steps| + 1
  {
    && m < |r.steps| && r.steps[m].Try? && IsPassing(r, r.steps[m].w, m, i)
    && r.states[m].workers[r.steps[m].w].tried == k
  }

  /** At step `m` an instance changes that the precondition of action `k` of instance `i` depends on. */
  ghost predicate Touches(c: Setup, r: Run, m: nat, i: nat, k: nat)
    requires |r.states| == |r.steps| + 1
  {
    m < |r.steps| && r.steps[m].Change? && (i, k) in c.watched && r.steps[m].instance in c.watched[(i, k)]
  }

  /** Worker `w` still has to push instance `i`. */
  ghost predicate Owes(r: Run, m: nat, w: nat, i: nat)
    requires m < |r.states|
  {
    w < |r.states[m].workers| && r.states[m].workers[w].Passing? && i in r.states[m].workers[w].owes
  }

  /** What a worker has to push is pushed before any worker exits. */
  lemma {:induction false} OwedIsPushed(c: Setup, r: Run, m: nat, w: nat, i: nat, n: nat) returns (p: nat)
    requires IsRun(c, r) && m <= n < |r.steps| && Owes(r, m, w, i) && r.steps[n].Exit?
    ensures m < p <= n && PushedAt(r, p, i)
    decreases n - m
  {
    hide Inv, ValidSetup;
    assert Follows(c, r, m);
    if m == n {
      RunKeepsInv(c, r, n);
      assert r.states[n].pending == Passes(r.states[n].workers) by { PendingIs(c, r.states[n]); }
      NoPasses(r.states[n].workers, w);
      assert false;
    }
    var worker := r.states[m].workers[w];
    if r.steps[m] == Push(w) && worker.owes[0] == i {
      assert i in r.states[m + 1].schedule;
      p := m + 1;
    } else {
      if r.steps[m] == Push(w) {
        assert worker.owes == [worker.owes[0]] + worker.owes[1..];
      }
      assert Owes(r, m + 1, w, i);
      p := OwedIsPushed(c, r, m + 1, w, i, n);
    }
  }

  lemma PendingIs(c: Setup, s: State)
    requires Inv(c, s)
    ensures s.pending == Passes(s.workers)
  {
  }

  /** The last step before step `n` that touches the action, if there is one. */
  lemma {:induction false} LastTouch(c: Setup, r: Run, i: nat, k: nat, n: nat) returns (found: bool, m: nat)
    requires |r.states| == |r.steps| + 1 && n <= |r.steps|
    ensures found ==> m < n && Touches(c, r, m, i, k) && forall h: nat :: m < h < n ==> !Touches(c, r, h, i, k)
    ensures !found ==> forall h: nat :: h < n ==> !Touches(c, r, h, i, k)
  {
    if n == 0 {
      found, m := false, 0;
    } else if Touches(c, r, n - 1, i, k) {
      found, m := true, n - 1;
    } else {
      found, m := LastTouch(c, r, i, k, n - 1);
    }
  }

  /** After a change, the instances of the actions that depend on it are on the schedule again. */
  lemma TouchIsPushed(c: Setup, r: Run, i: nat, k: nat, m: nat, n: nat) returns (p: nat)
    requires IsRun(c, r) && LinksCover(c) && m < n < |r.steps| && r.steps[n].Exit? && Touches(c, r, m, i, k)
    ensures m < p <= n && PushedAt(r, p, i)
  {
    hide Inv, ValidSetup;
    assert Follows(c, r, m);
    var x := r.steps[m].instance;
    assert i == x || i in c.linked[x];
    assert i in [x] + c.linked[x];
    assert Owes(r, m + 1, r.steps[m].w, i);
    p := OwedIsPushed(c, r, m + 1, r.steps[m].w, i, n);
  }

  /**
    When a worker exits, every action of every instance has been tried, and nothing that its precondition
    depends on has changed since: none is enabled that was not when it was tried last.
    */
  lemma NothingMissed(c: Setup, r: Run, i: nat, k: nat, n: nat)
    requires IsRun(c, r) && LinksCover(c) && i < |c.actions| && k < c.actions[i]
    requires PushedAt(r, 0, i) && n < |r.steps| && r.steps[n].Exit?
    ensures exists m: nat :: m < n && Tries(r, m, i, k) && forall h: nat :: m < h < n ==> !Touches(c, r, h, i, k)
  {
    hide Inv, ValidSetup, Touches, LinksCover, Follows, InPass;
    var found, last := LastTouch(c, r, i, k, n);
    var p: nat := 0;
    if found {
      p := TouchIsPushed(c, r, i, k, last, n);
    }
    AllTriedAtExit(c, r, i, p, n);
    var w: nat, b: nat, e: nat :| p <= b && e < n && FullPass(c, r, i, w, b, e);
    assert TriedIn(r, w, b, e, k);
    var m: nat :| b < m < e && m < |r.steps| && r.steps[m] == Try(w) && w < |r.states[m].workers|
                  && r.states[m].workers[w].Passing? && r.states[m].workers[w].tried == k;
    assert Tries(r, m, i, k) by { PassIsOn(r, i, w, b, e, m); }
  }

  lemma PassIsOn(r: Run, i: nat, w: nat, b: nat, e: nat, m: nat)
    requires |r.states| == |r.steps| + 1 && InPass(r, i, w, b, e) && b < m <= e
    ensures IsPassing(r, w, m, i)
  {
  }
}
