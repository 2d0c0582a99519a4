/**
  Actions and reactions, how their immutable phases end, and which bodies are due then: the activations
  in the order in which they are made, and the paths that lead to them.
  */
module ActivationOrders {
  import opened Stacks

  // ----- programs

  /** A deferred body: the shape of its frame, and what it leaves in its locals and above the stack. */
  datatype Body = Body(id: int, inputs: nat, locals: nat, results: seq<int>, scratch: seq<int>)

  type Slot = Word<Body>

  /** An action or reaction: the locals as its immutable phase leaves them, and how it ends. */
  datatype Callable = Callable(locals: seq<Slot>, end: End)

  datatype End =
    | Done
    | Activate(calls: seq<PortCall>, id: int, results: seq<int>, scratch: seq<int>)

  datatype PortCall = PortCall(args: seq<Slot>, bound: seq<Binding>)

  /** A reaction bound to a port; an array of reactions also gets its index. */
  datatype Binding = Binding(index: Index, instance: Slot, reaction: Callable)

  datatype Index = NoIndex | Index(n: int)

  function IndexWords(i: Index): seq<Slot> {
    if i.NoIndex? then [] else [Value(i.n)]
  }

  function Inputs(call: PortCall, b: Binding): seq<Slot> {
    IndexWords(b.index) + [b.instance] + call.args
  }

  // ----- what should happen

  /** One execution of a body, with the arguments and the locals that it finds in its frame. */
  datatype Run = Run(id: int, inputs: seq<Slot>, locals: seq<Slot>)

  /** The activations of a callable, in the order in which they are made. */
  ghost function Activated(c: Callable, inputs: seq<Slot>): seq<Run>
    decreases c, 0
  {
    match c.end
    case Done => []
    case Activate(calls, id, _, _) => [Run(id, inputs, c.locals)] + CallsActivated(calls, |calls|)
  }

  ghost function CallsActivated(calls: seq<PortCall>, n: nat): seq<Run>
    requires n <= |calls|
    decreases calls, n
  {
    if n == 0 then [] else CallsActivated(calls, n - 1) + CallActivated(calls[n - 1], |calls[n - 1].bound|)
  }

  ghost function CallActivated(call: PortCall, n: nat): seq<Run>
    requires n <= |call.bound|
    decreases call, n
  {
    if n == 0 then []
    else CallActivated(call, n - 1) + Activated(call.bound[n - 1].reaction, Inputs(call, call.bound[n - 1]))
  }

  ghost function Reversed<T>(s: seq<T>): (r: seq<T>)
    ensures |r| == |s|
    ensures forall i :: 0 <= i < |s| ==> r[i] == s[|s| - 1 - i]
  {
    seq(|s|, i requires 0 <= i < |s| => s[|s| - 1 - i])
  }

  // ----- the paths to activations

  /** The binding of a port call that is followed. */
  datatype Hop = Hop(call: nat, binding: nat)

  ghost predicate IsHop(c: Callable, h: Hop) {
    c.end.Activate? && h.call < |c.end.calls| && h.binding < |c.end.calls[h.call].bound|
  }

  ghost predicate IsPath(c: Callable, path: seq<Hop>)
    decreases path
  {
    path == [] || (IsHop(c, path[0]) && IsPath(Follow(c, path[0]).reaction, path[1..]))
  }

  ghost function Follow(c: Callable, h: Hop): Binding
    requires IsHop(c, h)
  {
    c.end.calls[h.call].bound[h.binding]
  }

  /** The callable that a path leads to. */
  ghost function At(c: Callable, path: seq<Hop>): Callable
    requires IsPath(c, path)
    decreases path
  {
    if path == [] then c else At(Follow(c, path[0]).reaction, path[1..])
  }

  /** A path to a callable that activates. */
  ghost predicate IsActivation(c: Callable, path: seq<Hop>) {
    IsPath(c, path) && At(c, path).end.Activate?
  }

  /** One path is made before another: it leads to a caller of the other, or goes through an earlier hop. */
  ghost predicate Before(p: seq<Hop>, q: seq<Hop>)
    decreases p
  {
    q != [] && (p == [] || Earlier(p[0], q[0]) || (p[0] == q[0] && Before(p[1..], q[1..])))
  }

  ghost predicate Earlier(g: Hop, h: Hop) { g.call < h.call || (g.call == h.call && g.binding < h.binding) }

  /** What the callable at the end of a path is given: its index, if any, its instance and the arguments. */
  ghost predicate IsGiven(c: Callable, inputs: seq<Slot>, path: seq<Hop>, given: seq<Slot>)
    requires IsPath(c, path)
    decreases path
  {
    if path == [] then given == inputs
    else
      var b, call := Follow(c, path[0]), c.end.calls[path[0].call];
      if |path| > 1 then IsGiven(b.reaction, [], path[1..], given)
      else
        var k := if b.index.Index? then 1 else 0;
        && |given| == k + 1 + |call.args|
        && (b.index.Index? ==> given[0] == Value(b.index.n))
        && given[k] == b.instance && given[k + 1..] == call.args
  }

  /** The body of the callable at the end of a path, run with what that one was given and its locals. */
  ghost predicate IsRunAt(c: Callable, inputs: seq<Slot>, path: seq<Hop>, run: Run) {
    && IsActivation(c, path) && run.id == At(c, path).end.id && run.locals == At(c, path).locals
    && IsGiven(c, inputs, path, run.inputs)
  }

  /** Exactly one run for each path to an activation, in the order in which these are made. */
  ghost predicate InOrder(c: Callable, inputs: seq<Slot>, paths: seq<seq<Hop>>, runs: seq<Run>) {
    && |runs| == |paths| && (forall p :: p in paths <==> IsActivation(c, p))
    && (forall i, j :: 0 <= i < j < |paths| ==> Before(paths[i], paths[j]))
    && forall i :: 0 <= i < |paths| ==> IsRunAt(c, inputs, paths[i], runs[i])
  }

  /** The activations below the first hops up to, but not including, binding `m` of call `n`. */
  ghost predicate IsBelow(c: Callable, path: seq<Hop>, n: nat, m: nat) {
    path != [] && Earlier(path[0], Hop(n, m)) && IsActivation(c, path)
  }

  ghost predicate PartInOrder(c: Callable, paths: seq<seq<Hop>>, runs: seq<Run>, n: nat, m: nat) {
    && |runs| == |paths| && (forall p :: p in paths <==> IsBelow(c, p, n, m))
    && (forall i, j :: 0 <= i < j < |paths| ==> Before(paths[i], paths[j]))
    && forall i :: 0 <= i < |paths| ==> IsRunAt(c, [], paths[i], runs[i])
  }

  ghost function Prefixed(h: Hop, paths: seq<seq<Hop>>): (r: seq<seq<Hop>>)
    ensures |r| == |paths| && forall i :: 0 <= i < |paths| ==> r[i] == [h] + paths[i]
  {
    seq(|paths|, i requires 0 <= i < |paths| => [h] + paths[i])
  }

  /** The paths below one hop, from those of the callable that it leads to. */
  lemma BelowHop(c: Callable, h: Hop, p: seq<Hop>)
    requires IsHop(c, h)
    ensures IsActivation(c, [h] + p) <==> IsActivation(Follow(c, h).reaction, p)
  {
    assert ([h] + p)[1..] == p;
  }

  /** What a callable is given does not depend on what its caller was. */
  lemma RunBelowHop(c: Callable, h: Hop, p: seq<Hop>, run: Run)
    requires IsHop(c, h)
    requires IsRunAt(Follow(c, h).reaction, Inputs(c.end.calls[h.call], Follow(c, h)), p, run)
    ensures IsRunAt(c, [], [h] + p, run)
  {
    BelowHop(c, h, p);
    assert ([h] + p)[1..] == p;
  }

  /** The paths through one more binding come after those before it. */
  lemma OneMoreHop(c: Callable, first: seq<seq<Hop>>, runs: seq<Run>, n: nat, m: nat, sub: seq<seq<Hop>>,
                   more: seq<Run>)
    requires IsHop(c, Hop(n, m)) && PartInOrder(c, first, runs, n, m)
    requires InOrder(Follow(c, Hop(n, m)).reaction, Inputs(c.end.calls[n], Follow(c, Hop(n, m))), sub, more)
    ensures PartInOrder(c, first + Prefixed(Hop(n, m), sub), runs + more, n, m + 1)
  {
    hide IsActivation, IsRunAt;
    var h := Hop(n, m);
    var b := Follow(c, h);
    var paths := first + Prefixed(h, sub);
    forall p
      ensures p in paths <==> IsBelow(c, p, n, m + 1)
    {
      HopIsNext(c, first, sub, n, m, p);
    }
    forall i, j | 0 <= i < j < |paths|
      ensures Before(paths[i], paths[j])
    {
      if i < |first| <= j {
        assert paths[i] in first;
      } else if |first| <= i {
        assert paths[i][1..] == sub[i - |first|] && paths[j][1..] == sub[j - |first|];
      }
    }
    forall i | 0 <= i < |paths|
      ensures IsRunAt(c, [], paths[i], (runs + more)[i])
    {
      if |first| <= i {
        RunBelowHop(c, h, sub[i - |first|], more[i - |first|]);
      }
    }
  }

  lemma HopIsNext(c: Callable, first: seq<seq<Hop>>, sub: seq<seq<Hop>>, n: nat, m: nat, p: seq<Hop>)
    requires IsHop(c, Hop(n, m)) && forall q :: q in first <==> IsBelow(c, q, n, m)
    requires forall q :: q in sub <==> IsActivation(Follow(c, Hop(n, m)).reaction, q)
    ensures p in first + Prefixed(Hop(n, m), sub) <==> IsBelow(c, p, n, m + 1)
  {
    hide IsActivation;
    var h := Hop(n, m);
    var below := Prefixed(h, sub);
    if p in below {
      var i :| 0 <= i < |below| && below[i] == p;
      assert sub[i] in sub;
      BelowHop(c, h, sub[i]);
    }
    if p != [] && p[0] == h && IsActivation(c, p) {
      assert p == [h] + p[1..];
      BelowHop(c, h, p[1..]);
      var i :| 0 <= i < |sub| && sub[i] == p[1..];
      assert below[i] == p;
    }
  }

  /** The last binding of a call comes right before the first one of the next call. */
  lemma NextCallBegins(c: Callable, paths: seq<seq<Hop>>, runs: seq<Run>, n: nat)
    requires c.end.Activate? && n < |c.end.calls|
    requires PartInOrder(c, paths, runs, n, |c.end.calls[n].bound|)
    ensures PartInOrder(c, paths, runs, n + 1, 0)
  {
    hide IsRunAt;
    forall p
      ensures IsBelow(c, p, n, |c.end.calls[n].bound|) <==> IsBelow(c, p, n + 1, 0)
    {
    }
  }

  lemma {:induction false} Upto(c: Callable, n: nat, m: nat) returns (paths: seq<seq<Hop>>)
    requires c.end.Activate? && n < |c.end.calls| && m <= |c.end.calls[n].bound|
    ensures PartInOrder(c, paths, CallsActivated(c.end.calls, n) + CallActivated(c.end.calls[n], m), n, m)
    decreases c, 0, n, m
  {
    hide PartInOrder, InOrder;
    var calls := c.end.calls;
    if m > 0 {
      var b := Follow(c, Hop(n, m - 1));
      var first := Upto(c, n, m - 1);
      var sub := ActivationsInOrder(b.reaction, Inputs(calls[n], b));
      var runs := CallsActivated(calls, n) + CallActivated(calls[n], m - 1);
      OneMoreHop(c, first, runs, n, m - 1, sub, Activated(b.reaction, Inputs(calls[n], b)));
      paths := first + Prefixed(Hop(n, m - 1), sub);
      assert CallsActivated(calls, n) + CallActivated(calls[n], m) == runs + Activated(b.reaction, Inputs(calls[n], b));
    } else if n > 0 {
      paths := Upto(c, n - 1, |calls[n - 1].bound|);
      NextCallBegins(c, paths, CallsActivated(calls, n), n - 1);
      assert CallsActivated(calls, n) + CallActivated(calls[n], 0) == CallsActivated(calls, n);
    } else {
      paths := [];
      assert CallsActivated(calls, 0) + CallActivated(calls[0], 0) == [];
      NothingEarlier(c);
    }
  }

  lemma NothingEarlier(c: Callable)
    ensures PartInOrder(c, [], [], 0, 0)
  {
  }

  /** The own activation of a callable comes before those of all that it calls. */
  lemma OwnComesFirst(c: Callable, inputs: seq<Slot>, paths: seq<seq<Hop>>, runs: seq<Run>, n: nat)
    requires c.end.Activate? && n == |c.end.calls| && PartInOrder(c, paths, runs, n, 0)
    ensures InOrder(c, inputs, [[]] + paths, [Run(c.end.id, inputs, c.locals)] + runs)
  {
    var all := [[]] + paths;
    forall p
      ensures p in all <==> IsActivation(c, p)
    {
      assert p in all <==> p == [] || p in paths;
    }
    hide IsActivation, IsBelow, Before;
    forall i, j | 0 <= i < j < |all|
      ensures Before(all[i], all[j])
    {
      if i == 0 {
        assert all[j] in paths;
        FirstIsBefore(c, all[j], n);
      }
    }
    forall i | 0 < i < |all|
      ensures IsRunAt(c, inputs, all[i], ([Run(c.end.id, inputs, c.locals)] + runs)[i])
    {
      assert all[i] in paths;
      FirstIsBefore(c, all[i], n);
    }
    assert IsRunAt(c, inputs, all[0], Run(c.end.id, inputs, c.locals)) by { OwnRun(c, inputs); }
  }

  lemma FirstIsBefore(c: Callable, p: seq<Hop>, n: nat)
    requires IsBelow(c, p, n, 0)
    ensures p != [] && Before([], p)
  {
  }

  lemma OwnRun(c: Callable, inputs: seq<Slot>)
    requires c.end.Activate?
    ensures IsRunAt(c, inputs, [], Run(c.end.id, inputs, c.locals))
  {
  }

  /**
    The activations of a callable are those at the ends of the paths through its port calls and their
    bindings, each one once and with what is given to it there.
    */
  lemma {:induction false} ActivationsInOrder(c: Callable, inputs: seq<Slot>) returns (paths: seq<seq<Hop>>)
    ensures InOrder(c, inputs, paths, Activated(c, inputs))
    decreases c, 1, 0, 0
  {
    hide PartInOrder;
    if c.end.Done? {
      paths := [];
    } else {
      var calls, rest := c.end.calls, [];
      if calls == [] {
        NothingEarlier(c);
      } else {
        var n := |calls| - 1;
        rest := Upto(c, n, |calls[n].bound|);
        NextCallBegins(c, rest, CallsActivated(calls, |calls|), n);
      }
      OwnComesFirst(c, inputs, rest, CallsActivated(calls, |calls|), |calls|);
      paths := [[]] + rest;
    }
  }

  // ----- the order in which the bodies run

  /** One run for each path to an activation, those of later paths first. */
  ghost predicate IsLog(c: Callable, inputs: seq<Slot>, runs: seq<Run>) {
    exists paths :: LogsPaths(c, inputs, runs, paths)
  }

  ghost predicate LogsPaths(c: Callable, inputs: seq<Slot>, runs: seq<Run>, paths: seq<seq<Hop>>) {
    && |runs| == |paths| && (forall p :: p in paths <==> IsActivation(c, p)) && LaterFirst(paths)
    && forall i :: 0 <= i < |paths| ==> IsRunAt(c, inputs, paths[i], runs[i])
  }

  ghost predicate LaterFirst(paths: seq<seq<Hop>>) {
    forall i, j :: 0 <= i < j < |paths| ==> Before(paths[j], paths[i])
  }

  lemma ReversedIsLog(c: Callable, inputs: seq<Slot>)
    ensures IsLog(c, inputs, Reversed(Activated(c, inputs)))
  {
    hide IsActivation, IsRunAt, Before, Activated;
    var paths := ActivationsInOrder(c, inputs);
    var last := Reversed(paths);
    forall p
      ensures p in last <==> p in paths
    {
      if p in paths {
        var i :| 0 <= i < |paths| && paths[i] == p;
        assert last[|paths| - 1 - i] == p;
      }
    }
    assert LogsPaths(c, inputs, Reversed(Activated(c, inputs)), last);
  }

  lemma {:induction false} NotBeforeItself(p: seq<Hop>)
    ensures !Before(p, p)
    decreases p
  {
    if p != [] {
      NotBeforeItself(p[1..]);
    }
  }

  lemma {:induction false} BeforeIsTransitive(p: seq<Hop>, q: seq<Hop>, r: seq<Hop>)
    requires Before(p, q) && Before(q, r)
    ensures Before(p, r)
    decreases p
  {
    if p != [] && p[0] == q[0] == r[0] {
      BeforeIsTransitive(p[1..], q[1..], r[1..]);
    }
  }

  /** There is only one order. */
  lemma {:induction false} OneOrder(ps: seq<seq<Hop>>, qs: seq<seq<Hop>>)
    requires LaterFirst(ps) && LaterFirst(qs) && forall p :: p in ps <==> p in qs
    ensures ps == qs
    decreases |ps|
  {
    hide Before;
    if ps == [] || qs == [] {
      if ps != [] { FirstIsIn(ps); }
      if qs != [] { FirstIsIn(qs); }
    } else {
      FirstIsLast(ps, qs);
      RestOf(ps);
      RestOf(qs);
      OneOrder(ps[1..], qs[1..]);
      assert ps == [ps[0]] + ps[1..] && qs == [qs[0]] + qs[1..];
    }
  }

  lemma FirstIsIn(ps: seq<seq<Hop>>)
    requires ps != []
    ensures exists p :: p in ps
  {
    assert ps[0] in ps;
  }

  lemma RestOf(ps: seq<seq<Hop>>)
    requires ps != [] && LaterFirst(ps)
    ensures LaterFirst(ps[1..]) && forall p :: p in ps[1..] <==> p in ps && p != ps[0]
  {
    hide Before;
    NotBeforeItself(ps[0]);
    forall p | p in ps && p != ps[0]
      ensures p in ps[1..]
    {
      var i :| 0 <= i < |ps| && ps[i] == p;
      assert ps[1..][i - 1] == p;
    }
  }

  lemma FirstIsLast(ps: seq<seq<Hop>>, qs: seq<seq<Hop>>)
    requires ps != [] && qs != [] && LaterFirst(ps) && LaterFirst(qs) && forall p :: p in ps <==> p in qs
    ensures ps[0] == qs[0]
  {
    hide Before;
    assert ps[0] in qs && qs[0] in ps;
    var i :| 0 <= i < |ps| && ps[i] == qs[0];
    var j :| 0 <= j < |qs| && qs[j] == ps[0];
    if i > 0 && j > 0 {
      BeforeIsTransitive(ps[i], ps[0], qs[0]);
      NotBeforeItself(qs[0]);
    }
  }

  /** What is due, and in which order, is determined by the paths alone. */
  lemma LogIsUnique(c: Callable, inputs: seq<Slot>, log: seq<Run>, other: seq<Run>)
    requires IsLog(c, inputs, log) && IsLog(c, inputs, other)
    ensures log == other
  {
    hide IsActivation, Before;
    var ps :| LogsPaths(c, inputs, log, ps);
    var qs :| LogsPaths(c, inputs, other, qs);
    OneOrder(ps, qs);
    forall i | 0 <= i < |log|
      ensures log[i] == other[i]
    {
      OneRunAt(c, inputs, ps[i], log[i], other[i]);
    }
  }

  lemma OneRunAt(c: Callable, inputs: seq<Slot>, path: seq<Hop>, run: Run, other: Run)
    requires IsRunAt(c, inputs, path, run) && IsRunAt(c, inputs, path, other)
    ensures run == other
  {
    OneGiven(c, inputs, path, run.inputs, other.inputs);
  }

  lemma {:induction false} OneGiven(c: Callable, inputs: seq<Slot>, path: seq<Hop>, given: seq<Slot>, other: seq<Slot>)
    requires IsPath(c, path) && IsGiven(c, inputs, path, given) && IsGiven(c, inputs, path, other)
    ensures given == other
    decreases path
  {
    if path != [] {
      var b := Follow(c, path[0]);
      if |path| > 1 {
        OneGiven(b.reaction, [], path[1..], given, other);
      } else {
        var k := if b.index.Index? then 1 else 0;
        assert given == given[..k] + [given[k]] + given[k + 1..];
        assert other == other[..k] + [other[k]] + other[k + 1..];
      }
    }
  }
}
