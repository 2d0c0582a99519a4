/**
  Running an action.  The immutable phase of an action or reaction may end by activating: it
  defers a body, and calls push ports whose bound reactions run at once, each in a frame of its
  own on top of the stack.  Frames stay where they are; the deferred ones are linked through the
  slots that hold the saved base pointers, and the bodies run at the end, from the last frame back.

  The stack alignment is the size of a pointer, so everything that is pushed takes whole words.
  */
module Activations {
  import opened ActivationOrders
  import opened Stacks

  // ----- stack space

  /** Words above its saved base pointer that a callable and its reactions leave on the stack. */
  ghost function Space(c: Callable): nat
    decreases c, 0
  {
    |c.locals| + match c.end case Done => 0 case Activate(calls, _, _, _) => CallsSpace(calls, |calls|)
  }

  ghost function CallsSpace(calls: seq<PortCall>, n: nat): nat
    requires n <= |calls|
    decreases calls, n
  {
    if n == 0 then 0 else CallsSpace(calls, n - 1) + CallSpace(calls[n - 1], |calls[n - 1].bound|)
  }

  ghost function CallSpace(call: PortCall, n: nat): nat
    requires n <= |call.bound|
    decreases call, n
  {
    if n == 0 then |call.args|
    else
      var b := call.bound[n - 1];
      CallSpace(call, n - 1) + |Inputs(call, b)| + 2 + Space(b.reaction)
  }

  lemma {:induction false} CallsSpaceGrows(calls: seq<PortCall>, n: nat, m: nat)
    requires n <= m <= |calls|
    ensures CallsSpace(calls, n) <= CallsSpace(calls, m)
  {
    if n < m { CallsSpaceGrows(calls, n, m - 1); }
  }

  lemma {:induction false} CallSpaceGrows(call: PortCall, n: nat, m: nat)
    requires n <= m <= |call.bound|
    ensures CallSpace(call, n) <= CallSpace(call, m)
  {
    if n < m { CallSpaceGrows(call, n, m - 1); }
  }

  lemma CallStarts(call: PortCall)
    ensures CallSpace(call, 0) == |call.args| && CallActivated(call, 0) == []
  {
  }

  lemma CallGoesOn(call: PortCall, i: nat)
    requires i < |call.bound|
    ensures var b := call.bound[i];
            && CallSpace(call, i + 1) == CallSpace(call, i) + |Inputs(call, b)| + 2 + Space(b.reaction)
            && CallActivated(call, i + 1) == CallActivated(call, i) + Activated(b.reaction, Inputs(call, b))
  {
  }

  lemma NoCalls(calls: seq<PortCall>)
    ensures CallsSpace(calls, 0) == 0 && CallsActivated(calls, 0) == []
  {
  }

  lemma NextCall(calls: seq<PortCall>, i: nat)
    requires i < |calls|
    ensures CallsSpace(calls, i + 1) == CallsSpace(calls, i) + CallSpace(calls[i], |calls[i].bound|)
    ensures CallsActivated(calls, i + 1) == CallsActivated(calls, i) + CallActivated(calls[i], |calls[i].bound|)
  {
  }

  // ----- the list of deferred frames

  /** A deferred frame: where its saved base pointer is, its body, and the run that is due. */
  datatype Deferred = Deferred(base: nat, body: Body, run: Run)

  ghost function Runs(fs: seq<Deferred>): (rs: seq<Run>)
    ensures |rs| == |fs| && forall i :: 0 <= i < |fs| ==> rs[i] == fs[i].run
  {
    seq(|fs|, i requires 0 <= i < |fs| => fs[i].run)
  }

  lemma RunsOfBoth(fs: seq<Deferred>, more: seq<Deferred>)
    ensures Runs(fs + more) == Runs(fs) + Runs(more)
  {
  }

  /** The arguments, the body and the locals of a deferred frame are in place. */
  ghost predicate FrameAt(s: seq<Slot>, f: Deferred) {
    var (b, n, k) := (f.base, |f.run.inputs|, |f.run.locals|);
    && n + 1 <= b && b + 1 + k <= |s|
    && f.body.id == f.run.id && f.body.inputs == n && f.body.locals == k
    && s[b - 1 - n..b - 1] == f.run.inputs
    && s[b - 1] == Code(f.body)
    && s[b + 1..b + 1 + k] == f.run.locals
  }

  /** `head` starts a list that runs through the frames `fs`, last frame first. */
  ghost predicate Chain(s: seq<Slot>, head: Slot, fs: seq<Deferred>)
    decreases |fs|
  {
    if fs == [] then head == Null
    else
      var f := fs[|fs| - 1];
      && head == Address(f.base)
      && FrameAt(s, f)
      && Chain(s[..f.base - 1 - |f.run.inputs|], s[f.base], fs[..|fs| - 1])
  }

  lemma ChainOfPrefix(s: seq<Slot>, longer: seq<Slot>, head: Slot, fs: seq<Deferred>)
    requires Chain(s, head, fs) && s <= longer
    ensures Chain(longer, head, fs)
  {
    if fs != [] {
      hide FrameAt;
      var f := fs[|fs| - 1];
      FrameOfPrefix(s, longer, f);
    }
  }

  lemma SliceOfPrefix<T>(s: seq<T>, longer: seq<T>, i: nat, j: nat)
    requires s <= longer && i <= j <= |s|
    ensures longer[i..j] == s[i..j]
  {
  }

  lemma FrameOfPrefix(s: seq<Slot>, longer: seq<Slot>, f: Deferred)
    requires FrameAt(s, f) && s <= longer
    ensures f.base < |s| && |f.run.inputs| + 1 <= f.base
    ensures FrameAt(longer, f) && longer[f.base] == s[f.base]
    ensures longer[..f.base - 1 - |f.run.inputs|] == s[..f.base - 1 - |f.run.inputs|]
  {
    var (b, n, k) := (f.base, |f.run.inputs|, |f.run.locals|);
    SliceOfPrefix(s, longer, b - 1 - n, b - 1);
    SliceOfPrefix(s, longer, b + 1, b + 1 + k);
    SliceOfPrefix(s, longer, 0, b - 1 - n);
  }

  lemma ChainEnds(s: seq<Slot>, head: Slot, fs: seq<Deferred>)
    requires Chain(s, head, fs)
    ensures head == Null <==> fs == []
  {
  }

  lemma FrameParts(s: seq<Slot>, f: Deferred)
    requires FrameAt(s, f)
    ensures var (b, n, k) := (f.base, f.body.inputs, f.body.locals);
            && n == |f.run.inputs| && n + 1 <= b && b + 1 + k <= |s|
            && s[b - 1] == Code(f.body)
            && f.run == Run(f.body.id, s[b - 1 - n..b - 1], s[b + 1..b + 1 + k])
  {
  }

  /** The last frame of a list: what unwinding it relies on. */
  lemma ChainLast(s: seq<Slot>, head: Slot, fs: seq<Deferred>)
    requires fs != [] && Chain(s, head, fs)
    ensures var f := fs[|fs| - 1];
            && head == Address(f.base) && FrameAt(s, f)
            && Chain(s[..f.base], s[f.base], fs[..|fs| - 1])
  {
    var (f, rest) := (fs[|fs| - 1], fs[..|fs| - 1]);
    var start := f.base - 1 - |f.run.inputs|;
    assert Chain(s[..start], s[f.base], rest);
    hide Chain;
    assert s[..start] == s[..f.base][..start];
    ChainOfPrefix(s[..start], s[..f.base], s[f.base], rest);
  }

  lemma FrontOf<T>(xs: seq<T>, ys: seq<T>, p: T, q: T, zs: seq<T>)
    ensures (xs + ys + [p, q] + zs)[..|xs|] == xs
    ensures (xs + ys + [p, q] + zs)[|xs|..|xs| + |ys|] == ys
  {
    var front, rest := xs + ys, [p, q] + zs;
    assert xs + ys + [p, q] + zs == front + rest;
    assert (front + rest)[..|xs|] == front[..|xs|] && (front + rest)[|xs|..|xs| + |ys|] == front[|xs|..];
  }

  lemma BackOf<T>(front: seq<T>, p: T, q: T, zs: seq<T>)
    ensures var all, n := front + [p, q] + zs, |front|;
            |all| == n + 2 + |zs| && all[n] == p && all[n + 1] == q && all[n + 2..n + 2 + |zs|] == zs
  {
  }

  lemma NewFrame(s: seq<Slot>, body: Body, head: Slot, run: Run)
    requires body.id == run.id && body.inputs == |run.inputs| && body.locals == |run.locals|
    ensures var base := |s| + |run.inputs| + 1;
            var longer := s + run.inputs + [Code(body), head] + run.locals;
            && FrameAt(longer, Deferred(base, body, run))
            && longer[base] == head && longer[..base - 1 - |run.inputs|] == s
  {
    FrontOf(s, run.inputs, Code(body), head, run.locals);
    BackOf(s + run.inputs, Code(body), head, run.locals);
  }

  lemma ChainGrows(s: seq<Slot>, head: Slot, fs: seq<Deferred>, body: Body, run: Run)
    requires Chain(s, head, fs)
    requires body.id == run.id && body.inputs == |run.inputs| && body.locals == |run.locals|
    ensures var base := |s| + |run.inputs| + 1;
            Chain(s + run.inputs + [Code(body), head] + run.locals, Address(base), fs + [Deferred(base, body, run)])
  {
    hide FrameAt;
    var f := Deferred(|s| + |run.inputs| + 1, body, run);
    NewFrame(s, body, head, run);
    assert (fs + [f])[..|fs|] == fs;
  }

  /** The first `i` locals have been set. */
  ghost function WithLocals(before: seq<Slot>, first: nat, locals: seq<Slot>, i: nat): (r: seq<Slot>)
    requires i <= |locals| && first + |locals| == |before|
    ensures |r| == |before|
  {
    before[..first] + locals[..i] + before[first + i..]
  }

  lemma SomeLocals(before: seq<Slot>, first: nat, locals: seq<Slot>)
    requires first + |locals| == |before|
    ensures WithLocals(before, first, locals, 0) == before
    ensures WithLocals(before, first, locals, |locals|) == before[..first] + locals
  {
  }

  lemma OneLocal(before: seq<Slot>, first: nat, locals: seq<Slot>, i: nat)
    requires i < |locals| && first + |locals| == |before|
    ensures WithLocals(before, first, locals, i)[first + i := locals[i]] == WithLocals(before, first, locals, i + 1)
  {
  }

  lemma DeferredWords(contents: seq<Slot>, left: seq<Slot>, code: Slot, head: Slot, right: seq<Slot>)
    requires |contents| == |left| + 2 + |right| && contents[..|left|] == left && contents[|left| + 2..] == right
    ensures contents[|left| + 1 := head][|left| := code] == left + [code, head] + right
  {
  }

  // ----- the machine

  class Executor {
    const stack: Stack<Body>
    var mutablePhase: Slot  // the base pointer of the last deferred frame
    var log: seq<Run>       // the bodies that have run

    ghost predicate Valid()
      reads this, stack
    {
      stack.Valid()
    }

    ghost function Contents(): seq<Slot>
      requires Valid()
      reads this, stack, stack.data
    {
      stack.Contents()
    }

    constructor (capacity: nat)
      ensures Valid() && fresh(stack) && fresh(stack.data) && stack.data.Length == capacity
      ensures Contents() == [] && stack.base == mutablePhase == Null && log == []
    {
      stack := new Stack<Body>(capacity);
      mutablePhase := Null;
      log := [];
    }

    /** What the immutable phase computes in its locals, which are the top of the stack. */
    method SetLocals(locals: seq<Slot>)
      requires Valid() && stack.base.Address? && |Contents()| == stack.base.index + 1 + |locals|
      modifies stack.data
      ensures Valid() && Contents() == old(Contents())[..stack.base.index + 1] + locals
    {
      hide WithLocals;
      var first := stack.base.index + 1;
      ghost var before := Contents();
      SomeLocals(before, first, locals);
      for i := 0 to |locals|
        invariant Valid() && Contents() == WithLocals(before, first, locals, i)
      {
        OneLocal(before, first, locals, i);
        stack.Write(first + i, locals[i]);
      }
    }

    /**
      The immutable phase of a callable whose frame is set up: what was `below`, the inputs, the
      instruction pointer, the saved base pointer and the cleared locals.
      */
    method Call(c: Callable, ghost below: seq<Slot>, ghost inputs: seq<Slot>, n: nat, ghost fs: seq<Deferred>)
      returns (ghost added: seq<Deferred>)
      requires Valid() && n == |inputs|
      requires |Contents()| == |below| + n + 2 + |c.locals| && below + inputs == Contents()[..|below| + n]
      requires stack.base == Address(|below| + n + 1)
      requires Chain(below, mutablePhase, fs)
      requires |below| + n + 2 + Space(c) <= stack.data.Length
      modifies this`mutablePhase, stack, stack.data
      ensures Valid() && stack.base == old(stack.base)
      ensures below + inputs <= Contents() && |below| + n + 2 <= |Contents()| <= |below| + n + 2 + Space(c)
      ensures added == [] ==> Contents()[|below| + n + 1] == old(Contents())[|below| + n + 1]
      ensures added != [] ==> added[0].base == |below| + n + 1 && Contents()[|below| + n + 1] == old(mutablePhase)
      ensures Runs(added) == Activated(c, inputs)
      ensures Chain(Contents(), mutablePhase, fs + added)
      decreases c, 0
    {
      hide Chain, CallsSpace, CallsActivated, CallActivated;
      SetLocals(c.locals);
      assert Contents()[..|below| + n] == below + inputs;
      assert Contents()[|below| + n + 2..] == c.locals;
      match c.end
      case Done =>
        added := [];
        assert fs + added == fs;
        ChainOfPrefix(below, Contents(), mutablePhase, fs);
      case Activate(calls, id, results, scratch) =>
        var body := Body(id, n, |c.locals|, results, scratch);
        ghost var f := Deferred(|below| + n + 1, body, Run(id, inputs, c.locals));
        Defer(body, below, f.run, fs);
        ghost var more := PushAll(calls, fs + [f]);
        added := [f] + more;
        assert fs + added == fs + [f] + more;
    }

    /** Puts the current frame at the head of the list and its body where the instruction pointer was. */
    method Defer(body: Body, ghost below: seq<Slot>, ghost run: Run, ghost fs: seq<Deferred>)
      requires Valid() && stack.base == Address(|below| + |run.inputs| + 1)
      requires body.id == run.id && body.inputs == |run.inputs| && body.locals == |run.locals|
      requires |Contents()| == |below| + |run.inputs| + 2 + |run.locals|
      requires below + run.inputs == Contents()[..|below| + |run.inputs|]
      requires Contents()[stack.base.index + 1..] == run.locals
      requires Chain(below, mutablePhase, fs)
      modifies this`mutablePhase, stack.data
      ensures Valid() && mutablePhase == stack.base && Contents()[stack.base.index] == old(mutablePhase)
      ensures below + run.inputs <= Contents() && |Contents()| == |old(Contents())|
      ensures Chain(Contents(), mutablePhase, fs + [Deferred(stack.base.index, body, run)])
    {
      hide Chain;
      ChainGrows(below, mutablePhase, fs, body, run);
      DeferredWords(Contents(), below + run.inputs, Code(body), mutablePhase, run.locals);
      stack.Write(stack.base.index, mutablePhase);
      stack.Write(stack.base.index - 1, Code(body));
      mutablePhase := stack.base;
      assert Contents() == below + run.inputs + [Code(body), old(mutablePhase)] + run.locals;
    }

    /** The port calls of an activation, in order. */
    method PushAll(calls: seq<PortCall>, ghost fs: seq<Deferred>) returns (ghost added: seq<Deferred>)
      requires Valid() && Chain(Contents(), mutablePhase, fs)
      requires |Contents()| + CallsSpace(calls, |calls|) <= stack.data.Length
      modifies this`mutablePhase, stack, stack.data
      ensures Valid() && stack.base == old(stack.base)
      ensures old(Contents()) <= Contents() && |Contents()| <= |old(Contents())| + CallsSpace(calls, |calls|)
      ensures Runs(added) == CallsActivated(calls, |calls|)
      ensures Chain(Contents(), mutablePhase, fs + added)
      decreases calls, 0
    {
      hide Chain, CallActivated, CallsActivated, CallsSpace, Runs, CallSpace;
      added := [];
      assert fs + added == fs;
      NoCalls(calls);
      for i := 0 to |calls|
        invariant Valid() && stack.base == old(stack.base)
        invariant old(Contents()) <= Contents() && |Contents()| <= |old(Contents())| + CallsSpace(calls, i)
        invariant Runs(added) == CallsActivated(calls, i)
        invariant Chain(Contents(), mutablePhase, fs + added)
      {
        CallsSpaceGrows(calls, i + 1, |calls|);
        NextCall(calls, i);
        ghost var more := Push(calls[i], fs + added);
        assert fs + added + more == fs + (added + more);
        RunsOfBoth(added, more);
        added := added + more;
      }
    }

    method PushArguments(args: seq<Slot>)
      requires Valid() && |Contents()| + |args| <= stack.data.Length
      modifies stack`top, stack.data
      ensures Valid() && Contents() == old(Contents()) + args
    {
      for i := 0 to |args|
        invariant Valid() && Contents() == old(Contents()) + args[..i]
      {
        stack.Push(args[i]);
      }
    }

    /** A push port call: runs every reaction bound to the port, in a frame of its own. */
    method Push(call: PortCall, ghost fs: seq<Deferred>) returns (ghost added: seq<Deferred>)
      requires Valid() && Chain(Contents(), mutablePhase, fs)
      requires |Contents()| + CallSpace(call, |call.bound|) <= stack.data.Length
      modifies this`mutablePhase, stack, stack.data
      ensures Valid() && stack.base == old(stack.base)
      ensures old(Contents()) <= Contents() && |Contents()| <= |old(Contents())| + CallSpace(call, |call.bound|)
      ensures Runs(added) == CallActivated(call, |call.bound|)
      ensures Chain(Contents(), mutablePhase, fs + added)
      decreases call, 1
    {
      hide Chain, Activated, Inputs, Space, CallSpace, CallActivated;
      CallStarts(call);
      CallSpaceGrows(call, 0, |call.bound|);
      var topBefore := stack.top;
      PushArguments(call.args);
      added := [];
      assert fs + added == fs;
      ChainOfPrefix(old(Contents()), Contents(), mutablePhase, fs);
      var base := stack.base;
      for i := 0 to |call.bound|
        invariant Valid() && stack.base == base
        invariant old(Contents()) + call.args <= Contents()
        invariant |Contents()| <= |old(Contents())| + CallSpace(call, i)
        invariant Runs(added) == CallActivated(call, i)
        invariant Chain(Contents(), mutablePhase, fs + added)
      {
        CallSpaceGrows(call, i + 1, |call.bound|);
        CallGoesOn(call, i);
        ghost var more := React(call, i, topBefore, fs + added);
        stack.base := base;
        assert fs + added + more == fs + (added + more);
        RunsOfBoth(added, more);
        added := added + more;
      }
    }

    /** Sets up the frame of one bound reaction above everything else and runs it. */
    method React(call: PortCall, i: nat, args: nat, ghost fs: seq<Deferred>) returns (ghost added: seq<Deferred>)
      requires Valid() && i < |call.bound| && Chain(Contents(), mutablePhase, fs)
      requires args + |call.args| <= |Contents()| && Contents()[args..args + |call.args|] == call.args
      requires |Contents()| + |Inputs(call, call.bound[i])| + 2 + Space(call.bound[i].reaction) <= stack.data.Length
      modifies this`mutablePhase, stack, stack.data
      ensures Valid() && old(Contents()) <= Contents()
      ensures |Contents()| <= |old(Contents())| + |Inputs(call, call.bound[i])| + 2 + Space(call.bound[i].reaction)
      ensures Runs(added) == Activated(call.bound[i].reaction, Inputs(call, call.bound[i]))
      ensures Chain(Contents(), mutablePhase, fs + added)
      ensures var saved := |old(Contents())| + |Inputs(call, call.bound[i])| + 1;
              saved < |Contents()| && Contents()[saved] == old(mutablePhase)
      decreases call, 0
    {
      hide Chain, CallsSpace, Activated;
      var b := call.bound[i];
      ghost var (below, inputs) := (Contents(), Inputs(call, b));
      PushInputs(call, b, args);
      stack.Push(Null);
      stack.base := mutablePhase;
      stack.Setup(|b.reaction.locals|);
      assert Contents()[..|below| + |inputs|] == below + inputs;
      added := Call(b.reaction, below, inputs, |IndexWords(b.index)| + 1 + |call.args|, fs);
    }

    /** The inputs of a reaction: its index, its instance, and a copy of the arguments at `args`. */
    method PushInputs(call: PortCall, b: Binding, args: nat)
      requires Valid() && args + |call.args| <= |Contents()| && Contents()[args..args + |call.args|] == call.args
      requires |Contents()| + |Inputs(call, b)| <= stack.data.Length
      modifies stack, stack.data
      ensures Valid() && Contents() == old(Contents()) + Inputs(call, b) && stack.base == old(stack.base)
    {
      if b.index.Index? {
        stack.Push(Value(b.index.n));
      }
      stack.Push(b.instance);
      assert Contents() == old(Contents()) + (IndexWords(b.index) + [b.instance]);
      assert Contents()[args..args + |call.args|] == call.args;
      stack.Load(args, |call.args|);
    }

    // ----- running an action

    /** Runs a deferred body in the frame that the base pointer selects. */
    method Perform(body: Body)
      requires Valid() && stack.base.Address?
      requires body.inputs + 1 <= stack.base.index && stack.base.index + 1 + body.locals <= |Contents()|
      modifies this`log, stack.data
      ensures Valid()
      ensures var (b, s) := (stack.base.index, old(Contents()));
              && log == old(log) + [Run(body.id, s[b - 1 - body.inputs..b - 1], s[b + 1..b + 1 + body.locals])]
              && |Contents()| == |s| && Contents()[..b + 1] == s[..b + 1]
              && forall i :: 0 <= i < body.locals && i < |body.results| ==>
                   Contents()[b + 1 + i] == Value(body.results[i])
    {
      var b := stack.base.index;
      var words := stack.data[..stack.top];
      log := log + [Run(body.id, words[b - 1 - body.inputs..b - 1], words[b + 1..b + 1 + body.locals])];
      // The body assigns to its locals, and its temporaries overwrite the space above the stack.
      forall i | b + 1 <= i < b + 1 + body.locals && i - b - 1 < |body.results| {
        stack.data[i] := Value(body.results[i - b - 1]);
      }
      forall i | stack.top <= i < stack.data.Length && i - stack.top < |body.scratch| {
        stack.data[i] := Value(body.scratch[i - stack.top]);
      }
    }

    /** Runs the last deferred body and takes its frame down. */
    method UnwindLast(ghost fs: seq<Deferred>)
      requires Valid() && fs != [] && Chain(Contents(), stack.base, fs)
      modifies this`log, stack, stack.data
      ensures Valid() && stack.top == fs[|fs| - 1].base && stack.top <= old(stack.top)
      ensures Contents() == old(Contents())[..stack.top]
      ensures Chain(Contents(), stack.base, fs[..|fs| - 1])
      ensures log == old(log) + [fs[|fs| - 1].run]
    {
      hide Chain, FrameAt;
      ghost var s := Contents();
      ChainLast(s, stack.base, fs);
      FrameParts(s, fs[|fs| - 1]);
      var body := stack.data[stack.base.index - 1].op by { assert s[stack.base.index - 1].Code?; }
      Perform(body);
      stack.Teardown();
      assert Contents() == s[..fs[|fs| - 1].base];
    }

    /** Runs the deferred bodies, from the last frame back, until the list ends. */
    method Unwind(ghost fs: seq<Deferred>)
      requires Valid() && fs != [] && Chain(Contents(), stack.base, fs)
      modifies this`log, stack, stack.data
      ensures Valid() && stack.base == Null
      ensures stack.top == fs[0].base && stack.top <= old(stack.top) && Contents() == old(Contents())[..stack.top]
      ensures log == old(log) + Reversed(Runs(fs))
    {
      hide Chain;
      ghost var rest := fs;
      while stack.base != Null
        invariant Valid() && rest <= fs && stack.top <= old(stack.top)
        invariant Chain(Contents(), stack.base, rest)
        invariant Contents() == old(Contents())[..stack.top]
        invariant |rest| < |fs| ==> stack.top == fs[|rest|].base
        invariant log == old(log) + Reversed(Runs(fs))[..|fs| - |rest|]
        decreases |rest|
      {
        assert rest != [] by { ChainEnds(Contents(), stack.base, rest); }
        UnwindLast(rest);
        rest := rest[..|rest| - 1];
      }
      assert rest == [] by { ChainEnds(Contents(), stack.base, rest); }
    }

    /**
      Runs an action.  The bodies at the ends of all paths through its port calls run exactly once each,
      those of later paths first and its own one last, with what they were given on that path and the
      locals of their activation; then the stack is as it was.
      */
    method ExecuteAction(c: Callable, inputs: seq<Slot>)
      requires Valid() && stack.top == 0 && stack.base == Null
      requires |inputs| + 2 + Space(c) <= stack.data.Length
      modifies this, stack, stack.data
      ensures Valid() && stack.top == 0 && stack.base == Null
      ensures log == old(log) + Reversed(Activated(c, inputs))
      ensures IsLog(c, inputs, log[|old(log)|..])
    {
      hide IsLog;
      ReversedIsLog(c, inputs);
      PushArguments(inputs);
      stack.Push(Null);
      Execute(c, inputs);
      var _ := stack.Pop();
      stack.PopMany(|inputs|);
    }

    method Execute(c: Callable, ghost inputs: seq<Slot>)
      requires Valid() && stack.base == Null && Contents() == inputs + [Null]
      requires |inputs| + 2 + Space(c) <= stack.data.Length
      modifies this, stack, stack.data
      ensures Valid() && stack.base == Null && stack.top == |inputs| + 1
      ensures log == old(log) + Reversed(Activated(c, inputs))
    {
      var n := stack.top - 1;
      mutablePhase := Null;
      stack.Setup(|c.locals|);
      assert Contents()[..n] == [] + inputs;
      ghost var fs := Call(c, [], inputs, n, []);
      assert [] + fs == fs;
      ChainEnds(Contents(), mutablePhase, fs);
      hide Chain, Space, Activated;
      if mutablePhase == Null {
        stack.Teardown();
        return;
      }
      stack.base := mutablePhase;
      Unwind(fs);
    }
  }
}
