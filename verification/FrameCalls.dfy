/** Calls push what the layout of the callee's frame expects, at the offsets it expects. */
module FrameCalls {
  import opened Alignments
  import opened FrameLayouts
  import opened Stacks

  function Words(size: nat): (r: nat)
    ensures WORD * r == SizeOnStack(size)
  {
    SizeOnStack(size) / WORD
  }

  function TotalWords(sizes: seq<nat>): (r: nat)
    ensures WORD * r == Total(sizes)
  {
    if sizes == [] then 0 else Words(sizes[0]) + TotalWords(sizes[1..])
  }

  lemma TotalWordsSplits(sizes: seq<nat>, i: nat)
    requires i <= |sizes|
    ensures TotalWords(sizes) == TotalWords(sizes[..i]) + TotalWords(sizes[i..])
  {
    TotalSplits(sizes, i);
  }

  lemma IotaSize()
    ensures SizeOnStack(WORD) == WORD
  {
    MultipleIsAligned(WORD);
  }

  lemma NothingPlaced()
    ensures Placed(map[], [], WORD) && Ids([]) == {}
  {
  }

  // ----- layouts

  /** Where parameters are, as the declaration of a function, method, initializer or getter places them. */
  method LayOutFunction(parameters: seq<nat>, returned: seq<nat>, body: Statement)
    returns (model: MemoryModel, arguments: seq<int>, results: seq<int>)
    requires body.Block? && Once(body, {})
    ensures fresh(model) && model.localsOffset == WORD && model.localsSize == SizeOf(body)
    ensures |arguments| == |parameters| && |results| == |returned|
    ensures forall i: nat :: i < |parameters| ==> arguments[i] == -WORD - Total(parameters[i..])
    ensures forall i: nat :: i < |returned| ==> results[i] == -WORD - Total(parameters) - Total(returned[i..])
    ensures AllPlaced(model.offsets, Scopes(body, []), WORD + model.localsSize)
  {
    hide Total, AllPlaced, Scopes, Once, SizeOnStack, Placed, Ids, SizeOf;
    NothingPlaced();
    model := new MemoryModel();
    arguments := model.AllocateParameters(parameters);
    results := model.AllocateParameters(returned);
    model.Allocate(body, [], {});
  }

  /** The same for a reaction; its index, if it has one, comes after the parameters. */
  method LayOutReaction(parameters: seq<nat>, indexed: bool, body: Statement)
    returns (model: MemoryModel, arguments: seq<int>, iota: int)
    requires body.Block? && Once(body, {})
    ensures fresh(model) && model.localsOffset == WORD && model.localsSize == SizeOf(body)
    ensures |arguments| == |parameters|
    ensures forall i: nat :: i < |parameters| ==> arguments[i] == -WORD - Total(parameters[i..])
    ensures indexed ==> iota == -WORD - Total(parameters) - WORD
    ensures AllPlaced(model.offsets, Scopes(body, []), WORD + model.localsSize)
  {
    hide Total, AllPlaced, Scopes, Once, SizeOnStack, Placed, Ids, SizeOf;
    IotaSize();
    NothingPlaced();
    model := new MemoryModel();
    arguments := model.AllocateParameters(parameters);
    iota := 0;
    if indexed {
      model.ArgumentsPush(WORD);
      iota := model.argumentsOffset;
    }
    model.Allocate(body, [], {});
  }

  // ----- calls

  ghost function Flatten<Op>(args: seq<seq<Word<Op>>>): seq<Word<Op>> {
    if args == [] then [] else args[0] + Flatten(args[1..])
  }

  /** The arguments have the sizes of the parameters. */
  ghost predicate Sized<Op>(args: seq<seq<Word<Op>>>, sizes: seq<nat>) {
    |args| == |sizes| && forall i :: 0 <= i < |args| ==> |args[i]| == Words(sizes[i])
  }

  lemma {:induction false} FlattenSize<Op>(args: seq<seq<Word<Op>>>, sizes: seq<nat>)
    requires Sized(args, sizes)
    ensures |Flatten(args)| == TotalWords(sizes)
    decreases |args|
  {
    if args != [] {
      FlattenSize(args[1..], sizes[1..]);
    }
  }

  lemma SizedPart<Op>(args: seq<seq<Word<Op>>>, sizes: seq<nat>, i: nat)
    requires Sized(args, sizes) && i <= |args|
    ensures Sized(args[..i], sizes[..i]) && Sized(args[i..], sizes[i..])
  {
  }

  lemma {:induction false} FlattenSplits<Op>(args: seq<seq<Word<Op>>>, i: nat)
    requires i <= |args|
    ensures Flatten(args) == Flatten(args[..i]) + Flatten(args[i..])
    decreases i
  {
    if i == 0 {
      assert args[0..] == args;
    } else {
      FlattenSplits(args[1..], i - 1);
      assert args[..i][1..] == args[1..][..i - 1] && args[1..][i - 1..] == args[i..];
    }
  }

  /** Argument `i` starts after all the ones before it. */
  lemma FlattenAt<Op>(args: seq<seq<Word<Op>>>, sizes: seq<nat>, i: nat)
    requires Sized(args, sizes) && i <= |args|
    ensures |Flatten(args)| == TotalWords(sizes)
    ensures i < |args| ==>
              var k := TotalWords(sizes[..i]);
              k + |args[i]| <= |Flatten(args)| && Flatten(args)[k..k + |args[i]|] == args[i]
  {
    hide TotalWords;
    FlattenSize(args, sizes);
    if i < |args| {
      FlattenSplits(args, i);
      SizedPart(args, sizes, i);
      FlattenSize(args[..i], sizes[..i]);
      assert Flatten(args[i..]) == args[i] + Flatten(args[i..][1..]);
      OneInMiddle(Flatten(args[..i]), args[i], Flatten(args[i..][1..]));
    }
  }

  lemma OneInMiddle<T>(xs: seq<T>, ys: seq<T>, zs: seq<T>)
    ensures (xs + (ys + zs))[|xs|..|xs| + |ys|] == ys
  {
  }

  lemma {:induction false} FlattenEnds<Op>(args: seq<seq<Word<Op>>>, k: nat)
    requires k < |args|
    ensures Flatten(args[..k + 1]) == Flatten(args[..k]) + args[k]
  {
    if k == 0 {
      assert args[..1][1..] == [] && args[..0] == [];
      assert Flatten(args[..1]) == args[0] + Flatten<Op>([]);
    } else {
      FlattenEnds(args[1..], k - 1);
      assert args[..k + 1][1..] == args[1..][..k] && args[..k][1..] == args[1..][..k - 1];
    }
  }

  /** What a frame looks like: below it, the results, the arguments, and what the callee added. */
  ghost function Frame<Op>(below: seq<Word<Op>>, results: nat, args: seq<seq<Word<Op>>>, base: Word<Op>,
      locals: nat): seq<Word<Op>> {
    below + (Zeros(results) + (Flatten(args) + (([Null] + [base]) + Zeros(locals))))
  }

  method PushWords<Op(!new)>(stack: Stack<Op>, words: seq<Word<Op>>)
    requires stack.Valid() && stack.top + |words| <= stack.data.Length
    modifies stack`top, stack.data
    ensures stack.Valid() && stack.Contents() == old(stack.Contents()) + words
  {
    var k := 0;
    while k < |words|
      invariant 0 <= k <= |words| && stack.Valid() && stack.Contents() == old(stack.Contents()) + words[..k]
    {
      stack.Push(words[k]);
      assert words[..k + 1] == words[..k] + [words[k]];
      k := k + 1;
    }
    assert words[..k] == words;
  }

  method PushArguments<Op(!new)>(stack: Stack<Op>, args: seq<seq<Word<Op>>>, ghost sizes: seq<nat>)
    requires stack.Valid() && Sized(args, sizes) && stack.top + TotalWords(sizes) <= stack.data.Length
    modifies stack`top, stack.data
    ensures stack.Valid() && stack.Contents() == old(stack.Contents()) + Flatten(args)
  {
    hide Flatten, TotalWords, Sized;
    FlattenAt(args, sizes, 0);
    NothingPushed<Op>(args);
    var i := 0;
    while i < |args|
      invariant 0 <= i <= |args| && stack.Valid()
      invariant stack.Contents() == old(stack.Contents()) + Flatten(args[..i])
    {
      FlattenEnds(args, i);
      FlattenedSoFar(args, sizes, i + 1);
      PushWords(stack, args[i]);
      i := i + 1;
    }
    assert args[..i] == args;
  }

  lemma FlattenedSoFar<Op>(args: seq<seq<Word<Op>>>, sizes: seq<nat>, i: nat)
    requires Sized(args, sizes) && i <= |args|
    ensures |Flatten(args[..i])| <= TotalWords(sizes)
  {
    SizedPart(args, sizes, i);
    FlattenSize(args[..i], sizes[..i]);
    TotalWordsSplits(sizes, i);
  }

  lemma NothingPushed<Op>(args: seq<seq<Word<Op>>>)
    ensures args[..0] == [] && Flatten(args[..0]) == []
  {
  }

  lemma FrameShape<Op>(below: seq<Word<Op>>, results: seq<Word<Op>>, flat: seq<Word<Op>>, ip: seq<Word<Op>>,
                       base: seq<Word<Op>>, locals: seq<Word<Op>>)
    ensures below + (results + (flat + ((ip + base) + locals))) == below + results + flat + ip + base + locals
    ensures results == [] ==> below + results == below
  {
  }

  lemma NoZeros<Op>()
    ensures Zeros<Op>(0) == []
  {
  }

  /** The caller's part of a call, up to where the callee's body starts. */
  method EnterFunction<Op(!new)>(stack: Stack<Op>, parameters: seq<nat>, returned: seq<nat>, locals: nat,
      args: seq<seq<Word<Op>>>)
    requires stack.Valid() && Sized(args, parameters) && locals % WORD == 0
    requires stack.top + TotalWords(returned) + TotalWords(parameters) + 2 + locals / WORD <= stack.data.Length
    modifies stack, stack.data
    ensures stack.Valid() && stack.base == Address(|old(stack.Contents())| + TotalWords(returned)
      + TotalWords(parameters) + 1)
    ensures stack.Contents() == Frame(old(stack.Contents()), TotalWords(returned), args, old(stack.base), locals / WORD)
  {
    hide Flatten, TotalWords;
    FlattenAt(args, parameters, 0);
    FrameShape(stack.Contents(), Zeros<Op>(TotalWords(returned)), Flatten(args), [Null], [stack.base],
        Zeros<Op>(locals / WORD));
    stack.Reserve(TotalWords(returned));
    PushArguments(stack, args, parameters);
    stack.Push(Null);
    stack.Setup(locals / WORD);
  }

  /** The caller's part of a call after the callee's body: what is left is the results. */
  method LeaveFunction<Op(!new)>(stack: Stack<Op>, parameters: seq<nat>)
    requires stack.Valid() && stack.base.Address? && TotalWords(parameters) + 1 <= stack.base.index < stack.top
    modifies stack
    ensures stack.Valid() && stack.base == old(stack.Contents()[stack.base.index])
    ensures stack.Contents() == old(stack.Contents()[..stack.base.index - 1 - TotalWords(parameters)])
  {
    stack.Teardown();
    var ip := stack.Pop();
    stack.PopMany(TotalWords(parameters));
  }

  /** The words that start at this offset from the base pointer, which counts in bytes. */
  ghost predicate At<Op>(contents: seq<Word<Op>>, base: nat, offset: int, words: seq<Word<Op>>) {
    var address := WORD * base + offset;
    && address % WORD == 0 && 0 <= address && address / WORD + |words| <= |contents|
    && contents[address / WORD..address / WORD + |words|] == words
  }

  lemma AtIndex<Op>(contents: seq<Word<Op>>, base: nat, offset: int, words: seq<Word<Op>>, index: nat)
    requires WORD * base + offset == WORD * index && index + |words| <= |contents|
    requires contents[index..index + |words|] == words
    ensures At(contents, base, offset, words)
  {
  }

  lemma InSecond<T>(xs: seq<T>, ys: seq<T>, k: nat, n: nat)
    requires k + n <= |ys|
    ensures (xs + ys)[|xs| + k..|xs| + k + n] == ys[k..k + n]
  {
  }

  lemma InFirst<T>(xs: seq<T>, ys: seq<T>, k: nat, n: nat)
    requires k + n <= |xs|
    ensures (xs + ys)[k..k + n] == xs[k..k + n]
  {
  }

  lemma InThird<T>(xs: seq<T>, ys: seq<T>, zs: seq<T>, ws: seq<T>, k: nat, n: nat)
    requires k + n <= |zs|
    ensures (xs + (ys + (zs + ws)))[|xs| + |ys| + k..|xs| + |ys| + k + n] == zs[k..k + n]
  {
    InFirst(zs, ws, k, n);
    InSecond(ys, zs + ws, k, n);
    InSecond(xs, ys + (zs + ws), |ys| + k, n);
  }

  lemma ThirdAt<Op>(xs: seq<Word<Op>>, ys: seq<Word<Op>>, zs: seq<Word<Op>>, ws: seq<Word<Op>>, k: nat, n: nat,
      base: nat,
                    offset: int)
    requires k + n <= |zs| && WORD * base + offset == WORD * (|xs| + |ys| + k)
    ensures At(xs + (ys + (zs + ws)), base, offset, zs[k..k + n])
  {
    hide At;
    InThird(xs, ys, zs, ws, k, n);
    AtIndex(xs + (ys + (zs + ws)), base, offset, zs[k..k + n], |xs| + |ys| + k);
  }

  lemma SecondAt<Op>(xs: seq<Word<Op>>, ys: seq<Word<Op>>, zs: seq<Word<Op>>, k: nat, n: nat, base: nat, offset: int)
    requires k + n <= |ys| && WORD * base + offset == WORD * (|xs| + k)
    ensures At(xs + (ys + zs), base, offset, ys[k..k + n])
  {
    hide At;
    InFirst(ys, zs, k, n);
    InSecond(xs, ys + zs, k, n);
    AtIndex(xs + (ys + zs), base, offset, ys[k..k + n], |xs| + k);
  }

  /** Arguments are where the layout of the callee places them. */
  lemma ArgumentAgrees<Op>(below: seq<Word<Op>>, parameters: seq<nat>, results: nat, args: seq<seq<Word<Op>>>,
                           base: Word<Op>, locals: nat, i: nat)
    requires Sized(args, parameters) && i < |parameters|
    ensures At(Frame(below, results, args, base, locals), |below| + results + TotalWords(parameters) + 1,
               -WORD - Total(parameters[i..]), args[i])
  {
    hide Flatten, TotalWords, Total, At;
    FlattenAt(args, parameters, i);
    TotalWordsSplits(parameters, i);
    var k, n := TotalWords(parameters[..i]), |args[i]|;
    var zeros, flat, rest := Zeros<Op>(results), Flatten(args), ([Null] + [base]) + Zeros(locals);
    ThirdAt(below, zeros, flat, rest, k, n, |below| + results + TotalWords(parameters) + 1,
        -WORD - Total(parameters[i..]));
  }

  /** Results are where the layout of the callee places them, cleared. */
  lemma ResultAgrees<Op>(below: seq<Word<Op>>, parameters: seq<nat>, returned: seq<nat>, args: seq<seq<Word<Op>>>,
                         base: Word<Op>, locals: nat, i: nat)
    requires Sized(args, parameters) && i < |returned|
    ensures At(Frame(below, TotalWords(returned), args, base, locals),
               |below| + TotalWords(returned) + TotalWords(parameters) + 1,
               -WORD - Total(parameters) - Total(returned[i..]), Zeros<Op>(Words(returned[i])))
  {
    hide Flatten, TotalWords, Total, At;
    FlattenAt(args, parameters, 0);
    TotalWordsSplits(returned, i);
    ResultFits(returned, i);
    var k, n := TotalWords(returned[..i]), Words(returned[i]);
    var zeros, rest := Zeros<Op>(TotalWords(returned)), Flatten(args) + (([Null] + [base]) + Zeros(locals));
    assert zeros[k..k + n] == Zeros<Op>(n);
    SecondAt(below, zeros, rest, k, n, |below| + TotalWords(returned) + TotalWords(parameters) + 1,
             -WORD - Total(parameters) - Total(returned[i..]));
  }

  /** The callee's local variables are above the saved base pointer, cleared. */
  lemma LocalsAgree<Op>(below: seq<Word<Op>>, parameters: seq<nat>, results: nat, args: seq<seq<Word<Op>>>,
                        base: Word<Op>, locals: nat)
    requires Sized(args, parameters)
    ensures var contents := Frame(below, results, args, base, locals);
            var bp := |below| + results + TotalWords(parameters) + 1;
            bp < |contents| && contents[bp] == base && At(contents, bp, WORD, Zeros<Op>(locals))
  {
    hide Flatten, TotalWords;
    FlattenAt(args, parameters, 0);
  }

  lemma ResultFits(sizes: seq<nat>, i: nat)
    requires i < |sizes|
    ensures TotalWords(sizes[..i]) + Words(sizes[i]) <= TotalWords(sizes)
  {
    TotalWordsSplits(sizes, i);
  }

  /** A reaction's frame has no results; its index, if it has one, is pushed first. */
  method EnterReaction<Op(!new)>(stack: Stack<Op>, parameters: seq<nat>, locals: nat, iota: seq<Word<Op>>,
      args: seq<seq<Word<Op>>>)
    requires stack.Valid() && Sized(args, parameters) && locals % WORD == 0 && |iota| <= 1
    requires stack.top + |iota| + TotalWords(parameters) + 2 + locals / WORD <= stack.data.Length
    modifies stack, stack.data
    ensures stack.Valid() && stack.base == Address(|old(stack.Contents())| + |iota| + TotalWords(parameters) + 1)
    ensures stack.Contents() == Frame(old(stack.Contents()) + iota, 0, args, old(stack.base), locals / WORD)
  {
    hide Flatten, TotalWords, Zeros;
    FlattenAt(args, parameters, 0);
    FrameShape(stack.Contents() + iota, Zeros<Op>(0), Flatten(args), [Null], [stack.base], Zeros<Op>(locals / WORD));
    NoZeros<Op>();
    PushWords(stack, iota);
    PushArguments(stack, args, parameters);
    stack.Push(Null);
    stack.Setup(locals / WORD);
  }

  lemma ReactionAgrees<Op>(below: seq<Word<Op>>, parameters: seq<nat>, iota: Word<Op>, args: seq<seq<Word<Op>>>,
                           base: Word<Op>, locals: nat)
    requires Sized(args, parameters)
    ensures var contents := Frame(below + [iota], 0, args, base, locals);
            At(contents, |below| + 1 + TotalWords(parameters) + 1, -WORD - Total(parameters) - WORD, [iota])
  {
    hide Flatten, TotalWords, Total, At;
    FlattenAt(args, parameters, 0);
    var rest := Zeros<Op>(0) + (Flatten(args) + (([Null] + [base]) + Zeros(locals)));
    InSecond(below, [iota], 0, 1);
    InFirst(below + [iota], rest, |below|, 1);
    AtIndex(below + [iota] + rest, |below| + 1 + TotalWords(parameters) + 1, -WORD - Total(parameters) - WORD,
        [iota], |below|);
  }
}
