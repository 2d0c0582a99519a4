/**
  Where parameters and local variables are in a frame, relative to the base pointer.  The caller
  pushes the arguments and an instruction pointer, the callee pushes the base pointer and makes room
  for its local variables.
  */
module FrameLayouts {
  import opened Alignments

  /** The stack is aligned to pointers. */
  const WORD: int := 8

  function SizeOnStack(size: nat): (r: nat)
    ensures r % WORD == 0 && size <= r < size + WORD
  {
    AlignUp(size, WORD)
  }

  /** The size of a list of parameters on the stack. */
  function Total(sizes: seq<nat>): nat {
    if sizes == [] then 0 else SizeOnStack(sizes[0]) + Total(sizes[1..])
  }

  lemma {:induction false} TotalSplits(sizes: seq<nat>, i: nat)
    requires i <= |sizes|
    ensures Total(sizes) == Total(sizes[..i]) + Total(sizes[i..])
  {
    if i > 0 {
      TotalSplits(sizes[1..], i - 1);
      assert sizes[..i][1..] == sizes[1..][..i - 1];
    } else {
      assert sizes[i..] == sizes;
    }
  }

  lemma TotalFrom(sizes: seq<nat>, k: nat)
    requires k <= |sizes|
    ensures Total(sizes[k..]) == if k < |sizes| then SizeOnStack(sizes[k]) + Total(sizes[k + 1..]) else 0
  {
    assert k < |sizes| ==> sizes[k..][1..] == sizes[k + 1..];
  }

  // ----- statements and their variables

  datatype Variable = Variable(id: nat, size: nat)

  datatype Statement =
    | Simple
    | Var(variables: seq<Variable>)
    | Scoped(variable: Variable, body: Statement)  // a loop with an index, or a change of the heap
    | If(before: Statement, trueBody: Statement, falseBody: Statement)
    | While(body: Statement)
    | Block(statements: seq<Statement>)
    | Activate(body: Statement)

  /** The variables that are in scope after a statement, if these are in scope before it. */
  function After(s: Statement, live: seq<Variable>): seq<Variable> {
    match s
    case Var(variables) => live + variables
    case If(before, _, _) => After(before, live)
    case _ => live
  }

  /** Everything that is in scope at some point of a statement. */
  ghost function Scopes(s: Statement, live: seq<Variable>): set<seq<Variable>>
    decreases s
  {
    match s
    case Simple => {live}
    case Var(variables) => {live + variables}
    case Scoped(v, body) => Scopes(body, live + [v])
    case If(before, t, f) => Scopes(before, live) + Scopes(t, After(before, live)) + Scopes(f, After(before, live))
    case While(body) => Scopes(body, live)
    case Block(statements) => ScopesAll(statements, live)
    case Activate(body) => Scopes(body, live)
  }

  ghost function ScopesAll(statements: seq<Statement>, live: seq<Variable>): set<seq<Variable>>
    decreases statements
  {
    if statements == [] then {live}
    else Scopes(statements[0], live) + ScopesAll(statements[1..], After(statements[0], live))
  }

  /** The variables that a statement declares. */
  ghost function Declared(s: Statement): set<nat>
    decreases s
  {
    match s
    case Simple => {}
    case Var(variables) => Ids(variables)
    case Scoped(v, body) => {v.id} + Declared(body)
    case If(before, t, f) => Declared(before) + Declared(t) + Declared(f)
    case While(body) => Declared(body)
    case Block(statements) => DeclaredAll(statements)
    case Activate(body) => Declared(body)
  }

  ghost function DeclaredAll(statements: seq<Statement>): set<nat>
    decreases statements
  {
    if statements == [] then {} else Declared(statements[0]) + DeclaredAll(statements[1..])
  }

  /** What the variables take on the stack. */
  function SizeOfAll(variables: seq<Variable>): nat {
    if variables == [] then 0
    else SizeOfAll(variables[..|variables| - 1]) + SizeOnStack(variables[|variables| - 1].size)
  }

  /** What all variables that a statement declares take on the stack. */
  function SizeOf(s: Statement): nat
    decreases s
  {
    match s
    case Simple => 0
    case Var(variables) => SizeOfAll(variables)
    case Scoped(v, body) => SizeOnStack(v.size) + SizeOf(body)
    case If(before, t, f) => SizeOf(before) + SizeOf(t) + SizeOf(f)
    case While(body) => SizeOf(body)
    case Block(statements) => SizeOfList(statements)
    case Activate(body) => SizeOf(body)
  }

  function SizeOfList(statements: seq<Statement>): nat
    decreases statements
  {
    if statements == [] then 0 else SizeOf(statements[0]) + SizeOfList(statements[1..])
  }

  /** What is still taken on the stack after the statement: blocks give everything back. */
  function Leaves(s: Statement): nat
    decreases s
  {
    match s
    case Var(variables) => SizeOfAll(variables)
    case Scoped(_, body) => Leaves(body)
    case If(before, t, f) => Leaves(before) + Leaves(t) + Leaves(f)
    case While(body) => Leaves(body)
    case Activate(body) => Leaves(body)
    case _ => 0
  }

  ghost function Ids(variables: seq<Variable>): set<nat> { set k | 0 <= k < |variables| :: variables[k].id }

  ghost predicate Distinct(variables: seq<Variable>) {
    forall i, j :: 0 <= i < j < |variables| ==> variables[i].id != variables[j].id
  }

  /** Every variable is declared once, and none of them is in scope already. */
  ghost predicate Once(s: Statement, used: set<nat>)
    decreases s
  {
    match s
    case Simple => true
    case Var(variables) => Distinct(variables) && Ids(variables) !! used
    case Scoped(v, body) => v.id !in used && Once(body, used + {v.id})
    case If(before, t, f) =>
      && Once(before, used) && Once(t, used + Declared(before)) && Once(f, used + Declared(before) + Declared(t))
    case While(body) => Once(body, used)
    case Block(statements) => OnceAll(statements, used)
    case Activate(body) => Once(body, used)
  }

  ghost predicate OnceAll(statements: seq<Statement>, used: set<nat>)
    decreases statements
  {
    statements == [] || (Once(statements[0], used) && OnceAll(statements[1..], used + Declared(statements[0])))
  }

  // ----- offsets

  ghost predicate DisjointAt(offsets: map<nat, int>, v: Variable, w: Variable)
    requires v.id in offsets && w.id in offsets
  {
    offsets[v.id] + v.size <= offsets[w.id] || offsets[w.id] + w.size <= offsets[v.id]
  }

  /** These variables have offsets from the saved base pointer up to `limit`, and do not overlap. */
  ghost predicate Placed(offsets: map<nat, int>, live: seq<Variable>, limit: int) {
    && (forall k :: 0 <= k < |live| ==>
          live[k].id in offsets && WORD <= offsets[live[k].id] && offsets[live[k].id] + live[k].size <= limit)
    && (forall i, j :: 0 <= i < j < |live| ==> DisjointAt(offsets, live[i], live[j]))
  }

  ghost predicate AllPlaced(offsets: map<nat, int>, scopes: set<seq<Variable>>, limit: int) {
    forall live :: live in scopes ==> Placed(offsets, live, limit)
  }

  /** Offsets of variables that are in use are unchanged. */
  ghost predicate Keeps(offsets: map<nat, int>, offsets': map<nat, int>, used: set<nat>) {
    forall id :: id in used && id in offsets ==> id in offsets' && offsets'[id] == offsets[id]
  }

  lemma PlacedStays(offsets: map<nat, int>, offsets': map<nat, int>, live: seq<Variable>, limit: int, limit': int,
      used: set<nat>)
    requires Placed(offsets, live, limit) && limit <= limit' && Ids(live) <= used && Keeps(offsets, offsets', used)
    ensures Placed(offsets', live, limit')
  {
    assert forall k :: 0 <= k < |live| ==> live[k].id in Ids(live);
  }

  lemma PlacedPush(offsets: map<nat, int>, live: seq<Variable>, v: Variable, top: int)
    requires Placed(offsets, live, top) && v.id !in Ids(live) && WORD <= top
    ensures Placed(offsets[v.id := top], live + [v], top + SizeOnStack(v.size))
  {
    hide Distinct, SizeOnStack;
    var offsets' := offsets[v.id := top];
    forall k | 0 <= k < |live|
      ensures live[k].id in offsets' && offsets'[live[k].id] == offsets[live[k].id]
    {
      assert live[k].id in Ids(live);
    }
  }

  lemma KeepsTwice(offsets: map<nat, int>, offsets1: map<nat, int>, offsets2: map<nat, int>, used: set<nat>,
      used1: set<nat>)
    requires Keeps(offsets, offsets1, used) && Keeps(offsets1, offsets2, used1) && used <= used1
    ensures Keeps(offsets, offsets2, used)
  {
  }

  /** What is in scope at some point was in scope before, or is declared by the statement. */
  lemma {:induction false} ScopesUse(s: Statement, live: seq<Variable>)
    ensures forall scope :: scope in Scopes(s, live) ==> Ids(scope) <= Ids(live) + Declared(s)
    ensures Ids(After(s, live)) <= Ids(live) + Declared(s)
    decreases s
  {
    match s
    case Simple =>
    case Var(variables) =>
      IdsBoth(live, variables);
    case Scoped(v, body) =>
      IdsBoth(live, [v]);
      ScopesUse(body, live + [v]);
    case If(before, t, f) =>
      ScopesUse(before, live);
      ScopesUse(t, After(before, live));
      ScopesUse(f, After(before, live));
    case While(body) =>
      ScopesUse(body, live);
    case Block(statements) =>
      ScopesAllUse(statements, live);
    case Activate(body) =>
      ScopesUse(body, live);
  }

  lemma {:induction false} ScopesAllUse(statements: seq<Statement>, live: seq<Variable>)
    ensures forall scope :: scope in ScopesAll(statements, live) ==> Ids(scope) <= Ids(live) + DeclaredAll(statements)
    decreases statements
  {
    if statements != [] {
      ScopesUse(statements[0], live);
      ScopesAllUse(statements[1..], After(statements[0], live));
    }
  }

  lemma IdsBoth(xs: seq<Variable>, ys: seq<Variable>)
    ensures Ids(xs + ys) == Ids(xs) + Ids(ys)
  {
    forall id | id in Ids(xs) + Ids(ys)
      ensures id in Ids(xs + ys)
    {
      if id in Ids(xs) {
        var k :| 0 <= k < |xs| && xs[k].id == id;
        assert (xs + ys)[k].id == id;
      } else {
        var k :| 0 <= k < |ys| && ys[k].id == id;
        assert (xs + ys)[|xs| + k].id == id;
      }
    }
  }

  lemma AllPlacedStays(offsets: map<nat, int>, offsets': map<nat, int>, scopes: set<seq<Variable>>, limit: int,
      limit': int,
                       used: set<nat>)
    requires AllPlaced(offsets, scopes, limit) && limit <= limit' && Keeps(offsets, offsets', used)
    requires forall scope :: scope in scopes ==> Ids(scope) <= used
    ensures AllPlaced(offsets', scopes, limit')
  {
    forall live | live in scopes
      ensures Placed(offsets', live, limit')
    {
      PlacedStays(offsets, offsets', live, limit, limit', used);
    }
  }

  class MemoryModel {
    var argumentsOffset: int
    var localsOffset: int
    var localsSize: nat
    var offsets: map<nat, int>

    constructor ()
      ensures argumentsOffset == -WORD && localsOffset == WORD && localsSize == 0 && offsets == map[]
    {
      argumentsOffset, localsOffset, localsSize, offsets := -WORD, WORD, 0, map[];
    }

    method ArgumentsPush(size: nat)
      modifies `argumentsOffset
      ensures argumentsOffset == old(argumentsOffset) - SizeOnStack(size)
    {
      argumentsOffset := argumentsOffset - SizeOnStack(size);
    }

    method LocalsPush(size: nat)
      modifies `localsOffset, `localsSize
      ensures localsOffset == old(localsOffset) + SizeOnStack(size) && localsSize == old(localsSize) + SizeOnStack(size)
    {
      localsOffset := localsOffset + SizeOnStack(size);
      localsSize := localsSize + SizeOnStack(size);
    }

    method LocalsPop(size: nat)
      requires size % WORD == 0
      modifies `localsOffset
      ensures localsOffset == old(localsOffset) - size
    {
      MultipleIsAligned(size);
      localsOffset := localsOffset - AlignUp(size, WORD);
    }

    /** Goes through the parameters from the last one to the first one. */
    method AllocateParameters(sizes: seq<nat>) returns (found: seq<int>)
      modifies `argumentsOffset
      ensures argumentsOffset == old(argumentsOffset) - Total(sizes) && |found| == |sizes|
      ensures forall i: nat :: i < |sizes| ==> found[i] == old(argumentsOffset) - Total(sizes[i..])
    {
      hide Total, SizeOnStack;
      TotalFrom(sizes, |sizes|);
      found := [];
      var k := |sizes|;
      while k > 0
        invariant 0 <= k <= |sizes| && |found| == |sizes| - k
        invariant argumentsOffset == old(argumentsOffset) - Total(sizes[k..])
        invariant forall i: nat :: k <= i < |sizes| ==> found[i - k] == old(argumentsOffset) - Total(sizes[i..])
      {
        k := k - 1;
        TotalFrom(sizes, k);
        ArgumentsPush(sizes[k]);
        found := [argumentsOffset] + found;
      }
      assert sizes[0..] == sizes;
    }

    /** Gives the next free place to a variable. */
    method AllocateVariable(v: Variable, ghost live: seq<Variable>)
      requires Fits() && Placed(offsets, live, localsOffset) && v.id !in Ids(live)
      modifies `localsOffset, `localsSize, `offsets
      ensures Fits() && localsOffset == old(localsOffset) + SizeOnStack(v.size)
      ensures localsSize == old(localsSize) + SizeOnStack(v.size) && Placed(offsets, live + [v], localsOffset)
      ensures offsets == old(offsets)[v.id := old(localsOffset)]
    {
      hide Placed, Ids, SizeOnStack;
      PlacedPush(offsets, live, v, localsOffset);
      offsets := offsets[v.id := localsOffset];
      LocalsPush(v.size);
    }

    ghost predicate Fits()
      reads `localsOffset, `localsSize
    {
      WORD <= localsOffset <= WORD + localsSize && localsOffset % WORD == 0 && localsSize % WORD == 0
    }

    /** Gives places to all variables of a statement. */
    method Allocate(s: Statement, ghost live: seq<Variable>, ghost used: set<nat>)
      requires Fits() && Placed(offsets, live, localsOffset) && Ids(live) <= used && Once(s, used)
      modifies `localsOffset, `localsSize, `offsets
      ensures Fits() && old(localsOffset) <= localsOffset && old(localsSize) <= localsSize
      ensures Keeps(old(offsets), offsets, used)
      ensures Placed(offsets, After(s, live), localsOffset)
      ensures AllPlaced(offsets, Scopes(s, live), WORD + localsSize)
      ensures localsOffset == old(localsOffset) + Leaves(s) && localsSize == old(localsSize) + SizeOf(s)
      decreases s, 2
    {
      match s
      case Simple =>
        PlacedStays(offsets, offsets, live, localsOffset, WORD + localsSize, used);
      case Var(variables) =>
        AllocateVariables(variables, live, used);
      case Scoped(v, body) =>
        AllocateScoped(v, body, live, used);
      case If(before, t, f) =>
        AllocateIf(s, live, used);
      case While(body) =>
        Allocate(body, live, used);
        PlacedStays(old(offsets), offsets, live, old(localsOffset), localsOffset, used);
      case Block(statements) =>
        AllocateBlock(statements, live, used);
      case Activate(body) =>
        Allocate(body, live, used);
        PlacedStays(old(offsets), offsets, live, old(localsOffset), localsOffset, used);
    }

    method AllocateVariables(variables: seq<Variable>, ghost live: seq<Variable>, ghost used: set<nat>)
      requires Fits() && Placed(offsets, live, localsOffset) && Ids(live) <= used
      requires Distinct(variables) && Ids(variables) !! used
      modifies `localsOffset, `localsSize, `offsets
      ensures Fits() && old(localsOffset) <= localsOffset && old(localsSize) <= localsSize
      ensures Keeps(old(offsets), offsets, used)
      ensures Placed(offsets, live + variables, localsOffset)
      ensures Placed(offsets, live + variables, WORD + localsSize)
      ensures localsOffset == old(localsOffset) + SizeOfAll(variables)
      ensures localsSize == old(localsSize) + SizeOfAll(variables)
    {
      hide Placed, SizeOnStack;
      assert live + variables[..0] == live;
      var k := 0;
      while k < |variables|
        invariant 0 <= k <= |variables|
        invariant Fits() && old(localsOffset) <= localsOffset && old(localsSize) <= localsSize
        invariant Keeps(old(offsets), offsets, used)
        invariant Placed(offsets, live + variables[..k], localsOffset)
        invariant localsOffset == old(localsOffset) + SizeOfAll(variables[..k])
        invariant localsSize == old(localsSize) + SizeOfAll(variables[..k])
      {
        assert variables[..k + 1][..k] == variables[..k];
        assert live + variables[..k] + [variables[k]] == live + variables[..k + 1];
        IdsBoth(live, variables[..k]);
        assert variables[k].id in Ids(variables);
        AllocateVariable(variables[k], live + variables[..k]);
        k := k + 1;
      }
      assert variables[..k] == variables;
      PlacedStays(offsets, offsets, live + variables, localsOffset, WORD + localsSize, Ids(live + variables));
    }

    method AllocateScoped(v: Variable, body: Statement, ghost live: seq<Variable>, ghost used: set<nat>)
      requires Fits() && Placed(offsets, live, localsOffset) && Ids(live) <= used && v.id !in used
      requires Once(body, used + {v.id})
      modifies `localsOffset, `localsSize, `offsets
      ensures Fits() && localsOffset >= old(localsOffset) && old(localsSize) <= localsSize
      ensures Keeps(old(offsets), offsets, used)
      ensures Placed(offsets, live, localsOffset)
      ensures AllPlaced(offsets, Scopes(body, live + [v]), WORD + localsSize)
      ensures localsOffset == old(localsOffset) + Leaves(body)
      ensures localsSize == old(localsSize) + SizeOnStack(v.size) + SizeOf(body)
      decreases body, 3
    {
      hide Placed, SizeOnStack, AllPlaced, Scopes, Once, SizeOf, Leaves, Declared;
      var offsetBefore := localsOffset;
      AllocateVariable(v, live);
      IdsBoth(live, [v]);
      var offsetAfter := localsOffset;
      Allocate(body, live + [v], used + {v.id});
      LocalsPop(offsetAfter - offsetBefore);
      PlacedStays(old(offsets), offsets, live, old(localsOffset), localsOffset, used);
    }

    method AllocateIf(s: Statement, ghost live: seq<Variable>, ghost used: set<nat>)
      requires Fits() && Placed(offsets, live, localsOffset) && Ids(live) <= used && s.If? && Once(s, used)
      modifies `localsOffset, `localsSize, `offsets
      ensures Fits() && old(localsOffset) <= localsOffset && old(localsSize) <= localsSize
      ensures Keeps(old(offsets), offsets, used)
      ensures Placed(offsets, After(s, live), localsOffset)
      ensures AllPlaced(offsets, Scopes(s, live), WORD + localsSize)
      ensures localsOffset == old(localsOffset) + Leaves(s) && localsSize == old(localsSize) + SizeOf(s)
      decreases s, 1
    {
      hide Placed, SizeOnStack, AllPlaced, Scopes, Once, Declared, After, Keeps, Ids, SizeOf, Leaves, Fits;
      IfParts(s, live, used);
      ghost var inner, used1 := After(s.before, live), used + Declared(s.before);
      ScopesUse(s.before, live);
      Allocate(s.before, live, used);
      ghost var offsets1, size1 := offsets, localsSize;
      AllocateBranches(s, inner, used1);
      BothPlaced(offsets1, offsets, Scopes(s.before, live), Scopes(s.trueBody, inner) + Scopes(s.falseBody, inner),
                 WORD + size1, WORD + localsSize, used1);
      KeepsTwice(old(offsets), offsets1, offsets, used, used1);
    }

    method AllocateBranches(s: Statement, ghost live: seq<Variable>, ghost used: set<nat>)
      requires Fits() && Placed(offsets, live, localsOffset) && Ids(live) <= used && s.If?
      requires Once(s.trueBody, used) && Once(s.falseBody, used + Declared(s.trueBody))
      modifies `localsOffset, `localsSize, `offsets
      ensures Fits() && old(localsOffset) <= localsOffset && old(localsSize) <= localsSize
      ensures Keeps(old(offsets), offsets, used)
      ensures Placed(offsets, live, localsOffset)
      ensures AllPlaced(offsets, Scopes(s.trueBody, live) + Scopes(s.falseBody, live), WORD + localsSize)
      ensures localsOffset == old(localsOffset) + Leaves(s.trueBody) + Leaves(s.falseBody)
      ensures localsSize == old(localsSize) + SizeOf(s.trueBody) + SizeOf(s.falseBody)
      decreases s, 0
    {
      hide Placed, SizeOnStack, AllPlaced, Scopes, Once, Declared, After, Keeps, Ids, SizeOf, Leaves;
      var t, f := s.trueBody, s.falseBody;
      ghost var used1 := used + Declared(t);
      ScopesUse(t, live);
      Allocate(t, live, used);
      ghost var offsets1, size1 := offsets, localsSize;
      PlacedStays(old(offsets), offsets1, live, old(localsOffset), localsOffset, used);
      Allocate(f, live, used1);
      BothPlaced(offsets1, offsets, Scopes(t, live), Scopes(f, live), WORD + size1, WORD + localsSize, used1);
      KeepsTwice(old(offsets), offsets1, offsets, used, used1);
      PlacedStays(old(offsets), offsets, live, old(localsOffset), localsOffset, used);
    }

    method AllocateBlock(statements: seq<Statement>, ghost live: seq<Variable>, ghost used: set<nat>)
      requires Fits() && Placed(offsets, live, localsOffset) && Ids(live) <= used && OnceAll(statements, used)
      modifies `localsOffset, `localsSize, `offsets
      ensures Fits() && localsOffset == old(localsOffset) && old(localsSize) <= localsSize
      ensures Keeps(old(offsets), offsets, used)
      ensures Placed(offsets, live, localsOffset)
      ensures AllPlaced(offsets, ScopesAll(statements, live), WORD + localsSize)
      ensures localsSize == old(localsSize) + SizeOfList(statements)
      decreases statements, 2
    {
      hide Placed, SizeOnStack, AllPlaced, ScopesAll, OnceAll, SizeOfList, Ids;
      var offsetBefore := localsOffset;
      AllocateList(statements, live, used);
      LocalsPop(localsOffset - offsetBefore);
      PlacedStays(old(offsets), offsets, live, old(localsOffset), localsOffset, used);
    }

    method AllocateList(statements: seq<Statement>, ghost live: seq<Variable>, ghost used: set<nat>)
      requires Fits() && Placed(offsets, live, localsOffset) && Ids(live) <= used && OnceAll(statements, used)
      modifies `localsOffset, `localsSize, `offsets
      ensures Fits() && old(localsOffset) <= localsOffset && old(localsSize) <= localsSize
      ensures Keeps(old(offsets), offsets, used)
      ensures AllPlaced(offsets, ScopesAll(statements, live), WORD + localsSize)
      ensures localsSize == old(localsSize) + SizeOfList(statements)
      decreases statements, 1
    {
      if statements == [] {
        PlacedStays(offsets, offsets, live, localsOffset, WORD + localsSize, used);
        return;
      }
      hide Placed, SizeOnStack, AllPlaced, Scopes, Once, Declared, After;
      ghost var s, rest := statements[0], statements[1..];
      ScopesUse(s, live);
      Allocate(statements[0], live, used);
      ghost var offsets1, size1 := offsets, localsSize;
      AllocateList(statements[1..], After(s, live), used + Declared(s));
      AllPlacedStays(offsets1, offsets, Scopes(s, live), WORD + size1, WORD + localsSize, used + Declared(s));
      AllPlacedBoth(offsets, Scopes(s, live), ScopesAll(rest, After(s, live)), WORD + localsSize);
    }
  }

  /** Scopes that were placed stay so, together with those that are placed after them. */
  lemma BothPlaced(offsets: map<nat, int>, offsets': map<nat, int>, xs: set<seq<Variable>>, ys: set<seq<Variable>>,
                   limit: int, limit': int, used: set<nat>)
    requires AllPlaced(offsets, xs, limit) && limit <= limit' && Keeps(offsets, offsets', used)
    requires forall scope :: scope in xs ==> Ids(scope) <= used
    requires AllPlaced(offsets', ys, limit')
    ensures AllPlaced(offsets', xs + ys, limit')
  {
    AllPlacedStays(offsets, offsets', xs, limit, limit', used);
    AllPlacedBoth(offsets', xs, ys, limit');
  }

  lemma IfParts(s: Statement, live: seq<Variable>, used: set<nat>)
    requires s.If? && Once(s, used)
    ensures Once(s.before, used) && Once(s.trueBody, used + Declared(s.before))
    ensures Once(s.falseBody, used + Declared(s.before) + Declared(s.trueBody))
    ensures After(s, live) == After(s.before, live)
    ensures SizeOf(s) == SizeOf(s.before) + SizeOf(s.trueBody) + SizeOf(s.falseBody)
    ensures Leaves(s) == Leaves(s.before) + Leaves(s.trueBody) + Leaves(s.falseBody)
    ensures var inner := After(s.before, live);
            Scopes(s, live) == Scopes(s.before, live) + (Scopes(s.trueBody, inner) + Scopes(s.falseBody, inner))
  {
  }

  lemma AllPlacedBoth(offsets: map<nat, int>, xs: set<seq<Variable>>, ys: set<seq<Variable>>, limit: int)
    requires AllPlaced(offsets, xs, limit) && AllPlaced(offsets, ys, limit)
    ensures AllPlaced(offsets, xs + ys, limit)
  {
  }

  lemma MultipleIsAligned(size: nat)
    requires size % WORD == 0
    ensures AlignUp(size, WORD) == size
  {
  }
}
