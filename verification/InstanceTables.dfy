/**
  The component instances that declarations call for: one for each path through fields and elements to a
  component, and where they are in memory.
  */
module InstanceTables {
  import opened DataLayouts
  import opened TypePaths

  // ----- component instances

  datatype Option = None | Some(index: nat)

  /** An instance: its address, and which of the instances it is contained in. */
  datatype Instance = Instance(address: int, parent: Option)

  /** The instances in a value of a type, given how many there are before them. */
  ghost function Instances(t: Type, at: int, parent: Option, before: nat): seq<Instance>
    requires WellFormed(t)
    decreases t, 0
  {
    match t
    case Component(fields) => [Instance(at, parent)] + FieldInstances(fields, at, Some(before), before + 1, |fields|)
    case Array(base, dimension) => ElementInstances(base, at, parent, before, dimension)
    case _ => []
  }

  ghost function FieldInstances(fields: seq<Type>, at: int, parent: Option, before: nat, n: nat): seq<Instance>
    requires n <= |fields| && FieldsWellFormed(fields)
    decreases fields, n
  {
    if n == 0 then []
    else
      var first := FieldInstances(fields, at, parent, before, n - 1);
      first + Instances(fields[n - 1], at + Offset(fields, n - 1), parent, before + |first|)
  }

  ghost function ElementInstances(base: Type, at: int, parent: Option, before: nat, n: nat): seq<Instance>
    requires WellFormed(base)
    decreases base, n + 1
  {
    if n == 0 then []
    else
      var first := ElementInstances(base, at, parent, before, n - 1);
      first + Instances(base, at + (n - 1) * Unit(base), parent, before + |first|)
  }

  lemma NoElements(base: Type, at: int, parent: Option, before: nat)
    requires WellFormed(base)
    ensures ElementInstances(base, at, parent, before, 0) == []
  {
  }

  lemma NextElement(base: Type, at: int, parent: Option, before: nat, n: nat)
    requires WellFormed(base)
    ensures var first := ElementInstances(base, at, parent, before, n);
            ElementInstances(base, at, parent, before, n + 1) ==
            first + Instances(base, at + Unit(base) * n, parent, before + |first|)
  {
    hide Unit, WellFormed, Size, Align, Instances;
    assert Unit(base) * (n + 1 - 1) == Unit(base) * n;
  }

  /** Addresses grow from one instance to the next one, and stay in a range. */
  ghost predicate Growing(instances: seq<Instance>, from: int, to: int) {
    && (forall i :: 0 <= i < |instances| ==> from <= instances[i].address < to)
    && (forall i, j :: 0 <= i < j < |instances| ==> instances[i].address < instances[j].address)
  }

  /** Instances come after the one they are contained in: the outer one, or one of these. */
  ghost predicate ParentsFirst(instances: seq<Instance>, outer: Option, before: nat) {
    forall i :: 0 <= i < |instances| ==>
      instances[i].parent == outer || (instances[i].parent.Some? && before <= instances[i].parent.index < before + i)
  }

  lemma GrowingBoth(xs: seq<Instance>, ys: seq<Instance>, from: int, middle: int, middle': int, to: int)
    requires Growing(xs, from, middle) && Growing(ys, middle', to) && from <= middle <= middle' <= to
    ensures Growing(xs + ys, from, to)
  {
  }

  lemma ParentsBoth(xs: seq<Instance>, ys: seq<Instance>, outer: Option, before: nat)
    requires ParentsFirst(xs, outer, before) && ParentsFirst(ys, outer, before + |xs|)
    ensures ParentsFirst(xs + ys, outer, before)
  {
  }

  /** Instances have different addresses, and one that contains others comes before them. */
  lemma {:induction false} InstancesGrow(t: Type, at: int, parent: Option, before: nat)
    requires WellFormed(t)
    ensures Growing(Instances(t, at, parent, before), at, at + Size(t))
    ensures ParentsFirst(Instances(t, at, parent, before), parent, before)
    decreases t, 0
  {
    hide Growing, ParentsFirst;
    match t
    case Component(fields) =>
      var inner := FieldInstances(fields, at, Some(before), before + 1, |fields|);
      FieldInstancesGrow(fields, at, Some(before), before + 1, |fields|);
      FirstFieldFits(fields, |fields|);
      FirstGrows(at, parent);
      GrowingBoth([Instance(at, parent)], inner, at, at + 8, at + 8, at + Size(t));
      InnerParents(inner, Instance(at, parent), before);
    case Array(base, dimension) =>
      ElementInstancesGrow(base, at, parent, before, dimension);
    case _ =>
      NoInstances(at, parent, before);
      WidenGrowing([], at, at, at + Size(t));
  }

  lemma FirstGrows(at: int, parent: Option)
    ensures Growing([Instance(at, parent)], at, at + 8)
  {
  }

  lemma InnerParents(inner: seq<Instance>, x: Instance, before: nat)
    requires ParentsFirst(inner, Some(before), before + 1)
    ensures ParentsFirst([x] + inner, x.parent, before)
  {
  }

  /** The pointer for the runtime comes first, and the other fields after it. */
  lemma {:induction false} FirstFieldFits(fields: seq<Type>, n: nat)
    requires 0 < n <= |fields| && FieldsWellFormed(fields) && fields[0] == RUNTIME_FIELD
    ensures EndAt(fields, n) >= 8
  {
    if n > 1 {
      FirstFieldFits(fields, n - 1);
    }
  }

  lemma {:induction false} FieldInstancesGrow(fields: seq<Type>, at: int, parent: Option, before: nat, n: nat)
    requires 0 < n <= |fields| && FieldsWellFormed(fields) && fields[0] == RUNTIME_FIELD
    ensures Growing(FieldInstances(fields, at, parent, before, n), at + 8, at + EndAt(fields, n))
    ensures ParentsFirst(FieldInstances(fields, at, parent, before, n), parent, before)
    decreases fields, n
  {
    hide Growing, ParentsFirst, EndAt, Offset, Size, FieldInstances, Instances, WellFormed;
    if n == 1 {
      NoInstances(at + 8, parent, before);
      FirstFieldFits(fields, 1);
      WidenGrowing([], at + 8, at + 8, at + EndAt(fields, 1));
      FirstHasNone(fields, at, parent, before);
    } else {
      var f, start := fields[n - 1], at + Offset(fields, n - 1);
      var first := FieldInstances(fields, at, parent, before, n - 1);
      var rest := Instances(f, start, parent, before + |first|);
      FieldInstancesGrow(fields, at, parent, before, n - 1);
      FirstFieldFits(fields, n - 1);
      NextField(fields, at, parent, before, n);
      InstancesGrow(f, start, parent, before + |first|);
      GrowingBoth(first, rest, at + 8, at + EndAt(fields, n - 1), start, start + Size(f));
      ParentsBoth(first, rest, parent, before);
    }
  }

  /** The pointer for the runtime holds no instances. */
  lemma FirstHasNone(fields: seq<Type>, at: int, parent: Option, before: nat)
    requires fields != [] && FieldsWellFormed(fields) && fields[0] == RUNTIME_FIELD
    ensures FieldInstances(fields, at, parent, before, 1) == []
  {
    assert FieldInstances(fields, at, parent, before, 0) == [];
    assert Instances(fields[0], at + Offset(fields, 0), parent, before) == [];
  }

  /** What the next field adds comes after what was there, and ends where the field does. */
  lemma NextField(fields: seq<Type>, at: int, parent: Option, before: nat, n: nat)
    requires 1 < n <= |fields| && FieldsWellFormed(fields)
    ensures var start, first := at + Offset(fields, n - 1), FieldInstances(fields, at, parent, before, n - 1);
            && WellFormed(fields[n - 1]) && at + EndAt(fields, n - 1) <= start
            && start + Size(fields[n - 1]) == at + EndAt(fields, n)
            && FieldInstances(fields, at, parent, before, n) == first
                 + Instances(fields[n - 1], start, parent, before + |first|)
  {
    NextFieldEnds(fields, n);
    hide WellFormed, EndAt, Offset, Size, Instances;
  }

  lemma NextFieldEnds(fields: seq<Type>, n: nat)
    requires 1 < n <= |fields| && FieldsWellFormed(fields)
    ensures WellFormed(fields[n - 1]) && EndAt(fields, n - 1) <= Offset(fields, n - 1)
    ensures Offset(fields, n - 1) + Size(fields[n - 1]) == EndAt(fields, n)
  {
    hide Size, Align;
  }

  lemma {:induction false} ElementInstancesGrow(base: Type, at: int, parent: Option, before: nat, n: nat)
    requires WellFormed(base)
    ensures Growing(ElementInstances(base, at, parent, before, n), at, at + Unit(base) * n)
    ensures ParentsFirst(ElementInstances(base, at, parent, before, n), parent, before)
    decreases base, n + 1
  {
    hide Unit, Growing, ParentsFirst;
    UnitFits(base, n);
    if n > 0 {
      var first, start := ElementInstances(base, at, parent, before, n - 1), at + Unit(base) * (n - 1);
      ElementInstancesGrow(base, at, parent, before, n - 1);
      InstancesGrow(base, start, parent, before + |first|);
      var rest := Instances(base, start, parent, before + |first|);
      WidenGrowing(rest, start, start + Size(base), at + Unit(base) * n);
      GrowingBoth(first, rest, at, start, start, at + Unit(base) * n);
      ParentsBoth(first, rest, parent, before);
    } else {
      NoInstances(at, parent, before);
    }
  }

  lemma NoInstances(at: int, parent: Option, before: nat)
    ensures Growing([], at, at) && ParentsFirst([], parent, before)
  {
  }

  lemma WidenGrowing(instances: seq<Instance>, from: int, to: int, to': int)
    requires Growing(instances, from, to) && to <= to'
    ensures Growing(instances, from, to')
  {
  }

  // ----- which instances there should be

  /** The program looks for instances in the fields of components and in the elements of arrays. */
  ghost predicate IsVisited(t: Type, path: Path)
    decreases path
  {
    path == [] || (!t.Struct? && IsHop(t, path[0]) && IsVisited(Behind(t, path[0]), path[1..]))
  }

  lemma {:induction false} VisitedLeads(t: Type, path: Path)
    requires IsVisited(t, path)
    ensures Leads(t, path)
    decreases path
  {
    if path != [] {
      VisitedLeads(Behind(t, path[0]), path[1..]);
    }
  }

  ghost predicate IsInstance(t: Type, path: Path) {
    IsVisited(t, path) && Leads(t, path) && Target(t, path).Component?
  }

  /** The component at path `q` contains what is at path `p`. */
  ghost predicate Encloses(t: Type, q: Path, p: Path) {
    q <= p && q != p && Leads(t, q) && Target(t, q).Component?
  }

  ghost predicate IsInnermost(t: Type, q: Path, p: Path) {
    Encloses(t, q, p) && forall r :: Encloses(t, r, p) ==> r <= q
  }

  /** A place in one of the declared instances. */
  datatype Place = Place(declaration: nat, path: Path)

  ghost predicate AllWellFormed(types: seq<Type>) { forall t :: t in types ==> WellFormed(t) }

  ghost predicate IsDeclared(types: seq<Type>, p: Place) {
    p.declaration < |types| && IsInstance(types[p.declaration], p.path)
  }

  /** The sizes of the first `n` declared instances. */
  ghost function SizeBefore(types: seq<Type>, n: nat): nat
    requires AllWellFormed(types) && n <= |types|
  {
    if n == 0 then 0 else SizeBefore(types, n - 1) + Size(types[n - 1])
  }

  ghost function AddressOf(types: seq<Type>, p: Place): int
    requires AllWellFormed(types) && IsDeclared(types, p)
  {
    SizeBefore(types, p.declaration) + PathOffset(types[p.declaration], p.path)
  }

  /** The parent of an instance is the innermost one around it, if there is one. */
  ghost predicate IsParent(types: seq<Type>, places: seq<Place>, i: nat, parent: Option)
    requires i < |places| && places[i].declaration < |types|
  {
    var t, p := types[places[i].declaration], places[i].path;
    match parent
    case None => forall q :: !Encloses(t, q, p)
    case Some(k) =>
      k < |places| && places[k].declaration == places[i].declaration && IsInnermost(t, places[k].path, p)
  }

  /** Exactly the declared instances are there, each one once, at their addresses and with their parents. */
  ghost predicate Describes(types: seq<Type>, places: seq<Place>, instances: seq<Instance>)
    requires AllWellFormed(types)
  {
    && |instances| == |places| && (forall p :: p in places <==> IsDeclared(types, p))
    && (forall i, j :: 0 <= i < j < |places| ==> places[i] != places[j])
    && forall i: nat :: i < |places| ==> IsDescribed(types, places, i, instances[i])
  }

  ghost predicate IsDescribed(types: seq<Type>, places: seq<Place>, i: nat, x: Instance)
    requires AllWellFormed(types) && i < |places|
  {
    && IsDeclared(types, places[i]) && x.address == AddressOf(types, places[i])
    && IsParent(types, places, i, x.parent)
  }

  // ----- the instances within one type

  /** The paths go through the first `n` fields or elements. */
  ghost predicate IsWithin(t: Type, path: Path, n: nat) {
    path != [] && path[0].index < n && IsInstance(t, path)
  }

  /** Nothing but the type itself encloses the path. */
  ghost predicate OnlyOuter(t: Type, path: Path) { forall q :: Encloses(t, q, path) ==> q == [] }

  /** The parent is the one outside, or one of these instances, the first of which has number `before`. */
  ghost predicate IsParentIn(t: Type, paths: seq<Path>, p: Path, outer: Option, before: nat, parent: Option) {
    || (parent == outer && OnlyOuter(t, p))
    || exists k: nat :: k < |paths| && parent == Some(before + k) && paths[k] != [] && IsInnermost(t, paths[k], p)
  }

  ghost predicate AllWithin(t: Type, paths: seq<Path>, n: nat) {
    && (forall p :: p in paths <==> IsWithin(t, p, n))
    && forall i, j :: 0 <= i < j < |paths| ==> paths[i] != paths[j]
  }

  ghost predicate Located(t: Type, paths: seq<Path>, xs: seq<Instance>, at: int)
    requires WellFormed(t)
  {
    |xs| == |paths| && forall i :: 0 <= i < |paths| ==>
      Leads(t, paths[i]) && xs[i].address == at + PathOffset(t, paths[i])
  }

  ghost predicate PartDescribes(t: Type, paths: seq<Path>, xs: seq<Instance>, at: int, outer: Option, before: nat,
                                n: nat)
    requires WellFormed(t)
  {
    && AllWithin(t, paths, n) && Located(t, paths, xs, at)
    && forall i :: 0 <= i < |paths| ==> IsParentIn(t, paths, paths[i], outer, before, xs[i].parent)
  }

  /** The same for a whole type, which may be a component itself. */
  ghost predicate DescribesType(t: Type, paths: seq<Path>, xs: seq<Instance>, at: int, outer: Option, before: nat)
    requires WellFormed(t)
  {
    && (forall p :: p in paths <==> IsInstance(t, p))
    && (forall i, j :: 0 <= i < j < |paths| ==> paths[i] != paths[j])
    && Located(t, paths, xs, at)
    && forall i :: 0 <= i < |paths| ==> IsParentOf(t, paths, paths[i], outer, before, xs[i].parent)
  }

  ghost predicate IsParentOf(t: Type, paths: seq<Path>, p: Path, outer: Option, before: nat, parent: Option) {
    || (parent == outer && forall q :: !Encloses(t, q, p))
    || exists k: nat :: k < |paths| && parent == Some(before + k) && IsInnermost(t, paths[k], p)
  }

  ghost function Prefixed(h: Hop, paths: seq<Path>): (r: seq<Path>)
    ensures |r| == |paths| && forall i :: 0 <= i < |paths| ==> r[i] == [h] + paths[i]
  {
    seq(|paths|, i requires 0 <= i < |paths| => [h] + paths[i])
  }

  /** The hop with number `n`. */
  ghost function HopAt(t: Type, n: nat): Hop { if t.Array? then Element(n) else Field(n) }

  lemma InstanceBehind(t: Type, h: Hop, p: Path)
    requires IsHop(t, h)
    ensures Leads(t, [h] + p) <==> Leads(Behind(t, h), p)
    ensures !t.Struct? ==> (IsInstance(t, [h] + p) <==> IsInstance(Behind(t, h), p))
    ensures WellFormed(t) && Leads(t, [h] + p) ==>
              WellFormed(Behind(t, h)) && PathOffset(t, [h] + p) == HopOffset(t, h) + PathOffset(Behind(t, h), p)
    ensures Leads(t, [h] + p) ==> Target(t, [h] + p) == Target(Behind(t, h), p)
  {
    assert ([h] + p)[1..] == p;
    if WellFormed(t) {
      BehindIsWellFormed(t, h);
    }
  }

  lemma EnclosesBehind(t: Type, h: Hop, q: Path, p: Path)
    requires IsHop(t, h)
    ensures Encloses(t, [h] + q, [h] + p) <==> Encloses(Behind(t, h), q, p)
  {
    InstanceBehind(t, h, q);
    if q <= p {
      assert [h] + q <= [h] + p;
    }
    if [h] + q <= [h] + p {
      assert ([h] + q)[1..] == q && ([h] + p)[1..] == p;
    }
  }

  /** What encloses a path encloses what comes after the first hop, or is the type itself. */
  lemma EncloserBehind(t: Type, h: Hop, r: Path, p: Path)
    requires IsHop(t, h) && Encloses(t, r, [h] + p) && r != []
    ensures r == [h] + r[1..] && Encloses(Behind(t, h), r[1..], p)
  {
    assert r[0] == ([h] + p)[0] == h;
    assert r == [h] + r[1..];
    EnclosesBehind(t, h, r[1..], p);
  }

  lemma ParentBehind(t: Type, h: Hop, paths: seq<Path>, all: seq<Path>, shift: nat, p: Path, outer: Option, before: nat,
                     parent: Option)
    requires IsHop(t, h) && IsParentOf(Behind(t, h), paths, p, outer, before + shift, parent)
    requires |all| == shift + |paths| && forall i :: 0 <= i < |paths| ==> all[shift + i] == [h] + paths[i]
    ensures IsParentIn(t, all, [h] + p, outer, before, parent)
  {
    hide Encloses, IsHop;
    if parent == outer && forall q :: !Encloses(Behind(t, h), q, p) {
      forall q | Encloses(t, q, [h] + p) ensures q == [] {
        if q != [] {
          EncloserBehind(t, h, q, p);
        }
      }
    } else {
      var k: nat :| k < |paths| && parent == Some(before + shift + k) && IsInnermost(Behind(t, h), paths[k], p);
      EnclosesBehind(t, h, paths[k], p);
      forall r | Encloses(t, r, [h] + p) ensures r <= [h] + paths[k] {
        if r != [] {
          EncloserBehind(t, h, r, p);
          assert r[1..] <= paths[k];
        }
      }
      assert IsInnermost(t, all[shift + k], [h] + p);
    }
  }

  lemma PathsAfterHop(t: Type, paths: seq<Path>, n: nat, sub: seq<Path>)
    requires !t.Struct? && IsHop(t, HopAt(t, n)) && AllWithin(t, paths, n)
    requires forall p :: p in sub <==> IsInstance(Behind(t, HopAt(t, n)), p)
    requires forall i, j :: 0 <= i < j < |sub| ==> sub[i] != sub[j]
    ensures AllWithin(t, paths + Prefixed(HopAt(t, n), sub), n + 1)
  {
    hide IsInstance;
    var h := HopAt(t, n);
    var all := paths + Prefixed(h, sub);
    forall p ensures p in all <==> IsWithin(t, p, n + 1) {
      PathIsNext(t, paths, n, sub, p);
    }
    forall i, j | 0 <= i < j < |all| ensures all[i] != all[j] {
      if i < |paths| <= j {
        assert all[i] in paths;
      } else if |paths| <= i {
        assert all[i][1..] == sub[i - |paths|] && all[j][1..] == sub[j - |paths|];
      }
    }
  }

  lemma PathIsNext(t: Type, paths: seq<Path>, n: nat, sub: seq<Path>, p: Path)
    requires !t.Struct? && IsHop(t, HopAt(t, n)) && forall q :: q in paths <==> IsWithin(t, q, n)
    requires forall q :: q in sub <==> IsInstance(Behind(t, HopAt(t, n)), q)
    ensures p in paths + Prefixed(HopAt(t, n), sub) <==> IsWithin(t, p, n + 1)
  {
    var h := HopAt(t, n);
    var more := Prefixed(h, sub);
    if p in more {
      var i :| 0 <= i < |more| && more[i] == p;
      assert sub[i] in sub;
      InstanceBehind(t, h, sub[i]);
    }
    if IsWithin(t, p, n + 1) && p[0].index == n {
      assert p[0] == h && p == [h] + p[1..];
      InstanceBehind(t, h, p[1..]);
      hide IsInstance;
      var i :| 0 <= i < |sub| && sub[i] == p[1..];
      assert more[i] == p;
    }
  }

  /** One more field or element, with the instances in it. */
  lemma OneMoreHop(t: Type, paths: seq<Path>, xs: seq<Instance>, at: int, outer: Option, before: nat, n: nat,
                   sub: seq<Path>, ys: seq<Instance>)
    requires WellFormed(t) && !t.Struct? && IsHop(t, HopAt(t, n)) && PartDescribes(t, paths, xs, at, outer, before, n)
    requires WellFormed(Behind(t, HopAt(t, n)))
    requires DescribesType(Behind(t, HopAt(t, n)), sub, ys, at + HopOffset(t, HopAt(t, n)), outer, before + |xs|)
    ensures PartDescribes(t, paths + Prefixed(HopAt(t, n), sub), xs + ys, at, outer, before, n + 1)
  {
    hide IsInstance, WellFormed, IsParentOf, IsParentIn, AllWithin, PathOffset, Leads, HopOffset, Behind, IsHop;
    var h := HopAt(t, n);
    var all := paths + Prefixed(h, sub);
    PathsAfterHop(t, paths, n, sub);
    forall i | 0 <= i < |all|
      ensures Leads(t, all[i]) && (xs + ys)[i].address == at + PathOffset(t, all[i])
      ensures IsParentIn(t, all, all[i], outer, before, (xs + ys)[i].parent)
    {
      if i < |paths| {
        ParentStays(t, paths, Prefixed(h, sub), paths[i], outer, before, xs[i].parent);
      } else {
        InstanceBehind(t, h, sub[i - |paths|]);
        ParentBehind(t, h, sub, all, |paths|, sub[i - |paths|], outer, before, ys[i - |paths|].parent);
      }
    }
  }

  lemma ParentStays(t: Type, paths: seq<Path>, more: seq<Path>, p: Path, outer: Option, before: nat, parent: Option)
    requires IsParentIn(t, paths, p, outer, before, parent)
    ensures IsParentIn(t, paths + more, p, outer, before, parent)
  {
    hide IsInnermost, OnlyOuter;
    if !(parent == outer && OnlyOuter(t, p)) {
      var k: nat :| k < |paths| && parent == Some(before + k) && paths[k] != [] && IsInnermost(t, paths[k], p);
      assert (paths + more)[k] == paths[k];
    }
  }

  lemma NothingWithin(t: Type, at: int, outer: Option, before: nat)
    requires WellFormed(t)
    ensures PartDescribes(t, [], [], at, outer, before, 0)
  {
  }

  /** A component comes first, and is what is around the instances in its fields. */
  lemma WithSelf(t: Type, paths: seq<Path>, xs: seq<Instance>, at: int, parent: Option, before: nat)
    requires WellFormed(t) && t.Component? && PartDescribes(t, paths, xs, at, Some(before), before + 1, |t.fields|)
    ensures DescribesType(t, [[]] + paths, [Instance(at, parent)] + xs, at, parent, before)
  {
    var all := [[]] + paths;
    SelfFirst(t, paths);
    hide IsInstance, WellFormed, IsInnermost, OnlyOuter, IsParentIn, IsParentOf, AllWithin;
    forall i | 0 <= i < |all|
      ensures IsParentOf(t, all, all[i], parent, before, ([Instance(at, parent)] + xs)[i].parent)
    {
      if i > 0 {
        PathIsWithin(t, paths, i - 1);
        ParentWithSelf(t, paths, paths[i - 1], before, parent, xs[i - 1].parent);
      } else {
        NothingOutside(t, all, parent, before);
      }
    }
  }

  lemma SelfFirst(t: Type, paths: seq<Path>)
    requires t.Component? && AllWithin(t, paths, |t.fields|)
    ensures forall p :: p in [[]] + paths <==> IsInstance(t, p)
    ensures forall i, j :: 0 <= i < j < |[[]] + paths| ==> ([[]] + paths)[i] != ([[]] + paths)[j]
  {
    var all := [[]] + paths;
    forall p ensures p in all <==> IsInstance(t, p) {
      assert p in all <==> p == [] || p in paths;
    }
    hide IsInstance;
    forall i, j | 0 <= i < j < |all| ensures all[i] != all[j] {
      assert all[j] in paths;
    }
  }

  lemma PathIsWithin(t: Type, paths: seq<Path>, i: nat)
    requires t.Component? && AllWithin(t, paths, |t.fields|) && i < |paths|
    ensures paths[i] != []
  {
    assert paths[i] in paths;
  }

  lemma NothingOutside(t: Type, paths: seq<Path>, parent: Option, before: nat)
    ensures IsParentOf(t, paths, [], parent, before, parent)
  {
  }

  lemma ParentWithSelf(t: Type, paths: seq<Path>, p: Path, before: nat, outer: Option, parent: Option)
    requires t.Component? && p != [] && IsParentIn(t, paths, p, Some(before), before + 1, parent)
    ensures IsParentOf(t, [[]] + paths, p, outer, before, parent)
  {
    var all := [[]] + paths;
    if parent == Some(before) && OnlyOuter(t, p) {
      assert IsInnermost(t, all[0], p);
    } else {
      hide IsInnermost, OnlyOuter;
      var k: nat :| k < |paths| && parent == Some(before + 1 + k) && paths[k] != [] && IsInnermost(t, paths[k], p);
      assert all[k + 1] == paths[k];
    }
  }

  /** Nothing is around the elements of an array but what is around the array. */
  lemma WithoutSelf(t: Type, paths: seq<Path>, xs: seq<Instance>, at: int, parent: Option, before: nat)
    requires WellFormed(t) && t.Array? && PartDescribes(t, paths, xs, at, parent, before, t.dimension)
    ensures DescribesType(t, paths, xs, at, parent, before)
  {
    forall p ensures p in paths <==> IsInstance(t, p) {
    }
    hide IsInstance, WellFormed, IsInnermost;
    forall i | 0 <= i < |paths|
      ensures IsParentOf(t, paths, paths[i], parent, before, xs[i].parent)
    {
      assert IsParentIn(t, paths, paths[i], parent, before, xs[i].parent);
    }
  }

  lemma NoFields(fields: seq<Type>, at: int, parent: Option, before: nat)
    requires FieldsWellFormed(fields)
    ensures FieldInstances(fields, at, parent, before, 0) == []
  {
  }

  lemma MoreFields(fields: seq<Type>, at: int, parent: Option, before: nat, n: nat)
    requires 0 < n <= |fields| && FieldsWellFormed(fields)
    ensures var first := FieldInstances(fields, at, parent, before, n - 1);
            && WellFormed(fields[n - 1])
            && FieldInstances(fields, at, parent, before, n) ==
               first + Instances(fields[n - 1], at + Offset(fields, n - 1), parent, before + |first|)
  {
    hide WellFormed, Offset, Instances;
  }

  lemma {:induction false} FieldsDescribed(t: Type, at: int, outer: Option, before: nat, n: nat)
      returns (paths: seq<Path>)
    requires WellFormed(t) && t.Component? && n <= |t.fields|
    ensures PartDescribes(t, paths, FieldInstances(t.fields, at, outer, before, n), at, outer, before, n)
    decreases t, 0, n
  {
    assert FieldsWellFormed(t.fields);
    hide PartDescribes, DescribesType, WellFormed, Offset, FieldsWellFormed, Instances, Size, FieldInstances;
    if n == 0 {
      paths := [];
      NothingWithin(t, at, outer, before);
      NoFields(t.fields, at, outer, before);
    } else {
      var h := Field(n - 1);
      BehindIsWellFormed(t, h);
      var first := FieldInstances(t.fields, at, outer, before, n - 1);
      paths := FieldsDescribed(t, at, outer, before, n - 1);
      var sub := InstancesDescribed(t.fields[n - 1], at + HopOffset(t, h), outer, before + |first|);
      OneMoreHop(t, paths, first, at, outer, before, n - 1, sub,
                 Instances(t.fields[n - 1], at + HopOffset(t, h), outer, before + |first|));
      MoreFields(t.fields, at, outer, before, n);
      paths := paths + Prefixed(h, sub);
    }
  }

  lemma {:induction false} ElementsDescribed(t: Type, at: int, outer: Option, before: nat, n: nat)
      returns (paths: seq<Path>)
    requires WellFormed(t) && t.Array? && n <= t.dimension
    ensures PartDescribes(t, paths, ElementInstances(t.base, at, outer, before, n), at, outer, before, n)
    decreases t, 0, n
  {
    hide PartDescribes, DescribesType, WellFormed, Unit, ElementInstances;
    BehindWhole(t);
    if n == 0 {
      paths := [];
      NothingWithin(t, at, outer, before);
      NoElements(t.base, at, outer, before);
    } else {
      var h, first := Element(n - 1), ElementInstances(t.base, at, outer, before, n - 1);
      paths := ElementsDescribed(t, at, outer, before, n - 1);
      var sub := InstancesDescribed(t.base, at + HopOffset(t, h), outer, before + |first|);
      OneMoreHop(t, paths, first, at, outer, before, n - 1, sub,
                 Instances(t.base, at + HopOffset(t, h), outer, before + |first|));
      NextElement(t.base, at, outer, before, n - 1);
      paths := paths + Prefixed(h, sub);
    }
  }

  lemma BehindWhole(t: Type)
    requires WellFormed(t) && t.Array?
    ensures WellFormed(t.base)
  {
  }

  /** The instances of a type are those at the ends of the paths through it. */
  lemma {:induction false} InstancesDescribed(t: Type, at: int, parent: Option, before: nat) returns (paths: seq<Path>)
    requires WellFormed(t)
    ensures DescribesType(t, paths, Instances(t, at, parent, before), at, parent, before)
    decreases t, 1, 0
  {
    hide PartDescribes;
    match t
    case Component(fields) =>
      var part := FieldsDescribed(t, at, Some(before), before + 1, |fields|);
      WithSelf(t, part, FieldInstances(fields, at, Some(before), before + 1, |fields|), at, parent, before);
      paths := [[]] + part;
    case Array(base, dimension) =>
      paths := ElementsDescribed(t, at, parent, before, dimension);
      WithoutSelf(t, paths, ElementInstances(base, at, parent, before, dimension), at, parent, before);
    case _ =>
      paths := [];
  }

  // ----- one declaration after the other

  ghost function PlacesIn(n: nat, paths: seq<Path>): (r: seq<Place>)
    ensures |r| == |paths| && forall i :: 0 <= i < |paths| ==> r[i] == Place(n, paths[i])
  {
    seq(|paths|, i requires 0 <= i < |paths| => Place(n, paths[i]))
  }

  lemma {:induction false} SizeOfFirst(types: seq<Type>, more: seq<Type>, n: nat)
    requires AllWellFormed(types) && AllWellFormed(more) && types <= more && n <= |types|
    ensures SizeBefore(types, n) == SizeBefore(more, n)
  {
    if n > 0 {
      SizeOfFirst(types, more, n - 1);
    }
  }

  lemma PlacesOfNext(types: seq<Type>, t: Type, places: seq<Place>, sub: seq<Path>)
    requires forall p :: p in places <==> IsDeclared(types, p)
    requires forall p :: p in sub <==> IsInstance(t, p)
    requires forall i, j :: 0 <= i < j < |places| ==> places[i] != places[j]
    requires forall i, j :: 0 <= i < j < |sub| ==> sub[i] != sub[j]
    ensures var all := places + PlacesIn(|types|, sub);
            && (forall p :: p in all <==> IsDeclared(types + [t], p))
            && forall i, j :: 0 <= i < j < |all| ==> all[i] != all[j]
  {
    hide IsInstance;
    var more := PlacesIn(|types|, sub);
    var all := places + more;
    forall p ensures p in all <==> IsDeclared(types + [t], p) {
      if p.declaration == |types| && p.path in sub {
        var i :| 0 <= i < |sub| && sub[i] == p.path;
        assert more[i] == p;
      }
      if p in more {
        var i :| 0 <= i < |more| && more[i] == p;
        assert sub[i] in sub;
      }
      assert p in places ==> p.declaration < |types|;
    }
    forall i, j | 0 <= i < j < |all| ensures all[i] != all[j] {
      if i < |places| <= j {
        assert all[i] in places;
      }
    }
  }

  lemma NextDeclaration(types: seq<Type>, t: Type, places: seq<Place>, xs: seq<Instance>, sub: seq<Path>,
                        ys: seq<Instance>)
    requires AllWellFormed(types) && WellFormed(t) && Describes(types, places, xs)
    requires DescribesType(t, sub, ys, SizeBefore(types, |types|), None, |xs|)
    ensures AllWellFormed(types + [t])
    ensures Describes(types + [t], places + PlacesIn(|types|, sub), xs + ys)
  {
    hide WellFormed, AllWellFormed, IsDescribed, IsDeclared, IsInstance, SizeBefore, PlacesIn, Located, IsParentOf;
    AllStayWellFormed(types, t);
    PlacesOfNext(types, t, places, sub);
    assert |ys| == |sub| by { SameNumber(t, sub, ys, SizeBefore(types, |types|)); }
    forall i: nat | i < |places| + |sub|
      ensures IsDescribed(types + [t], places + PlacesIn(|types|, sub), i, (xs + ys)[i])
    {
      if i < |places| {
        StaysDescribed(types, t, places, PlacesIn(|types|, sub), i, xs[i]);
      } else {
        TypeDescribes(t, sub, ys, SizeBefore(types, |types|), None, |xs|, i - |places|);
        NowDescribed(types, t, places, sub, i - |places|, ys[i - |places|]);
        assert (xs + ys)[i] == ys[i - |places|];
      }
    }
  }

  lemma SameNumber(t: Type, paths: seq<Path>, xs: seq<Instance>, at: int)
    requires WellFormed(t) && Located(t, paths, xs, at)
    ensures |xs| == |paths|
  {
  }

  lemma TypeDescribes(t: Type, sub: seq<Path>, ys: seq<Instance>, at: int, outer: Option, before: nat, i: nat)
    requires WellFormed(t) && DescribesType(t, sub, ys, at, outer, before) && i < |sub|
    ensures |ys| == |sub| && IsInstance(t, sub[i]) && ys[i].address == at + PathOffset(t, sub[i])
    ensures IsParentOf(t, sub, sub[i], outer, before, ys[i].parent)
  {
    hide WellFormed, IsInstance, IsParentOf;
    assert sub[i] in sub;
  }

  lemma AllStayWellFormed(types: seq<Type>, t: Type)
    requires AllWellFormed(types) && WellFormed(t)
    ensures AllWellFormed(types + [t])
  {
    hide WellFormed;
  }

  lemma StaysDescribed(types: seq<Type>, t: Type, places: seq<Place>, more: seq<Place>, i: nat, x: Instance)
    requires AllWellFormed(types) && WellFormed(t) && i < |places| && IsDescribed(types, places, i, x)
    ensures AllWellFormed(types + [t]) && IsDescribed(types + [t], places + more, i, x)
  {
    hide IsInstance, WellFormed, IsInnermost, Encloses, AllWellFormed;
    AllStayWellFormed(types, t);
    SizeOfFirst(types, types + [t], places[i].declaration);
  }

  lemma NowDescribed(types: seq<Type>, t: Type, places: seq<Place>, sub: seq<Path>, i: nat, x: Instance)
    requires AllWellFormed(types) && WellFormed(t) && i < |sub| && IsInstance(t, sub[i])
    requires x.address == SizeBefore(types, |types|) + PathOffset(t, sub[i])
    requires IsParentOf(t, sub, sub[i], None, |places|, x.parent)
    ensures AllWellFormed(types + [t])
    ensures IsDescribed(types + [t], places + PlacesIn(|types|, sub), |places| + i, x)
  {
    hide IsInstance, WellFormed, IsParentOf, IsParent, SizeBefore, PathOffset, PlacesIn, AllWellFormed;
    AllStayWellFormed(types, t);
    SizeOfFirst(types, types + [t], |types|);
    ParentInNext(types, t, places, sub, i, x.parent);
    PlaceInNext(places, |types|, sub, i);
  }

  lemma PlaceInNext(places: seq<Place>, n: nat, sub: seq<Path>, i: nat)
    requires i < |sub|
    ensures (places + PlacesIn(n, sub))[|places| + i] == Place(n, sub[i])
  {
  }

  lemma ParentInNext(types: seq<Type>, t: Type, places: seq<Place>, sub: seq<Path>, i: nat, parent: Option)
    requires i < |sub| && IsParentOf(t, sub, sub[i], None, |places|, parent)
    ensures (places + PlacesIn(|types|, sub))[|places| + i].declaration == |types|
    ensures IsParent(types + [t], places + PlacesIn(|types|, sub), |places| + i, parent)
  {
    hide IsInnermost, Encloses, PlacesIn;
    PlaceInNext(places, |types|, sub, i);
    if !(parent == None && forall q :: !Encloses(t, q, sub[i])) {
      var k: nat :| k < |sub| && parent == Some(|places| + k) && IsInnermost(t, sub[k], sub[i]);
      PlaceInNext(places, |types|, sub, k);
    }
  }

  lemma NothingDeclared()
    ensures Describes([], [], [])
  {
  }

  class InstanceTable {
    var instances: seq<Instance>

    constructor ()
      ensures instances == []
    {
      instances := [];
    }

    /** Adds an instance and all instances that it contains. */
    method Instantiate(t: Type, address: int, parent: Option)
      requires WellFormed(t)
      modifies this
      ensures instances == old(instances) + Instances(t, address, parent, |old(instances)|)
      decreases t, 0
    {
      match t
      case Component(fields) =>
        var self := |instances|;
        instances := instances + [Instance(address, parent)];
        InstantiateFields(fields, address, self);
      case Array(base, dimension) =>
        InstantiateElements(base, address, dimension, parent);
      case _ =>
    }

    method InstantiateFields(fields: seq<Type>, address: int, self: nat)
      requires FieldsWellFormed(fields) && |instances| == self + 1
      modifies this
      ensures instances == old(instances) + FieldInstances(fields, address, Some(self), self + 1, |fields|)
      decreases fields, 1
    {
      hide Offset, WellFormed;
      var i := 0;
      while i < |fields|
        invariant 0 <= i <= |fields|
        invariant instances == old(instances) + FieldInstances(fields, address, Some(self), self + 1, i)
      {
        var offset := ComputeOffset(fields, i);
        assert fields[i] in fields;
        Instantiate(fields[i], address + offset, Some(self));
        i := i + 1;
      }
    }

    method InstantiateElements(base: Type, address: int, dimension: nat, parent: Option)
      requires WellFormed(base)
      modifies this
      ensures instances == old(instances) + ElementInstances(base, address, parent, |old(instances)|, dimension)
      decreases base, 1
    {
      hide WellFormed, Unit, ElementInstances, Instances;
      var unit := ComputeUnit(base);
      ghost var before := |instances|;
      NoElements(base, address, parent, before);
      var idx := 0;
      while idx != dimension
        invariant 0 <= idx <= dimension
        invariant instances == old(instances) + ElementInstances(base, address, parent, before, idx)
        decreases dimension - idx
      {
        NextElement(base, address, parent, before, idx);
        Instantiate(base, address + unit * idx, parent);
        idx := idx + 1;
      }
    }

    /**
      Gives addresses to instances that are declared one after the other: one for each path to a component
      in them, at the sizes of the declarations before plus the offset of the path.
      */
    method Enumerate(types: seq<Type>) returns (ghost places: seq<Place>)
      requires instances == [] && AllWellFormed(types)
      modifies this
      ensures Describes(types, places, instances)
      ensures Growing(instances, 0, SizeBefore(types, |types|)) && ParentsFirst(instances, None, 0)
    {
      hide Growing, ParentsFirst, Instances, Size, WellFormed, Describes, DescribesType;
      NoInstances(0, None, 0);
      NothingDeclared();
      places := [];
      var address := 0;
      var i := 0;
      assert types[..0] == [];
      while i < |types|
        invariant 0 <= i <= |types| && AllWellFormed(types[..i]) && address == SizeBefore(types, i)
        invariant Growing(instances, 0, address) && ParentsFirst(instances, None, 0)
        invariant Describes(types[..i], places, instances)
      {
        ghost var before := instances;
        assert types[i] in types && types[..i + 1] == types[..i] + [types[i]];
        Instantiate(types[i], address, None);
        ghost var more := Instances(types[i], address, None, |before|);
        ghost var sub := InstancesDescribed(types[i], address, None, |before|);
        SizeOfFirst(types[..i], types, i);
        NextDeclaration(types[..i], types[i], places, before, sub, more);
        InstancesGrow(types[i], address, None, |before|);
        var size := ComputeSize(types[i]);
        GrowingBoth(before, more, 0, address, address, address + size);
        ParentsBoth(before, more, None, 0);
        places := places + PlacesIn(i, sub);
        address := address + size;
        i := i + 1;
      }
      assert types[..i] == types;
    }

    /**
      Gives memory to every top-level instance and finds the others in it; `blocks` is where the
      memory allocator puts the top-level instances.
      */
    method AllocateInstances(blocks: seq<int>) returns (components: seq<int>)
      requires |blocks| == |instances| && ParentsFirst(instances, None, 0)
      ensures |components| == |instances|
      ensures forall i :: 0 <= i < |instances| ==>
                var top := TopLevel(instances, i);
                components[i] == blocks[top] + instances[i].address - instances[top].address
    {
      components := [];
      var i := 0;
      while i < |instances|
        invariant 0 <= i <= |instances| && |components| == i
        invariant forall k :: 0 <= k < i ==>
                    var top := TopLevel(instances, k);
                    components[k] == blocks[top] + instances[k].address - instances[top].address
      {
        var x := instances[i];
        match x.parent {
          case None => components := components + [blocks[i]];
          case Some(p) =>
            components := components + [components[p] + (x.address - instances[p].address)];
        }
        i := i + 1;
      }
    }
  }

  /** The top-level instance that contains an instance. */
  ghost function TopLevel(instances: seq<Instance>, i: nat): (top: nat)
    requires i < |instances| && ParentsFirst(instances, None, 0)
    ensures top <= i && instances[top].parent == None
    decreases i
  {
    match instances[i].parent
    case None => i
    case Some(p) => TopLevel(instances, p)
  }

  // ----- in memory

  /** The top-level instance of an instance is of the same declaration, on the way to it, and within nothing. */
  lemma {:induction false} TopIsContainer(types: seq<Type>, places: seq<Place>, instances: seq<Instance>, i: nat)
    requires AllWellFormed(types) && Describes(types, places, instances) && ParentsFirst(instances, None, 0)
    requires i < |instances|
    ensures var top := TopLevel(instances, i);
            && places[top].declaration == places[i].declaration && places[top].path <= places[i].path
            && forall q :: !Encloses(types[places[top].declaration], q, places[top].path)
    decreases i
  {
    hide IsInstance, WellFormed, AddressOf;
    assert IsDescribed(types, places, i, instances[i]);
    match instances[i].parent
    case None =>
    case Some(p) =>
      TopIsContainer(types, places, instances, p);
  }

  /** In the memory of a declared component, every instance is at the offset of its path. */
  lemma OffsetInMemory(types: seq<Type>, places: seq<Place>, instances: seq<Instance>, i: nat)
    requires AllWellFormed(types) && Describes(types, places, instances) && ParentsFirst(instances, None, 0)
    requires i < |instances| && IsDeclared(types, places[i]) && types[places[i].declaration].Component?
    ensures var top := TopLevel(instances, i);
            instances[i].address - instances[top].address == PathOffset(types[places[i].declaration], places[i].path)
  {
    hide WellFormed;
    TopIsContainer(types, places, instances, i);
    var top := TopLevel(instances, i);
    assert places[top].path == [] || Encloses(types[places[top].declaration], [], places[top].path);
    assert IsDescribed(types, places, top, instances[top]) && IsDescribed(types, places, i, instances[i]);
  }
}
