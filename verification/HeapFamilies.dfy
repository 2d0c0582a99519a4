/**
  The tree of heaps: which heaps are the children of which.  `kids` holds the children of every heap, and
  `above` the heaps that each heap is below.
  */
module HeapFamilies {
  import opened HeapMarks

  /** Heap `x` is heap `c` or below it. */
  predicate Under(above: map<int, set<int>>, x: int, c: int) { x == c || (x in above && c in above[x]) }

  ghost predicate IsListed(kids: map<int, seq<int>>, c: int) { exists p :: p in kids && c in kids[p] }

  ghost predicate ListedOnce(kids: map<int, seq<int>>) {
    && (forall a :: a in kids ==> NoneTwice(kids[a]))
    && (forall a, b, c :: a in kids && b in kids && a != b && c in kids[a] ==> c !in kids[b])
  }

  ghost predicate ChildrenBelow(kids: map<int, seq<int>>, above: map<int, set<int>>, loose: set<int>)
    requires above.Keys == kids.Keys
  {
    forall a, c :: a in kids && c in kids[a] ==> c in kids && c !in loose && above[c] == above[a] + {a}
  }

  ghost predicate NoneBelowItself(above: map<int, set<int>>) { forall a :: a in above ==> a !in above[a] }

  ghost predicate Transitive(above: map<int, set<int>>) {
    forall a, d :: a in above && d in above[a] && d in above ==> above[d] <= above[a]
  }

  ghost predicate AllListed(kids: map<int, seq<int>>, above: map<int, set<int>>, loose: set<int>) {
    forall a :: a in above && above[a] != {} && a !in loose ==> IsListed(kids, a)
  }

  /**
    Children are heaps, each of one other heap, and no heap is below itself.  The loose heaps have been
    taken out of the list of their parent, and are about to be deleted.
    */
  ghost predicate Family(kids: map<int, seq<int>>, above: map<int, set<int>>, loose: set<int>) {
    && above.Keys == kids.Keys && loose <= kids.Keys
    && ListedOnce(kids) && ChildrenBelow(kids, above, loose)
    && NoneBelowItself(above) && Transitive(above) && AllListed(kids, above, loose)
  }

  /** No loose heap is below heap `c`. */
  ghost predicate NoneBelow(above: map<int, set<int>>, loose: set<int>, c: int) {
    forall l :: l in loose && l in above ==> c !in above[l]
  }

  /** A heap that no other one has as a child is below none. */
  lemma NotListed(kids: map<int, seq<int>>, above: map<int, set<int>>, loose: set<int>, c: int)
    requires Family(kids, above, loose) && c in kids && !IsListed(kids, c) && c !in loose
    ensures above[c] == {}
  {
  }

  /** Heaps that had a parent still have one. */
  ghost predicate ListedStill(kids: map<int, seq<int>>, kids': map<int, seq<int>>, but: set<int>) {
    forall x :: x in kids' && x !in but && IsListed(kids, x) ==> IsListed(kids', x)
  }

  lemma StillListed(kids: map<int, seq<int>>, kids': map<int, seq<int>>, but: set<int>, p: int, from: set<int>)
    requires p in kids' && forall q :: q in kids ==> (q in kids' && kids'[q] == kids[q]) || q == p || q in from
    requires forall q, x :: q in kids && (q == p || q in from) && x in kids[q] && x !in but ==> x in kids'[p]
    ensures ListedStill(kids, kids', but)
  {
    forall x | x in kids' && x !in but && IsListed(kids, x) ensures IsListed(kids', x) {
      var q :| q in kids && x in kids[q];
      assert x in kids'[if q == p || q in from then p else q];
    }
  }

  // ----- heaps come

  lemma RootAdded(kids: map<int, seq<int>>, above: map<int, set<int>>, a: int)
    requires Family(kids, above, {}) && a !in kids
    ensures Family(kids[a := []], above[a := {}], {})
  {
    forall x | x in kids && IsListed(kids, x) ensures IsListed(kids[a := []], x) {
      var p :| p in kids && x in kids[p];
      assert x in kids[a := []][p];
    }
  }

  /** What is above the heaps once `c` has become a child of `p`. */
  function Joined(above: map<int, set<int>>, p: int, c: int): map<int, set<int>>
    requires p in above
  {
    map x | x in above :: if Under(above, x, c) then above[x] + above[p] + {p} else above[x]
  }

  lemma JoinedOrder(above: map<int, set<int>>, p: int, c: int)
    requires NoneBelowItself(above) && Transitive(above) && p in above && c in above && !Under(above, p, c)
    ensures NoneBelowItself(Joined(above, p, c)) && Transitive(Joined(above, p, c))
  {
    var above' := Joined(above, p, c);
    forall a, d | a in above' && d in above'[a] && d in above' ensures above'[d] <= above'[a] {
    }
  }

  lemma ChildAdded(kids: map<int, seq<int>>, above: map<int, set<int>>, p: int, c: int)
    requires Family(kids, above, {}) && p in kids && c in kids && !IsListed(kids, c)
    requires !Under(above, p, c)
    ensures Family(kids[p := [c] + kids[p]], Joined(above, p, c), {})
  {
    hide NoneBelowItself, Transitive;
    var kids' := kids[p := [c] + kids[p]];
    JoinedOrder(above, p, c);
    AddedIsBelow(kids, above, p, c);
    AddedOnce(kids, p, c);
    hide ListedOnce, ChildrenBelow, NoneTwice;
    assert forall x :: x in kids'[p] <==> x in kids[p] || x == c;
    StillListed(kids, kids', {}, p, {});
  }

  lemma AddedIsBelow(kids: map<int, seq<int>>, above: map<int, set<int>>, p: int, c: int)
    requires Family(kids, above, {}) && p in kids && c in kids && !IsListed(kids, c)
    requires !Under(above, p, c)
    ensures ChildrenBelow(kids[p := [c] + kids[p]], Joined(above, p, c), {})
  {
    NotListed(kids, above, {}, c);
    hide NoneBelowItself, Transitive, ListedOnce, AllListed;
    var kids', above' := kids[p := [c] + kids[p]], Joined(above, p, c);
    forall a, d | a in kids' && d in kids'[a]
      ensures d in kids' && above'[d] == above'[a] + {a}
    {
      if a != p || d != c {
        assert d in kids[a];
        assert d != c;
      }
    }
  }

  lemma AddedOnce(kids: map<int, seq<int>>, p: int, c: int)
    requires ListedOnce(kids) && p in kids && !IsListed(kids, c)
    ensures ListedOnce(kids[p := [c] + kids[p]])
  {
    NoneTwiceMore(kids[p], c);
    hide NoneTwice;
  }

  lemma JoinedKeys(above: map<int, set<int>>, p: int, c: int)
    requires p in above
    ensures Joined(above, p, c).Keys == above.Keys
  {
  }

  // ----- heaps go

  /** What is above the heaps once `c` has been removed from its parent. */
  function Parted(above: map<int, set<int>>, c: int): map<int, set<int>>
    requires c in above
  {
    map x | x in above :: if Under(above, x, c) then above[x] - above[c] else above[x]
  }

  ghost predicate Removed(q: seq<int>, q': seq<int>, c: int) {
    NoneTwice(q') && forall d :: d in q' <==> d in q && d != c
  }

  /** Of two heaps that a heap is below, one is below the other. */
  lemma {:induction false} Chain(kids: map<int, seq<int>>, above: map<int, set<int>>, a: int, d: int, e: int)
    requires Family(kids, above, {}) && a in kids && d in above[a] && e in above[a] && d in kids && e in kids
    ensures d == e || d in above[e] || e in above[d]
    decreases above[a]
  {
    hide ListedOnce, Transitive;
    assert IsListed(kids, a);
    var p :| p in kids && a in kids[p];
    assert above[a] == above[p] + {p};
    assert p !in above[p];
    if d != p && e != p {
      Chain(kids, above, p, d, e);
    }
  }

  lemma PartedOrder(kids: map<int, seq<int>>, above: map<int, set<int>>, c: int)
    requires Family(kids, above, {}) && c in kids
    ensures NoneBelowItself(Parted(above, c)) && Transitive(Parted(above, c))
  {
    hide ListedOnce, ChildrenBelow, AllListed;
    var above' := Parted(above, c);
    forall a, d | a in above' && d in above'[a] && d in above' ensures above'[d] <= above'[a] {
      assert d in above[a] && above[d] <= above[a];
      if Under(above, a, c) && a != c {
        Chain(kids, above, a, c, d);
      }
    }
  }

  lemma ChildRemoved(kids: map<int, seq<int>>, above: map<int, set<int>>, p: int, c: int, rest: seq<int>)
    requires Family(kids, above, {}) && p in kids && c in kids[p] && Removed(kids[p], rest, c)
    ensures Family(kids[p := rest], Parted(above, c), {})
  {
    assert c in kids && above[c] != {};
    PartedOrder(kids, above, c);
    RemovedBelow(kids, above, p, c, rest);
    assert ListedOnce(kids[p := rest]);
    hide NoneTwice, NoneBelowItself, Transitive, ChildrenBelow, ListedOnce;
    StillListed(kids, kids[p := rest], {c}, p, {});
  }

  lemma RemovedBelow(kids: map<int, seq<int>>, above: map<int, set<int>>, p: int, c: int, rest: seq<int>)
    requires Family(kids, above, {}) && p in kids && c in kids[p] && Removed(kids[p], rest, c)
    requires c in above
    ensures ChildrenBelow(kids[p := rest], Parted(above, c), {})
  {
    var kids', above' := kids[p := rest], Parted(above, c);
    forall a, d | a in kids' && d in kids'[a]
      ensures d in kids' && above'[d] == above'[a] + {a}
    {
      assert d in kids[a] && d != c;
      if Under(above, a, c) {
        NotAbove(above, a, c);
      }
    }
  }

  lemma PartedKeys(above: map<int, set<int>>, c: int)
    requires c in above
    ensures Parted(above, c).Keys == above.Keys
  {
  }

  lemma NotAbove(above: map<int, set<int>>, a: int, c: int)
    requires NoneBelowItself(above) && Transitive(above) && a in above && c in above && Under(above, a, c)
    ensures a !in above[c]
  {
  }

  /** Children that are taken out of the list of their parent become loose. */
  lemma ChildrenLoosened(kids: map<int, seq<int>>, above: map<int, set<int>>, loose: set<int>, p: int, kept: seq<int>)
    requires Family(kids, above, loose) && p in kids && NoneTwice(kept) && Elements(kept) <= Elements(kids[p])
    ensures Family(kids[p := kept], above, loose + (Elements(kids[p]) - Elements(kept)))
  {
    hide NoneBelowItself, Transitive;
    var kids', loose' := kids[p := kept], loose + (Elements(kids[p]) - Elements(kept));
    forall c | c in kept ensures c in kids[p] {
      assert c in Elements(kept);
    }
    assert ListedOnce(kids');
    hide NoneTwice;
    forall x | x in kids && x !in loose' && IsListed(kids, x) ensures IsListed(kids', x) {
      var q :| q in kids && x in kids[q];
      assert x in kids'[q];
    }
    forall a, c | a in kids' && c in kids'[a] ensures c in kids' && c !in loose' && above[c] == above[a] + {a} {
      assert c in kids[a] && (a != p ==> c !in kids[p]);
    }
    forall x | x in loose' ensures x in kids' {
      assert x in kids[p] ==> x in kids;
    }
  }

  /** When a loose heap goes, its children are loose. */
  lemma LooseDropped(kids: map<int, seq<int>>, above: map<int, set<int>>, loose: set<int>, c: int)
    requires Family(kids, above, loose) && c in loose
    ensures Family(kids - {c}, above - {c}, loose - {c} + Elements(kids[c]))
  {
    var kids', above', loose' := kids - {c}, above - {c}, loose - {c} + Elements(kids[c]);
    assert ListedOnce(kids') && NoneBelowItself(above') && Transitive(above');
    hide ListedOnce, NoneTwice, NoneBelowItself, Transitive;
    forall x | x in kids && IsListed(kids, x) && x !in loose' && x != c ensures IsListed(kids', x) {
      var q :| q in kids && x in kids[q];
      assert q != c;
      assert x in kids'[q];
    }
    assert AllListed(kids', above', loose');
    forall x | x in loose' ensures x in kids' {
      assert x in kids[c] ==> x in kids && x !in loose;
    }
    assert ChildrenBelow(kids', above', loose') by { DroppedBelow(kids, above, loose, c); }
  }

  lemma DroppedBelow(kids: map<int, seq<int>>, above: map<int, set<int>>, loose: set<int>, c: int)
    requires Family(kids, above, loose) && c in loose
    ensures ChildrenBelow(kids - {c}, above - {c}, loose - {c} + Elements(kids[c]))
  {
    hide NoneBelowItself, Transitive, AllListed, NoneTwice;
    var kids', above' := kids - {c}, above - {c};
    forall a, d | a in kids' && d in kids'[a]
      ensures d in kids' && d !in loose - {c} + Elements(kids[c]) && above'[d] == above'[a] + {a}
    {
      assert d in kids[a] && d !in kids[c];
    }
  }

  /** A child is above none of the loose heaps, if its parent is above none. */
  lemma NoneBelowChild(kids: map<int, seq<int>>, above: map<int, set<int>>, loose: set<int>, more: set<int>, p: int,
                       c: int)
    requires Family(kids, above, loose) && p in kids && c in kids[p] && NoneBelow(above, loose, p)
    requires more <= Elements(kids[p])
    ensures NoneBelow(above, loose + more, c)
  {
    hide ListedOnce, AllListed;
    forall l | l in loose + more && l in above ensures c !in above[l] {
      if l in loose {
        assert above[c] == above[p] + {p};
      } else {
        assert above[l] == above[p] + {p} == above[c];
      }
    }
  }

  /** A heap below `c` is a child of `c` or below one. */
  lemma {:induction false} BelowMeansChild(kids: map<int, seq<int>>, above: map<int, set<int>>, loose: set<int>, c: int,
                                           x: int) returns (d: int)
    requires Family(kids, above, loose) && c in kids && NoneBelow(above, loose, c) && x in kids && c in above[x]
    ensures d in kids[c] && Under(above, x, d)
    decreases above[x]
  {
    hide ListedOnce, Transitive;
    assert IsListed(kids, x);
    var p :| p in kids && x in kids[p];
    assert above[x] == above[p] + {p};
    assert p !in above[p];
    if p == c {
      d := x;
    } else {
      d := BelowMeansChild(kids, above, loose, c, p);
    }
  }

  /** A heap is below one child only. */
  lemma {:induction false} SiblingsApart(kids: map<int, seq<int>>, above: map<int, set<int>>, loose: set<int>, p: int,
                                         c: int, d: int, x: int)
    requires Family(kids, above, loose) && p in kids && NoneBelow(above, loose, p) && c in kids[p] && d in kids[p]
    requires x in kids && Under(above, x, c) && Under(above, x, d)
    ensures c == d
    decreases above[x]
  {
    hide ListedOnce;
    assert above[c] == above[p] + {p} == above[d];
    if x != c && x != d {
      assert IsListed(kids, x);
      var q :| q in kids && x in kids[q];
      assert above[x] == above[q] + {q};
      assert q !in above[q];
      SiblingsApart(kids, above, loose, p, c, d, q);
    }
  }

  lemma ChildIsBelow(kids: map<int, seq<int>>, above: map<int, set<int>>, loose: set<int>, c: int, d: int, x: int)
    requires Family(kids, above, loose) && c in kids && d in kids[c] && x in kids && Under(above, x, d)
    ensures c in above[x]
  {
    hide ListedOnce, AllListed;
    assert above[d] == above[c] + {c};
  }

  // ----- a heap goes with all below it

  ghost predicate UnderAny(above: map<int, set<int>>, x: int, tops: seq<int>) {
    exists d :: d in tops && Under(above, x, d)
  }

  /** The heaps of the list have gone, and those below them. */
  ghost predicate Pruned(above: map<int, set<int>>, above': map<int, set<int>>, tops: seq<int>) {
    && (forall x :: x in above' <==> x in above && !UnderAny(above, x, tops))
    && (forall x :: x in above' ==> above'[x] == above[x])
  }

  lemma PrunedMore(above: map<int, set<int>>, above1: map<int, set<int>>, above2: map<int, set<int>>, tops: seq<int>,
                   d: int)
    requires Pruned(above, above1, tops) && Pruned(above1, above2, [d])
    ensures Pruned(above, above2, tops + [d])
  {
    forall x ensures x in above2 <==> x in above && !UnderAny(above, x, tops + [d]) {
      assert UnderAny(above, x, tops + [d]) <==> UnderAny(above, x, tops) || Under(above, x, d) by {
        assert forall e :: e in tops + [d] <==> e in tops || e == d;
      }
      if x in above1 {
        assert UnderAny(above1, x, [d]) <==> Under(above, x, d) by {
          assert d in [d];
        }
      }
    }
  }

  /** When the children of a heap have gone, so have all below it. */
  lemma PrunedAll(kids: map<int, seq<int>>, above: map<int, set<int>>, above': map<int, set<int>>, loose: set<int>,
                  c: int)
    requires Family(kids, above, loose) && c in kids && NoneBelow(above, loose, c)
    requires Pruned(above - {c}, above', kids[c])
    ensures Pruned(above, above', [c])
  {
    hide Family, NoneBelow;
    assert above.Keys == kids.Keys by { FamilyKeys(kids, above, loose); }
    forall x | x in above && x != c ensures UnderAny(above - {c}, x, kids[c]) <==> Under(above, x, c) {
      if Under(above, x, c) {
        var d := BelowMeansChild(kids, above, loose, c, x);
        assert Under(above - {c}, x, d);
      }
      if UnderAny(above - {c}, x, kids[c]) {
        var d :| d in kids[c] && Under(above - {c}, x, d);
        ChildIsBelow(kids, above, loose, c, d, x);
      }
    }
    forall x ensures x in above' <==> x in above && !UnderAny(above, x, [c]) {
      assert UnderAny(above, x, [c]) <==> Under(above, x, c) by {
        assert c in [c];
      }
    }
  }

  /** The children of `c` that are left when the first `i` of them have gone, with the other loose heaps. */
  ghost function Left(rest: set<int>, children: seq<int>, i: nat): set<int>
    requires i <= |children|
  {
    rest + Elements(children[i..])
  }

  lemma OneLeft(rest: set<int>, children: seq<int>, i: nat)
    requires i < |children| && NoneTwice(children) && forall d :: d in children ==> d !in rest
    ensures children[i] in Left(rest, children, i)
    ensures Left(rest, children, i) - {children[i]} == Left(rest, children, i + 1)
  {
    FirstOfRest(children, i);
    assert children[i] in children;
    hide Elements;
  }

  lemma FirstOfRest(children: seq<int>, i: nat)
    requires i < |children| && NoneTwice(children)
    ensures Elements(children[i..]) == {children[i]} + Elements(children[i + 1..])
    ensures children[i] !in Elements(children[i + 1..])
  {
    assert children[i..] == [children[i]] + children[i + 1..];
    assert children[i] !in children[i + 1..];
  }

  /** The children of a heap from the `i`-th one on that have been taken out of its list, with the other loose heaps. */
  ghost function Lost(loose: set<int>, children: seq<int>, kept: seq<int>, i: nat): set<int>
    requires i <= |children|
  {
    loose + (Elements(children[i..]) - Elements(kept))
  }

  lemma LostIs(loose: set<int>, children: seq<int>, kept: seq<int>)
    ensures Lost(loose, children, kept, 0) == loose + (Elements(children) - Elements(kept))
    ensures Lost(loose, children, kept, |children|) == loose
  {
    assert children[0..] == children;
  }

  lemma NextLost(loose: set<int>, children: seq<int>, kept: seq<int>, i: nat)
    requires i < |children| && NoneTwice(children) && forall d :: d in children ==> d !in loose
    ensures children[i] in kept ==> Lost(loose, children, kept, i) == Lost(loose, children, kept, i + 1)
    ensures children[i] !in kept ==> children[i] in Lost(loose, children, kept, i)
    ensures children[i] !in kept ==>
              Lost(loose, children, kept, i) - {children[i]} == Lost(loose, children, kept, i + 1)
  {
    FirstOfRest(children, i);
    assert children[i] in children && (children[i] in kept <==> children[i] in Elements(kept));
    hide Elements;
  }

  /** A child is above none of the loose heaps and none of the children of the same heap. */
  lemma NoneBelowLost(kids: map<int, seq<int>>, above: map<int, set<int>>, above': map<int, set<int>>, loose: set<int>,
                      a: int, kept: seq<int>, i: nat)
    requires Family(kids, above, loose) && a in kids && NoneBelow(above, loose, a) && i < |kids[a]|
    requires forall x :: x in above' ==> x in above && above'[x] == above[x]
    ensures NoneBelow(above', Lost(loose, kids[a], kept, i), kids[a][i])
  {
    assert Elements(kids[a][i..]) <= Elements(kids[a]);
    NoneBelowChild(kids, above, loose, Elements(kids[a]), a, kids[a][i]);
    assert Lost(loose, kids[a], kept, i) <= loose + Elements(kids[a]);
    hide Family;
  }

  /** The heaps that can be below a child are fewer than those that can be below its parent. */
  lemma ChildIsLower(kids: map<int, seq<int>>, above: map<int, set<int>>, loose: set<int>, a: int, c: int,
                     left: set<int>)
    requires Family(kids, above, loose) && a in kids && c in kids[a] && left <= kids.Keys
    ensures c in above && left - above[c] < kids.Keys - above[a]
  {
    hide ListedOnce, AllListed, Transitive;
    assert above[c] == above[a] + {a};
    assert a in kids.Keys - above[a] && a !in left - above[c];
  }

  /** A child that is left is above none of those that are. */
  lemma NoneBelowLeft(kids: map<int, seq<int>>, above: map<int, set<int>>, above': map<int, set<int>>, loose: set<int>,
                      c: int, i: nat)
    requires Family(kids, above, loose) && c in loose && NoneBelow(above, loose, c) && i < |kids[c]|
    requires forall x :: x in above' ==> x in above && above'[x] == above[x]
    ensures NoneBelow(above', Left(loose - {c}, kids[c], i), kids[c][i])
  {
    assert Elements(kids[c][i..]) <= Elements(kids[c]);
    NoneBelowChild(kids, above, loose, Elements(kids[c]), c, kids[c][i]);
    assert Left(loose - {c}, kids[c], i) <= loose + Elements(kids[c]);
    hide Family;
  }

  lemma LeftIs(rest: set<int>, children: seq<int>)
    ensures Left(rest, children, 0) == rest + Elements(children) && Left(rest, children, |children|) == rest
  {
    assert children[0..] == children;
  }

  lemma PrunedNothing(above: map<int, set<int>>)
    ensures Pruned(above, above, [])
  {
  }

  lemma LooseIsHeap(kids: map<int, seq<int>>, above: map<int, set<int>>, loose: set<int>, c: int)
    requires Family(kids, above, loose) && c in loose
    ensures c in kids
  {
  }

  lemma ChildrenOf(kids: map<int, seq<int>>, above: map<int, set<int>>, loose: set<int>, c: int)
    requires Family(kids, above, loose) && c in kids
    ensures NoneTwice(kids[c]) && forall d :: d in kids[c] ==> d in kids && d !in loose
  {
  }

  lemma FamilyKeys(kids: map<int, seq<int>>, above: map<int, set<int>>, loose: set<int>)
    requires Family(kids, above, loose)
    ensures above.Keys == kids.Keys
  {
  }

  // ----- one heap takes over another

  /** What is above the heaps once `j` has been merged into `i`. */
  function TakenOver(above: map<int, set<int>>, i: int, j: int): map<int, set<int>>
    requires i in above
  {
    map x | x in above && x != j :: if j in above[x] then above[x] - {j} + above[i] + {i} else above[x]
  }

  lemma TakenOrder(kids: map<int, seq<int>>, above: map<int, set<int>>, i: int, j: int)
    requires Family(kids, above, {}) && i in kids && j in kids && above[j] == {} && !Under(above, i, j)
    ensures NoneBelowItself(TakenOver(above, i, j)) && Transitive(TakenOver(above, i, j))
  {
    hide ListedOnce, ChildrenBelow, AllListed;
    var above' := TakenOver(above, i, j);
    forall a | a in above' ensures a !in above'[a] {
      assert a in above[i] ==> above[a] <= above[i];
    }
    forall a, d | a in above' && d in above'[a] && d in above' ensures above'[d] <= above'[a] {
      assert d in above[i] ==> above[d] <= above[i];
      assert d in above[a] ==> above[d] <= above[a];
      if j in above[a] && d in above[a] {
        Chain(kids, above, a, j, d);
      }
    }
  }

  lemma TakenOnce(kids: map<int, seq<int>>, i: int, j: int)
    requires ListedOnce(kids) && i in kids && j in kids && i != j
    ensures ListedOnce((kids - {j})[i := kids[i] + kids[j]])
  {
    OnceBoth(kids[i], kids[j]);
    hide NoneTwice;
    var kids' := (kids - {j})[i := kids[i] + kids[j]];
    forall a, b, c | a in kids' && b in kids' && a != b && c in kids'[a] ensures c !in kids'[b] {
      var (a', b') := (if a == i && c in kids[j] then j else a, if b == i && c in kids[j] then j else b);
      assert c in kids[a'];
      assert c !in kids[b] && (b == i ==> c !in kids[j]);
    }
  }

  lemma OnceBoth(q: seq<int>, r: seq<int>)
    requires NoneTwice(q) && NoneTwice(r) && forall c :: c in q ==> c !in r
    ensures NoneTwice(q + r)
  {
    var s := q + r;
    forall i, j | 0 <= i < j < |s| ensures s[i] != s[j] {
      if i < |q| <= j {
        assert s[i] == q[i] && q[i] in q && s[j] == r[j - |q|] && r[j - |q|] in r;
      }
    }
  }

  lemma FamiliesMerged(kids: map<int, seq<int>>, above: map<int, set<int>>, i: int, j: int)
    requires Family(kids, above, {}) && i in kids && j in kids && !IsListed(kids, j) && !Under(above, i, j)
    ensures Family((kids - {j})[i := kids[i] + kids[j]], TakenOver(above, i, j), {})
  {
    var kids' := (kids - {j})[i := kids[i] + kids[j]];
    NotListed(kids, above, {}, j);
    TakenOrder(kids, above, i, j);
    TakenOnce(kids, i, j);
    TakenBelow(kids, above, i, j);
    TakenListed(kids, above, i, j);
    hide ListedOnce, Transitive, NoneBelowItself, ChildrenBelow, AllListed;
  }

  lemma TakenListed(kids: map<int, seq<int>>, above: map<int, set<int>>, i: int, j: int)
    requires Family(kids, above, {}) && i in kids && j in kids && i != j && above[j] == {}
    ensures AllListed((kids - {j})[i := kids[i] + kids[j]], TakenOver(above, i, j), {})
  {
    hide ListedOnce, Transitive, NoneBelowItself, ChildrenBelow, NoneTwice;
    var kids', above' := (kids - {j})[i := kids[i] + kids[j]], TakenOver(above, i, j);
    StillListed(kids, kids', {}, i, {j});
    hide IsListed;
    forall x | x in above' && above'[x] != {} ensures IsListed(kids', x) {
      assert above[x] != {};
    }
  }

  lemma TakenBelow(kids: map<int, seq<int>>, above: map<int, set<int>>, i: int, j: int)
    requires Family(kids, above, {}) && i in kids && j in kids && !IsListed(kids, j) && !Under(above, i, j)
    requires above[j] == {}
    ensures ChildrenBelow((kids - {j})[i := kids[i] + kids[j]], TakenOver(above, i, j), {})
  {
    hide ListedOnce, Transitive, NoneBelowItself, AllListed;
    var kids', above' := (kids - {j})[i := kids[i] + kids[j]], TakenOver(above, i, j);
    assert forall c :: c in kids'[i] <==> c in kids[i] || c in kids[j];
    forall a, d | a in kids' && d in kids'[a]
      ensures d in kids' && above'[d] == above'[a] + {a}
    {
      var b := if a == i && d !in kids[i] then j else a;
      assert d in kids[b] && d != j;
      assert above[d] == above[b] + {b};
    }
  }

  // ----- the pointers to parents

  /** The parent of a heap that is not loose is the one that has it in its list. */
  ghost predicate ParentsRight(kids: map<int, seq<int>>, parents: map<int, int>, loose: set<int>) {
    && (forall p, c :: p in kids && c in kids[p] ==> c in parents && parents[c] == p)
    && (forall c :: c in parents && c !in loose ==> parents[c] in kids && c in kids[parents[c]])
  }

  lemma NotInParents(kids: map<int, seq<int>>, parents: map<int, int>, c: int)
    requires ParentsRight(kids, parents, {}) && c !in parents
    ensures !IsListed(kids, c)
  {
  }

  lemma ParentsAfterRoot(kids: map<int, seq<int>>, parents: map<int, int>, a: int)
    requires ParentsRight(kids, parents, {}) && a !in kids
    ensures ParentsRight(kids[a := []], parents, {})
  {
    var kids' := kids[a := []];
    forall p, c | p in kids' && c in kids'[p] ensures c in parents && parents[c] == p {
      assert c in kids[p];
    }
  }

  lemma ParentsAfterInsert(kids: map<int, seq<int>>, parents: map<int, int>, p: int, c: int)
    requires ParentsRight(kids, parents, {}) && p in kids && !IsListed(kids, c)
    ensures ParentsRight(kids[p := [c] + kids[p]], parents[c := p], {})
  {
    var kids' := kids[p := [c] + kids[p]];
    assert forall d :: d in kids'[p] <==> d in kids[p] || d == c;
    forall q, d | q in kids' && d in kids'[q] ensures d in parents[c := p] && parents[c := p][d] == q {
      assert d in kids[q] || (d == c && q == p);
    }
  }

  lemma ParentsAfterRemoval(kids: map<int, seq<int>>, parents: map<int, int>, p: int, c: int, rest: seq<int>)
    requires ListedOnce(kids) && ParentsRight(kids, parents, {}) && p in kids && c in kids[p]
    requires Removed(kids[p], rest, c)
    ensures ParentsRight(kids[p := rest], parents - {c}, {})
  {
    var kids' := kids[p := rest];
    forall q, d | q in kids' && d in kids'[q] ensures d in parents - {c} && parents[d] == q {
      assert d in kids[q] && d != c;
    }
  }

  lemma ParentsAfterLoosening(kids: map<int, seq<int>>, parents: map<int, int>, loose: set<int>, p: int, kept: seq<int>)
    requires ParentsRight(kids, parents, loose) && p in kids && Elements(kept) <= Elements(kids[p])
    ensures ParentsRight(kids[p := kept], parents, loose + (Elements(kids[p]) - Elements(kept)))
  {
    var kids' := kids[p := kept];
    forall c | c in kept ensures c in kids[p] {
      assert c in Elements(kept);
    }
  }

  lemma ParentsAfterDropping(kids: map<int, seq<int>>, parents: map<int, int>, above: map<int, set<int>>,
                             loose: set<int>, c: int)
    requires Family(kids, above, loose) && ParentsRight(kids, parents, loose) && c in loose
    ensures ParentsRight(kids - {c}, parents - {c}, loose - {c} + Elements(kids[c]))
  {
    hide ListedOnce, NoneBelowItself, Transitive, AllListed;
    var kids' := kids - {c};
    forall q, d | q in kids' && d in kids'[q] ensures d in parents - {c} && parents[d] == q {
      assert d in kids[q] && d != c;
    }
  }

  /** Merging a heap leaves the pointers of its children as they were, so they are right only if there are none. */
  lemma ParentsAfterMerge(kids: map<int, seq<int>>, parents: map<int, int>, i: int, j: int)
    requires ListedOnce(kids) && ParentsRight(kids, parents, {}) && i in kids && j in kids && i != j
    requires !IsListed(kids, j)
    ensures ParentsRight((kids - {j})[i := kids[i] + kids[j]], parents - {j}, {}) <==> kids[j] == []
  {
    var kids', parents' := (kids - {j})[i := kids[i] + kids[j]], parents - {j};
    if kids[j] != [] {
      var c := kids[j][0];
      assert c in kids[j] && !IsListed(kids, j);
      assert parents[c] == j && c != j && c in kids'[i];
      assert parents'[c] != i;
    } else {
      assert kids'[i] == kids[i];
      forall p, c | p in kids' && c in kids'[p] ensures c in parents' && parents'[c] == p {
        assert c in kids[p] && !IsListed(kids, j);
      }
    }
  }
}
