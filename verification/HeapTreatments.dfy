/**
  Which heaps a collection collects: the one it starts at, if that is forced or due, and those below it that
  are still there and due; and what becomes of them.
  */
module HeapTreatments {
  import opened BlockTrees
  import opened HeapSpec
  import opened HeapMarks
  import opened HeapFamilies
  import opened HeapCollections

  ghost predicate IsSized(w: World) { w.sizes.Keys == w.shows.Keys == w.above.Keys }

  /** More is allocated than the threshold of the heap. */
  ghost predicate IsOver(w: World, x: int)
    requires x in w.sizes
  {
    w.sizes[x].used > w.sizes[x].threshold
  }

  ghost predicate IsDue(w: World, x: int, a: int, force: bool)
    requires x in w.sizes
  {
    (x == a && force) || IsOver(w, x)
  }

  /** The heap looks like one that has just been collected, and its sizes follow from what is left. */
  ghost predicate LooksCollected(before: View, after: View, sizes: Sizes) {
    && (exists words :: Collected(before, after.(words := words)))
    && sizes.used == SLOT * |after.inUse| && sizes.threshold == 2 * sizes.used && sizes.block == sizes.used
  }

  /** Since the `n`-th collection heap `x` has been collected, and looks like that. */
  ghost predicate WasCollected(w: World, n: nat, x: int) {
    && x in w.shows && x in w.sizes
    && exists k: nat :: n <= k < |w.collected| && w.collected[k].heap == x &&
         LooksCollected(w.collected[k].before, w.shows[x], w.sizes[x])
  }

  ghost predicate NotCollected(collected: seq<Collection>, n: nat, x: int) {
    forall k: nat :: n <= k < |collected| ==> collected[k].heap != x
  }

  ghost predicate SameHeap(w: World, w': World, x: int) {
    && x in w.shows && x in w'.shows && x in w.sizes && x in w'.sizes
    && w'.shows[x] == w.shows[x] && w'.sizes[x] == w.sizes[x]
  }

  /** A heap that is due has been collected, and any other one has been left as it was. */
  ghost predicate Treated(w: World, w': World, x: int, due: bool) {
    if due then WasCollected(w', |w.collected|, x)
    else SameHeap(w, w', x) && NotCollected(w'.collected, |w.collected|, x)
  }

  /** No heap has been collected twice since then. */
  ghost predicate Once(collected: seq<Collection>, n: nat) {
    forall j: nat, k: nat :: n <= j < k < |collected| ==> collected[j].heap != collected[k].heap
  }

  /** What a collection that starts at heap `a` collects, and that it collects nothing else. */
  ghost predicate AllTreated(w: World, w': World, a: int, force: bool) {
    && IsSized(w) && IsSized(w') && a in w.shows && a in w'.shows && w.collected <= w'.collected
    && (forall x :: x in w'.shows && Under(w.above, x, a) ==>
          x in w.shows && Treated(w, w', x, IsDue(w, x, a, force)))
    && (forall x :: x in w.shows && !Under(w.above, x, a) ==> SameHeap(w, w', x))
    && (forall k: nat :: |w.collected| <= k < |w'.collected| ==>
          w'.collected[k].heap in w'.shows && Under(w.above, w'.collected[k].heap, a))
    && Once(w'.collected, |w.collected|)
    && (IsDue(w, a, a, force) ==>
          |w'.collected| > |w.collected| && w'.collected[|w.collected|].heap == a)
  }

  /** The first `i` children of heap `a` have been treated, with all below them. */
  ghost predicate PartTreated(w: World, w': World, a: int, force: bool, i: nat) {
    && IsSized(w) && IsSized(w') && a in w.shows && a in w'.shows && w.collected <= w'.collected
    && Treated(w, w', a, IsDue(w, a, a, force))
    && (forall x, k: nat :: k < i && UnderChild(w, a, k, x) && x in w'.shows ==> Treated(w, w', x, IsOver(w, x)))
    && (forall x, k: nat :: i <= k && UnderChild(w, a, k, x) ==> SameHeap(w, w', x))
    && (forall x :: x in w.shows && !Under(w.above, x, a) ==> SameHeap(w, w', x))
    && (forall k: nat :: |w.collected| <= k < |w'.collected| ==> IsTreatedPart(w, w', a, i, w'.collected[k].heap))
    && Once(w'.collected, |w.collected|)
    && (IsDue(w, a, a, force) ==>
          |w'.collected| > |w.collected| && w'.collected[|w.collected|].heap == a)
  }

  ghost predicate IsTreatedPart(w: World, w': World, a: int, i: nat, x: int)
    requires a in w.shows
  {
    x in w'.shows && (x == a || exists k: nat :: k < i && UnderChild(w, a, k, x))
  }

  // ----- heap `a` itself

  /** Heap `a` was collected, if due, and has the sizes that follow from it. */
  ghost predicate SizedAt(w: World, w': World, a: int, mine: seq<Collection>, force: bool) {
    && IsSized(w) && a in w.shows && w'.sizes.Keys == w.sizes.Keys
    && (forall x :: x in w.sizes && x != a ==> w'.sizes[x] == w.sizes[x])
    && (mine != [] <==> IsDue(w, a, a, force))
    && (if mine == [] then w'.sizes == w.sizes else
        a in w'.shows && w'.sizes[a] == Sizes(SLOT * |w'.shows[a].inUse|, 2 * (SLOT * |w'.shows[a].inUse|),
                                              SLOT * |w'.shows[a].inUse|))
  }

  lemma StartsTreated(w: World, w': World, a: int, v': View, mine: seq<Collection>, force: bool, loose: set<int>)
    requires CollectedAt(w, w', a, v', mine) && SizedAt(w, w', a, mine, force)
    requires Family(KidsOf(w.shows), w.above, loose)
    ensures PartTreated(w, w', a, force, 0)
  {
    hide Collected, SameWords, Headed, AreSlots, Family, WrittenIn;
    forall k: nat | UnderChild(w, a, k, a) ensures false {
      NotUnderChild(w, a, k, loose);
    }
    if mine != [] {
      assert w'.collected[|w.collected|] == mine[0];
      assert LooksCollected(mine[0].before, v', w'.sizes[a]);
    }
  }

  // ----- one child after the other

  lemma TreatedLater(w: World, w1: World, w2: World, x: int, due: bool)
    requires Treated(w, w1, x, due) && SameHeap(w1, w2, x)
    requires w.collected <= w1.collected <= w2.collected && NotCollected(w2.collected, |w1.collected|, x)
    ensures Treated(w, w2, x, due)
  {
    hide LooksCollected;
    assert forall k: nat :: k < |w1.collected| ==> w2.collected[k] == w1.collected[k];
  }

  lemma TreatedNow(w: World, w1: World, w2: World, x: int)
    requires SameHeap(w, w1, x) && Treated(w1, w2, x, IsOver(w1, x))
    requires w.collected <= w1.collected <= w2.collected && NotCollected(w1.collected, |w.collected|, x)
    ensures Treated(w, w2, x, IsOver(w, x))
  {
    hide LooksCollected;
    assert forall k: nat :: k < |w1.collected| ==> w2.collected[k] == w1.collected[k];
  }

  /** Up to now no heap below the `i`-th child has been collected. */
  lemma NotYetCollected(w: World, w1: World, a: int, force: bool, i: nat, x: int)
    requires PartTreated(w, w1, a, force, i) && Around(w, a, i) && UnderChild(w, a, i, x)
    ensures NotCollected(w1.collected, |w.collected|, x)
  {
    hide Treated, Once;
    forall k: nat | |w.collected| <= k < |w1.collected|
      ensures w1.collected[k].heap != x
    {
      assert IsTreatedPart(w, w1, a, i, w1.collected[k].heap);
    }
  }

  /** From now on only heaps below the `i`-th child have been. */
  lemma NotThereCollected(w: World, w1: World, w2: World, a: int, i: nat, x: int)
    requires a in w.shows && i < |w.shows[a].children| && AllTreated(w1, w2, w.shows[a].children[i], false)
    requires !Under(w1.above, x, w.shows[a].children[i])
    ensures NotCollected(w2.collected, |w1.collected|, x)
  {
  }

  ghost predicate Continues(w: World, w1: World) {
    forall x :: x in w1.shows ==> x in w.shows && x in w.above && x in w1.above && w1.above[x] == w.above[x]
  }

  lemma ChildTreated(w: World, w1: World, w2: World, a: int, force: bool, i: nat)
    requires PartTreated(w, w1, a, force, i) && i < |w.shows[a].children| && Around(w, a, i) && Continues(w, w1)
    requires AllTreated(w1, w2, w.shows[a].children[i], false)
    requires forall x :: x in w2.shows ==> x in w1.shows
    ensures PartTreated(w, w2, a, force, i + 1)
  {
    hide Treated, Once, IsOver;
    var c := w.shows[a].children[i];
    TreatedOutside(w, w1, w2, a, i, a, IsDue(w, a, a, force));
    forall x, k: nat | k < i + 1 && UnderChild(w, a, k, x) && x in w2.shows
      ensures Treated(w, w2, x, IsOver(w, x))
    {
      if k == i {
        NotYetCollected(w, w1, a, force, i, x);
        TreatedNow(w, w1, w2, x);
      } else {
        TreatedOutside(w, w1, w2, a, i, x, IsOver(w, x));
      }
    }
    RestIsSame(w, w1, w2, a, force, i);
    RecordsGrow(w, w1, w2, a, force, i);
  }

  lemma TreatedOutside(w: World, w1: World, w2: World, a: int, i: nat, x: int, due: bool)
    requires a in w.shows && i < |w.shows[a].children| && Continues(w, w1)
    requires AllTreated(w1, w2, w.shows[a].children[i], false)
    requires x in w1.shows && !UnderChild(w, a, i, x) && w.collected <= w1.collected && Treated(w, w1, x, due)
    ensures Treated(w, w2, x, due)
  {
    hide Treated, Once;
    NotThereCollected(w, w1, w2, a, i, x);
    TreatedLater(w, w1, w2, x, due);
  }

  lemma RestIsSame(w: World, w1: World, w2: World, a: int, force: bool, i: nat)
    requires PartTreated(w, w1, a, force, i) && i < |w.shows[a].children| && Around(w, a, i) && Continues(w, w1)
    requires AllTreated(w1, w2, w.shows[a].children[i], false)
    ensures forall x, k: nat :: i + 1 <= k && UnderChild(w, a, k, x) ==> SameHeap(w, w2, x)
    ensures forall x :: x in w.shows && !Under(w.above, x, a) ==> SameHeap(w, w2, x)
  {
    hide Treated, Once;
    forall x, k: nat | i + 1 <= k && UnderChild(w, a, k, x) ensures SameHeap(w, w2, x) {
      assert SameHeap(w, w1, x) && !UnderChild(w, a, i, x);
    }
    forall x | x in w.shows && !Under(w.above, x, a) ensures SameHeap(w, w2, x) {
      assert SameHeap(w, w1, x) && !UnderChild(w, a, i, x);
    }
  }

  lemma RecordsGrow(w: World, w1: World, w2: World, a: int, force: bool, i: nat)
    requires PartTreated(w, w1, a, force, i) && i < |w.shows[a].children| && Around(w, a, i) && Continues(w, w1)
    requires AllTreated(w1, w2, w.shows[a].children[i], false)
    requires forall x :: x in w2.shows ==> x in w1.shows
    ensures forall k: nat :: |w.collected| <= k < |w2.collected| ==>
              IsTreatedPart(w, w2, a, i + 1, w2.collected[k].heap)
    ensures Once(w2.collected, |w.collected|) && w.collected <= w2.collected
    ensures IsDue(w, a, a, force) ==> |w2.collected| > |w.collected| && w2.collected[|w.collected|].heap == a
  {
    hide Treated;
    var c := w.shows[a].children[i];
    forall k: nat | |w.collected| <= k < |w2.collected|
      ensures IsTreatedPart(w, w2, a, i + 1, w2.collected[k].heap)
      ensures k < |w1.collected| ==> !UnderChild(w, a, i, w2.collected[k].heap)
      ensures k >= |w1.collected| ==> UnderChild(w, a, i, w2.collected[k].heap)
    {
      if k < |w1.collected| {
        assert w2.collected[k] == w1.collected[k];
        assert IsTreatedPart(w, w1, a, i, w1.collected[k].heap);
        assert !UnderChild(w, a, i, w1.collected[k].heap);
        assert SameHeap(w1, w2, w1.collected[k].heap);
      } else {
        assert w2.collected[k].heap in w1.shows && UnderChild(w, a, i, w2.collected[k].heap);
      }
    }
    forall j: nat, k: nat | |w.collected| <= j < k < |w2.collected|
      ensures w2.collected[j].heap != w2.collected[k].heap
    {
      if k < |w1.collected| {
        assert w2.collected[j] == w1.collected[j] && w2.collected[k] == w1.collected[k];
      }
    }
  }

  lemma ChildGone(w: World, w1: World, w2: World, a: int, force: bool, i: nat)
    requires PartTreated(w, w1, a, force, i) && i < |w.shows[a].children| && Around(w, a, i) && Continues(w, w1)
    requires Deleted(w1, w2, w.shows[a].children[i]) && IsSized(w2)
    requires forall x :: x in w2.sizes ==> x in w1.sizes && w2.sizes[x] == w1.sizes[x]
    ensures PartTreated(w, w2, a, force, i + 1)
  {
    hide Treated, Once, IsOver;
    var c := w.shows[a].children[i];
    forall x | x in w1.shows && !UnderChild(w, a, i, x) ensures SameHeap(w1, w2, x) {
    }
    forall x, due | x in w1.shows && !UnderChild(w, a, i, x) && Treated(w, w1, x, due) ensures Treated(w, w2, x, due) {
      TreatedLater(w, w1, w2, x, due);
    }
    forall k: nat | |w.collected| <= k < |w2.collected|
      ensures IsTreatedPart(w, w2, a, i + 1, w2.collected[k].heap)
    {
      assert IsTreatedPart(w, w1, a, i, w1.collected[k].heap);
      assert SameHeap(w1, w2, w1.collected[k].heap);
    }
  }

  lemma AllAreTreated(w: World, w': World, a: int, force: bool, loose: set<int>)
    requires Family(KidsOf(w.shows), w.above, loose) && a in w.shows && NoneBelow(w.above, loose, a)
    requires PartTreated(w, w', a, force, |w.shows[a].children|)
    requires forall x :: x in w'.shows ==> x in w.shows
    ensures AllTreated(w, w', a, force)
  {
    hide Treated, Once, Family;
    var n := |w.shows[a].children|;
    forall x | x in w'.shows && Under(w.above, x, a) ensures Treated(w, w', x, IsDue(w, x, a, force)) {
      AllBelow(w, a, x, loose);
    }
    forall k: nat | |w.collected| <= k < |w'.collected|
      ensures w'.collected[k].heap in w'.shows && Under(w.above, w'.collected[k].heap, a)
    {
      assert IsTreatedPart(w, w', a, n, w'.collected[k].heap);
      AllBelow(w, a, w'.collected[k].heap, loose);
    }
  }
}
