/**
  What a collection does to a heap and to the heaps below it: those that a traced word names are collected in
  turn, the other ones are deleted.
  */
module HeapCollections {
  import opened BlockTrees
  import opened HeapSpec
  import opened HeapMarks
  import opened HeapFamilies

  /** A heap that was collected: what it looked like before, and which heaps were below which. */
  datatype Collection = Collection(heap: int, before: View, above: map<int, set<int>>)

  /** What is allocated in a heap, how much may be before it is collected, and the size of its next block. */
  datatype Sizes = Sizes(used: nat, threshold: nat, block: nat)

  /** All heaps, without the words, and their sizes and parents; the words of memory; the collections so far. */
  datatype World = World(shows: map<int, View>, sizes: map<int, Sizes>, parents: map<int, int>,
                         above: map<int, set<int>>, words: map<int, int>, collected: seq<Collection>)

  ghost function KidsOf(shows: map<int, View>): map<int, seq<int>> { map x | x in shows :: shows[x].children }

  /** Some word that the collector follows, in the root or in a kept slot, holds this value. */
  ghost predicate TracedWord(v: View, value: int) {
    || (exists a :: RootWord(v, a) && Read(v.words, a) == value)
    || (exists s :: SlotTraced(v, s) && HoldsWord(v, s, value))
  }

  /** A child is kept if and only if a traced word holds its address. */
  lemma NamedIsKept(v: View, v': View, c: int)
    requires Collected(v, v') && c in v.children && !InBlocks(v.blocks, c)
    ensures c in v'.children <==> TracedWord(v, c)
  {
    hide Closed, Least, SlotTraced, Traced;
    var marks, reached := v'.inUse, Elements(v'.children);
    MarksAreTraced(v, marks, reached);
    ChildSurvives(v, marks, reached, c);
    assert IsChild(v, c);
    if Pointed(v, marks, c) {
      if s :| s in marks && HoldsWord(v, s, c) {
        assert SlotTraced(v, s);
      }
    }
  }

  /** The collection deletes heap `x`: it is, or is below, a child whose address no traced word holds. */
  ghost predicate Loses(r: Collection, x: int) {
    x in r.above && exists c :: c in r.before.children && Under(r.above, x, c) && !TracedWord(r.before, c)
  }

  /** One of the collections from the `n`-th one on deletes heap `x`. */
  ghost predicate LostSince(collected: seq<Collection>, n: nat, x: int) {
    exists k: nat :: n <= k < |collected| && Loses(collected[k], x)
  }

  /** Whatever was traced in the heaps that were collected, its head was pointed at. */
  ghost predicate PointedSince(collected: seq<Collection>, n: nat) {
    forall k: nat :: n <= k < |collected| ==> HeadsPointed(collected[k].before)
  }

  /** The heap has the same blocks and objects or fewer, and they are whole if heads were pointed at. */
  ghost predicate Shrunk(v: View, v': View, pointed: bool) {
    v'.blocks <= v.blocks && v'.inUse <= v.inUse && (Headed(v) && pointed ==> Headed(v'))
  }

  /** Memory outside of the blocks of all heaps is unchanged. */
  ghost predicate WrittenInHeaps(words: map<int, int>, words': map<int, int>, shows: map<int, View>) {
    forall a :: (forall x :: x in shows ==> !InBlocks(shows[x].blocks, a)) ==> Read(words', a) == Read(words, a)
  }

  /** Some heaps are gone, and what is allocated in the other ones has kept its contents. */
  ghost predicate Shrinks(w: World, w': World) {
    && w'.above.Keys == w'.shows.Keys && w'.shows.Keys <= w.shows.Keys && w.shows.Keys == w.above.Keys
    && w.collected <= w'.collected && WrittenInHeaps(w.words, w'.words, w.shows)
    && (forall x :: x in w'.above ==> w'.above[x] == w.above[x])
    && (forall x :: x in w'.shows ==>
          && Shrunk(w.shows[x], w'.shows[x], PointedSince(w'.collected, |w.collected|))
          && SameWords(w.words, w'.words, w'.shows[x].inUse))
  }

  /** The heaps that are not below heap `a` have stayed as they were. */
  ghost predicate OnlyUnder(w: World, w': World, a: int) {
    forall x :: x in w.shows && !Under(w.above, x, a) ==> x in w'.shows && w'.shows[x] == w.shows[x]
  }

  /** The collections since then delete heaps below heap `a` only. */
  ghost predicate LosesUnder(w: World, w': World, a: int) {
    forall x :: LostSince(w'.collected, |w.collected|, x) ==> x in w.above && a in w.above[x]
  }

  /** The collection is one of heap `a` or of a heap below it, which looked the same from the beginning up to then. */
  ghost predicate Recorded(w: World, r: Collection, a: int) {
    && r.heap in w.shows && Under(w.above, r.heap, a)
    && r.before == w.shows[r.heap].(words := r.before.words)
    && SameWords(w.words, r.before.words, r.before.inUse) && WrittenInHeaps(w.words, r.before.words, w.shows)
    && forall x :: x in r.above ==> x in w.above && r.above[x] == w.above[x]
  }

  ghost predicate AllRecorded(w: World, w': World, a: int) {
    forall k: nat :: |w.collected| <= k < |w'.collected| ==> Recorded(w, w'.collected[k], a)
  }

  /** Collecting heap `a` deletes exactly the heaps that it, or a collection of a heap below it, loses. */
  ghost predicate CollectedFrom(w: World, w': World, a: int) {
    && Shrinks(w, w') && OnlyUnder(w, w', a) && LosesUnder(w, w', a) && AllRecorded(w, w', a)
    && forall x :: x in w.shows ==> (x in w'.shows <==> !LostSince(w'.collected, |w.collected|, x))
  }

  /** Heap `c` and those below it are deleted. */
  ghost predicate Deleted(w: World, w': World, c: int) {
    && w.above.Keys == w.shows.Keys && w'.above.Keys == w'.shows.Keys
    && w'.words == w.words && w'.collected == w.collected
    && (forall x :: x in w'.shows <==> x in w.shows && !Under(w.above, x, c))
    && (forall x :: x in w'.shows ==> w'.shows[x] == w.shows[x] && w'.above[x] == w.above[x])
  }

  lemma ShrinksTwice(w: World, w1: World, w2: World)
    requires Shrinks(w, w1) && Shrinks(w1, w2)
    ensures Shrinks(w, w2)
  {
    hide Headed, HeadsPointed;
    assert forall k: nat :: k < |w.collected| ==> w2.collected[k] == w1.collected[k];
    assert PointedSince(w2.collected, |w.collected|) ==> PointedSince(w1.collected, |w.collected|) by {
      assert forall k: nat :: k < |w1.collected| ==> w2.collected[k] == w1.collected[k];
    }
    WrittenInTwice(w, w1, w2);
  }

  lemma WrittenInTwice(w: World, w1: World, w2: World)
    requires WrittenInHeaps(w.words, w1.words, w.shows) && WrittenInHeaps(w1.words, w2.words, w1.shows)
    requires forall x :: x in w1.shows ==> x in w.shows && w1.shows[x].blocks <= w.shows[x].blocks
    ensures WrittenInHeaps(w.words, w2.words, w.shows)
  {
    forall a | forall x :: x in w.shows ==> !InBlocks(w.shows[x].blocks, a)
      ensures Read(w2.words, a) == Read(w.words, a)
    {
      assert forall x :: x in w1.shows ==> !InBlocks(w1.shows[x].blocks, a);
    }
  }

  // ----- heap `a` itself has been collected

  /** Heap `a` looks like `v'`, and its own collection, if it was due, has been recorded. */
  ghost predicate CollectedAt(w: World, w': World, a: int, v': View, mine: seq<Collection>) {
    && a in w.shows && w'.shows == w.shows[a := v'] && w'.above == w.above && w.shows.Keys == w.above.Keys
    && (forall x :: x in w'.shows ==> SameWords(w.words, w'.words, w'.shows[x].inUse))
    && w'.collected == w.collected + mine && WrittenIn(w.words, w'.words, w.shows[a].blocks)
    && if mine == [] then v' == w.shows[a] else
       && mine == [Collection(a, w.shows[a].(words := w.words), w.above)]
       && Collected(w.shows[a].(words := w.words), v'.(words := w'.words))
       && AreSlots(w.shows[a].blocks, w.shows[a].inUse) && Headed(w.shows[a])
       && forall c :: c in w.shows[a].children ==> !InBlocks(w.shows[a].blocks, c)
  }

  /** Exactly the children that are no longer in the list of heap `a` are lost by its own collection. */
  ghost predicate KeepsNamed(w: World, a: int, v': View, mine: seq<Collection>)
    requires a in w.shows
  {
    && |mine| <= 1 && (forall c :: c in v'.children ==> c in w.shows[a].children)
    && (mine != [] ==> mine[0].before.children == w.shows[a].children && mine[0].above == w.above)
    && forall c :: c in w.shows[a].children ==> (c in v'.children <==> mine == [] || TracedWord(mine[0].before, c))
  }

  /** Heap `x` is the `k`-th child of heap `a` or below it. */
  ghost predicate UnderChild(w: World, a: int, k: nat, x: int)
    requires a in w.shows
  {
    k < |w.shows[a].children| && x in w.shows && Under(w.above, x, w.shows[a].children[k])
  }

  /**
    The first `i` children of heap `a` have been dealt with.  Those after them, and all below them, are as
    they were; so are all heaps that are not below `a`.
    */
  ghost predicate Partly(w: World, w': World, a: int, v': View, mine: seq<Collection>, i: nat) {
    && Shrinks(w, w') && a in w.shows && a in w'.shows && w'.shows[a] == v' && KeepsNamed(w, a, v', mine)
    && w.collected + mine <= w'.collected
    && OnlyUnder(w, w', a) && AllRecorded(w, w', a)
    && (forall x, k: nat :: i <= k && UnderChild(w, a, k, x) ==> x in w'.shows && w'.shows[x] == w.shows[x])
    && (forall x, k: nat :: k < i && UnderChild(w, a, k, x) ==>
          (x in w'.shows <==> !LostSince(w'.collected, |w.collected|, x)))
    && (forall x :: LostSince(w'.collected, |w.collected + mine|, x) ==>
          exists k: nat :: k < i && UnderChild(w, a, k, x))
  }

  lemma StartsPartly(w: World, w': World, a: int, v': View, mine: seq<Collection>, loose: set<int>)
    requires CollectedAt(w, w', a, v', mine) && Family(KidsOf(w.shows), w.above, loose)
    ensures Partly(w, w', a, v', mine, 0)
  {
    hide Headed, HeadsPointed, SameWords, AreSlots, TracedWord, Loses, Collected, Family, WrittenIn, WrittenInHeaps;
    OwnWrites(w, w', a);
    SameToStart(w);
    if mine != [] {
      OwnKeeps(w, w', a, v', mine);
      OwnShrinks(w, w', a, v', mine);
    }
    forall k: nat | UnderChild(w, a, k, a) ensures false {
      NotUnderChild(w, a, k, loose);
    }
  }

  lemma OwnWrites(w: World, w': World, a: int)
    requires a in w.shows && WrittenIn(w.words, w'.words, w.shows[a].blocks)
    ensures WrittenInHeaps(w.words, w'.words, w.shows)
  {
  }

  lemma SameToStart(w: World)
    ensures WrittenInHeaps(w.words, w.words, w.shows) && forall slots :: SameWords(w.words, w.words, slots)
  {
  }

  /** No heap is below its children. */
  lemma NotUnderChild(w: World, a: int, k: nat, loose: set<int>)
    requires Family(KidsOf(w.shows), w.above, loose) && a in w.shows
    ensures !UnderChild(w, a, k, a)
  {
    hide ListedOnce, AllListed;
    if k < |w.shows[a].children| {
      var c := w.shows[a].children[k];
      assert c in KidsOf(w.shows)[a];
      assert w.above[c] == w.above[a] + {a};
    }
  }

  lemma OwnKeeps(w: World, w': World, a: int, v': View, mine: seq<Collection>)
    requires CollectedAt(w, w', a, v', mine) && mine != []
    ensures KeepsNamed(w, a, v', mine)
  {
    hide Headed, HeadsPointed, SameWords, AreSlots, TracedWord, Under, Loses;
    var v := w.shows[a].(words := w.words);
    forall c | c in v.children ensures c in v'.children <==> TracedWord(v, c) {
      hide Collected;
      NamedIsKept(v, v'.(words := w'.words), c);
    }
    hide Closed, Least;
    ReachedIsPart(v.children, Elements(v'.children));
  }

  lemma {:induction false} ReachedIsPart(children: seq<int>, reached: set<int>)
    ensures forall c :: c in Reached(children, reached) ==> c in children
  {
    if children != [] {
      ReachedIsPart(children[1..], reached);
    }
  }

  lemma OwnShrinks(w: World, w': World, a: int, v': View, mine: seq<Collection>)
    requires CollectedAt(w, w', a, v', mine) && mine != []
    ensures Shrinks(w, w')
  {
    hide SameWords, AreSlots, TracedWord, Under, Loses, Closed, Least, Headed, HeadsPointed;
    var v := w.shows[a].(words := w.words);
    HeadedSame(w.shows[a], v);
    HeadedSame(v', v'.(words := w'.words));
    CollectedIsHeaded(v, v'.(words := w'.words));
    LeastInUse(v, v'.(words := w'.words));
    assert PointedSince(w'.collected, |w.collected|) ==> HeadsPointed(v) by {
      assert w'.collected[|w.collected|].before == v;
    }
  }

  lemma LeastInUse(v: View, v': View)
    requires Headed(v) && Collected(v, v')
    ensures v'.inUse <= v.inUse
  {
    LeastIsExtents(v, v'.inUse, Elements(v'.children));
  }

  /** What is known of a heap below a child of heap `a`: it is below no other child, and is not `a`. */
  lemma OneChildOnly(w: World, a: int, i: nat, k: nat, x: int, loose: set<int>)
    requires Family(KidsOf(w.shows), w.above, loose) && a in w.shows && NoneBelow(w.above, loose, a)
    requires UnderChild(w, a, i, x) && UnderChild(w, a, k, x)
    ensures i == k
  {
    var kids, q := KidsOf(w.shows), w.shows[a].children;
    assert q[i] in kids[a] && q[k] in kids[a];
    SiblingsApart(kids, w.above, loose, a, q[i], q[k], x);
    assert NoneTwice(kids[a]);
  }

  lemma AllBelow(w: World, a: int, x: int, loose: set<int>)
    requires Family(KidsOf(w.shows), w.above, loose) && a in w.shows && NoneBelow(w.above, loose, a) && x in w.shows
    ensures Under(w.above, x, a) <==> x == a || exists k: nat :: UnderChild(w, a, k, x)
  {
    var kids, q := KidsOf(w.shows), w.shows[a].children;
    assert kids[a] == q;
    if Under(w.above, x, a) && x != a {
      var d := BelowMeansChild(kids, w.above, loose, a, x);
      var k: nat :| k < |q| && q[k] == d;
      assert UnderChild(w, a, k, x);
    }
    forall k: nat | UnderChild(w, a, k, x) ensures Under(w.above, x, a) {
      ChildIsBelow(kids, w.above, loose, a, q[k], x);
    }
  }

  /** Which heaps a collection of the `i`-th child can have changed. */
  ghost predicate Around(w: World, a: int, i: nat)
    requires a in w.shows
  {
    && (forall x, k: nat :: UnderChild(w, a, i, x) && UnderChild(w, a, k, x) ==> k == i)
    && (forall x :: UnderChild(w, a, i, x) ==> Under(w.above, x, a) && x != a)
  }

  lemma IsAround(w: World, a: int, i: nat, loose: set<int>)
    requires Family(KidsOf(w.shows), w.above, loose) && a in w.shows && NoneBelow(w.above, loose, a)
    ensures Around(w, a, i)
  {
    forall x, k: nat | UnderChild(w, a, i, x) && UnderChild(w, a, k, x) ensures k == i {
      OneChildOnly(w, a, i, k, x, loose);
    }
    forall x | UnderChild(w, a, i, x) ensures Under(w.above, x, a) && x != a {
      AllBelow(w, a, x, loose);
      NotUnderChild(w, a, i, loose);
    }
  }

  /** Later collections come after earlier ones. */
  lemma LostEarlierOrLater(w: World, w1: World, w2: World, n: nat, x: int)
    requires w1.collected <= w2.collected && n <= |w1.collected|
    ensures LostSince(w2.collected, n, x) <==>
              LostSince(w1.collected, n, x) || LostSince(w2.collected, |w1.collected|, x)
  {
    assert forall k: nat :: k < |w1.collected| ==> w2.collected[k] == w1.collected[k];
  }

  /** Only the own collection of heap `a` can lose a heap below a child that has not been dealt with. */
  lemma LostByOwn(w: World, w1: World, a: int, v': View, mine: seq<Collection>, i: nat, x: int, loose: set<int>)
    requires Family(KidsOf(w.shows), w.above, loose) && a in w.shows && NoneBelow(w.above, loose, a)
    requires Partly(w, w1, a, v', mine, i) && UnderChild(w, a, i, x)
    ensures LostSince(w1.collected, |w.collected|, x) <==> w.shows[a].children[i] !in v'.children
  {
    hide Family, Shrinks, TracedWord, AllRecorded, OnlyUnder, Loses;
    SameKeys(w, w1);
    IsAround(w, a, i, loose);
    LostEarlierOrLater(w, w.(collected := w.collected + mine), w1, |w.collected|, x);
    assert !LostSince(w1.collected, |w.collected + mine|, x);
    assert LostSince(w1.collected, |w.collected|, x) <==> LostSince(w.collected + mine, |w.collected|, x);
    if mine != [] {
      assert (w.collected + mine)[|w.collected|] == mine[0];
      OwnLoses(w, a, v', mine, i, x);
    }
  }

  lemma SameKeys(w: World, w': World)
    requires Shrinks(w, w')
    ensures w.above.Keys == w.shows.Keys
  {
  }

  lemma OwnLoses(w: World, a: int, v': View, mine: seq<Collection>, i: nat, x: int)
    requires a in w.shows && KeepsNamed(w, a, v', mine) && mine != [] && Around(w, a, i) && UnderChild(w, a, i, x)
    requires w.above.Keys == w.shows.Keys
    ensures Loses(mine[0], x) <==> w.shows[a].children[i] !in v'.children
  {
    hide TracedWord;
    var q := w.shows[a].children;
    if Loses(mine[0], x) {
      var c :| c in q && Under(w.above, x, c) && !TracedWord(mine[0].before, c);
      var k: nat :| k < |q| && q[k] == c;
      assert UnderChild(w, a, k, x);
    }
    if q[i] !in v'.children {
      assert q[i] in q && Under(w.above, x, q[i]);
    }
  }

  /** What was collected below a child looked the same from the beginning of the whole collection up to then. */
  lemma ChildRecorded(w: World, w1: World, w2: World, a: int, v': View, mine: seq<Collection>, i: nat)
    requires Partly(w, w1, a, v', mine, i) && i < |w.shows[a].children| && Around(w, a, i)
    requires CollectedFrom(w1, w2, w.shows[a].children[i])
    ensures AllRecorded(w, w2, a)
  {
    hide Headed, HeadsPointed, TracedWord, Loses, LostSince, WrittenInHeaps, OnlyUnder, LosesUnder, KeepsNamed;
    var c := w.shows[a].children[i];
    forall k: nat | |w.collected| <= k < |w2.collected| ensures Recorded(w, w2.collected[k], a) {
      if k < |w1.collected| {
        assert w2.collected[k] == w1.collected[k];
      } else {
        RecordedBefore(w, w1, a, i, w2.collected[k]);
      }
    }
  }

  lemma RecordedBefore(w: World, w1: World, a: int, i: nat, r: Collection)
    requires a in w.shows && i < |w.shows[a].children| && Around(w, a, i) && Shrinks(w, w1)
    requires forall x :: UnderChild(w, a, i, x) ==> x in w1.shows && w1.shows[x] == w.shows[x]
    requires Recorded(w1, r, w.shows[a].children[i])
    ensures Recorded(w, r, a)
  {
    hide Headed, HeadsPointed, WrittenInHeaps;
    assert UnderChild(w, a, i, r.heap);
    var w2 := w1.(words := r.before.words);
    WrittenInTwice(w, w1, w2);
  }

  /** A child that is kept has been collected, with all below it. */
  lemma ChildCollected(w: World, w1: World, w2: World, a: int, v': View, mine: seq<Collection>, i: nat, loose: set<int>)
    requires Family(KidsOf(w.shows), w.above, loose) && a in w.shows && NoneBelow(w.above, loose, a)
    requires Partly(w, w1, a, v', mine, i) && i < |w.shows[a].children|
    requires w.shows[a].children[i] in v'.children && CollectedFrom(w1, w2, w.shows[a].children[i])
    ensures Partly(w, w2, a, v', mine, i + 1)
  {
    hide Headed, HeadsPointed, SameWords, TracedWord, Family, Loses, LostSince, WrittenInHeaps, AllRecorded;
    ShrinksTwice(w, w1, w2);
    IsAround(w, a, i, loose);
    ChildRecorded(w, w1, w2, a, v', mine, i);
    var c, n, j := w.shows[a].children[i], |w.collected|, i + 1;
    forall x | x in w1.shows ensures Under(w1.above, x, c) <==> UnderChild(w, a, i, x) {
    }
    hide Shrinks;
    forall x, k: nat | j <= k && UnderChild(w, a, k, x) ensures x in w2.shows && w2.shows[x] == w.shows[x] {
    }
    forall x, k: nat | k < j && UnderChild(w, a, k, x)
      ensures x in w2.shows <==> !LostSince(w2.collected, n, x)
    {
      LostEarlierOrLater(w, w1, w2, n, x);
      if k == i {
        LostByOwn(w, w1, a, v', mine, i, x, loose);
      }
    }
    forall x | LostSince(w2.collected, |w.collected + mine|, x)
      ensures exists k: nat :: k < j && UnderChild(w, a, k, x)
    {
      LostEarlierOrLater(w, w1, w2, |w.collected + mine|, x);
      if LostSince(w2.collected, |w1.collected|, x) {
        assert UnderChild(w, a, i, x);
      }
    }
  }

  lemma DeletedPrunes(w: World, w': World, c: int)
    requires Deleted(w, w', c)
    ensures Pruned(w.above, w'.above, [c])
  {
    forall x ensures x in w'.above <==> x in w.above && !UnderAny(w.above, x, [c]) {
      assert x in w'.above <==> x in w'.shows;
      assert UnderAny(w.above, x, [c]) <==> Under(w.above, x, c) by {
        assert c in [c];
      }
    }
    forall x | x in w'.above ensures w'.above[x] == w.above[x] {
      assert x in w'.shows;
    }
  }

  lemma PrunedDeletes(w: World, w': World, c: int)
    requires w.above.Keys == w.shows.Keys && w'.above.Keys == w'.shows.Keys && Pruned(w.above, w'.above, [c])
    requires w'.words == w.words && w'.collected == w.collected
    requires forall x :: x in w'.shows ==> x in w.shows && w'.shows[x] == w.shows[x]
    ensures Deleted(w, w', c)
  {
    forall x ensures x in w'.shows <==> x in w.shows && !Under(w.above, x, c) {
      assert x in w'.above <==> x in w'.shows;
      assert x in w.above <==> x in w.shows;
      assert UnderAny(w.above, x, [c]) <==> Under(w.above, x, c) by {
        assert c in [c];
      }
    }
    forall x | x in w'.shows ensures w'.above[x] == w.above[x] {
      assert x in w'.above;
    }
  }

  lemma DeletedShrinks(w: World, w': World, c: int)
    requires Deleted(w, w', c)
    ensures Shrinks(w, w')
  {
    hide Headed, HeadsPointed;
    forall x | x in w'.shows.Keys ensures x in w.shows.Keys {
      assert x in w'.shows;
    }
    forall x | x in w'.above ensures w'.above[x] == w.above[x] {
      assert x in w'.shows.Keys;
    }
  }

  /** A child that is not kept has been deleted, with all below it. */
  lemma ChildDeleted(w: World, w1: World, w2: World, a: int, v': View, mine: seq<Collection>, i: nat, loose: set<int>)
    requires Family(KidsOf(w.shows), w.above, loose) && a in w.shows && NoneBelow(w.above, loose, a)
    requires Partly(w, w1, a, v', mine, i) && i < |w.shows[a].children|
    requires w.shows[a].children[i] !in v'.children && Deleted(w1, w2, w.shows[a].children[i])
    ensures Partly(w, w2, a, v', mine, i + 1)
  {
    hide Headed, HeadsPointed, SameWords, TracedWord, Family, Loses, LostSince, WrittenInHeaps, AllRecorded;
    IsAround(w, a, i, loose);
    var c, n, j := w.shows[a].children[i], |w.collected|, i + 1;
    DeletedShrinks(w1, w2, c);
    SameRecorded(w, w1, w2, a);
    ShrinksTwice(w, w1, w2);
    forall x | x in w1.shows ensures Under(w1.above, x, c) <==> UnderChild(w, a, i, x) {
    }
    hide Shrinks;
    forall x, k: nat | k < j && UnderChild(w, a, k, x)
      ensures x in w2.shows <==> !LostSince(w2.collected, n, x)
    {
      if k == i {
        LostByOwn(w, w1, a, v', mine, i, x, loose);
      }
    }
  }

  lemma SameRecorded(w: World, w1: World, w2: World, a: int)
    requires AllRecorded(w, w1, a) && w2.collected == w1.collected
    ensures AllRecorded(w, w2, a)
  {
  }

  /** All children have been dealt with. */
  lemma AllDealtWith(w: World, w': World, a: int, v': View, mine: seq<Collection>, loose: set<int>)
    requires Family(KidsOf(w.shows), w.above, loose) && a in w.shows && NoneBelow(w.above, loose, a)
    requires Partly(w, w', a, v', mine, |w.shows[a].children|)
    ensures CollectedFrom(w, w', a)
  {
    assert w.above.Keys == w.shows.Keys && a !in w.above[a];
    hide Headed, HeadsPointed, SameWords, TracedWord, Family, Shrinks, Loses, AllRecorded;
    var n := |w.collected|;
    forall x | LostSince(w'.collected, n, x) ensures x in w.above && a in w.above[x] {
      LostBelow(w, w', a, v', mine, x, loose);
      AllBelow(w, a, x, loose);
    }
    forall x | x in w.shows ensures x in w'.shows <==> !LostSince(w'.collected, n, x) {
      AllBelow(w, a, x, loose);
    }
  }

  lemma LostBelow(w: World, w': World, a: int, v': View, mine: seq<Collection>, x: int, loose: set<int>)
    requires Family(KidsOf(w.shows), w.above, loose) && a in w.shows
    requires Partly(w, w', a, v', mine, |w.shows[a].children|) && LostSince(w'.collected, |w.collected|, x)
    ensures x in w.shows && x != a && exists k: nat :: UnderChild(w, a, k, x)
  {
    hide Headed, HeadsPointed, SameWords, TracedWord, Family, Shrinks, AllRecorded, OnlyUnder;
    SameKeys(w, w');
    var q := w.shows[a].children;
    LostEarlierOrLater(w, w.(collected := w.collected + mine), w', |w.collected|, x);
    if LostSince(w'.collected, |w.collected + mine|, x) {
      var k: nat :| k < |q| && UnderChild(w, a, k, x);
      if x == a { NotUnderChild(w, a, k, loose); }
    } else {
      assert mine != [] && Loses(mine[0], x);
      var c :| c in q && Under(w.above, x, c) && !TracedWord(mine[0].before, c);
      var k: nat :| k < |q| && q[k] == c;
      assert UnderChild(w, a, k, x);
      if x == a { NotUnderChild(w, a, k, loose); }
    }
  }

  /** A child that has not been dealt with, and all below it, are as they were. */
  lemma StillWhole(w: World, w': World, a: int, v': View, mine: seq<Collection>, i: nat, loose: set<int>)
    requires Family(KidsOf(w.shows), w.above, loose) && a in w.shows && NoneBelow(w.above, loose, a)
    requires Partly(w, w', a, v', mine, i) && i < |w.shows[a].children|
    requires forall x :: x in w.shows && Under(w.above, x, a) ==> Headed(w.shows[x])
    ensures var c := w.shows[a].children[i];
      && c in w'.shows && forall x :: x in w'.shows && Under(w'.above, x, c) ==> Headed(w'.shows[x])
  {
    hide Headed, HeadsPointed, SameWords, TracedWord, Loses, LostSince, AllRecorded;
    IsAround(w, a, i, loose);
    var c := w.shows[a].children[i];
    assert c in KidsOf(w.shows)[a];
    assert UnderChild(w, a, i, c);
    hide Family;
    forall x | x in w'.shows && Under(w'.above, x, c) ensures Headed(w'.shows[x]) {
      assert UnderChild(w, a, i, x);
    }
  }
}
