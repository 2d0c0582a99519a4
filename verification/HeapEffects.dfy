/** What each operation on heaps changes, and that it changes nothing else. */
module HeapEffects {
  import opened Alignments
  import opened BlockTrees
  import opened HeapAllocation
  import opened HeapSpec
  import opened HeapMarks
  import opened HeapFamilies
  import opened HeapCollections
  import opened HeapTreatments

  /** Heaps are named by their addresses. */
  datatype Op =
    | Create(heap: int, begin: int, size: nat)            // a heap whose root is outside of it
    | CreateRoot(heap: int, size: nat, at: int)           // a heap whose first object is its root
    | Allocate(heap: int, size: nat, at: int)             // a new block, if one is needed, starts at `at`
    | Store(address: int, value: int)
    | InsertChild(heap: int, child: int)
    | RemoveFromParent(heap: int)
    | Collect(heap: int, force: bool)
    | Merge(heap: int, other: int)

  /** Heap `a` looks like `v` and has these sizes now; all other heaps, their sizes and parents are the same. */
  ghost predicate OnlyHeap(w: World, w': World, a: int, v: View, sizes: Sizes) {
    w'.shows == w.shows[a := v] && w'.sizes == w.sizes[a := sizes] && w'.collected == w.collected
  }

  ghost predicate Created(w: World, w': World, a: int, begin: int, size: nat) {
    && a !in w.shows && OnlyHeap(w, w', a, View({}, {}, {}, map[], begin, begin + size, []), Sizes(0, 0, 0))
    && w'.parents == w.parents && w'.words == w.words
  }

  /** The root of a new heap is its one object, in its one block. */
  ghost function RootedView(size: nat, at: int): View {
    if size == 0 then View({}, {}, {}, map[], 0, 0, [])
    else
      var n: nat := AlignUp(size, SLOT) / SLOT;
      var b := Block(at, n);
      View({b}, {Slot(b, 0)}, Span(b, 0, n), map[], at, at + size, [])
  }

  ghost function RootedSizes(size: nat): Sizes {
    if size == 0 then Sizes(0, 0, 0) else Sizes(AlignUp(size, SLOT), 0, 2 * AlignUp(size, SLOT))
  }

  ghost predicate CreatedRooted(w: World, w': World, a: int, size: nat, at: int) {
    && a !in w.shows && OnlyHeap(w, w', a, RootedView(size, at), RootedSizes(size)) && w'.parents == w.parents
    && forall x :: at <= x < at + AlignUp(size, SLOT) ==> Read(w'.words, x) == 0
  }

  lemma RootGiven(w: World, w1: World, w2: World, a: int, size: nat, at: int)
    requires Created(w, w1, a, 0, 0) && OnlyHeap(w1, w2, a, RootedView(size, at), RootedSizes(size))
    requires w2.parents == w1.parents && forall x :: at <= x < at + AlignUp(size, SLOT) ==> Read(w2.words, x) == 0
    ensures CreatedRooted(w, w2, a, size, at)
  {
    hide RootedView, RootedSizes;
    assert w2.shows == w.shows[a := RootedView(size, at)];
    assert w2.sizes == w.sizes[a := RootedSizes(size)];
  }

  /** The object is at the address, in slots that were free; its block may be new. */
  ghost predicate AllocatedAt(w: World, w': World, a: int, size: nat, at: int, address: int, slot: Slot)
    requires a in w.shows && a in w.sizes
  {
    && a in w'.shows && a in w'.sizes && address == Address(slot)
    && Allocated(w.shows[a].(words := w.words), w'.shows[a].(words := w'.words), slot, AlignUp(size, SLOT) / SLOT)
    && OnlyHeap(w, w', a, w'.shows[a], w'.sizes[a]) && w'.parents == w.parents
    && w'.sizes[a].used == w.sizes[a].used + AlignUp(size, SLOT) && w'.sizes[a].threshold == w.sizes[a].threshold
    && IsNext(w.shows[a].blocks, w'.shows[a].blocks, w.sizes[a].block, w'.sizes[a].block, AlignUp(size, SLOT), at)
  }

  /** A block may have been added, and the size of the next one then doubles. */
  ghost predicate IsNext(blocks: set<Block>, blocks': set<Block>, next: nat, next': nat, need: int, at: int) {
    || (blocks' == blocks && next' == next)
    || (blocks' == blocks + {BlockAt(at, Larger(need, next))} && next' == 2 * Larger(need, next))
  }

  ghost function BlockAt(at: int, size: int): Block { Block(at, if size >= 0 then size / SLOT else 0) }

  ghost predicate AllocatedIn(w: World, w': World, a: int, size: nat, at: int, address: int) {
    && a in w.shows && a in w.sizes
    && if size == 0 then w' == w && address == 0 else exists slot :: AllocatedAt(w, w', a, size, at, address, slot)
  }

  ghost predicate ChildInserted(w: World, w': World, a: int, c: int) {
    && a in w.shows && a in w.sizes
    && OnlyHeap(w, w', a, w.shows[a].(children := [c] + w.shows[a].children), w.sizes[a].(threshold := 0))
    && w'.parents == w.parents[c := a] && w'.words == w.words
  }

  ghost predicate ChildLeaves(w: World, w': World, p: int, c: int, k: nat) {
    && p in w.shows && p in w.sizes && k < |w.shows[p].children| && w.shows[p].children[k] == c
    && OnlyHeap(w, w', p, w.shows[p].(children := w.shows[p].children[..k] + w.shows[p].children[k + 1..]),
                w.sizes[p].(threshold := 0))
    && w'.parents == w.parents - {c} && w'.words == w.words
  }

  ghost predicate Unparented(w: World, w': World, c: int) {
    if c in w.parents then exists k: nat :: ChildLeaves(w, w', w.parents[c], c, k) else w' == w
  }

  ghost function Union(v: View, x: View): View {
    v.(blocks := v.blocks + x.blocks, objects := v.objects + x.objects, inUse := v.inUse + x.inUse,
       children := v.children + x.children)
  }

  /** Heap `a` has what both had, and heap `b` is gone; contents are the same. */
  ghost predicate HaveMerged(w: World, w': World, a: int, b: int) {
    && a in w.shows && b in w.shows && a in w.sizes && b in w.sizes && a != b
    && w'.shows == (w.shows - {b})[a := Union(w.shows[a], w.shows[b])]
    && w'.sizes == (w.sizes - {b})[a := w.sizes[a].(used := w.sizes[a].used + w.sizes[b].used)]
    && SameWords(w.words, w'.words, w.shows[a].inUse + w.shows[b].inUse) && w'.collected == w.collected
  }

  ghost predicate Merged(w: World, w': World, a: int, b: int) {
    HaveMerged(w, w', a, b) && w'.parents == w.parents - {b}
  }

  lemma MergedSame(w: World, w': World, a: int, b: int)
    requires HaveMerged(w, w', a, b)
    ensures a in w.shows && SameWords(w.words, w'.words, w.shows[a].inUse)
  {
  }

  lemma SameMerged(w: World, w1: World, w2: World, a: int, b: int)
    requires HaveMerged(w, w1, a, b) && w2 == w1.(parents := w2.parents, above := w2.above)
    ensures HaveMerged(w, w2, a, b)
  {
  }

  /** What the operation does; `address` is that of the object, if it allocates one. */
  ghost predicate Effect(op: Op, w: World, w': World, address: int) {
    match op
    case Create(a, begin, size) => Created(w, w', a, begin, size)
    case CreateRoot(a, size, at) => CreatedRooted(w, w', a, size, at)
    case Allocate(a, size, at) => AllocatedIn(w, w', a, size, at, address)
    case Store(at, value) => w' == w.(words := w.words[at := value])
    case InsertChild(a, c) => ChildInserted(w, w', a, c)
    case RemoveFromParent(c) => Unparented(w, w', c)
    case Collect(a, force) => CollectedFrom(w, w', a) && AllTreated(w, w', a, force)
    case Merge(a, b) => Merged(w, w', a, b)
  }

  /** Each operation leads from one of these worlds to the next one. */
  ghost predicate HaveEffect(ops: seq<Op>, addresses: seq<int>, worlds: seq<World>) {
    && |addresses| == |ops| && |worlds| == |ops| + 1
    && forall k :: 0 <= k < |ops| ==> Effect(ops[k], worlds[k], worlds[k + 1], addresses[k])
  }

  lemma StartsWith(w: World)
    ensures HaveEffect([], [], [w])
  {
  }

  lemma OneMoreEffect(ops: seq<Op>, n: nat, addresses: seq<int>, worlds: seq<World>, w: World, address: int)
    requires n < |ops| && HaveEffect(ops[..n], addresses, worlds) && Effect(ops[n], worlds[n], w, address)
    ensures HaveEffect(ops[..n + 1], addresses + [address], worlds + [w])
  {
    hide Effect;
  }
}
