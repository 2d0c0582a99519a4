/**
  Programs that use a tree of heaps in one memory: they allocate, store words, move heaps from one parent to
  another, collect and merge, in any order.
  */
module HeapPrograms {
  import opened Alignments
  import opened BlockTrees
  import opened FreeLists
  import opened HeapAccounts
  import opened HeapAllocation
  import opened HeapCollections
  import opened HeapEffects
  import opened HeapFamilies
  import opened HeapMarks
  import opened HeapSpec
  import opened HeapTreatments
  import opened Heaps

  /** No block of the tree reaches into a range of memory. */
  predicate IsUnused(t: Tree, from: int, size: int) {
    match t
    case Nil => true
    case Node(l, b, r) =>
      (from + size <= b.begin || EndOf(b) <= from) && IsUnused(l, from, size) && IsUnused(r, from, size)
  }

  lemma NilUnused(from: int, size: int)
    ensures IsUnused(Nil, from, size)
  {
  }

  lemma {:induction false} IsUnusedAgrees(t: Tree, from: int, size: int)
    ensures IsUnused(t, from, size) <==> Unused(Blocks(t), from, size)
  {
    match t
    case Nil =>
    case Node(l, b, r) =>
      IsUnusedAgrees(l, from, size);
      IsUnusedAgrees(r, from, size);
  }

  predicate AllIn(inUse: set<Slot>, b: Block, i: nat, j: nat) {
    forall k: nat | i <= k <= j :: Slot(b, k) in inUse
  }

  /** The head of an object comes before the slot, with all slots in between in use. */
  predicate WholeAt(objects: set<Slot>, inUse: set<Slot>, s: Slot) {
    exists h: nat | h <= s.index :: Slot(s.block, h) in objects && AllIn(inUse, s.block, h, s.index)
  }

  predicate AllWhole(objects: set<Slot>, inUse: set<Slot>) {
    forall s | s in inUse :: WholeAt(objects, inUse, s)
  }

  lemma WholeAtAgrees(v: View, s: Slot)
    ensures WholeAt(v.objects, v.inUse, s) <==> HasHead(v, s)
  {
    forall h: nat
      ensures AllIn(v.inUse, s.block, h, s.index) <==> AllInUse(v, s.block, h, s.index)
    {
    }
    if HasHead(v, s) {
      var h: nat :| IsHead(v, s.block, h, s.index);
      assert AllIn(v.inUse, s.block, h, s.index);
    }
    if WholeAt(v.objects, v.inUse, s) {
      var h: nat :| h <= s.index && Slot(s.block, h) in v.objects && AllIn(v.inUse, s.block, h, s.index);
      assert IsHead(v, s.block, h, s.index);
    }
  }

  lemma AllWholeAgrees(v: View)
    ensures AllWhole(v.objects, v.inUse) <==> Headed(v)
  {
    hide WholeAt, HasHead;
    forall s
      ensures WholeAt(v.objects, v.inUse, s) <==> HasHead(v, s)
    {
      WholeAtAgrees(v, s);
    }
  }

  // ----- heaps in one memory

  ghost predicate LiveIn(heaps: map<int, Heap>, memory: Memory, words: map<int, int>)
    reads heaps.Values
  {
    forall a :: a in heaps ==> heaps[a].memory == memory && heaps[a].ValidIn(words)
  }

  /** Different heaps share no blocks, and the heaps themselves are not inside of blocks. */
  ghost predicate AllApart(heaps: map<int, Heap>)
    reads heaps.Values
  {
    && (forall a, b :: a in heaps && b in heaps && a != b ==>
          heaps[a] != heaps[b] && Separate(Blocks(heaps[a].root), Blocks(heaps[b].root)))
    && forall a, b :: a in heaps && b in heaps ==> !InBlocks(Blocks(heaps[b].root), a)
  }

  /** The heaps, and what is above them, are part of those before. */
  ghost predicate IsPart(heaps: map<int, Heap>, above: map<int, set<int>>, before: map<int, Heap>,
                         above0: map<int, set<int>>) {
    && (forall a :: a in heaps ==> a in before && heaps[a] == before[a])
    && forall a :: a in above ==> a in above0 && above[a] == above0[a]
  }

  /** What a heap looks like, without the words. */
  ghost function Shown(h: Heap): View
    reads h
  {
    View(Blocks(h.root), h.objects, h.inUse, map[], h.begin, h.end, h.children)
  }

  lemma ShownLooks(h: Heap)
    ensures h.Looks() == Shown(h).(words := h.memory.words) && Shown(h) == h.Looks().(words := map[])
  {
  }

  ghost function ShowsOf(heaps: map<int, Heap>): map<int, View>
    reads heaps.Values
  {
    map a | a in heaps :: Shown(heaps[a])
  }

  ghost function SizesIn(h: Heap): Sizes
    reads h
  {
    Sizes(h.allocatedSize, h.nextCollectionSize, h.nextBlockSize)
  }

  ghost function SizesOf(heaps: map<int, Heap>): map<int, Sizes>
    reads heaps.Values
  {
    map a | a in heaps :: SizesIn(heaps[a])
  }

  ghost predicate HeadedIn(heaps: map<int, Heap>)
    reads heaps.Values
  {
    forall a :: a in heaps ==> Headed(Shown(heaps[a]))
  }

  class Program {
    const memory: Memory
    var heaps: map<int, Heap>
    var parents: map<int, int>       // heaps without a parent are not in it

    // Not part of the program: which heaps each heap is below, what heaps looked like that were collected,
    // and what those looked like that were merged into others.
    var above: map<int, set<int>>
    ghost var collected: seq<Collection>
    ghost var merged: seq<View>

    constructor ()
      ensures Valid() && heaps == map[] && collected == [] && merged == [] && memory.words == map[]
      ensures RightParents({}) && AllHeaded() && fresh(memory)
    {
      memory := new Memory();
      heaps, parents, above, collected, merged := map[], map[], map[], [], [];
    }

    ghost predicate Sound()
      reads this, memory, heaps.Values
    {
      LiveIn(heaps, memory, memory.words) && AllApart(heaps) && above.Keys == heaps.Keys && parents.Keys <= heaps.Keys
    }

    ghost function Shows(): map<int, View>
      reads `heaps, heaps.Values
    {
      ShowsOf(heaps)
    }

    ghost function Now(): World
      reads this, memory, heaps.Values
    {
      World(Shows(), SizesOf(heaps), parents, above, memory.words, collected)
    }

    ghost function Kids(): map<int, seq<int>>
      reads `heaps, heaps.Values
    {
      KidsOf(Shows())
    }

    ghost predicate FamilyOf(loose: set<int>)
      reads this, heaps.Values
    {
      Family(Kids(), above, loose)
    }

    /** The heaps are valid and apart, and their children are heaps of the program, in a tree. */
    ghost predicate Valid()
      reads this, memory, heaps.Values
    {
      Sound() && FamilyOf({})
    }

    ghost predicate RightParents(loose: set<int>)
      reads this, heaps.Values
    {
      ParentsRight(Kids(), parents, loose)
    }

    /** Every object of every heap has its head. */
    ghost predicate AllHeaded()
      reads `heaps, heaps.Values
    {
      HeadedIn(heaps)
    }

    // ----- what an operation needs

    /** No heap has a block there, or is there. */
    predicate Free(at: int, size: int)
      reads `heaps, heaps.Values
    {
      && at > 0 && at % WORD == 0
      && forall a | a in heaps :: IsUnused(heaps[a].root, at, size) && !(at <= a < at + size)
    }

    predicate IsNew(a: int)
      reads `heaps, heaps.Values
    {
      a !in heaps && forall b | b in heaps :: IsUnused(heaps[b].root, a, 1)
    }

    predicate NobodysChild(c: int)
      reads `heaps, heaps.Values
    {
      forall a | a in heaps :: c !in heaps[a].children
    }

    /** The program and the memory allocator keep to the rules. */
    predicate Fits(op: Op)
      reads this, heaps.Values
    {
      match op
      case Create(a, _, _) => IsNew(a)
      case CreateRoot(a, size, at) =>
        IsNew(a) && Free(at, AlignUp(size, SLOT)) && !(at <= a < at + AlignUp(size, SLOT))
      case Allocate(a, size, at) => a in heaps && Free(at, Larger(AlignUp(size, SLOT), heaps[a].nextBlockSize))
      case Store(address, _) => address % WORD == 0 && forall a | a in heaps :: heaps[a].Writable(address)
      case InsertChild(a, c) => a in heaps && c in heaps && NobodysChild(c) && !Under(above, a, c)
      case RemoveFromParent(a) => a in heaps
      case Collect(a, _) => a in heaps
      case Merge(a, b) => a in heaps && b in heaps && NobodysChild(b) && !Under(above, a, b)
    }

    /** The parent of the heap, if it has one, is a heap that has it in its list. */
    predicate IsFound(c: int)
      reads this, heaps.Values
    {
      c in parents ==> parents[c] in heaps && c in heaps[parents[c]].children
    }

    predicate WholeUnder(a: int)
      reads this, heaps.Values
    {
      forall x | x in heaps && Under(above, x, a) :: AllWhole(heaps[x].objects, heaps[x].inUse)
    }

    /** A collection searches for the heads of objects, and a removal for the heap in the list of its parent. */
    predicate CanDo(op: Op)
      reads this, heaps.Values
    {
      Fits(op) && (op.Collect? ==> WholeUnder(op.heap)) && (op.RemoveFromParent? ==> IsFound(op.heap))
    }

    // ----- one heap changes

    ghost predicate OthersLive(a: int, words: map<int, int>)
      reads `heaps, heaps.Values
    {
      forall b :: b in heaps && b != a ==> heaps[b].memory == memory && heaps[b].ValidIn(words)
    }

    /** The blocks are apart from those of the heaps other than heap `a`. */
    ghost predicate ApartFrom(a: int, written: set<Block>)
      reads `heaps, heaps.Values
    {
      forall b :: b in heaps && b != a ==> Separate(Blocks(heaps[b].root), written)
    }

    ghost predicate OthersSame(a: int, words: map<int, int>, words': map<int, int>)
      reads `heaps, heaps.Values
    {
      forall b :: b in heaps && b != a ==> SameWords(words, words', heaps[b].inUse)
    }

    /** No heap is in one of these blocks. */
    ghost predicate NoneIn(blocks: set<Block>)
      reads `heaps
    {
      forall b :: b in heaps ==> !InBlocks(blocks, b)
    }

    /** What one heap does in its own blocks leaves the other ones as they are. */
    lemma OthersStay(a: int, words: map<int, int>, written: set<Block>)
      requires OthersLive(a, words) && ApartFrom(a, written) && WrittenIn(words, memory.words, written)
      ensures OthersLive(a, memory.words) && OthersSame(a, words, memory.words)
    {
      hide Heap.ValidIn, Blocks, WrittenIn, SameWords, Separate;
      forall b | b in heaps && b != a
        ensures heaps[b].ValidIn(memory.words) && SameWords(words, memory.words, heaps[b].inUse)
      {
        heaps[b].Undisturbed(words, memory.words, written);
      }
    }

    ghost predicate HeapOf(a: int)
      requires a in heaps
      reads this, memory, heaps.Values
    {
      && heaps[a].memory == memory && heaps[a].Valid() && heaps[a].ValidIn(memory.words)
      && AreSlots(Blocks(heaps[a].root), heaps[a].inUse)
    }

    lemma LiveHeap(a: int)
      requires LiveIn(heaps, memory, memory.words) && AllApart(heaps) && a in heaps
      ensures HeapOf(a) && OthersLive(a, memory.words) && ApartFrom(a, Blocks(heaps[a].root))
      ensures NoneIn(Blocks(heaps[a].root)) && OthersDistinct(a)
    {
      hide Heap.ValidIn, Blocks, Separate, InBlocks;
      heaps[a].ValidIs();
      hide Heap.Valid;
      SlotsOf(heaps[a]);
    }

    /** Only heap `a` has changed. */
    lemma StillDistinct(a: int)
      requires a in heaps && ApartFrom(a, Blocks(heaps[a].root)) && OthersDistinct(a) && NoneIn(Blocks(heaps[a].root))
      ensures AllApart(heaps)
    {
      hide Blocks, InBlocks;
      SeparateBothWays();
    }

    lemma SeparateBothWays()
      ensures forall xs, ys :: Separate(xs, ys) ==> Separate(ys, xs)
    {
    }

    /** Everything but the blocks of heap `a` is as it should be. */
    ghost predicate OthersDistinct(a: int)
      reads `heaps, heaps.Values
    {
      && (forall b, c :: b in heaps && c in heaps && b != c ==>
            heaps[b] != heaps[c] && (b != a && c != a ==> Separate(Blocks(heaps[b].root), Blocks(heaps[c].root))))
      && forall b :: b in heaps && b != a ==> NoneIn(Blocks(heaps[b].root))
    }

    /** What the memory allocator gives out is apart from the blocks of every heap, and no heap is in it. */
    lemma FreshApart(a: int, at: int, size: nat, blocks: set<Block>)
      requires ApartFrom(a, blocks) && NoneIn(blocks) && size % SLOT == 0
      requires forall b :: b in heaps ==> (b != a ==> IsUnused(heaps[b].root, at, size)) && !(at <= b < at + size)
      ensures ApartFrom(a, blocks + {Block(at, size / SLOT)}) && NoneIn(blocks + {Block(at, size / SLOT)})
    {
      hide Blocks, IsUnused;
      forall b | b in heaps && b != a
        ensures Separate(Blocks(heaps[b].root), blocks + {Block(at, size / SLOT)})
      {
        IsUnusedAgrees(heaps[b].root, at, size);
        NewBlockApart(Blocks(heaps[b].root), at, size);
      }
    }

    /** Heaps that are left are the same ones, and what was allocated in them, and still is, has kept its contents. */
    ghost predicate Keeps(before: map<int, Heap>, w: World)
      reads this, memory, heaps.Values
    {
      forall a :: a in heaps && a in before && a in w.shows ==>
        heaps[a] == before[a] && SameWords(w.words, memory.words, w.shows[a].inUse * heaps[a].inUse)
    }

    lemma KeepsOthers(a: int, before: map<int, Heap>, w: World)
      requires OthersSame(a, w.words, memory.words) && forall b :: b in heaps && b in before ==> heaps[b] == before[b]
      requires a in heaps && a in w.shows ==>
        || SameWords(w.words, memory.words, w.shows[a].inUse)
        || SameWords(w.words, memory.words, heaps[a].inUse)
      ensures Keeps(before, w)
    {
    }

    lemma KeepsRest(a: int, before: map<int, Heap>, w: World)
      requires OthersSame(a, w.words, memory.words) && forall b :: b in heaps && b in before ==> heaps[b] == before[b]
      ensures Keeps(before - {a}, w)
    {
    }

    lemma KeepsAll(before: map<int, Heap>, w: World)
      requires w.words == memory.words && forall b :: b in heaps && b in before ==> heaps[b] == before[b]
      ensures Keeps(before, w)
    {
    }

    /** The heaps other than heap `a` look as they did. */
    ghost predicate OthersShow(a: int, shows: map<int, View>)
      reads `heaps, heaps.Values
    {
      shows.Keys == heaps.Keys && forall b :: b in heaps && b != a ==> Shown(heaps[b]) == shows[b]
    }

    ghost predicate OthersSized(a: int, sizes: map<int, Sizes>)
      reads `heaps, heaps.Values
    {
      sizes.Keys == heaps.Keys && forall b :: b in heaps && b != a ==> SizesIn(heaps[b]) == sizes[b]
    }

    /** What is known of all heaps now: the words, blocks and sizes of those other than heap `a` are as they were. */
    lemma OnlyOne(w: World, a: int)
      requires a in heaps && OthersShow(a, w.shows) && OthersSized(a, w.sizes) && collected == w.collected
      ensures OnlyHeap(w, Now(), a, Shown(heaps[a]), SizesIn(heaps[a]))
    {
      hide Shown, SizesIn;
      assert forall b :: b in heaps ==> Shows()[b] == w.shows[a := Shown(heaps[a])][b];
      assert forall b :: b in heaps ==> SizesOf(heaps)[b] == w.sizes[a := SizesIn(heaps[a])][b];
    }

    lemma SizesAre(a: int)
      ensures OthersSized(a, SizesOf(heaps)) && forall b :: b in heaps ==> SizesOf(heaps)[b] == SizesIn(heaps[b])
    {
    }

    lemma KidsNow(a: int, shows: map<int, View>)
      requires a in heaps && OthersShow(a, shows)
      ensures Shows() == shows[a := Shown(heaps[a])] && Kids() == KidsOf(shows)[a := heaps[a].children]
      ensures (forall b :: b in shows ==> Headed(shows[b])) && Headed(Shown(heaps[a])) ==> AllHeaded()
    {
      hide Headed, Blocks;
      assert forall b :: b in heaps ==> Shows()[b] == shows[a := Shown(heaps[a])][b];
      assert forall b :: b in heaps ==> Kids()[b] == KidsOf(shows)[a := heaps[a].children][b];
    }

    /** When the children of heap `a` are the same as well, so is the tree. */
    lemma KidsSame(a: int, shows: map<int, View>, kids: map<int, seq<int>>)
      requires a in heaps && OthersShow(a, shows) && kids == KidsOf(shows) && shows[a].children == heaps[a].children
      ensures Shows() == shows[a := Shown(heaps[a])] && Kids() == kids
      ensures (forall b :: b in shows ==> Headed(shows[b])) && Headed(Shown(heaps[a])) ==> AllHeaded()
    {
      hide Headed, Blocks;
      KidsNow(a, shows);
    }

    lemma ShowsAre(a: int)
      ensures OthersShow(a, Shows()) && Kids() == KidsOf(Shows())
      ensures forall b :: b in heaps ==> Shows()[b] == Shown(heaps[b])
      ensures AllHeaded() <==> forall b :: b in Shows() ==> Headed(Shows()[b])
    {
    }

    /** Heap `a` has changed, and memory in these blocks. */
    lemma HeapChanged(a: int, words: map<int, int>, written: set<Block>)
      requires a in heaps && heaps[a].memory == memory && heaps[a].Valid() && Blocks(heaps[a].root) <= written
      requires OthersLive(a, words) && OthersDistinct(a) && ApartFrom(a, written) && NoneIn(written)
      requires WrittenIn(words, memory.words, written)
      ensures LiveIn(heaps, memory, memory.words) && AllApart(heaps) && OthersSame(a, words, memory.words)
    {
      hide Heap.Valid, Blocks, Separate, InBlocks, Heap.ValidIn, WrittenIn, SameWords;
      OthersStay(a, words, written);
      FewerApart(a, written, Blocks(heaps[a].root));
      StillDistinct(a);
      heaps[a].ValidIs();
    }

    lemma FewerApart(a: int, blocks: set<Block>, fewer: set<Block>)
      requires ApartFrom(a, blocks) && NoneIn(blocks) && fewer <= blocks
      ensures ApartFrom(a, fewer) && NoneIn(fewer)
    {
      hide Blocks;
    }

    /** The block that an allocation in heap `a` may add is apart from all heaps. */
    lemma RoomFor(a: int, at: int, size: nat)
      requires Sound() && a in heaps && Free(at, Larger(AlignUp(size, SLOT), heaps[a].nextBlockSize))
      ensures var larger := Larger(AlignUp(size, SLOT), heaps[a].nextBlockSize);
        && Unused(Blocks(heaps[a].root), at, larger)
        && ApartFrom(a, Blocks(heaps[a].root) + {Block(at, larger / SLOT)})
        && NoneIn(Blocks(heaps[a].root) + {Block(at, larger / SLOT)})
    {
      hide Heap.Valid, Heap.ValidIn, Blocks, Unused, IsUnused, AlignUp, LiveIn, AllApart, Separate, InBlocks;
      LiveHeap(a);
      LargerIsSlots(heaps[a], size);
      FreshApart(a, at, Larger(AlignUp(size, SLOT), heaps[a].nextBlockSize), Blocks(heaps[a].root));
      IsUnusedAgrees(heaps[a].root, at, Larger(AlignUp(size, SLOT), heaps[a].nextBlockSize));
    }

    /** The other heaps, with these words in memory, look like this, and are apart from these blocks. */
    ghost predicate Others(a: int, words: map<int, int>, blocks: set<Block>, shows: map<int, View>,
                           sizes: map<int, Sizes>)
      reads `heaps, heaps.Values
    {
      OthersSized(a, sizes) && OthersLive(a, words) && OthersDistinct(a) && ApartFrom(a, blocks) && OthersShow(a, shows)
    }

    /** One object has been allocated in heap `a`, or none when the size is zero. */
    ghost predicate HasObject(v: View, sizes: Sizes, a: int, size: nat, at: int, address: int, slot: Slot)
      requires a in heaps
      reads this, memory, heaps.Values, heaps[a].memory
    {
      if size == 0 then address == 0 && heaps[a].Looks() == v && SizesIn(heaps[a]) == sizes else
        && address == Address(slot) && Allocated(v, heaps[a].Looks(), slot, AlignUp(size, SLOT) / SLOT)
        && heaps[a].allocatedSize == sizes.used + AlignUp(size, SLOT) && heaps[a].nextCollectionSize == sizes.threshold
        && IsNext(v.blocks, heaps[a].Looks().blocks, sizes.block, heaps[a].nextBlockSize, AlignUp(size, SLOT), at)
    }

    /** That is all that has happened to the heaps. */
    lemma AllocatedNow(w: World, a: int, size: nat, at: int, address: int, slot: Slot)
      requires a in heaps && heaps[a].memory == memory && a in w.shows && a in w.sizes
      requires OthersShow(a, w.shows) && OthersSized(a, w.sizes)
      requires w.collected == collected && w.parents == parents && w.above == above
      requires HasObject(w.shows[a].(words := w.words), w.sizes[a], a, size, at, address, slot)
      requires w.shows[a].words == map[]
      ensures AllocatedIn(w, Now(), a, size, at, address)
    {
      hide Allocated, IsNext, OthersShow, OthersSized, AlignUp, Blocks;
      OnlyOne(w, a);
      ShownLooks(heaps[a]);
      if size == 0 {
        assert Now().shows == w.shows[a := w.shows[a]] == w.shows;
        assert Now().sizes == w.sizes[a := w.sizes[a]] == w.sizes;
      } else {
        assert AllocatedAt(w, Now(), a, size, at, address, slot);
      }
    }

    method AllocateHeap(a: int, size: nat, at: int, ghost words: map<int, int>, ghost blocks: set<Block>,
                        ghost shows: map<int, View>, ghost sizes: map<int, Sizes>)
      returns (address: int, ghost slot: Slot)
      requires a in heaps && heaps[a].memory == memory && heaps[a].Valid() && at > 0 && at % WORD == 0
      requires Unused(Blocks(heaps[a].root), at, Larger(AlignUp(size, SLOT), heaps[a].nextBlockSize))
      requires Others(a, words, blocks, shows, sizes)
      modifies memory, heaps[a]
      ensures Others(a, words, blocks, shows, sizes) && heaps[a].Valid() && heaps[a].children == old(heaps[a].children)
      ensures SameWords(old(memory.words), memory.words, old(heaps[a].inUse))
      ensures WrittenIn(old(memory.words), memory.words, Blocks(heaps[a].root))
      ensures var larger := Larger(AlignUp(size, SLOT), old(heaps[a].nextBlockSize));
        larger >= 0 && Blocks(heaps[a].root) <= old(Blocks(heaps[a].root)) + {Block(at, larger / SLOT)}
      ensures old(Headed(Shown(heaps[a]))) ==> Headed(Shown(heaps[a]))
      ensures HasObject(old(heaps[a].Looks()), old(SizesIn(heaps[a])), a, size, at, address, slot)
    {
      hide Heap.Valid, Heap.ValidIn, Blocks, SameWords, WrittenIn, Headed, Unused, AlignUp, Separate, InBlocks,
          Allocated, Shown;
      ghost var v := heaps[a].Looks();
      LargerIsSlots(heaps[a], size);
      ShownLooks(heaps[a]);
      HeadedSame(v, Shown(heaps[a]));
      ghost var k;
      address, slot, k := heaps[a].Allocate(size, at);
      AllocatedWords(v, heaps[a].Looks(), slot, size);
      ShownLooks(heaps[a]);
      HeadedSame(heaps[a].Looks(), Shown(heaps[a]));
    }

    /** Allocates an object in one of the heaps. */
    method AllocateIn(a: int, size: nat, at: int) returns (address: int)
      requires Valid() && a in heaps && Free(at, Larger(AlignUp(size, SLOT), heaps[a].nextBlockSize))
      modifies memory, heaps[a]
      ensures Valid() && Kids() == old(Kids()) && Keeps(old(heaps), old(Now()))
      ensures AllocatedIn(old(Now()), Now(), a, size, at, address)
      ensures old(AllHeaded()) ==> AllHeaded()
    {
      hide Heap.Valid, Heap.ValidIn, Blocks, SameWords, WrittenIn, Headed, Unused, IsUnused, AlignUp, Family, LiveIn,
          AllApart, Kids, ShowsOf, AllHeaded, Separate, InBlocks, AreSlots, KidsOf, NoneIn, Keeps, SizesOf, AllocatedIn,
          HasObject;
      ghost var w, shows, kids, words := Now(), Shows(), Kids(), memory.words;
      ghost var more := Blocks(heaps[a].root) + {Block(at, Larger(AlignUp(size, SLOT), heaps[a].nextBlockSize) / SLOT)};
      RoomFor(a, at, size);
      hide Free;
      ShowsAre(a);
      SizesAre(a);
      ShownLooks(heaps[a]);
      LiveHeap(a);
      hide OthersLive, OthersDistinct, ApartFrom, OthersShow, OthersSame, OthersSized;
      ghost var slot;
      address, slot := AllocateHeap(a, size, at, words, more, shows, w.sizes);
      WrittenInMore(words, memory.words, Blocks(heaps[a].root), more);
      HeapChanged(a, words, more);
      KidsSame(a, shows, kids);
      KeepsOthers(a, heaps, w);
      AllocatedNow(w, a, size, at, address, slot);
    }

    /** Stores a word in an allocated slot, or outside of all blocks. */
    method StoreWord(address: int, value: int)
      requires Valid() && CanDo(Op.Store(address, value))
      modifies memory
      ensures Valid() && memory.words == old(memory.words)[address := value]
      ensures Now() == old(Now()).(words := old(Now()).words[address := value])
    {
      hide Heap.Valid, Heap.ValidIn, Blocks, Separate, Heap.Writable, Family, ShowsOf, SizesOf;
      ghost var words := memory.words;
      memory.words := memory.words[address := value];
      forall a | a in heaps
        ensures heaps[a].ValidIn(memory.words)
      {
        heaps[a].StoreKeepsValid(words, address, value);
      }
    }

    lemma KidsAre()
      ensures Kids().Keys == heaps.Keys && forall a :: a in heaps ==> Kids()[a] == heaps[a].children
    {
    }

    lemma NobodysIsUnlisted(c: int)
      ensures NobodysChild(c) <==> !IsListed(Kids(), c)
    {
      if !NobodysChild(c) {
        var a :| a in heaps && c in heaps[a].children;
        assert c in Kids()[a];
      }
    }

    /** The children of heap `a` have changed. */
    lemma ChildrenChanged(a: int, shows: map<int, View>)
      requires a in heaps && heaps[a].memory == memory && heaps[a].Valid()
      requires OthersLive(a, memory.words) && OthersDistinct(a) && ApartFrom(a, Blocks(heaps[a].root))
      requires NoneIn(Blocks(heaps[a].root)) && OthersShow(a, shows)
      requires shows[a].(children := heaps[a].children) == Shown(heaps[a])
      ensures LiveIn(heaps, memory, memory.words) && AllApart(heaps) && Kids() == KidsOf(shows)[a := heaps[a].children]
      ensures (forall b :: b in shows ==> Headed(shows[b])) ==> AllHeaded()
    {
      hide Heap.Valid, Blocks, Separate, InBlocks, Headed, SameWords;
      HeapChanged(a, memory.words, Blocks(heaps[a].root));
      KidsNow(a, shows);
      HeadedSame(shows[a], Shown(heaps[a]));
    }

    /** Puts a child heap into the list of children of a heap. */
    method InsertInto(a: int, c: int)
      requires Sound() && a in heaps && c !in heaps[a].children
      modifies heaps[a]
      ensures Sound() && Kids() == old(Kids())[a := [c] + old(heaps[a].children)]
      ensures heaps[a].children == [c] + old(heaps[a].children) && heaps[a].nextCollectionSize == 0
      ensures OnlyHeap(old(Now()), Now(), a, old(Shown(heaps[a])).(children := [c] + old(heaps[a].children)),
                       old(SizesIn(heaps[a])).(threshold := 0))
      ensures old(AllHeaded()) ==> AllHeaded()
    {
      hide LiveIn, AllApart, Blocks, Heap.Valid, Heap.ValidIn, KidsOf, AllHeaded, Headed, Kids, Shows, InBlocks,
          Separate, SizesOf, OnlyHeap;
      ghost var w, shows := Now(), Shows();
      ShowsAre(a);
      SizesAre(a);
      LiveHeap(a);
      heaps[a].InsertChild(c);
      ChildrenChanged(a, shows);
      OnlyOne(w, a);
    }

    /** Records which heap is the parent of which, and which ones are above which. */
    method Replant(parents: map<int, int>, above: map<int, set<int>>)
      requires LiveIn(heaps, memory, memory.words) && AllApart(heaps) && Family(Kids(), above, {})
      requires parents.Keys <= heaps.Keys && above.Keys == heaps.Keys
      modifies `parents, `above
      ensures Valid() && this.parents == parents && this.above == above
      ensures Now() == old(Now()).(parents := parents, above := above)
    {
      hide LiveIn, AllApart, Family, Kids, ShowsOf, SizesOf;
      this.parents, this.above := parents, above;
    }

    /** Makes a heap the child of another one. */
    method InsertChildOf(a: int, c: int)
      requires Valid() && a in heaps && c in heaps && NobodysChild(c) && !Under(above, a, c)
      modifies `parents, `above, heaps[a]
      ensures Valid() && parents == old(parents)[c := a]
      ensures ChildInserted(old(Now()), Now(), a, c) && Keeps(old(heaps), old(Now()))
      ensures old(RightParents({})) ==> RightParents({})
      ensures old(AllHeaded()) ==> AllHeaded()
    {
      hide LiveIn, AllApart, Family, ParentsRight, Joined, AllHeaded, Kids, Keeps, NobodysChild, ShowsOf, SizesOf;
      ghost var w := Now();
      BeforeInsert(a, c);
      InsertInto(a, c);
      Replant(parents[c := a], Joined(above, a, c));
      KeepsAll(heaps, w);
    }

    /** What the heap looks like is in what is known of all heaps. */
    ghost predicate IsShown(a: int)
      requires a in heaps
      reads this, memory, heaps.Values
    {
      && a in Now().shows && Now().shows[a] == Shown(heaps[a])
      && a in Now().sizes && Now().sizes[a] == SizesIn(heaps[a])
    }

    lemma BeforeInsert(a: int, c: int)
      requires Valid() && a in heaps && c in heaps && NobodysChild(c) && !Under(above, a, c)
      ensures c !in heaps[a].children && a in Kids() && Kids()[a] == heaps[a].children && IsShown(a)
      ensures Joined(above, a, c).Keys == heaps.Keys
      ensures Family(Kids()[a := [c] + Kids()[a]], Joined(above, a, c), {})
      ensures RightParents({}) ==> ParentsRight(Kids()[a := [c] + Kids()[a]], parents[c := a], {})
    {
      hide LiveIn, AllApart, Family, ParentsRight, Joined, Kids;
      NobodysIsUnlisted(c);
      KidsAre();
      ChildAdded(Kids(), above, a, c);
      if RightParents({}) { ParentsAfterInsert(Kids(), parents, a, c); }
      JoinedKeys(above, a, c);
    }

    /** Takes a child heap out of the list of children of a heap. */
    method RemoveFrom(a: int, c: int) returns (ghost rest: seq<int>, ghost k: nat)
      requires Sound() && a in heaps && c in heaps[a].children && NoneTwice(heaps[a].children)
      modifies heaps[a]
      ensures Sound() && Kids() == old(Kids())[a := rest] && heaps[a].children == rest
      ensures Removed(old(heaps[a].children), rest, c) && heaps[a].nextCollectionSize == 0
      ensures k < |old(heaps[a].children)| && old(heaps[a].children)[k] == c
      ensures rest == old(heaps[a].children)[..k] + old(heaps[a].children)[k + 1..]
      ensures OnlyHeap(old(Now()), Now(), a, old(Shown(heaps[a])).(children := rest),
                       old(SizesIn(heaps[a])).(threshold := 0))
      ensures old(AllHeaded()) ==> AllHeaded()
    {
      hide LiveIn, AllApart, Blocks, Heap.Valid, Heap.ValidIn, KidsOf, AllHeaded, Headed, Kids, Shows, InBlocks,
          Separate, NoneTwice, SizesOf, OnlyHeap;
      ghost var w, shows, before := Now(), Shows(), heaps[a].children;
      ShowsAre(a);
      SizesAre(a);
      LiveHeap(a);
      k := heaps[a].RemoveChild(c);
      rest := heaps[a].children;
      ChildrenChanged(a, shows);
      RemovedOne(before, k);
      OnlyOne(w, a);
    }

    /** Takes a heap out of the list of its parent, if it has one. */
    method RemoveFromParentOf(c: int)
      requires Valid() && c in heaps && IsFound(c)
      modifies this, heaps.Values
      ensures Valid() && heaps == old(heaps) && collected == old(collected) && merged == old(merged)
      ensures Unparented(old(Now()), Now(), c) && Keeps(old(heaps), old(Now()))
      ensures old(RightParents({})) ==> RightParents({}) && NobodysChild(c)
      ensures old(AllHeaded()) ==> AllHeaded()
    {
      hide Valid, AllHeaded, Kids, RightParents, Keeps, NobodysChild, ChildLeaves, ShowsOf, SizesOf;
      if c in parents {
        ghost var k := PartFrom(parents[c], c);
      } else {
        KeepsAll(heaps, Now());
        NoParentLeft(c);
      }
    }

    /** Makes a heap the child of no other one. */
    method PartFrom(a: int, c: int) returns (ghost k: nat)
      requires Valid() && a in heaps && c in heaps && c in heaps[a].children
      modifies `parents, `above, heaps[a]
      ensures Valid() && ChildLeaves(old(Now()), Now(), a, c, k) && Keeps(old(heaps), old(Now()))
      ensures old(RightParents({})) ==> RightParents({}) && NobodysChild(c)
      ensures old(AllHeaded()) ==> AllHeaded()
    {
      hide LiveIn, AllApart, Family, ParentsRight, Parted, AllHeaded, Kids, Removed, Keeps, NobodysChild, ShowsOf,
          SizesOf;
      ghost var w, kids := Now(), Kids();
      BeforePart(a);
      ghost var rest;
      rest, k := RemoveFrom(a, c);
      ChildParted(kids, above, parents, a, c, rest);
      Replant(parents - {c}, Parted(above, c));
      KeepsAll(heaps, w);
      NoParentLeft(c);
    }

    lemma BeforePart(a: int)
      requires Valid() && a in heaps
      ensures a in Kids() && Kids()[a] == heaps[a].children && NoneTwice(heaps[a].children)
      ensures IsShown(a)
    {
      hide LiveIn, AllApart, Family, Kids;
      KidsAre();
      ChildrenOf(Kids(), above, {}, a);
    }

    lemma NoParentLeft(c: int)
      requires c !in parents
      ensures RightParents({}) ==> NobodysChild(c)
    {
      hide Kids;
      NobodysIsUnlisted(c);
      if RightParents({}) { NotInParents(Kids(), parents, c); }
    }

    /** Adds a heap whose root lies outside of it. */
    method AddHeap(a: int, begin: int, size: nat)
      requires Valid() && IsNew(a)
      modifies `heaps, `above, `parents
      ensures Valid() && a in heaps && heaps == old(heaps)[a := heaps[a]] && fresh(heaps[a])
      ensures parents == old(parents) && Keeps(old(heaps), old(Now())) && HasNothing(heaps[a], begin, size)
      ensures Created(old(Now()), Now(), a, begin, size)
      ensures old(RightParents({})) ==> RightParents({})
      ensures old(AllHeaded()) ==> AllHeaded()
    {
      hide Valid, AllHeaded, RightParents, IsNew, Keeps, Now, Created;
      var h := new Heap(memory, begin, size);
      Enter(a, h, begin, size);
    }

    method Enter(a: int, h: Heap, ghost begin: int, ghost size: nat)
      requires Valid() && IsNew(a) && h.memory == memory && h.Valid() && HasNothing(h, begin, size)
      requires forall b :: b in heaps ==> heaps[b] != h
      modifies `heaps, `above, `parents
      ensures Valid() && heaps == old(heaps)[a := h] && parents == old(parents) && Keeps(old(heaps), old(Now()))
      ensures Created(old(Now()), Now(), a, begin, size)
      ensures old(RightParents({})) ==> RightParents({})
      ensures old(AllHeaded()) ==> AllHeaded()
    {
      hide LiveIn, AllApart, Heap.Valid, Family, ParentsRight, IsUnused, Blocks, KidsOf, ShowsOf, SizesOf, InBlocks,
          Headed, Keeps, HasNothing, Now, Created, HeadedIn;
      ghost var before, w := heaps, Now();
      NowIs();
      BeforeEntry(a);
      hide IsNew;
      Entered(heaps, memory, a, h, begin, size);
      heaps := heaps[a := h];
      Replant(parents, above[a := {}]);
      KeepsAll(before, w);
      OneMore(before, w, a, h, begin, size);
    }

    /** The heaps are those before and a new one. */
    lemma OneMore(before: map<int, Heap>, w: World, a: int, h: Heap, begin: int, size: nat)
      requires a !in before && heaps == before[a := h] && HasNothing(h, begin, size)
      requires w == World(ShowsOf(before), SizesOf(before), parents, w.above, memory.words, collected)
      ensures Created(w, Now(), a, begin, size)
    {
      assert Shows() == w.shows[a := Shown(h)];
      assert SizesOf(heaps) == w.sizes[a := SizesIn(h)];
    }

    lemma BeforeEntry(a: int)
      requires Valid() && IsNew(a)
      ensures a !in heaps
      ensures Family(Kids()[a := []], above[a := {}], {})
      ensures RightParents({}) ==> ParentsRight(Kids()[a := []], parents, {})
      ensures forall b :: b in heaps ==> !InBlocks(Blocks(heaps[b].root), a)
    {
      hide LiveIn, AllApart, Family, ParentsRight, IsUnused, Blocks, Kids, InBlocks;
      NewIsOutside(a);
      KidsAre();
      RootAdded(Kids(), above, a);
      if ParentsRight(Kids(), parents, {}) { ParentsAfterRoot(Kids(), parents, a); }
    }

    lemma NewIsOutside(a: int)
      requires IsNew(a)
      ensures forall b :: b in heaps ==> !InBlocks(Blocks(heaps[b].root), a)
    {
      hide IsUnused, Blocks;
      forall b | b in heaps ensures !InBlocks(Blocks(heaps[b].root), a) {
        IsUnusedAgrees(heaps[b].root, a, 1);
      }
    }

    /** Adds a heap whose first object is its root. */
    method AddRootedHeap(a: int, size: nat, at: int)
      requires Valid() && IsNew(a) && Free(at, AlignUp(size, SLOT)) && !(at <= a < at + AlignUp(size, SLOT))
      modifies `heaps, `above, `parents, memory
      ensures Valid() && a in heaps && heaps == old(heaps)[a := heaps[a]] && fresh(heaps[a])
      ensures Keeps(old(heaps), old(Now())) && CreatedRooted(old(Now()), Now(), a, size, at)
      ensures old(RightParents({})) ==> RightParents({})
      ensures old(AllHeaded()) ==> AllHeaded()
    {
      hide AlignUp, Valid, Kids, ParentsRight, AllHeaded, IsNew, Keeps, ShowsOf, SizesOf, RootedView, RootedSizes,
          Created, CreatedRooted, OnlyHeap, IsUnused;
      ghost var w := Now();
      AddHeap(a, 0, 0);
      ghost var w1 := Now();
      hide Free;
      StillFree(old(heaps), a, at, AlignUp(size, SLOT));
      RootIn(a, size, at);
      RootGiven(w, w1, Now(), a, size, at);
      KeepsOld(old(heaps), a, w, w1);
    }

    lemma KeepsOld(before: map<int, Heap>, a: int, w: World, w1: World)
      requires a in heaps && heaps == before[a := heaps[a]] && Keeps(heaps - {a}, w1) && Created(w, w1, a, 0, 0)
      ensures Keeps(before, w)
    {
      hide SameWords;
      assert forall b :: b in w.shows ==> b in w1.shows && w1.shows[b] == w.shows[b];
    }

    /** A heap without blocks does not need the place. */
    lemma StillFree(before: map<int, Heap>, a: int, at: int, size: int)
      requires at > 0 && at % WORD == 0 && a in heaps && heaps == before[a := heaps[a]] && heaps[a].root == Nil
      requires !(at <= a < at + size)
      requires forall b :: b in before ==> IsUnused(before[b].root, at, size) && !(at <= b < at + size)
      ensures Free(at, size)
    {
      hide IsUnused;
      assert IsUnused(Nil, at, size) by { NilUnused(at, size); }
    }

    /** Heap `a` has its root, and nothing else. */
    ghost predicate HasRoot(a: int, size: nat, at: int)
      requires a in heaps
      reads this, memory, heaps.Values
    {
      && Shown(heaps[a]) == RootedView(size, at) && SizesIn(heaps[a]) == RootedSizes(size)
      && forall x :: at <= x < at + AlignUp(size, SLOT) ==> Read(memory.words, x) == 0
    }

    method AllocateRootHeap(a: int, size: nat, at: int, ghost words: map<int, int>, ghost blocks: set<Block>,
                            ghost shows: map<int, View>, ghost sizes: map<int, Sizes>)
      requires a in heaps && heaps[a].memory == memory && heaps[a].Valid() && at > 0 && at % WORD == 0
      requires HasNothing(heaps[a], 0, 0)
      requires Others(a, words, blocks, shows, sizes)
      modifies memory, heaps[a]
      ensures Others(a, words, blocks, shows, sizes) && heaps[a].Valid() && heaps[a].children == old(heaps[a].children)
      ensures WrittenIn(old(memory.words), memory.words, Blocks(heaps[a].root))
      ensures Blocks(heaps[a].root) <= {Block(at, AlignUp(size, SLOT) / SLOT)} && Headed(Shown(heaps[a]))
      ensures HasRoot(a, size, at)
    {
      hide Heap.Valid, Heap.ValidIn, Blocks, WrittenIn, Headed, AlignUp, Separate, InBlocks;
      heaps[a].AllocateRoot(size, at);
      ShownLooks(heaps[a]);
      HeadedSame(heaps[a].Looks(), Shown(heaps[a]));
    }

    /** Allocates the root of a heap in which there is nothing yet. */
    method RootIn(a: int, size: nat, at: int)
      requires Valid() && a in heaps && Free(at, AlignUp(size, SLOT)) && HasNothing(heaps[a], 0, 0)
      modifies memory, heaps[a]
      ensures Valid() && Kids() == old(Kids()) && Keeps(old(heaps) - {a}, old(Now()))
      ensures OnlyHeap(old(Now()), Now(), a, RootedView(size, at), RootedSizes(size))
      ensures forall x :: at <= x < at + AlignUp(size, SLOT) ==> Read(memory.words, x) == 0
      ensures old(AllHeaded()) ==> AllHeaded()
    {
      hide Heap.Valid, Heap.ValidIn, Blocks, SameWords, WrittenIn, Headed, IsUnused, AlignUp, Family, LiveIn,
          AllApart, Kids, ShowsOf, AllHeaded, Separate, InBlocks, AreSlots, KidsOf, NoneIn, Keeps, SizesOf,
          RootedView, RootedSizes, OnlyHeap;
      ghost var w, shows, kids, words := Now(), Shows(), Kids(), memory.words;
      ghost var block := Block(at, AlignUp(size, SLOT) / SLOT);
      LiveHeap(a);
      NoBlocks();
      FreshApart(a, at, AlignUp(size, SLOT), {});
      assert {} + {block} == {block};
      hide Free;
      ShowsAre(a);
      SizesAre(a);
      NothingThere(heaps[a], 0, 0);
      hide OthersLive, OthersDistinct, ApartFrom, OthersShow, OthersSame, OthersSized, HasNothing;
      AllocateRootHeap(a, size, at, words, {block}, shows, w.sizes);
      WrittenInMore(words, memory.words, Blocks(heaps[a].root), {block});
      HeapChanged(a, words, {block});
      KidsSame(a, shows, kids);
      KeepsRest(a, heaps, w);
      OnlyOne(w, a);
    }

    // ----- collecting and deleting

    /** What was collected in heap `a`, in terms of all heaps before and after. */
    lemma NowCollected(w: World, a: int, v: View, mine: seq<Collection>)
      requires a in heaps && OthersShow(a, w.shows) && w.above == above && above.Keys == heaps.Keys
      requires collected == w.collected + mine && v == w.shows[a].(words := w.words)
      requires OthersSame(a, w.words, memory.words) && SameWords(w.words, memory.words, heaps[a].inUse)
      requires heaps[a].memory == memory && WrittenIn(w.words, memory.words, w.shows[a].blocks)
      requires if mine == [] then Shown(heaps[a]) == w.shows[a] else
        && mine == [Collection(a, v, above)] && Collected(v, heaps[a].Looks())
        && AreSlots(v.blocks, v.inUse) && Headed(v) && forall c :: c in v.children ==> !InBlocks(v.blocks, c)
      ensures CollectedAt(w, Now(), a, Shown(heaps[a]), mine)
      ensures Kids() == KidsOf(w.shows)[a := heaps[a].children]
    {
      hide Blocks, SameWords, Headed, InBlocks, Collected, AreSlots, WrittenIn;
      KidsNow(a, w.shows);
      ShownLooks(heaps[a]);
      HeadedSame(v, w.shows[a]);
    }

    method CollectHeap(a: int, force: bool, ghost words: map<int, int>, ghost blocks: set<Block>,
                       ghost shows: map<int, View>, ghost sizes: map<int, Sizes>) returns (done: bool)
      requires a in heaps && heaps[a].memory == memory && heaps[a].Valid() && Headed(heaps[a].Looks())
      requires Others(a, words, blocks, shows, sizes)
      modifies memory, heaps[a]
      ensures Others(a, words, blocks, shows, sizes) && heaps[a].Valid()
      ensures done <==> force || old(heaps[a].allocatedSize) > old(heaps[a].nextCollectionSize)
      ensures !done ==> unchanged(heaps[a]) && unchanged(memory)
      ensures done ==> Collected(old(heaps[a].Looks()), heaps[a].Looks()) && SizesIn(heaps[a]) == SizesFor(heaps[a])
    {
      hide Heap.Valid, Heap.ValidIn, Blocks, Headed, InBlocks, Separate, Collected, Shown;
      done := heaps[a].CollectGarbage(force);
      UsedIs(heaps[a]);
    }

    /** Heap `a` has the sizes that follow from what is left, if it was due, and the other heaps the ones they had. */
    lemma SizedNow(w: World, a: int, mine: seq<Collection>, force: bool)
      requires a in heaps && OthersShow(a, w.shows) && OthersSized(a, w.sizes) && w.above.Keys == heaps.Keys
      requires mine != [] <==> force || w.sizes[a].used > w.sizes[a].threshold
      requires SizesIn(heaps[a]) == if mine == [] then w.sizes[a] else SizesFor(heaps[a])
      ensures SizedAt(w, Now(), a, mine, force)
    {
      hide Shown, SizesIn;
      assert Shows().Keys == heaps.Keys && Shows()[a] == Shown(heaps[a]);
      assert Shown(heaps[a]).inUse == heaps[a].inUse by { ShownLooks(heaps[a]); }
      assert SizesOf(heaps).Keys == w.sizes.Keys;
      if mine == [] {
        assert forall b :: b in heaps ==> SizesOf(heaps)[b] == w.sizes[b];
        assert SizesOf(heaps) == w.sizes;
      }
    }

    /** Collects heap `a` itself, if that is due. */
    method CollectIn(a: int, force: bool) returns (done: bool)
      requires Sound() && a in heaps && Headed(Shown(heaps[a]))
      requires forall c :: c in heaps[a].children ==> c in heaps
      modifies `collected, memory, heaps[a]
      ensures Sound() && NoneTwice(heaps[a].children)
      ensures done <==> force || old(heaps[a].allocatedSize) > old(heaps[a].nextCollectionSize)
      ensures var mine := if done then [Collection(a, old(heaps[a].Looks()), above)] else [];
        CollectedAt(old(Now()), Now(), a, Shown(heaps[a]), mine)
      ensures SizedAt(old(Now()), Now(), a, if done then [Collection(a, old(heaps[a].Looks()), above)] else [], force)
      ensures Kids() == old(Kids())[a := heaps[a].children]
    {
      hide Heap.ValidIn, Blocks, Headed, LiveIn, AllApart, Kids, InBlocks, Separate, Collected, AreSlots, KidsOf, Shown,
          CollectedAt, Heap.Shape, Heap.FreeList, Heap.Sizes, Heap.Idle, NoneTwice, ShowsOf, SizesOf, SizedAt;
      ghost var w, v := Now(), heaps[a].Looks();
      BeforeCollecting(a);
      hide Others, NoneIn, Heap.Valid;
      done := CollectHeap(a, force, v.words, v.blocks, w.shows, w.sizes);
      ghost var mine := if done then [Collection(a, v, above)] else [];
      collected := collected + mine;
      HeapCollected(w, a, v, mine);
      SizedNow(w, a, mine, force);
    }

    lemma BeforeCollecting(a: int)
      requires Sound() && a in heaps && Headed(Shown(heaps[a]))
      ensures var (w, v) := (Now(), heaps[a].Looks());
        && Others(a, memory.words, v.blocks, w.shows, w.sizes) && NoneIn(v.blocks) && AreSlots(v.blocks, v.inUse)
        && heaps[a].memory == memory && heaps[a].Valid() && Headed(v)
        && a in w.shows && w.shows[a] == v.(words := map[])
        && v == w.shows[a].(words := w.words) && a in w.sizes && w.sizes[a] == SizesIn(heaps[a])
        && Kids() == KidsOf(w.shows)
    {
      hide Heap.Valid, Heap.ValidIn, Blocks, Headed, LiveIn, AllApart, Separate, InBlocks, AreSlots, OthersLive,
          OthersDistinct, ApartFrom, OthersShow, OthersSized, NoneIn;
      ShowsAre(a);
      SizesAre(a);
      LiveHeap(a);
      ShownLooks(heaps[a]);
      HeadedSame(heaps[a].Looks(), Shown(heaps[a]));
    }

    lemma HeapCollected(w: World, a: int, v: View, mine: seq<Collection>)
      requires a in heaps && heaps[a].memory == memory && heaps[a].Valid()
      requires Others(a, v.words, v.blocks, w.shows, w.sizes)
      requires NoneIn(v.blocks) && w.above == above && above.Keys == heaps.Keys && parents.Keys <= heaps.Keys
      requires collected == w.collected + mine && a in w.shows && v == w.shows[a].(words := w.words)
      requires AreSlots(v.blocks, v.inUse) && Headed(v) && w.shows[a] == v.(words := map[])
      requires forall c :: c in v.children ==> c in heaps
      requires if mine == [] then heaps[a].Looks() == v else
        mine == [Collection(a, v, above)] && Collected(v, heaps[a].Looks())
      ensures Sound() && CollectedAt(w, Now(), a, Shown(heaps[a]), mine)
      ensures Kids() == KidsOf(w.shows)[a := heaps[a].children]
    {
      hide Heap.Valid, Blocks, SameWords, WrittenIn, Headed, LiveIn, AllApart, Kids, InBlocks, Separate, Collected,
          AreSlots, KidsOf, CollectedAt, OthersSame, Now;
      NothingCollected(v);
      ghost var v' := heaps[a].Looks();
      if mine != [] { WhatIsLeft(v, v'); }
      HeapChanged(a, v.words, v.blocks);
      ShownLooks(heaps[a]);
      NowCollected(w, a, v, mine);
    }

    /** The heaps are those that are left of the ones before. */
    ghost predicate Fewer(before: map<int, Heap>, above0: map<int, set<int>>)
      reads `heaps, `above
    {
      above.Keys == heaps.Keys && IsPart(heaps, above, before, above0)
    }

    /** Deletes a heap that has been taken out of the list of its parent, and all heaps below it. */
    method Delete(c: int, ghost loose: set<int>)
      requires Sound() && FamilyOf(loose) && c in loose && NoneBelow(above, loose, c)
      modifies `heaps, `parents, `above
      ensures Sound() && FamilyOf(loose - {c}) && Fewer(old(heaps), old(above))
      ensures Deleted(old(Now()), Now(), c)
      ensures old(RightParents(loose)) ==> RightParents(loose - {c})
      decreases heaps.Keys, 0
    {
      hide LiveIn, AllApart, Family, ParentsRight, ShowsOf, KidsOf, NoneBelow, Pruned, Deleted, Left, Fewer, Now,
          SizesOf;
      ghost var before, w, kids := heaps, Now(), Kids();
      assert w == World(ShowsOf(before), SizesOf(before), parents, above, memory.words, collected) by { NowIs(); }
      LooseIsHeap(kids, above, loose, c);
      KidsAre();
      var children := heaps[c].children;
      Drop(c, loose);
      DeleteChildren(children, c, kids, w.above, loose);
      NowDeleted(before, w, kids, c, loose);
    }

    lemma NowIs()
      ensures Now() == World(ShowsOf(heaps), SizesOf(heaps), parents, above, memory.words, collected)
    {
    }

    lemma NowDeleted(before: map<int, Heap>, w: World, kids: map<int, seq<int>>, c: int, loose: set<int>)
      requires Family(kids, w.above, loose) && c in kids && NoneBelow(w.above, loose, c)
      requires w == World(ShowsOf(before), SizesOf(before), w.parents, w.above, memory.words, collected)
      requires w.above.Keys == before.Keys
      requires Fewer(before - {c}, w.above - {c}) && Pruned(w.above - {c}, above, kids[c])
      ensures Fewer(before, w.above) && Deleted(w, Now(), c)
    {
      hide Family, NoneBelow, Pruned, Deleted, ShowsOf;
      PrunedAll(kids, w.above, above, loose, c);
      FewerShow(before);
      PrunedDeletes(w, Now(), c);
    }

    /** Takes a heap out of the program. */
    method Drop(c: int, ghost loose: set<int>)
      requires Sound() && FamilyOf(loose) && c in loose && c in heaps
      modifies `heaps, `parents, `above
      ensures Sound() && heaps == old(heaps) - {c} && above == old(above) - {c} && Kids() == old(Kids()) - {c}
      ensures FamilyOf(Left(loose - {c}, old(heaps[c].children), 0))
      ensures old(RightParents(loose)) ==> RightParents(Left(loose - {c}, old(heaps[c].children), 0))
    {
      hide LiveIn, AllApart, Family, ParentsRight, ShowsOf, KidsOf, Left;
      BeforeDrop(c, loose);
      heaps, parents, above := heaps - {c}, parents - {c}, above - {c};
    }

    lemma BeforeDrop(c: int, loose: set<int>)
      requires Sound() && FamilyOf(loose) && c in loose && c in heaps
      ensures LiveIn(heaps - {c}, memory, memory.words) && AllApart(heaps - {c})
      ensures KidsOf(ShowsOf(heaps - {c})) == Kids() - {c}
      ensures Family(Kids() - {c}, above - {c}, Left(loose - {c}, heaps[c].children, 0))
      ensures RightParents(loose) ==>
                ParentsRight(Kids() - {c}, parents - {c}, Left(loose - {c}, heaps[c].children, 0))
    {
      hide LiveIn, AllApart, Family, ParentsRight, ShowsOf, KidsOf, Left;
      KidsAre();
      LooseDropped(Kids(), above, loose, c);
      if RightParents(loose) { ParentsAfterDropping(Kids(), parents, above, loose, c); }
      Dropped(heaps, memory, c);
      LeftIs(loose - {c}, heaps[c].children);
    }

    lemma FewerShow(before: map<int, Heap>)
      requires forall a :: a in heaps ==> a in before && heaps[a] == before[a]
      ensures Shows().Keys == heaps.Keys && ShowsOf(before).Keys == before.Keys
      ensures forall a :: a in heaps ==> Shows()[a] == ShowsOf(before)[a]
    {
    }

    /** Deletes the children of heap `c`, which is gone. */
    method DeleteChildren(children: seq<int>, ghost c: int, ghost kids: map<int, seq<int>>,
                          ghost above0: map<int, set<int>>, ghost loose: set<int>)
      requires Family(kids, above0, loose) && c in loose && NoneBelow(above0, loose, c) && kids[c] == children
      requires Sound() && FamilyOf(Left(loose - {c}, children, 0)) && above == above0 - {c}
      modifies `heaps, `parents, `above
      ensures Sound() && FamilyOf(loose - {c}) && Fewer(old(heaps), old(above)) && Pruned(old(above), above, children)
      ensures old(RightParents(Left(loose - {c}, children, 0))) ==> RightParents(loose - {c})
      decreases heaps.Keys, 1
    {
      hide LiveIn, AllApart, Family, ParentsRight, ShowsOf, KidsOf, NoneBelow, Pruned, Deleted, Left;
      ghost var rest, right := loose - {c}, RightParents(Left(loose - {c}, children, 0));
      LooseIsHeap(kids, above0, loose, c);
      ChildrenOf(kids, above0, loose, c);
      PrunedNothing(above);
      LeftIs(rest, children);
      var i := 0;
      while i < |children|
        modifies `heaps, `parents, `above
        invariant 0 <= i <= |children| && Sound() && Fewer(old(heaps), old(above))
        invariant FamilyOf(Left(rest, children, i)) && (right ==> RightParents(Left(rest, children, i)))
        invariant Pruned(old(above), above, children[..i])
        decreases |children| - i
      {
        ghost var w := Now();
        OneLeft(rest, children, i);
        NoneBelowLeft(kids, above0, above, loose, c, i);
        Delete(children[i], Left(rest, children, i));
        DeletedPrunes(w, Now(), children[i]);
        PrunedMore(old(above), w.above, above, children[..i], children[i]);
        assert children[..i + 1] == children[..i] + [children[i]];
        i := i + 1;
      }
      assert children[..i] == children;
    }

    /** The objects of heap `a`, and of those below it, have their heads. */
    ghost predicate WholeFrom(a: int)
      requires above.Keys == heaps.Keys
      reads this, heaps.Values
    {
      forall x :: x in heaps && Under(above, x, a) ==> Headed(Shows()[x])
    }

    /**
      Collects heap `a`, if that is due, and then those of its children that a traced word names; the other
      ones are deleted.
      */
    method Collect(a: int, force: bool, ghost loose: set<int>) returns (done: bool)
      requires Sound() && FamilyOf(loose) && a in heaps && NoneBelow(above, loose, a) && WholeFrom(a)
      modifies `heaps, `parents, `above, `collected, memory, heaps.Values
      ensures Sound() && FamilyOf(loose) && Fewer(old(heaps), old(above)) && a in heaps
      ensures CollectedFrom(old(Now()), Now(), a) && AllTreated(old(Now()), Now(), a, force)
      ensures force || old(heaps[a].allocatedSize > heaps[a].nextCollectionSize) ==>
        forall c :: c in old(heaps[a].children) ==> (c in heaps <==> TracedWord(old(heaps[a].Looks()), c))
      ensures done <==> |collected| > |old(collected)|
      ensures old(RightParents(loose)) ==> RightParents(loose)
      decreases heaps.Keys - above[a], 2
    {
      hide LiveIn, AllApart, Family, ParentsRight, ShowsOf, KidsOf, NoneBelow, Headed, CollectedAt, Partly,
          CollectedFrom, Lost, Shown, WholeFrom, NoneTwice, Began, Now, Fewer, FamilyOf, SizedAt, PartTreated,
          AllTreated;
      ghost var w, v := Now(), heaps[a].Looks();
      var children := heaps[a].children;
      Begins(a, loose);
      var due := CollectIn(a, force);
      ghost var v', mine := Shown(heaps[a]), if due then [Collection(a, v, above)] else [];
      Begun(w, a, v', mine, loose, force);
      done := CollectChildren(a, children, due, w, v', mine, loose, force);
      Ends(w, a, v', mine, loose, force);
      if due {
        OwnChildren(w, a, v', mine, loose);
      }
    }

    /** The children that are left are those whose address a traced word held. */
    lemma OwnChildren(w: World, a: int, v': View, mine: seq<Collection>, loose: set<int>)
      requires Began(w, a, loose) && Partly(w, Now(), a, v', mine, |w.shows[a].children|) && a in w.shows && mine != []
      requires CollectedFrom(w, Now(), a) && FamilyOf(loose) && mine[0].above == w.above && a in heaps
      ensures forall c :: c in w.shows[a].children ==> (c in heaps <==> TracedWord(mine[0].before, c))
    {
      hide NoneBelow, Headed, TracedWord, Shrinks, OnlyUnder, LosesUnder;
      KidOf(w.shows, a);
      KidsAre();
      ChildrenOf(KidsOf(w.shows), w.above, loose, a);
      ChildrenOf(Kids(), above, loose, a);
      assert Now().shows[a] == v' && Shows().Keys == heaps.Keys;
      hide Family, ShowsOf;
      forall c | c in w.shows[a].children && c !in v'.children ensures c !in heaps {
        assert mine[0] == collected[|w.collected|];
        assert Under(mine[0].above, c, c) && Loses(mine[0], c);
        assert LostSince(collected, |w.collected|, c);
      }
    }

    lemma Begins(a: int, loose: set<int>)
      requires Sound() && FamilyOf(loose) && a in heaps && NoneBelow(above, loose, a) && WholeFrom(a)
      ensures Began(Now(), a, loose) && Now().shows[a].children == heaps[a].children && Now().shows.Keys == heaps.Keys
      ensures Now().above == above && Now().collected == collected && Kids() == KidsOf(Now().shows)
      ensures Headed(Shown(heaps[a])) && forall c :: c in heaps[a].children ==> c in heaps
    {
      hide NoneBelow, Headed, LiveIn, AllApart, Blocks;
      KidOf(Shows(), a);
      ChildrenOf(Kids(), above, loose, a);
      hide Family;
      assert Headed(Shows()[a]);
    }

    lemma Begun(w: World, a: int, v': View, mine: seq<Collection>, loose: set<int>, force: bool)
      requires Began(w, a, loose) && CollectedAt(w, Now(), a, v', mine) && Sound()
      requires SizedAt(w, Now(), a, mine, force)
      requires a in heaps && v' == Shown(heaps[a])
      requires Kids() == KidsOf(w.shows)[a := heaps[a].children] && NoneTwice(heaps[a].children)
      ensures Midway(w, a, v', mine, loose, force, 0, mine != [])
      ensures ParentsRight(KidsOf(w.shows), parents, loose) ==>
                RightParents(Lost(loose, w.shows[a].children, v'.children, 0))
    {
      hide NoneBelow, Headed, LiveIn, AllApart, Blocks, Family, ParentsRight, NoneTwice, Lost, SizedAt, PartTreated;
      StartsPartly(w, Now(), a, v', mine, loose);
      StartsTreated(w, Now(), a, v', mine, force, loose);
      LostIs(loose, w.shows[a].children, v'.children);
      KidOf(w.shows, a);
      assert above == w.above && |collected| == |w.collected| + |mine|;
      assert Elements(v'.children) <= Elements(w.shows[a].children) by { FewerChildren(w, Now(), a, v', mine); }
      hide CollectedAt, Partly;
      ChildrenLoosened(KidsOf(w.shows), above, loose, a, v'.children);
      if ParentsRight(KidsOf(w.shows), parents, loose) {
        ParentsAfterLoosening(KidsOf(w.shows), parents, loose, a, v'.children);
      }
    }

    lemma FewerChildren(w: World, w': World, a: int, v': View, mine: seq<Collection>)
      requires Partly(w, w', a, v', mine, 0)
      ensures Elements(v'.children) <= Elements(w.shows[a].children)
    {
      forall c | c in Elements(v'.children) ensures c in Elements(w.shows[a].children) {
        assert c in v'.children;
      }
    }

    lemma Ends(w: World, a: int, v': View, mine: seq<Collection>, loose: set<int>, force: bool)
      requires Began(w, a, loose) && Partly(w, Now(), a, v', mine, |w.shows[a].children|) && a in w.shows
      requires PartTreated(w, Now(), a, force, |w.shows[a].children|)
      ensures CollectedFrom(w, Now(), a) && AllTreated(w, Now(), a, force) && a in heaps
      ensures Lost(loose, w.shows[a].children, v'.children, |w.shows[a].children|) == loose
    {
      LostIs(loose, w.shows[a].children, v'.children);
      hide Family, NoneBelow, Headed, CollectedFrom, PartTreated, AllTreated;
      assert a in Now().shows && Shows().Keys == heaps.Keys;
      assert Shows().Keys <= w.shows.Keys;
      hide Partly;
      AllDealtWith(w, Now(), a, v', mine, loose);
      AllAreTreated(w, Now(), a, force, loose);
    }

    /** The collection of heap `a` has come to its `i`-th child; `done` says whether any heap was collected. */
    ghost predicate Midway(w: World, a: int, v': View, mine: seq<Collection>, loose: set<int>, force: bool, i: nat,
                           done: bool)
      reads this, memory, heaps.Values
    {
      && a in w.shows && i <= |w.shows[a].children|
      && Sound() && Partly(w, Now(), a, v', mine, i) && FamilyOf(Lost(loose, w.shows[a].children, v'.children, i))
      && PartTreated(w, Now(), a, force, i) && (done <==> |collected| > |w.collected|)
    }

    /** What is known of all heaps from before that collection. */
    ghost predicate Began(w: World, a: int, loose: set<int>) {
      && Family(KidsOf(w.shows), w.above, loose) && a in w.shows && NoneBelow(w.above, loose, a)
      && w.above.Keys == w.shows.Keys && forall x :: x in w.shows && Under(w.above, x, a) ==> Headed(w.shows[x])
    }

    /** Collects or deletes the children that heap `a` had before it was collected itself. */
    method CollectChildren(a: int, children: seq<int>, due: bool, ghost w: World, ghost v': View,
                           ghost mine: seq<Collection>, ghost loose: set<int>, ghost force: bool)
      returns (done: bool)
      requires Began(w, a, loose) && Midway(w, a, v', mine, loose, force, 0, due) && children == w.shows[a].children
      requires heaps.Keys == w.shows.Keys == w.above.Keys && above == w.above
      modifies `heaps, `parents, `above, `collected, memory, heaps.Values
      ensures Midway(w, a, v', mine, loose, force, |children|, done) && Fewer(old(heaps), old(above))
      ensures old(RightParents(Lost(loose, children, v'.children, 0))) ==>
                RightParents(Lost(loose, children, v'.children, |children|))
      decreases w.shows.Keys - w.above[a], 1
    {
      hide Began, Midway, RightParents, Lost;
      ghost var before, above0, right := heaps, above, RightParents(Lost(loose, children, v'.children, 0));
      done := due;
      var i := 0;
      while i < |children|
        invariant 0 <= i <= |children| && Midway(w, a, v', mine, loose, force, i, done) && Fewer(before, above0)
        invariant right ==> RightParents(Lost(loose, children, v'.children, i))
        invariant heaps.Values <= before.Values
        decreases |children| - i
      {
        done := CollectChild(a, children, i, done, before, above0, w, v', mine, loose, force);
        FewerValues(before, above0);
        i := i + 1;
      }
    }

    lemma FewerValues(before: map<int, Heap>, above0: map<int, set<int>>)
      requires Fewer(before, above0)
      ensures heaps.Values <= before.Values
    {
      SmallerValues(heaps, before);
    }

    /** Collects or deletes one of these children. */
    method CollectChild(a: int, children: seq<int>, i: nat, already: bool, ghost before: map<int, Heap>,
                        ghost above0: map<int, set<int>>, ghost w: World, ghost v': View,
                        ghost mine: seq<Collection>, ghost loose: set<int>, ghost force: bool) returns (done: bool)
      requires Began(w, a, loose) && Midway(w, a, v', mine, loose, force, i, already)
      requires children == w.shows[a].children
      requires i < |children| && Fewer(before, above0) && before.Keys == w.shows.Keys && above0 == w.above
      modifies `heaps, `parents, `above, `collected, memory, heaps.Values
      ensures Midway(w, a, v', mine, loose, force, i + 1, done) && Fewer(before, above0)
      ensures old(RightParents(Lost(loose, children, v'.children, i))) ==>
                RightParents(Lost(loose, children, v'.children, i + 1))
      decreases w.shows.Keys - w.above[a], 0
    {
      hide LiveIn, AllApart, Family, ParentsRight, ShowsOf, KidsOf, NoneBelow, Headed, Partly, CollectedFrom,
          Lost, Shown, WholeFrom, Deleted, Began, IsPart, PartTreated, AllTreated, SizesOf;
      ghost var w1, left, heaps1, above1 := Now(), Lost(loose, children, v'.children, i), heaps, above;
      NowIs();
      BeforeChild(w, a, v', mine, loose, i);
      var c := children[i];
      if c in heaps[a].children {
        CanGoOn(w, a, v', mine, loose, i);
        var more := Collect(c, false, left);
        ChildIsCollected(w, w1, Now(), a, v', mine, i, loose);
        ChildIsTreated(w, w1, Now(), a, v', mine, i, loose, force);
        done := already || more;
      } else {
        Delete(c, left);
        ChildIsDeleted(w, w1, Now(), a, v', mine, i, loose);
        SizesLeft(heaps1, above1);
        ChildIsGone(w, w1, Now(), a, v', mine, i, loose, force);
        done := already;
      }
      FewerTwice(before, above0, heaps1, above1);
    }

    lemma FewerTwice(before: map<int, Heap>, above0: map<int, set<int>>, heaps1: map<int, Heap>,
                     above1: map<int, set<int>>)
      requires Fewer(heaps1, above1) && IsPart(heaps1, above1, before, above0)
      ensures Fewer(before, above0)
    {
    }

    /** Heap `c` can be collected. */
    ghost predicate CanGo(c: int)
      reads this, heaps.Values
    {
      above.Keys == heaps.Keys && c in heaps && WholeFrom(c)
    }

    lemma BeforeChild(w: World, a: int, v': View, mine: seq<Collection>, loose: set<int>, i: nat)
      requires Began(w, a, loose) && i < |w.shows[a].children| && Partly(w, Now(), a, v', mine, i)
      requires above.Keys == heaps.Keys
      ensures a in heaps && heaps[a].children == v'.children && |w.collected| <= |collected|
      ensures var (children, kept) := (w.shows[a].children, v'.children); var c := children[i];
        && NoneBelow(above, Lost(loose, children, kept, i), c)
        && (c in kept ==> Lost(loose, children, kept, i) == Lost(loose, children, kept, i + 1))
        && (c !in kept ==> c in Lost(loose, children, kept, i))
        && (c !in kept ==> Lost(loose, children, kept, i) - {c} == Lost(loose, children, kept, i + 1))
    {
      hide Family, NoneBelow, Headed, Lost, Blocks;
      KidOf(w.shows, a);
      ChildrenOf(KidsOf(w.shows), w.above, loose, a);
      NextLost(loose, w.shows[a].children, v'.children, i);
      NoneBelowLost(KidsOf(w.shows), w.above, above, loose, a, v'.children, i);
      assert Now().shows[a] == Shown(heaps[a]);
    }

    lemma CanGoOn(w: World, a: int, v': View, mine: seq<Collection>, loose: set<int>, i: nat)
      requires Began(w, a, loose) && i < |w.shows[a].children| && Partly(w, Now(), a, v', mine, i)
      requires above.Keys == heaps.Keys
      ensures var c := w.shows[a].children[i];
        && CanGo(c) && c in w.above && heaps.Keys - above[c] < w.shows.Keys - w.above[a]
    {
      hide Family, NoneBelow, Headed, Shown;
      var c := w.shows[a].children[i];
      KidOf(w.shows, a);
      assert heaps.Keys <= w.shows.Keys by { assert Shows().Keys == heaps.Keys; }
      StillWhole(w, Now(), a, v', mine, i, loose);
      ChildIsLower(KidsOf(w.shows), w.above, loose, a, c, heaps.Keys);
    }

    lemma ChildIsCollected(w: World, w1: World, w2: World, a: int, v': View, mine: seq<Collection>, i: nat,
                           loose: set<int>)
      requires Began(w, a, loose) && i < |w.shows[a].children| && Partly(w, w1, a, v', mine, i)
      requires w.shows[a].children[i] in v'.children && CollectedFrom(w1, w2, w.shows[a].children[i])
      ensures Partly(w, w2, a, v', mine, i + 1) && |w1.collected| <= |w2.collected|
    {
      assert w1.collected <= w2.collected;
      hide Family, NoneBelow, Headed, Partly, CollectedFrom;
      ChildCollected(w, w1, w2, a, v', mine, i, loose);
    }

    lemma ChildIsDeleted(w: World, w1: World, w2: World, a: int, v': View, mine: seq<Collection>, i: nat,
                         loose: set<int>)
      requires Began(w, a, loose) && i < |w.shows[a].children| && Partly(w, w1, a, v', mine, i)
      requires w.shows[a].children[i] !in v'.children && Deleted(w1, w2, w.shows[a].children[i])
      ensures Partly(w, w2, a, v', mine, i + 1)
    {
      hide Family, NoneBelow, Headed, Partly, Deleted;
      ChildDeleted(w, w1, w2, a, v', mine, i, loose);
    }

    lemma ChildIsTreated(w: World, w1: World, w2: World, a: int, v': View, mine: seq<Collection>, i: nat,
                         loose: set<int>, force: bool)
      requires Began(w, a, loose) && i < |w.shows[a].children| && Partly(w, w1, a, v', mine, i)
      requires PartTreated(w, w1, a, force, i)
      requires CollectedFrom(w1, w2, w.shows[a].children[i]) && AllTreated(w1, w2, w.shows[a].children[i], false)
      ensures PartTreated(w, w2, a, force, i + 1)
    {
      hide Headed, HeadsPointed, Around, AllTreated, PartTreated, WrittenInHeaps, AllRecorded, LosesUnder, OnlyUnder;
      IsAround(w, a, i, loose);
      assert Continues(w, w1);
      hide Family, NoneBelow, Partly;
      ChildTreated(w, w1, w2, a, force, i);
    }

    /** The heaps that are left have the sizes they had. */
    lemma SizesLeft(before: map<int, Heap>, above0: map<int, set<int>>)
      requires Fewer(before, above0)
      ensures IsSized(Now())
      ensures forall x :: x in Now().sizes ==> x in SizesOf(before) && Now().sizes[x] == SizesOf(before)[x]
    {
      assert Shows().Keys == SizesOf(heaps).Keys == heaps.Keys;
    }

    lemma ChildIsGone(w: World, w1: World, w2: World, a: int, v': View, mine: seq<Collection>, i: nat,
                      loose: set<int>, force: bool)
      requires Began(w, a, loose) && i < |w.shows[a].children| && Partly(w, w1, a, v', mine, i)
      requires PartTreated(w, w1, a, force, i)
      requires Deleted(w1, w2, w.shows[a].children[i]) && IsSized(w2)
      requires forall x :: x in w2.sizes ==> x in w1.sizes && w2.sizes[x] == w1.sizes[x]
      ensures PartTreated(w, w2, a, force, i + 1)
    {
      hide Headed, HeadsPointed, Around, PartTreated, WrittenInHeaps, AllRecorded, LosesUnder, OnlyUnder, Deleted;
      IsAround(w, a, i, loose);
      assert Continues(w, w1);
      hide Family, NoneBelow, Partly;
      ChildGone(w, w1, w2, a, force, i);
    }

    lemma KidOf(shows: map<int, View>, a: int)
      requires a in shows
      ensures KidsOf(shows).Keys == shows.Keys && KidsOf(shows)[a] == shows[a].children
    {
    }

    // ----- merging

    /** A heap that is not, or no longer, one of the program's. */
    ghost predicate Extra(x: Heap, blocks: set<Block>)
      reads `heaps, heaps.Values
    {
      NoneIn(blocks) && forall a :: a in heaps ==> heaps[a] != x && Separate(Blocks(heaps[a].root), blocks)
    }

    lemma OneOut(b: int)
      requires Sound() && b in heaps
      ensures LiveIn(heaps - {b}, memory, memory.words) && AllApart(heaps - {b})
      ensures HeapOf(b) && forall a :: a in heaps && a != b ==>
        heaps[a] != heaps[b] && Separate(Blocks(heaps[a].root), Blocks(heaps[b].root))
      ensures NoneIn(Blocks(heaps[b].root)) && KidsOf(ShowsOf(heaps - {b})) == Kids() - {b}
      ensures ShowsOf(heaps - {b}) == Shows() - {b} && SizesOf(heaps - {b}) == SizesOf(heaps) - {b}
    {
      hide Heap.Valid, Heap.ValidIn, Blocks, Separate, InBlocks, Shown;
      LiveHeap(b);
      Dropped(heaps, memory, b);
    }

    /** Takes a heap out of the program, to be merged into another one. */
    method TakeOut(b: int) returns (x: Heap)
      requires Sound() && b in heaps
      modifies `heaps
      ensures heaps == old(heaps) - {b} && x == old(heaps)[b] && LiveIn(heaps, memory, memory.words) && AllApart(heaps)
      ensures x.memory == memory && x.Valid() && Extra(x, Blocks(x.root)) && Kids() == old(Kids()) - {b}
      ensures old(AllHeaded()) ==> AllHeaded() && Headed(Shown(x))
      ensures Shows() == old(Shows()) - {b} && SizesOf(heaps) == old(SizesOf(heaps)) - {b}
    {
      hide Heap.Valid, Heap.ValidIn, Blocks, Separate, InBlocks, Shown, LiveIn, AllApart, ShowsOf, SizesOf, KidsOf,
          Headed;
      OneOut(b);
      x := heaps[b];
      heaps := heaps - {b};
    }

    /** Merges such a heap into heap `a`. */
    method MergeHeap(a: int, x: Heap, ghost words: map<int, int>, ghost blocks: set<Block>,
                     ghost shows: map<int, View>, ghost sizes: map<int, Sizes>)
      requires a in heaps && heaps[a].memory == memory && heaps[a].Valid() && Others(a, words, blocks, shows, sizes)
      requires x.memory == memory && x.Valid() && Extra(x, Blocks(x.root))
      requires forall c :: c in heaps[a].children ==> c !in x.children
      modifies memory, heaps[a], x
      ensures Others(a, words, blocks, shows, sizes) && heaps[a].Valid()
      ensures Blocks(heaps[a].root) == old(Blocks(heaps[a].root)) + old(Blocks(x.root))
      ensures heaps[a].inUse == old(heaps[a].inUse + x.inUse)
      ensures heaps[a].children == old(heaps[a].children + x.children)
      ensures SameWords(old(memory.words), memory.words, heaps[a].inUse)
      ensures WrittenIn(old(memory.words), memory.words, Blocks(heaps[a].root))
      ensures old(Headed(heaps[a].Looks()) && Headed(x.Looks())) ==> Headed(heaps[a].Looks())
      ensures Shown(heaps[a]) == old(Union(Shown(heaps[a]), Shown(x)))
      ensures SizesIn(heaps[a]) == old(SizesIn(heaps[a]).(used := heaps[a].allocatedSize + x.allocatedSize))
    {
      hide Heap.Valid, Heap.ValidIn, Blocks, Headed, InBlocks, Separate, SameWords, WrittenIn;
      heaps[a].Merge(x);
    }

    lemma BothApart(a: int, x: Heap)
      requires a in heaps && ApartFrom(a, Blocks(heaps[a].root)) && NoneIn(Blocks(heaps[a].root))
      requires Extra(x, Blocks(x.root))
      ensures ApartFrom(a, Blocks(heaps[a].root) + Blocks(x.root)) && NoneIn(Blocks(heaps[a].root) + Blocks(x.root))
    {
      hide Blocks;
    }

    method MergeExtra(a: int, x: Heap)
      requires LiveIn(heaps, memory, memory.words) && AllApart(heaps) && a in heaps
      requires x.memory == memory && x.Valid() && Extra(x, Blocks(x.root))
      requires forall c :: c in heaps[a].children ==> c !in x.children
      modifies memory, heaps[a], x
      ensures LiveIn(heaps, memory, memory.words) && AllApart(heaps)
      ensures Kids() == old(Kids())[a := old(heaps[a].children + x.children)]
      ensures heaps[a].inUse == old(heaps[a].inUse + x.inUse)
      ensures heaps[a].children == old(heaps[a].children + x.children)
      ensures SameWords(old(memory.words), memory.words, heaps[a].inUse)
      ensures OthersSame(a, old(memory.words), memory.words)
      ensures OnlyHeap(old(Now()), Now(), a, old(Union(Shown(heaps[a]), Shown(x))),
                       old(SizesIn(heaps[a]).(used := heaps[a].allocatedSize + x.allocatedSize)))
      ensures old(AllHeaded()) && old(Headed(Shown(x))) ==> AllHeaded()
    {
      hide Heap.Valid, Heap.ValidIn, Blocks, Headed, InBlocks, Separate, SameWords, WrittenIn, LiveIn, AllApart,
          Extra, Kids, KidsOf, AllHeaded, ShowsOf, Shown, SizesOf, SizesIn, OnlyHeap, Union;
      ghost var w, shows, words, both := Now(), Shows(), memory.words, Blocks(heaps[a].root) + Blocks(x.root);
      ghost var v, u := heaps[a].Looks(), x.Looks();
      ShowsAre(a);
      SizesAre(a);
      LiveHeap(a);
      BothApart(a, x);
      ShownLooks(heaps[a]);
      ShownLooks(x);
      HeadedSame(v, Shown(heaps[a]));
      HeadedSame(u, Shown(x));
      hide OthersLive, OthersDistinct, ApartFrom, OthersShow, OthersSame, OthersSized, NoneIn;
      MergeHeap(a, x, words, both, shows, w.sizes);
      HeapChanged(a, words, both);
      ShownLooks(heaps[a]);
      HeadedSame(heaps[a].Looks(), Shown(heaps[a]));
      KidsNow(a, shows);
      OnlyOne(w, a);
    }

    method MergeOut(a: int, b: int)
      requires Sound() && a in heaps && b in heaps && a != b
      requires forall c :: c in heaps[a].children ==> c !in heaps[b].children
      modifies `heaps, memory, heaps[a], heaps[b]
      ensures heaps == old(heaps) - {b} && LiveIn(heaps, memory, memory.words) && AllApart(heaps)
      ensures Kids() == (old(Kids()) - {b})[a := old(heaps[a].children + heaps[b].children)]
      ensures heaps[a].inUse == old(heaps[a].inUse + heaps[b].inUse)
      ensures heaps[a].children == old(heaps[a].children + heaps[b].children)
      ensures SameWords(old(memory.words), memory.words, heaps[a].inUse)
      ensures OthersSame(a, old(memory.words), memory.words)
      ensures HaveMerged(old(Now()), Now(), a, b)
      ensures old(AllHeaded()) ==> AllHeaded()
    {
      hide LiveIn, AllApart, AllHeaded, SameWords, OthersSame, Kids, Blocks, Heap.Valid, Headed, Extra, Shown, ShowsOf,
          SizesOf, Union;
      ShownIs(a);
      ShownIs(b);
      ShownLooks(heaps[a]);
      ShownLooks(heaps[b]);
      var x := TakeOut(b);
      MergeExtra(a, x);
    }

    lemma ShownIs(a: int)
      requires a in heaps
      ensures IsShown(a)
    {
    }

    /** Merges heap `b` into heap `a`, which becomes the parent of its children. */
    method MergeTree(a: int, b: int)
      requires Valid() && a in heaps && b in heaps && NobodysChild(b) && !Under(above, a, b)
      modifies `heaps, `parents, `above, memory, heaps[a], heaps[b]
      ensures Valid() && heaps == old(heaps) - {b} && parents == old(parents) - {b}
      ensures Kids() == (old(Kids()) - {b})[a := old(Kids())[a] + old(Kids())[b]]
      ensures OthersSame(a, old(memory.words), memory.words) && HaveMerged(old(Now()), Now(), a, b)
      ensures old(AllHeaded()) ==> AllHeaded()
    {
      hide LiveIn, AllApart, Family, TakenOver, HeadedIn, SameWords, OthersSame, Kids, ParentsRight, IsListed,
          HaveMerged, Now, Blocks, Heap.Valid, Heap.ValidIn, Shown, Separate;
      ghost var w, kids := Now(), Kids();
      NobodysIsUnlisted(b);
      hide NobodysChild;
      KidsAre();
      MergeFits(kids, above, parents, a, b);
      MergeOut(a, b);
      ghost var w' := Now();
      Replant(parents - {b}, TakenOver(above, a, b));
      SameMerged(w, w', Now(), a, b);
    }

    /** Merges heap `b` into heap `a`; heap `b` is gone. */
    method MergeInto(a: int, b: int)
      requires Valid() && a in heaps && b in heaps && NobodysChild(b) && !Under(above, a, b)
      modifies `heaps, `parents, `above, `merged, memory, heaps[a], heaps[b]
      ensures Valid() && heaps == old(heaps) - {b} && Merged(old(Now()), Now(), a, b)
      ensures Keeps(old(heaps), old(Now())) && merged == old(merged) + [old(heaps[b].Looks())]
      ensures old(AllHeaded()) ==> AllHeaded()
      ensures old(RightParents({})) ==> (RightParents({}) <==> old(heaps[b].children) == [])
    {
      hide LiveIn, AllApart, Family, ParentsRight, HeadedIn, SameWords, OthersSame, Kids, NobodysChild, Keeps, ShowsOf,
          SizesOf, HaveMerged;
      ghost var before, w, v := heaps, Now(), heaps[b].Looks();
      BeforeMerge(a, b);
      MergeTree(a, b);
      merged := merged + [v];
      MergedSame(w, Now(), a, b);
      KeepsOthers(a, before, w);
    }

    lemma BeforeMerge(a: int, b: int)
      requires Valid() && a in heaps && b in heaps && NobodysChild(b) && !Under(above, a, b)
      ensures a in Now().shows && a in Kids() && b in Kids()
      ensures RightParents({}) ==>
        var kids := (Kids() - {b})[a := Kids()[a] + Kids()[b]];
        (ParentsRight(kids, parents - {b}, {}) <==> heaps[b].children == [])
    {
      hide Family, ParentsRight, Kids, IsListed, ShowsOf;
      KidsAre();
      NobodysIsUnlisted(b);
      MergeFits(Kids(), above, parents, a, b);
      assert a in Shows().Keys by { FewerShow(heaps); }
    }

    // ----- any operation, and any run of them

    lemma KeepsCollected(a: int, before: map<int, Heap>, w: World)
      requires CollectedFrom(w, Now(), a) && forall b :: b in heaps ==> b in before && heaps[b] == before[b]
      ensures Keeps(before, w) && w.collected <= collected
      ensures forall b :: b in w.shows && b !in heaps ==> LostSince(collected, |w.collected|, b)
      ensures (forall b :: b in w.shows ==> Headed(w.shows[b])) && PointedSince(collected, |w.collected|) ==>
                AllHeaded()
    {
      hide Headed, HeadsPointed, Loses, LostSince, PointedSince;
      assert Shows().Keys == heaps.Keys;
      assert forall b :: b in heaps ==> Now().shows[b] == Shown(heaps[b]);
    }

    /** None of the heaps that have been merged into others since then had children. */
    ghost predicate ChildlessSince(n: nat)
      reads `merged
    {
      forall k: nat :: n <= k < |merged| ==> merged[k].children == []
    }

    lemma WholeEnough(a: int)
      requires above.Keys == heaps.Keys && WholeUnder(a)
      ensures WholeFrom(a) && NoneBelow(above, {}, a)
    {
      hide AllWhole, Headed;
      forall x | x in heaps && Under(above, x, a) ensures Headed(Shows()[x]) {
        AllWholeAgrees(Shown(heaps[x]));
      }
    }

    /** Collects a heap, with all below it. */
    method CollectTree(a: int, force: bool)
      requires Valid() && a in heaps && WholeUnder(a)
      modifies `heaps, `parents, `above, `collected, memory, heaps.Values
      ensures Valid() && Keeps(old(heaps), old(Now())) && old(collected) <= collected
      ensures forall b :: b in heaps ==> b in old(heaps) && heaps[b] == old(heaps)[b]
      ensures CollectedFrom(old(Now()), Now(), a) && AllTreated(old(Now()), Now(), a, force)
      ensures forall b :: b in old(heaps) && b !in heaps ==> LostSince(collected, |old(collected)|, b)
      ensures old(AllHeaded()) && PointedSince(collected, |old(collected)|) ==> AllHeaded()
      ensures old(RightParents({})) ==> RightParents({})
    {
      hide LiveIn, AllApart, Family, ParentsRight, Headed, HeadsPointed, LostSince, CollectedFrom, ShowsOf, KidsOf,
          NoneBelow, WholeUnder, WholeFrom, Keeps, PointedSince, AllTreated;
      WholeEnough(a);
      ghost var w, before := Now(), heaps;
      ShowsAre(a);
      var done := Collect(a, force, {});
      KeepsCollected(a, before, w);
    }

    /**
      Any operation has its effect and no other, keeps all heaps valid, and their objects whole if collections see
      to that.
      */
    method Do(op: Op) returns (address: int)
      requires Valid() && CanDo(op)
      modifies this, memory, heaps.Values
      ensures Effect(op, old(Now()), Now(), address)
      ensures merged == if op.Merge? then old(merged) + [old(heaps[op.other].Looks())] else old(merged)
      ensures Valid() && forall h :: h in heaps.Values ==> h in old(heaps.Values) || fresh(h)
      ensures !op.Store? ==> Keeps(old(heaps), old(Now()))
      ensures !op.Collect? ==> collected == old(collected)
      ensures op.Store? ==> memory.words == old(memory.words)[op.address := op.value] && heaps == old(heaps)
      ensures forall a :: a in old(heaps) && a !in heaps ==>
        (op.Merge? && op.other == a) || LostSince(collected, |old(collected)|, a)
      ensures old(collected) <= collected && old(merged) <= merged
      ensures old(AllHeaded()) && PointedSince(collected, |old(collected)|) ==> AllHeaded()
      ensures old(RightParents({})) && ChildlessSince(|old(merged)|) ==> RightParents({})
    {
      hide LiveIn, AllApart, Family, ParentsRight, Headed, HeadsPointed, LostSince, ShowsOf, KidsOf, AllHeaded,
          SameWords, WholeUnder, Keeps, PointedSince, OthersSame, IsNew, Free, NobodysChild, Heap.Writable, Blocks,
          CollectedFrom, Now, FamilyOf, Created, CreatedRooted, AllocatedIn, ChildInserted, Unparented, AllTreated,
          Merged;
      address := 0;
      match op {
        case Create(a, begin, size) =>
          AddHeap(a, begin, size);
          OneMoreValue(old(heaps), a, heaps[a]);
        case CreateRoot(a, size, at) =>
          AddRootedHeap(a, size, at);
          OneMoreValue(old(heaps), a, heaps[a]);
        case Allocate(a, size, at) => address := AllocateIn(a, size, at);
        case Store(address, value) => StoreWord(address, value);
        case InsertChild(a, c) => InsertChildOf(a, c);
        case RemoveFromParent(c) => RemoveFromParentOf(c);
        case Collect(a, force) =>
          CollectTree(a, force);
          SmallerValues(heaps, old(heaps));
        case Merge(a, b) =>
          MergeInto(a, b);
          SmallerValues(heaps, old(heaps));
          assert merged[|old(merged)|].children == old(heaps[b].children);
      }
    }

    /** One of the operations merges heap `a` into another one. */
    ghost predicate MergesAway(ops: seq<Op>, a: int) { exists op :: op in ops && op.Merge? && op.other == a }

    /**
      The operations of the list, up to the first one that cannot be made; returns the addresses of what was
      allocated.  Whatever they are, each has its effect on the heaps, which stay valid; and a heap that is gone
      was merged into another one, or was, at the time of some collection, below a child whose address no traced
      word of its parent held.
      */
    method Run(ops: seq<Op>) returns (done: nat, addresses: seq<int>, ghost worlds: seq<World>)
      requires Valid()
      modifies this, memory, heaps.Values
      ensures Valid() && done <= |ops| && (done < |ops| ==> !CanDo(ops[done]))
      ensures HaveEffect(ops[..done], addresses, worlds) && worlds[0] == old(Now()) && worlds[done] == Now()
      ensures forall a :: a in heaps ==>
        heaps[a].allocatedSize + TotalFree(heaps[a].chunks) == SLOT * TotalSlots(heaps[a].root)
      ensures old(collected) <= collected && old(merged) <= merged
      ensures forall a :: a in old(heaps) && a !in heaps ==>
        MergesAway(ops[..done], a) || LostSince(collected, |old(collected)|, a)
      ensures old(AllHeaded()) && PointedSince(collected, |old(collected)|) ==> AllHeaded()
      ensures old(RightParents({})) && ChildlessSince(|old(merged)|) ==> RightParents({})
      ensures AllHeaded() && RightParents({}) && done < |ops| ==> !Fits(ops[done])
    {
      hide Valid, CanDo, AllHeaded, RightParents, LostSince, PointedSince, Keeps, Now, MergesAway, HaveEffect, Effect;
      done, addresses, worlds := 0, [], [Now()];
      StartsWith(Now());
      while done < |ops| && CanDo(ops[done])
        invariant Valid() && done <= |ops| && old(collected) <= collected && old(merged) <= merged
        invariant HaveEffect(ops[..done], addresses, worlds) && |worlds| == done + 1
        invariant worlds[0] == old(Now()) && worlds[done] == Now()
        invariant forall h :: h in heaps.Values ==> h in old(heaps.Values) || fresh(h)
        invariant forall a :: a in old(heaps) && a !in heaps ==>
          MergesAway(ops[..done], a) || LostSince(collected, |old(collected)|, a)
        invariant old(AllHeaded()) && PointedSince(collected, |old(collected)|) ==> AllHeaded()
        invariant old(RightParents({})) && ChildlessSince(|old(merged)|) ==> RightParents({})
        decreases |ops| - done
      {
        ghost var before := collected;
        var address := Do(ops[done]);
        Longer(ops, done, before, collected, |old(collected)|);
        OneMoreEffect(ops, done, addresses, worlds, Now(), address);
        done, addresses, worlds := done + 1, addresses + [address], worlds + [Now()];
      }
      SizesAddUp();
      if AllHeaded() && RightParents({}) {
        FitsIsEnough();
      }
    }

    lemma Longer(ops: seq<Op>, done: nat, before: seq<Collection>, after: seq<Collection>, n: nat)
      requires done < |ops| && before <= after && n <= |before|
      ensures forall a :: MergesAway(ops[..done], a) || (ops[done].Merge? && ops[done].other == a) ==>
        MergesAway(ops[..done + 1], a)
      ensures forall a :: LostSince(before, n, a) || LostSince(after, |before|, a) ==> LostSince(after, n, a)
      ensures PointedSince(after, n) ==> PointedSince(before, n) && PointedSince(after, |before|)
    {
      hide Loses, HeadsPointed;
      forall a | MergesAway(ops[..done], a) || (ops[done].Merge? && ops[done].other == a)
        ensures MergesAway(ops[..done + 1], a)
      {
        assert ops[..done + 1] == ops[..done] + [ops[done]] && ops[done] in ops[..done + 1];
        if op :| op in ops[..done] && op.Merge? && op.other == a {
          assert op in ops[..done + 1];
        }
      }
      assert forall k: nat :: k < |before| ==> after[k] == before[k];
    }

    lemma SizesAddUp()
      requires Valid()
      ensures forall a :: a in heaps ==>
        heaps[a].allocatedSize + TotalFree(heaps[a].chunks) == SLOT * TotalSlots(heaps[a].root)
    {
      hide Heap.Valid, Heap.ValidIn, Blocks, Family;
      forall a | a in heaps
        ensures heaps[a].allocatedSize + TotalFree(heaps[a].chunks) == SLOT * TotalSlots(heaps[a].root)
      {
        heaps[a].ValidIs();
        heaps[a].SizesAddUp();
      }
    }

    /** While objects are whole, and pointers to parents right, only the rules of `Fits` can stop an operation. */
    lemma FitsIsEnough()
      requires AllHeaded() && RightParents({})
      ensures forall op :: Fits(op) ==> CanDo(op)
    {
      hide Headed, AllWhole;
      forall a | a in heaps ensures AllWhole(heaps[a].objects, heaps[a].inUse) {
        AllWholeAgrees(Shown(heaps[a]));
      }
      AllFound();
    }

    lemma AllFound()
      requires RightParents({})
      ensures forall c :: IsFound(c)
    {
      hide Kids;
      KidsAre();
      forall c | c in parents ensures IsFound(c) {
        assert c !in {} && parents[c] in Kids() && c in Kids()[parents[c]];
        var p := parents[c];
        assert p in heaps && Kids()[p] == heaps[p].children;
      }
    }
  }

  lemma WrittenInMore(words: map<int, int>, words': map<int, int>, blocks: set<Block>, more: set<Block>)
    requires WrittenIn(words, words', blocks) && blocks <= more
    ensures WrittenIn(words, words', more)
  {
    assert forall a :: InBlocks(blocks, a) ==> InBlocks(more, a);
  }

  lemma RemovedOne(q: seq<int>, k: nat)
    requires NoneTwice(q) && k < |q|
    ensures Removed(q, q[..k] + q[k + 1..], q[k])
  {
    var rest := q[..k] + q[k + 1..];
    forall d ensures d in rest <==> d in q && d != q[k] {
      if d in q && d != q[k] {
        var i :| 0 <= i < |q| && q[i] == d;
        assert rest[if i < k then i else i - 1] == d;
      }
    }
  }

  lemma Dropped(heaps: map<int, Heap>, memory: Memory, c: int)
    requires LiveIn(heaps, memory, memory.words) && AllApart(heaps)
    ensures LiveIn(heaps - {c}, memory, memory.words) && AllApart(heaps - {c})
    ensures ShowsOf(heaps - {c}) == ShowsOf(heaps) - {c} && KidsOf(ShowsOf(heaps - {c})) == KidsOf(ShowsOf(heaps)) - {c}
    ensures SizesOf(heaps - {c}) == SizesOf(heaps) - {c}
  {
    hide Heap.ValidIn, Blocks, Separate, InBlocks;
  }

  lemma OneMoreValue(heaps: map<int, Heap>, a: int, h: Heap)
    ensures heaps[a := h].Values <= heaps.Values + {h}
  {
    var more := heaps[a := h];
    forall x | x in more.Values
      ensures x in heaps.Values + {h}
    {
      if b: int :| b in more && more[b] == x {
      } else {
        assert forall b :: b in more ==> more[b] != x;
        assert false;
      }
    }
  }

  lemma SmallerValues(heaps: map<int, Heap>, before: map<int, Heap>)
    requires forall a :: a in heaps ==> a in before && heaps[a] == before[a]
    ensures heaps.Values <= before.Values
  {
    forall h | h in heaps.Values
      ensures h in before.Values
    {
      if a: int :| a in heaps && heaps[a] == h {
      } else {
        assert forall a :: a in heaps ==> heaps[a] != h;
        assert false;
      }
    }
  }

  /** Nothing has been allocated in the heap yet. */
  ghost predicate HasNothing(h: Heap, begin: int, size: nat)
    reads h
  {
    && h.root == Nil && h.chunks == [] && Shown(h) == View({}, {}, {}, map[], begin, begin + size, [])
    && SizesIn(h) == Sizes(0, 0, 0)
  }

  lemma NothingThere(h: Heap, begin: int, size: nat)
    requires HasNothing(h, begin, size)
    ensures Blocks(h.root) == Shown(h).blocks == {} && h.inUse == Shown(h).inUse == {} && h.children == []
  {
  }

  /** A heap without blocks comes. */
  lemma Entered(heaps: map<int, Heap>, memory: Memory, a: int, h: Heap, begin: int, size: nat)
    requires LiveIn(heaps, memory, memory.words) && AllApart(heaps) && a !in heaps
    requires h.memory == memory && h.Valid() && HasNothing(h, begin, size)
    requires forall b :: b in heaps ==> heaps[b] != h && !InBlocks(Blocks(heaps[b].root), a)
    ensures LiveIn(heaps[a := h], memory, memory.words) && AllApart(heaps[a := h])
    ensures HeadedIn(heaps) ==> HeadedIn(heaps[a := h])
    ensures KidsOf(ShowsOf(heaps[a := h])) == KidsOf(ShowsOf(heaps))[a := []]
  {
    hide Heap.Valid, Heap.ValidIn, Blocks, Separate, InBlocks, KidsOf, ShowsOf, Headed;
    NoBlocks();
    h.ValidIs();
    NothingAllocated(Shown(h)) by { NothingThere(h, begin, size); }
    MoreKids(heaps, a, h);
  }

  lemma MoreKids(heaps: map<int, Heap>, a: int, h: Heap)
    requires h.children == []
    ensures KidsOf(ShowsOf(heaps[a := h])) == KidsOf(ShowsOf(heaps))[a := []]
  {
  }

  lemma NoBlocks()
    ensures Blocks(Nil) == {} && forall a :: !InBlocks({}, a)
    ensures forall blocks :: Separate(blocks, {}) && Separate({}, blocks)
  {
  }

  lemma MergeFits(kids: map<int, seq<int>>, above: map<int, set<int>>, parents: map<int, int>, a: int, b: int)
    requires Family(kids, above, {}) && a in kids && b in kids && !IsListed(kids, b) && !Under(above, a, b)
    ensures Family((kids - {b})[a := kids[a] + kids[b]], TakenOver(above, a, b), {})
    ensures TakenOver(above, a, b).Keys == kids.Keys - {b} && forall c :: c in kids[a] ==> c !in kids[b]
    ensures ParentsRight(kids, parents, {}) ==>
              (ParentsRight((kids - {b})[a := kids[a] + kids[b]], parents - {b}, {}) <==> kids[b] == [])
  {
    hide ParentsRight;
    FamiliesMerged(kids, above, a, b);
    if ParentsRight(kids, parents, {}) { ParentsAfterMerge(kids, parents, a, b); }
  }

  lemma ChildParted(kids: map<int, seq<int>>, above: map<int, set<int>>, parents: map<int, int>, a: int, c: int,
                    rest: seq<int>)
    requires Family(kids, above, {}) && a in kids && c in kids[a] && Removed(kids[a], rest, c)
    ensures c in above && Family(kids[a := rest], Parted(above, c), {}) && Parted(above, c).Keys == above.Keys
    ensures ParentsRight(kids, parents, {}) ==> ParentsRight(kids[a := rest], parents - {c}, {})
  {
    hide ParentsRight;
    ChildRemoved(kids, above, a, c, rest);
    PartedKeys(above, c);
    if ParentsRight(kids, parents, {}) { ParentsAfterRemoval(kids, parents, a, c, rest); }
  }

  lemma LargerIsSlots(h: Heap, size: nat)
    requires h.Valid()
    ensures var larger := Larger(AlignUp(size, SLOT), h.nextBlockSize); larger >= 0 && larger % SLOT == 0
  {
  }

  lemma NothingCollected(v: View)
    ensures SameWords(v.words, v.words, v.inUse) && WrittenIn(v.words, v.words, v.blocks)
  {
  }

  /** The sizes of a heap that has just been collected. */
  ghost function SizesFor(h: Heap): Sizes
    reads h
  {
    Sizes(SLOT * |h.inUse|, 2 * (SLOT * |h.inUse|), SLOT * |h.inUse|)
  }

  lemma UsedIs(h: Heap)
    requires h.Valid()
    ensures h.allocatedSize == SLOT * |h.inUse|
  {
  }

  lemma SlotsOf(h: Heap)
    requires h.Valid()
    ensures AreSlots(Blocks(h.root), h.inUse)
  {
  }

  lemma WhatIsLeft(v: View, v': View)
    requires Headed(v) && AreSlots(v.blocks, v.inUse) && Collected(v, v')
    ensures v'.blocks <= v.blocks && SameWords(v.words, v'.words, v'.inUse) && WrittenIn(v.words, v'.words, v.blocks)
    ensures forall c :: c in v'.children ==> c in v.children
    ensures Headed(v') <==> HeadsPointed(v)
  {
    hide Headed, HeadsPointed, SameWords, WrittenIn, AreSlots, Closed, Least;
    CollectedIsHeaded(v, v');
    ReachedIsPart(v.children, Elements(v'.children));
  }

  lemma NewBlockApart(blocks: set<Block>, at: int, size: int)
    requires Unused(blocks, at, size) && size >= 0
    ensures Separate(blocks, {Block(at, size / SLOT)})
  {
  }

  lemma AllocatedWords(v: View, v': View, slot: Slot, size: nat)
    requires if size == 0 then v == v' else Allocated(v, v', slot, AlignUp(size, SLOT) / SLOT)
    ensures SameWords(v.words, v'.words, v.inUse) && WrittenIn(v.words, v'.words, v'.blocks)
  {
  }
}
