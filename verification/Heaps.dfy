/**
  A heap: first-fit allocation from an intrusive free list, and a collector that marks, scans and
  sweeps in place.
  */
module Heaps {
  import opened Alignments
  import opened BlockTrees
  import opened FreeLists
  import opened HeapAccounts
  import opened HeapAllocation
  import opened HeapMarks
  import opened HeapSpec
  import opened HeapSweep

  /** The words of memory, shared by all heaps. */
  class Memory {
    var words: map<int, int>

    constructor ()
      ensures words == map[]
    {
      words := map[];
    }
  }

  class Heap {
    const memory: Memory

    // Blocks and free list.
    var root: Tree
    var freeListHead: int
    var allocatedSize: nat
    var nextBlockSize: nat
    var nextCollectionSize: nat
    ghost var chunks: seq<Chunk>

    // Status bits of the slots, and flags of the blocks.
    var objects: set<Slot>
    var inUse: set<Slot>
    var marked: set<Slot>
    var scanned: set<Slot>
    var flagged: set<Block>
    var workList: seq<Block>

    // The range of the root, and the child heaps.
    var begin: int
    var end: int
    var children: seq<int>
    var reachable: set<int>

    ghost function Looks(): View
      reads `root, `objects, `inUse, `begin, `end, `children, memory
    {
      View(Blocks(root), objects, inUse, memory.words, begin, end, children)
    }

    ghost function Progress(): Marks
      reads `marked, `flagged, `workList, `reachable
    {
      Marks(marked, flagged, workList, reachable)
    }

    /** A heap whose root is outside of it. */
    constructor (memory: Memory, begin: int, size: nat)
      ensures Valid() && this.memory == memory && root == Nil && objects == inUse == {} && children == []
      ensures this.begin == begin && end == begin + size && nextBlockSize == nextCollectionSize == 0
      ensures chunks == []
    {
      this.memory := memory;
      root, freeListHead, allocatedSize, nextBlockSize, nextCollectionSize := Nil, 0, 0, 0, 0;
      objects, inUse, marked, scanned, flagged, workList := {}, {}, {}, {}, {}, [];
      this.begin, end, children, reachable := begin, begin + size, [], {};
      chunks := [];
    }

    ghost predicate Shape()
      reads `root, `objects, `inUse
    {
      Ordered(root) && Apart(Blocks(root)) && AreSlots(Blocks(root), inUse) && objects <= inUse
    }

    /** The free list in memory is the ghost list, and holds the runs of these blocks. */
    ghost predicate FreeList(blocks: set<Block>, taken: set<Slot>)
      reads `freeListHead, `chunks, memory
    {
      Exact(blocks, taken, chunks) && Linked(memory.words, chunks) && freeListHead == First(chunks)
    }

    ghost predicate Sizes()
      reads `allocatedSize, `nextBlockSize, `inUse
    {
      allocatedSize == SLOT * |inUse| && nextBlockSize % SLOT == 0
    }

    /** No collection is going on. */
    ghost predicate Idle()
      reads `marked, `scanned, `flagged, `workList, `reachable
    {
      marked == {} && scanned == {} && flagged == {} && workList == [] && reachable == {}
    }

    ghost predicate Valid()
      reads this, memory
    {
      Shape() && FreeList(Blocks(root), inUse) && Sizes() && Idle() && NoneTwice(children)
    }

    /** The heap is valid when memory holds these words. */
    ghost predicate ValidIn(words: map<int, int>)
      reads this
    {
      && Shape() && Exact(Blocks(root), inUse, chunks) && Linked(words, chunks) && freeListHead == First(chunks)
      && Sizes() && Idle() && NoneTwice(children)
    }

    lemma ValidIs()
      ensures Valid() <==> ValidIn(memory.words)
    {
    }

    /** Writing in the blocks of other heaps, or outside of all blocks, does not disturb this heap. */
    lemma Undisturbed(words: map<int, int>, words': map<int, int>, written: set<Block>)
      requires ValidIn(words) && Separate(Blocks(root), written) && WrittenIn(words, words', written)
      ensures ValidIn(words') && SameWords(words, words', inUse)
    {
      hide Ordered, Blocks, Apart, Exact;
      BlocksUndisturbed(words, words', Blocks(root), inUse, chunks, written);
    }

    /** A word of an allocated slot, or one outside of the blocks, may be changed by the program. */
    predicate Writable(address: int)
      reads `root, `inUse
    {
      match Find(root, address)
      case Some(b) => Inside(b, address) && SlotOf(b, address) in inUse
      case None => true
    }

    /** The program may change such a word. */
    lemma StoreKeepsValid(words: map<int, int>, address: int, value: int)
      requires ValidIn(words) && Writable(address)
      ensures ValidIn(words[address := value])
    {
      hide Ordered, Blocks, Apart, Exact, Linked;
      FindAgrees(root, address);
      WritableMisses(words, Blocks(root), inUse, chunks, address, value);
    }

    // ----- mark and scan

    ghost predicate Marking(v: View)
      reads `root, `objects, `inUse, `begin, `end, `children, `marked, `flagged, `workList, `reachable, memory
    {
      && v == Looks() && Ordered(root) && Apart(v.blocks) && AreSlots(v.blocks, inUse) && Headed(v)
      && MarksInv(v, Progress())
      && Least(v, marked, reachable)
    }

    /** Marks slots backward from one, up to but not including the beginning of its object at `h`, if not before. */
    method MarkBackward(block: Block, slot: nat, ghost h: nat) returns (s: nat)
      requires h <= slot && Slot(block, h) in objects
      modifies `marked
      ensures h <= s <= slot && Slot(block, s) in objects
      ensures forall k: nat :: s < k <= slot ==> Slot(block, k) !in objects
      ensures marked == old(marked) + Span(block, s + 1, slot + 1)
    {
      hide Span;
      s := slot;
      SpanGrows(block, s + 1, slot + 1);
      while Slot(block, s) !in objects
        invariant h <= s <= slot
        invariant forall k: nat :: s < k <= slot ==> Slot(block, k) !in objects
        invariant marked == old(marked) + Span(block, s + 1, slot + 1)
        decreases s
      {
        SpanGrows(block, s, slot + 1);
        marked := marked + {Slot(block, s)};
        s := s - 1;
      }
    }

    /** Marks slots forward from one, until the end of what is allocated. */
    method MarkForward(block: Block, slot: nat) returns (s: nat)
      requires slot < block.slots && Slot(block, slot) in inUse
      modifies `marked
      ensures slot < s <= block.slots && (s == block.slots || Slot(block, s) !in inUse)
      ensures forall k: nat :: slot <= k < s ==> Slot(block, k) in inUse
      ensures marked == old(marked) + Span(block, slot, s)
    {
      hide Span;
      s := slot;
      SpanGrows(block, s, s);
      while s != block.slots && Slot(block, s) in inUse
        invariant slot <= s <= block.slots
        invariant forall k: nat :: slot <= k < s ==> Slot(block, k) in inUse
        invariant marked == old(marked) + Span(block, slot, s)
      {
        SpanGrows(block, slot, s + 1);
        marked := marked + {Slot(block, s)};
        s := s + 1;
      }
    }

    /** Marks the object that an address points into. */
    method Mark(block: Block, address: int, ghost v: View)
      requires Marking(v) && block in v.blocks && Inside(block, address)
      requires Needed(v, address) || address == v.rootBegin
      modifies `marked, `flagged, `workList
      ensures Marking(v) && Grown(old(Progress()), Progress())
      ensures var s := SlotOf(block, address);
              marked == old(marked) + if s in inUse then Extent(v, s) else {}
    {
      hide Extent, Least, MarksInv, Headed, Apart, Ordered, Needed, Grown, AreSlots, Span, Blocks;
      var slot := SlotOf(block, address);
      if slot in marked {
        MarkedAlready(v, Progress(), slot);
        return;
      }
      if slot !in inUse {
        NothingGrows(Progress());
        return;
      }
      SlotFacts(v, block, address);
      flagged := flagged + {block};
      if block !in workList {
        workList := [block] + workList;
      }
      // Backward until the beginning of the object, then forward until its end.
      ghost var h := HeadOf(v, slot);
      var first := MarkBackward(block, slot.index, h);
      var last := MarkForward(block, slot.index);
      ExtentSplits(v, slot, first, last);
      assert marked == old(marked) + Extent(v, slot);
      MarkGrows(v, old(Progress()), address, slot, Progress());
    }

    /** Marks what an address points to, or notes that a child heap is reachable. */
    method MarkSlotForAddress(address: int, ghost v: View)
      requires Marking(v) && Needed(v, address)
      modifies `marked, `flagged, `workList, `reachable
      ensures Marking(v) && Grown(old(Progress()), Progress())
      ensures Followed(v, address, marked, reachable)
    {
      hide Ordered, Apart, Headed, Least, MarksInv, Needed, Extent, AreSlots;
      FindAgrees(root, address);
      match Find(root, address) {
        case Some(block) =>
          Mark(block, address, v);
          PulledInto(v, block, address, marked);
        case None =>
          var i := 0;
          while i < |children| && children[i] != address
            invariant 0 <= i <= |children| && address !in children[..i]
          {
            i := i + 1;
          }
          NothingGrows(Progress());
          if i < |children| {
            assert IsChild(v, address);
            ChildIsLeast(v, marked, reachable, address);
            ReachedMore(v, Progress(), address);
            reachable := reachable + {address};
          }
      }
    }

    /** Follows every word of a range of memory. */
    method Scan(from: int, to: int, ghost v: View)
      requires Marking(v)
      requires forall a :: from <= a < to && a % WORD == 0 ==> Needed(v, Read(v.words, a))
      modifies `marked, `flagged, `workList, `reachable
      ensures Marking(v) && Grown(old(Progress()), Progress())
      ensures forall a :: from <= a < to && a % WORD == 0 ==> Followed(v, Read(v.words, a), marked, reachable)
    {
      hide Needed, Followed, Marking, Grown;
      var b := AlignUp(from, WORD);
      NothingGrows(Progress());
      while b < to
        invariant b % WORD == 0 && from <= b
        invariant Marking(v) && Grown(old(Progress()), Progress())
        invariant forall a :: from <= a < b && a % WORD == 0 ==> Followed(v, Read(v.words, a), marked, reachable)
      {
        ghost var before := Progress();
        assert memory.words == v.words by { MarkingLooks(v); }
        MarkSlotForAddress(Read(memory.words, b), v);
        GrownTransitive(old(Progress()), before, Progress());
        forall a | from <= a < b && a % WORD == 0
          ensures Followed(v, Read(v.words, a), marked, reachable)
        {
          FollowedGrows(v, Read(v.words, a), before, Progress());
        }
        b := b + WORD;
      }
    }

    lemma MarkingLooks(v: View)
      requires Marking(v)
      ensures v == Looks() && marked <= inUse
    {
    }

    lemma MarkedNeeds(v: View, s: Slot)
      requires Marking(v) && s in marked
      ensures Needed(v, Read(v.words, Address(s))) && Needed(v, Read(v.words, Address(s) + WORD))
      ensures IsSlot(v.blocks, s) && Address(s) % WORD == 0
    {
      hide Least, Needed, Ordered, Blocks, Headed, ExtentClosed, FlagsAgree;
      MarkedIsNeeded(v, marked, reachable, s);
    }

    /** Scans the slots of a block that are marked and have not been scanned. */
    method ScanBlock(block: Block, ghost v: View)
      requires Marking(v) && ScannedBut(v, Progress(), scanned, Span(block, 0, block.slots))
      modifies `marked, `flagged, `workList, `reachable, `scanned
      ensures Marking(v) && Grown(old(Progress()), Progress())
      ensures ScannedBut(v, Progress(), scanned, {})
    {
      hide Needed, Followed, Marking, Grown, ScannedBut, Span;
      NothingGrows(Progress());
      var slot := 0;
      while slot != block.slots
        invariant 0 <= slot <= block.slots
        invariant Marking(v) && Grown(old(Progress()), Progress())
        invariant ScannedBut(v, Progress(), scanned, Span(block, slot, block.slots))
      {
        var s := Slot(block, slot);
        if s in marked && s !in scanned {
          ghost var before, wasScanned := Progress(), scanned;
          MarkedNeeds(v, s);
          scanned := scanned + {s};
          Scan(Address(s), SlotAt(block, slot + 1), v);
          GrownTransitive(old(Progress()), before, Progress());
          SlotScanned(v, before, Progress(), wasScanned, s);
        } else {
          SlotSkipped(v, Progress(), scanned, s);
        }
        slot := slot + 1;
      }
      SpanGrows(block, block.slots, block.slots);
    }

    lemma MarkingAfterPop(v: View, rest: seq<Block>)
      requires Marking(v)
      ensures AreSlots(v.blocks, marked) && MarksInv(v, Progress().(workList := rest))
    {
      hide Least;
    }

    /** Scans blocks until none is left that has marked slots that have not been scanned. */
    method ScanWorkList(ghost v: View)
      requires Marking(v) && ScannedBut(v, Progress(), scanned, {})
      modifies `marked, `flagged, `workList, `reachable, `scanned
      ensures Marking(v) && old(marked) <= marked && old(reachable) <= reachable
      ensures workList == [] && ScannedBut(v, Progress(), scanned, {})
    {
      hide Needed, Followed, Grown, ScannedBut, Span, MarksInv, Least, Apart, Ordered, AreSlots, Headed;
      while workList != []
        invariant Marking(v) && ScannedBut(v, Progress(), scanned, {})
        invariant old(marked) <= marked && old(reachable) <= reachable
        decreases inUse - marked, |workList|
      {
        MarkingAfterPop(v, workList[1..]);
        BlockIsDue(v, Progress(), scanned);
        var b := workList[0];
        workList := workList[1..];
        ghost var before := Progress();
        ScanBlock(b, v);
        GrownMeans(before, Progress());
        MarkingLooks(v);
      }
    }

    // ----- sweep

    /** Puts a run of free slots at the head of the free list. */
    method PushChunk(c: Chunk)
      requires Spread([c] + chunks) && Linked(memory.words, chunks) && freeListHead == First(chunks)
      modifies `freeListHead, `chunks, memory
      ensures chunks == [c] + old(chunks) && Linked(memory.words, chunks) && freeListHead == First(chunks)
      ensures KeptExcept(old(memory.words), memory.words, c)
    {
      LinkedPush(memory.words, memory.words[Start(c) := freeListHead][Start(c) + WORD := SizeOf(c)], chunks, c);
      memory.words := memory.words[Start(c) := freeListHead][Start(c) + WORD := SizeOf(c)];
      freeListHead := Start(c);
      chunks := [c] + chunks;
    }

    ghost function Status(): Bits
      reads `objects, `inUse, `marked, `scanned
    {
      Bits(objects, inUse, marked, scanned)
    }

    ghost function SweepArea(): Area
      reads `objects, `inUse, `marked, `scanned, `flagged, memory
    {
      Area(Status(), flagged, memory.words)
    }

    /** Clears the status bits of a run of slots that are not marked, and returns where it ends. */
    method ClearRun(block: Block, from: nat, ghost area: Area, ghost done: set<Block>,
        ghost marks: set<Slot>) returns (slot: nat)
      requires ToSweep(area, done, {block}, marks) && Swept(area.bits, Status(), block, from, marks)
      requires from < block.slots && Slot(block, from) !in marked
      modifies `objects, `inUse, `marked, `scanned
      ensures from < slot <= block.slots && Swept(area.bits, Status(), block, slot, marks)
      ensures NoneTaken(marks, Chunk(block, from, slot)) && !FreeAt(marks, block, slot)
      ensures |Span(block, 0, slot) * marks| == |Span(block, 0, from) * marks|
    {
      hide ToSweep, Swept, NoneTaken, FreeAt, Span;
      slot := from;
      NoneTakenGrows(block, from, from, marks);
      while slot != block.slots && Slot(block, slot) !in marked
        invariant from <= slot <= block.slots && NoneTaken(marks, Chunk(block, from, slot))
        invariant slot == from ==> Slot(block, slot) !in marked
        invariant Swept(area.bits, Status(), block, slot, marks)
        invariant |Span(block, 0, slot) * marks| == |Span(block, 0, from) * marks|
        decreases block.slots - slot
      {
        MarkIs(area, done, block, slot, marks, Status());
        SweepOne(area.bits, Status(), block, slot, marks);
        CountOne(block, slot, marks);
        NoneTakenGrows(block, from, slot, marks);
        var s := Slot(block, slot);
        objects, inUse, marked, scanned := objects - {s}, inUse - {s}, marked - {s}, scanned - {s};
        slot := slot + 1;
      }
      if slot != block.slots {
        MarkIs(area, done, block, slot, marks, Status());
      }
      NoneTakenGrows(block, from, slot, marks);
    }

    /** Frees the slots of a block that are not marked, and counts the marked ones. */
    method SweepBlock(block: Block, ghost done: set<Block>, ghost marks: set<Slot>) returns (count: nat)
      requires ToSweep(SweepArea(), done, {block}, marks) && block in flagged && FreeList(done, marks)
      modifies `freeListHead, `chunks, `objects, `inUse, `marked, `scanned, `flagged, memory
      ensures FreeList(done + {block}, marks) && Cleaned(old(SweepArea()), SweepArea(), {block}, marks, count)
    {
      hide ToSweep, Cleaned, Span, PartlyExact, Between, OnlyFreeWritten, Linked, NoneTaken, FreeAt, FreeRun, Exact,
          KeptExcept, Swept, Spread;
      ghost var area := SweepArea();
      StartsSwept(area, done, block, marks, chunks);
      var slot := 0;
      count := 0;
      while slot != block.slots
        modifies `freeListHead, `chunks, `objects, `inUse, `marked, `scanned, memory
        invariant 0 <= slot <= block.slots
        invariant PartlyExact(done, block, slot, marks, chunks) && Between(block, slot, marks)
        invariant Linked(memory.words, chunks) && freeListHead == First(chunks)
        invariant OnlyFreeWritten(area.words, memory.words, {block}, marks)
        invariant Swept(area.bits, Status(), block, slot, marks)
        invariant count == |Span(block, 0, slot) * marks|
        decreases block.slots - slot
      {
        MarkIs(area, done, block, slot, marks, Status());
        if Slot(block, slot) in marked {
          SweepOne(area.bits, Status(), block, slot, marks);
          CountOne(block, slot, marks);
          MarkedEndsNoRun(done, block, slot, marks, chunks);
          scanned, marked := scanned - {Slot(block, slot)}, marked - {Slot(block, slot)};
          slot := slot + 1;
          count := count + 1;
        } else {
          var slotBegin := slot;
          slot := ClearRun(block, slotBegin, area, done, marks);
          var c := Chunk(block, slotBegin, slot);
          RunSwept(area, done, block, slotBegin, slot, marks, chunks);
          ghost var before := memory.words;
          PushChunk(c);
          ChunkIsFree(block, marks, before, memory.words, c);
          FreeWrittenTwice(area.words, before, memory.words, {block}, marks);
        }
      }
      EndExact(done, block, marks, chunks);
      flagged := flagged - {block};
      BlockIsClean(area, SweepArea(), done, block, marks, count);
    }

    /** Frees a block without marks: the status bits of its slots go with it. */
    method FreeBlock(block: Block, ghost done: set<Block>, ghost marks: set<Slot>)
      requires ToSweep(SweepArea(), done, {block}, marks) && block !in flagged
      modifies `objects, `inUse, `marked, `scanned
      ensures Cleaned(old(SweepArea()), SweepArea(), {block}, marks, 0)
    {
      hide ToSweep, Cleaned, Without;
      FlagOf(SweepArea(), done, block, marks);
      FreedIsClean(SweepArea(), done, block, marks);
      objects, inUse := Without(objects, block), Without(inUse, block);
      marked, scanned := Without(marked, block), Without(scanned, block);
    }

    /** Sweeps a tree, and takes the blocks without marks out of it. */
    method Sweep(t: Tree, ghost done: set<Block>, ghost marks: set<Slot>) returns (rest: Tree, count: nat)
      requires Ordered(t) && ToSweep(SweepArea(), done, Blocks(t), marks) && FreeList(done, marks)
      modifies `freeListHead, `chunks, `objects, `inUse, `marked, `scanned, `flagged, memory
      ensures Ordered(rest) && Blocks(rest) == Survivors(Blocks(t), marks)
      ensures FreeList(done + Blocks(rest), marks)
      ensures Cleaned(old(SweepArea()), SweepArea(), Blocks(t), marks, count)
      decreases t
    {
      hide Blocks, Unlink, Ordered, FreeList, ToSweep, Cleaned, Survivors, HasMark, Status, TotalSlots;
      ghost var area := SweepArea();
      CleanedNothing(area, marks);
      if t == Nil {
        assert done + {} == done;
        EmptyTree();
        return Nil, 0;
      }
      NodeParts(t);
      var block := t.block;
      ghost var all, l, r := Blocks(t), Blocks(t.left), Blocks(t.right);
      RestToSweep(area, area, done, all, marks, {}, 0, l);
      assert done + {} == done;
      var left, n := Sweep(t.left, done, marks);

      ghost var area1 := SweepArea();
      RestToSweep(area, area1, done, all, marks, l, n, r);
      var right, m := Sweep(t.right, done + Blocks(left), marks);

      ghost var area2 := SweepArea();
      CleanedTwice(area, area1, area2, l, r, marks, n, m);
      RestToSweep(area, area2, done, all, marks, l + r, n + m, {block});
      ghost var done2 := done + Blocks(left) + Blocks(right);
      assert done + Survivors(l + r, marks) == done2;
      FlagOf(area2, done2, block, marks);
      NodeStays(t, left, right, marks);
      count := n + m;
      if block in flagged {
        var k := SweepBlock(block, done2, marks);
        CleanedTwice(area, area2, SweepArea(), l + r, {block}, marks, n + m, k);
        count := count + k;
        rest := Node(left, block, right);
        assert done2 + {block} == done + Blocks(rest);
      } else {
        FreeBlock(block, done2, marks);
        CleanedTwice(area, area2, SweepArea(), l + r, {block}, marks, n + m, 0);
        UnlinkOrdered(Node(left, block, right));
        rest := Unlink(Node(left, block, right));
        assert done2 == done + Blocks(rest);
      }
    }

    // ----- collect

    /** Marks everything that has to be kept. */
    method MarkAll(ghost v: View)
      requires v == Looks() && Shape() && Idle() && Headed(v)
      modifies `marked, `flagged, `workList, `reachable, `scanned
      ensures Closed(v, marked, reachable) && Least(v, marked, reachable) && MarksInv(v, Progress())
      ensures scanned <= marked
      ensures reachable <= Elements(children) && workList == []
    {
      hide Needed, Followed, Grown, ScannedBut, MarksInv, Least, Apart, Headed, Closed, Pulled, AreSlots, Ordered,
          Extent;
      NothingMarked(v);
      FindAgrees(root, begin);
      match Find(root, begin) {
        case Some(block) =>
          Mark(block, begin, v);
          PulledInto(v, block, begin, marked);
          ScannedMore(v, old(Progress()), Progress(), scanned, {});
        case None =>
          NotPulled(v, begin, marked);
      }
      ghost var before := Progress();
      RootIsNeeded(v);
      Scan(begin, end, v);
      ScannedMore(v, before, Progress(), scanned, {});
      GrownMeans(before, Progress());
      PulledMore(v, begin, before.slots, marked);
      before := Progress();
      ScanWorkList(v);
      AllFollowed(v, before, Progress(), scanned);
      ReachedAreChildren(v, marked, reachable);
    }

    /** Frees everything that is not marked, and rebuilds the free list. */
    method SweepAll(ghost v: View)
      requires v == Looks() && Shape() && MarksInv(v, Progress()) && scanned <= marked
      modifies `root, `freeListHead, `chunks, `objects, `inUse, `marked, `scanned, `flagged, memory
      modifies `allocatedSize, `nextBlockSize, `nextCollectionSize
      ensures Shape() && FreeList(Blocks(root), inUse) && Sizes()
      ensures inUse == old(marked) && objects == v.objects * old(marked)
      ensures Blocks(root) == Survivors(v.blocks, old(marked))
      ensures marked == {} && scanned == {} && flagged == {}
      ensures SameWords(v.words, memory.words, inUse)
      ensures WrittenIn(v.words, memory.words, v.blocks)
      ensures nextBlockSize == allocatedSize && nextCollectionSize == 2 * allocatedSize
    {
      hide WrittenIn, Exact, Linked, Apart, AreSlots, MarksInv, Cleaned, ToSweep, Ordered, Blocks, Survivors, SameWords,
          Address, OnlyFreeWritten;
      ghost var m, area := Progress(), SweepArea();
      EmptyList(memory.words);
      MarkedIsToSweep(v, m, scanned);
      freeListHead := 0;
      chunks := [];
      assert {} + v.blocks == v.blocks;
      var tree, slots := Sweep(root, {}, marked);
      MarkedIsLeft(v, m, area, SweepArea(), slots);
      assert {} + Blocks(tree) == Blocks(tree);
      root := tree;
      allocatedSize := slots * SLOT;
      nextCollectionSize := allocatedSize * 2;
      nextBlockSize := allocatedSize;
      SurvivingWords(v.words, memory.words, Blocks(root), inUse);
      FreeWrittenInside(v.words, memory.words, v.blocks, Blocks(root), inUse);
    }

    /** Takes the children that were not reached out of the list, and forgets which ones were. */
    method KeepReachableChildren()
      requires NoneTwice(children) && reachable <= Elements(children)
      modifies `children, `reachable
      ensures children == Reached(old(children), old(reachable)) && reachable == {}
      ensures NoneTwice(children) && Elements(children) == old(reachable)
    {
      hide KeptSoFar, Reached, Elements, NoneTwice;
      ghost var before, reached := children, reachable;
      var i := 0;
      NoneKept(children, reached);
      while i < |children|
        invariant 0 <= i <= |children| && KeptSoFar(before, reached, children, i, reachable)
        decreases |children| - i
      {
        KeepOne(before, reached, children, i, reachable);
        if children[i] in reachable {
          reachable := reachable - {children[i]};
          i := i + 1;
        } else {
          children := children[..i] + children[i + 1..];
        }
      }
      AllKept(before, reached, children, reachable);
    }

    /** Collects if it is forced to, or if enough has been allocated since the last time. */
    method CollectGarbage(force: bool) returns (collected: bool)
      requires Valid() && Headed(Looks())
      modifies this, memory
      ensures Valid()
      ensures collected <==> force || old(allocatedSize) > old(nextCollectionSize)
      ensures !collected ==> unchanged(this) && unchanged(memory)
      ensures collected ==> Collected(old(Looks()), Looks())
      ensures collected ==> nextBlockSize == allocatedSize && nextCollectionSize == 2 * allocatedSize
    {
      hide FreeList, Shape, Sizes, Headed, Closed, Least, MarksInv, Blocks, Reached, Elements, NoneTwice, SameWords,
          WrittenIn;
      collected := force || allocatedSize > nextCollectionSize;
      if collected {
        ghost var v := Looks();
        MarkAll(v);
        ghost var m := Progress();
        SweepAll(v);
        KeepReachableChildren();
        KeptIs(v, Looks(), m.slots);
      }
    }

    // ----- allocate

    /** Finds the first chunk of at least the given size, and the chunk that links to it. */
    method FindChunk(size: int) returns (previous: int, chunk: int, ghost k: nat)
      requires Shape() && FreeList(Blocks(root), inUse)
      ensures FirstFit(chunks, size, k) && previous == Leading(chunks, k) && chunk == Pointee(chunks, k)
      ensures chunk == 0 <==> k == |chunks|
      ensures k < |chunks| ==> Find(root, chunk) == Some(chunks[k].block)
    {
      hide Exact, Linked, Spread, Ordered, Apart, AreSlots, Blocks;
      previous, chunk, k := 0, freeListHead, 0;
      if chunks != [] {
        ChunkFacts(Blocks(root), inUse, memory.words, chunks, 0);
      }
      while chunk != 0 && Read(memory.words, chunk + WORD) < size
        invariant k <= |chunks| && previous == Leading(chunks, k) && chunk == Pointee(chunks, k)
        invariant k < |chunks| ==> chunk > 0 && Read(memory.words, chunk + WORD) == SizeOf(chunks[k])
        invariant forall i: nat :: i < k ==> SizeOf(chunks[i]) < size
        decreases |chunks| - k
      {
        ChunkFacts(Blocks(root), inUse, memory.words, chunks, k);
        previous, chunk, k := chunk, Read(memory.words, chunk), k + 1;
        if k < |chunks| {
          ChunkFacts(Blocks(root), inUse, memory.words, chunks, k);
        }
      }
      if k < |chunks| {
        FindAgrees(root, chunk);
        ChunkFacts(Blocks(root), inUse, memory.words, chunks, k);
      }
    }

    /** Changes a link of the free list. */
    method SetLink(previous: int, chunk: int)
      modifies `freeListHead, memory
      ensures freeListHead == if previous == 0 then chunk else old(freeListHead)
      ensures memory.words == if previous == 0 then old(memory.words) else old(memory.words)[previous := chunk]
    {
      if previous == 0 {
        freeListHead := chunk;
      } else {
        memory.words := memory.words[previous := chunk];
      }
    }

    /** Clears the memory of a new block and puts it at the end of the free list, as one chunk. */
    method EnterBlock(block: Block, previous: int)
      requires previous != block.begin && previous != block.begin + WORD
      modifies `freeListHead, memory
      ensures freeListHead == if previous == 0 then block.begin else old(freeListHead)
      ensures memory.words == EnteredWords(old(memory.words), block, previous)
    {
      hide Cleared;
      memory.words := Cleared(memory.words, block.begin, EndOf(block));
      LinkBeforeEntry(memory.words, previous, block.begin, SLOT * block.slots);
      SetLink(previous, block.begin);
      memory.words := memory.words[block.begin + WORD := SLOT * block.slots][block.begin := 0];
    }

    /** Adds a block at an address. */
    method AddBlock(size: int, at: int, previous: int) returns (block: Block)
      requires Shape() && FreeList(Blocks(root), inUse) && Sizes()
      requires size > 0 && size % SLOT == 0 && previous == Leading(chunks, |chunks|)
      requires at > 0 && at % WORD == 0
      requires Unused(Blocks(root), at, Larger(size, nextBlockSize))
      modifies `root, `freeListHead, `nextBlockSize, `chunks, memory
      ensures block == Block(at, Larger(size, old(nextBlockSize)) / SLOT) && block !in old(Blocks(root))
      ensures Shape() && FreeList(Blocks(root), inUse) && Sizes() && Blocks(root) == old(Blocks(root)) + {block}
      ensures nextBlockSize == 2 * Larger(size, old(nextBlockSize))
      ensures chunks == old(chunks) + [Chunk(block, 0, block.slots)]
      ensures SameWords(old(memory.words), memory.words, inUse)
      ensures WrittenIn(old(memory.words), memory.words, Blocks(root))
    {
      hide Spread, FreeRun, Linked, Exact, Apart, Unused, AreSlots, Ordered, Blocks, SameWords, NoneTwice, Before,
          EnteredWords, WrittenIn;
      ghost var v, before := Looks(), chunks;
      if size > nextBlockSize {
        nextBlockSize := size;
      }
      WholeSlots(nextBlockSize);
      block := Block(at, nextBlockSize / SLOT);
      ApartWith(v.blocks, block);
      InsertOrdered(root, block);
      BlockAdded(v.words, v.blocks, inUse, before, block, previous);
      AreSlotsMore(v.blocks, block, inUse);
      root := Insert(root, block);
      EnterBlock(block, previous);
      nextBlockSize := nextBlockSize * 2;
      chunks := chunks + [Chunk(block, 0, block.slots)];
    }

    /** Sets the status bits of the slots of a new object. */
    method SetAllocated(block: Block, address: int, size: int)
      requires Inside(block, address) && (address - block.begin) % SLOT == 0 && size >= 0 && size % SLOT == 0
      modifies `objects, `inUse
      ensures objects == old(objects) + {SlotOf(block, address)}
      ensures var s := SlotOf(block, address); inUse == old(inUse) + Span(block, s.index, s.index + size / SLOT)
    {
      hide Span;
      var slot := (address - block.begin) / SLOT;
      var slotEnd := slot + size / SLOT;
      objects := objects + {Slot(block, slot)};
      ghost var first := slot;
      SpanGrows(block, slot, slot);
      while slot != slotEnd
        modifies `inUse
        invariant first <= slot <= slotEnd
        invariant inUse == old(inUse) + Span(block, first, slot)
        decreases slotEnd - slot
      {
        SpanGrows(block, first, slot + 1);
        inUse := inUse + {Slot(block, slot)};
        slot := slot + 1;
      }
    }

    /** Takes a chunk out of the free list, and puts what is left of it back at the head. */
    method SplitChunk(previous: int, chunk: int, size: int, ghost k: nat)
      requires Shape() && FreeList(Blocks(root), inUse) && k < |chunks|
      requires previous == Leading(chunks, k) && chunk == Start(chunks[k])
      requires 0 < size <= SizeOf(chunks[k]) && size % SLOT == 0
      modifies `freeListHead, memory
      ensures TakenWords(old(memory.words), chunks, k, size / SLOT, memory.words)
      ensures freeListHead == First(Taken(chunks, k, size / SLOT))
    {
      hide FreeRun, Linked, Exact, Apart, AreSlots, Ordered, Blocks;
      ChunkFacts(Blocks(root), inUse, memory.words, chunks, k);
      FirstTaken(chunks, k, size / SLOT);
      SetLink(previous, Read(memory.words, chunk));
      var left := Read(memory.words, chunk + WORD) - size;
      if left > 0 {
        var d := chunk + size;
        memory.words := memory.words[d := freeListHead][d + WORD := left];
        freeListHead := d;
      }
    }

    /** Takes the first part of a chunk out of the free list for an object. */
    method TakeChunk(previous: int, chunk: int, size: int, block: Block, ghost k: nat) returns (ghost slot: Slot)
      requires Shape() && FreeList(Blocks(root), inUse) && Sizes()
      requires k < |chunks| && previous == Leading(chunks, k) && chunk == Start(chunks[k])
      requires 0 < size <= SizeOf(chunks[k]) && size % SLOT == 0 && block == chunks[k].block
      modifies `freeListHead, `chunks, `objects, `inUse, `allocatedSize, memory
      ensures Shape() && FreeList(Blocks(root), inUse) && Sizes()
      ensures slot == Slot(block, old(chunks)[k].from) && Allocated(old(Looks()), Looks(), slot, size / SLOT)
      ensures allocatedSize == old(allocatedSize) + size
    {
      hide FreeRun, Linked, Exact, Apart, AreSlots, Ordered, Blocks, NoneTwice, Cleared, Span, Taken, Allocated,
          TakenWords, Leading, First, Entry, Find;
      ghost var n, before, v, c := size / SLOT, chunks, Looks(), chunks[k];
      slot := Slot(block, c.from);
      ChunkFacts(v.blocks, inUse, memory.words, chunks, k);
      SplitChunk(previous, chunk, size, k);
      ghost var words := memory.words;
      SetAllocated(block, chunk, size);
      memory.words := Cleared(memory.words, chunk, chunk + size);
      allocatedSize := allocatedSize + size;
      chunks := Taken(chunks, k, n);
      TakingAllocates(v, before, k, n, words, Looks());
      SpanGrows(block, c.from, c.from + n);
    }

    /**
      Allocates an object: from the first chunk that is large enough, or from a new block at address
      `at`. Returns the null pointer when the size is zero.
      */
    method Allocate(size: nat, at: int) returns (address: int, ghost slot: Slot, ghost k: nat)
      requires Valid()
      requires at > 0 && at % WORD == 0 && Unused(Blocks(root), at, Larger(AlignUp(size, SLOT), nextBlockSize))
      modifies `root, `freeListHead, `nextBlockSize, `chunks, `objects, `inUse, `allocatedSize, memory
      ensures Valid()
      ensures size == 0 ==> address == 0 && unchanged(this) && unchanged(memory)
      ensures size > 0 ==> address == Address(slot)
      ensures size > 0 ==> Allocated(old(Looks()), Looks(), slot, AlignUp(size, SLOT) / SLOT)
      ensures size > 0 && old(Headed(Looks())) ==> Headed(Looks())
      ensures allocatedSize == old(allocatedSize) + AlignUp(size, SLOT)
      ensures size > 0 ==> FirstFit(old(chunks), AlignUp(size, SLOT), k)
      ensures size > 0 && k < |old(chunks)| ==>
                slot == Slot(old(chunks)[k].block, old(chunks)[k].from) && root == old(root) &&
                    nextBlockSize == old(nextBlockSize)
      ensures size > 0 && k == |old(chunks)| ==>
                var larger := Larger(AlignUp(size, SLOT), old(nextBlockSize));
                var block := Block(at, larger / SLOT);
                && slot == Slot(block, 0) && nextBlockSize == 2 * larger
                && Blocks(root) == old(Blocks(root)) + {block} && block !in old(Blocks(root))
    {
      hide Shape, FreeList, Sizes, Idle, Blocks, NoneTwice, Headed, Unused, SameWords, AlignUp, Find, Allocated,
          WrittenIn;
      k := 0;
      if size == 0 {
        slot := Slot(Block(0, 0), 0);
        return 0, slot, 0;
      }
      ghost var v := Looks();
      var need := AlignUp(size, SLOT);
      SameWordsSelf(v.words, inUse);
      WrittenNothing(v.words, v.blocks);
      var previous, chunk;
      previous, chunk, k := FindChunk(need);
      var block;
      if chunk == 0 {
        block := AddBlock(need, at, previous);
        chunk := at;
      } else {
        block := Find(root, chunk).value;
      }
      ghost var v1 := Looks();
      slot := TakeChunk(previous, chunk, need, block, k);
      AllocatedLater(v, v1, Looks(), slot, need / SLOT);
      if Headed(v) {
        AllocatedIsHeaded(v, Looks(), slot, need / SLOT);
      }
      address := chunk;
    }

    /** Makes the first object of an empty heap its root. */
    method AllocateRoot(size: nat, at: int)
      requires Valid() && root == Nil && inUse == {} && chunks == [] && nextBlockSize == 0
      requires at > 0 && at % WORD == 0
      modifies `root, `freeListHead, `nextBlockSize, `chunks, `objects, `inUse, `allocatedSize, `begin, `end, memory
      ensures Valid() && Headed(Looks()) && end == begin + size
      ensures allocatedSize == old(allocatedSize) + AlignUp(size, SLOT)
      ensures nextBlockSize == if size == 0 then 0 else 2 * AlignUp(size, SLOT)
      ensures size == 0 ==> objects == old(objects) && inUse == {}
      ensures size > 0 ==> inUse == Span(Block(at, AlignUp(size, SLOT) / SLOT), 0, AlignUp(size, SLOT) / SLOT)
      ensures size > 0 ==> forall a :: at <= a < at + AlignUp(size, SLOT) ==> Read(memory.words, a) == 0
      ensures size > 0 ==> begin == at && objects == old(objects) + {Slot(Block(at, AlignUp(size, SLOT) / SLOT), 0)}
      ensures size == 0 ==> begin == 0
      ensures Blocks(root) == if size == 0 then {} else {Block(at, AlignUp(size, SLOT) / SLOT)}
      ensures children == old(children) && WrittenIn(old(memory.words), memory.words, Blocks(root))
    {
      hide Allocated, Shape, FreeList, Sizes, Idle, Headed, Blocks, NoneTwice, AlignUp, Span, WrittenIn, Unused;
      ghost var v := Looks();
      EmptyTree();
      NothingAllocated(v);
      WrittenNothing(v.words, v.blocks);
      var address, slot, k := Allocate(size, at);
      ghost var v' := Looks();
      if size > 0 {
        AllocatedObject(v, v', slot, AlignUp(size, SLOT) / SLOT);
        assert AlignUp(size, SLOT) == SLOT * (AlignUp(size, SLOT) / SLOT) && address == at;
      }
      begin, end := address, address + size;
      HeadedSame(v', Looks());
    }

    // ----- children

    /** Puts a child into the list; the next collection is forced. */
    method InsertChild(child: int)
      requires Valid() && child !in children
      modifies `children, `nextCollectionSize
      ensures Valid() && nextCollectionSize == 0
      ensures children == [child] + old(children)
    {
      hide Shape, FreeList, Sizes, Idle;
      NoneTwiceMore(children, child);
      children := [child] + children;
      nextCollectionSize := 0;
    }

    /** Takes a child out of the list; the next collection is forced. */
    method RemoveChild(child: int) returns (ghost k: nat)
      requires Valid() && child in children
      modifies `children, `nextCollectionSize
      ensures Valid() && nextCollectionSize == 0
      ensures k < |old(children)| && old(children)[k] == child
      ensures children == old(children)[..k] + old(children)[k + 1..]
    {
      hide Shape, FreeList, Sizes, Idle;
      var i := 0;
      while children[i] != child
        modifies {}
        invariant 0 <= i < |children| && child !in children[..i]
        decreases |children| - i
      {
        i := i + 1;
      }
      k := i;
      children := children[..i] + children[i + 1..];
      nextCollectionSize := 0;
    }

    // ----- merge

    /** Finds the last chunk of the free list. */
    method EndOfList() returns (previous: int)
      requires Spread(chunks) && Linked(memory.words, chunks) && freeListHead == First(chunks)
      ensures previous == Leading(chunks, |chunks|)
    {
      ghost var k := 0;
      var chunk := freeListHead;
      previous := 0;
      while chunk != 0
        invariant 0 <= k <= |chunks| && previous == Leading(chunks, k) && chunk == Pointee(chunks, k)
        decreases |chunks| - k
      {
        EntryOf(memory.words, chunks, k);
        previous, chunk, k := chunk, Read(memory.words, chunk), k + 1;
      }
    }

    /** Puts another free list at the end of this one. */
    method JoinLists(head: int, ghost x: View, ghost more: seq<Chunk>)
      requires Shape() && FreeList(Blocks(root), inUse)
      requires Apart(x.blocks) && AreSlots(x.blocks, x.inUse) && Separate(Blocks(root), x.blocks)
      requires Exact(x.blocks, x.inUse, more) && Linked(memory.words, more) && head == First(more)
      modifies `freeListHead, `chunks, memory
      ensures FreeList(Blocks(root) + x.blocks, inUse + x.inUse)
      ensures Apart(Blocks(root) + x.blocks) && AreSlots(Blocks(root) + x.blocks, inUse + x.inUse)
      ensures SameWords(old(memory.words), memory.words, inUse + x.inUse)
      ensures WrittenIn(old(memory.words), memory.words, Blocks(root) + x.blocks)
      ensures |inUse + x.inUse| == |inUse| + |x.inUse|
    {
      hide FreeRun, Linked, Exact, Apart, AreSlots, Ordered, Blocks, Separate, SameWords, Spread, WrittenIn;
      ghost var v := Looks();
      ExactIsSpread(v.blocks, inUse, chunks);
      var previous := EndOfList();
      ListsMerged(memory.words, v, chunks, x, more, previous);
      SetLink(previous, head);
      chunks := chunks + more;
    }

    /** Takes over the blocks of another heap, with what is allocated in them and what is free. */
    method MergeBlocks(x: Heap)
      requires Shape() && FreeList(Blocks(root), inUse) && Sizes()
      requires x.Shape() && x.FreeList(Blocks(x.root), x.inUse) && x.Sizes()
      requires x != this && x.memory == memory && Separate(Blocks(root), Blocks(x.root))
      modifies `root, `freeListHead, `chunks, `objects, `inUse, `allocatedSize, x`root, memory
      ensures Shape() && FreeList(Blocks(root), inUse) && Sizes()
      ensures Blocks(root) == old(Blocks(root)) + old(Blocks(x.root)) && x.root == Nil
      ensures objects == old(objects) + x.objects && inUse == old(inUse) + x.inUse
      ensures allocatedSize == old(allocatedSize + x.allocatedSize)
      ensures SameWords(old(memory.words), memory.words, inUse)
      ensures WrittenIn(old(memory.words), memory.words, Blocks(root))
    {
      hide FreeRun, Linked, Exact, Apart, AreSlots, Ordered, Blocks, Separate, SameWords, BlockTrees.Merge, WrittenIn;
      ghost var w := x.Looks();
      MergeOrdered(root, x.root);
      JoinLists(x.freeListHead, w, x.chunks);
      root := BlockTrees.Merge(root, x.root);
      x.root := Nil;
      objects, inUse := objects + x.objects, inUse + x.inUse;
      allocatedSize := allocatedSize + x.allocatedSize;
    }

    /** Takes over the blocks, the objects and the children of another heap. */
    method Merge(x: Heap)
      requires Valid() && x.Valid() && x != this && x.memory == memory
      requires Separate(Blocks(root), Blocks(x.root))
      requires forall c :: c in children ==> c !in x.children
      modifies this, x, memory
      ensures Valid()
      ensures Looks() == old(Looks()).(blocks := old(Blocks(root) + Blocks(x.root)), objects := old(objects
        + x.objects),
                                       inUse := old(inUse + x.inUse), words := memory.words,
                                           children := old(children + x.children))
      ensures SameWords(old(memory.words), memory.words, inUse)
      ensures WrittenIn(old(memory.words), memory.words, Blocks(root))
      ensures old(Headed(Looks()) && Headed(x.Looks())) ==> Headed(Looks())
      ensures x.root == Nil && x.children == []
      ensures nextBlockSize == old(nextBlockSize) && nextCollectionSize == old(nextCollectionSize)
      ensures allocatedSize == old(allocatedSize + x.allocatedSize)
    {
      hide Shape, FreeList, Sizes, Idle, Blocks, Headed, Separate, SameWords, NoneTwice, WrittenIn;
      ghost var v, w := Looks(), x.Looks();
      MergeBlocks(x);
      NoneTwiceBoth(children, x.children);
      children := children + x.children;
      x.children := [];
      if Headed(v) && Headed(w) {
        MergedIsHeaded(v, w, Looks());
      }
    }

    /** What is allocated and the chunks of the free list add up to the blocks. */
    lemma SizesAddUp()
      requires Valid()
      ensures allocatedSize + TotalFree(chunks) == SLOT * TotalSlots(root)
    {
      BytesAddUp(root, inUse, chunks);
    }
  }
}
