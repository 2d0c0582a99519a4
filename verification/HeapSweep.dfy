/** What sweeping keeps while it rebuilds the free list. */
module HeapSweep {
  import opened BlockTrees
  import opened FreeLists
  import opened HeapAccounts
  import opened HeapMarks
  import opened HeapSpec

  /** What is left of a set of status bits after the slots of some blocks are freed, except those to keep. */
  ghost function Left(bits: set<Slot>, blocks: set<Block>, keep: set<Slot>): set<Slot> {
    set s | s in bits && (s.block in blocks ==> s in keep)
  }

  /** The status bits of all slots. */
  datatype Bits = Bits(objects: set<Slot>, inUse: set<Slot>, marked: set<Slot>, scanned: set<Slot>)

  /** Allocated slots stay so if they are marked; marks are taken back. */
  ghost function BitsLeft(bits: Bits, blocks: set<Block>, marks: set<Slot>): Bits {
    Bits(Left(bits.objects, blocks, marks), Left(bits.inUse, blocks, marks),
         Left(bits.marked, blocks, {}), Left(bits.scanned, blocks, {}))
  }

  lemma LeftTwice(bits: Bits, blocks: set<Block>, more: set<Block>, marks: set<Slot>)
    ensures BitsLeft(BitsLeft(bits, blocks, marks), more, marks) == BitsLeft(bits, blocks + more, marks)
  {
  }

  lemma LeftOfNothing(bits: Bits, marks: set<Slot>)
    ensures BitsLeft(bits, {}, marks) == bits
  {
  }

  /** The marks in some of the blocks. */
  ghost function Within(marks: set<Slot>, blocks: set<Block>): set<Slot> {
    set s | s in marks && s.block in blocks
  }

  lemma WithinBoth(marks: set<Slot>, xs: set<Block>, ys: set<Block>)
    requires xs !! ys
    ensures |Within(marks, xs + ys)| == |Within(marks, xs)| + |Within(marks, ys)|
  {
    assert Within(marks, xs + ys) == Within(marks, xs) + Within(marks, ys);
    assert Within(marks, xs) !! Within(marks, ys);
  }

  /** The address lies in a free slot. */
  ghost predicate InFree(blocks: set<Block>, taken: set<Slot>, address: int) {
    exists s :: IsSlot(blocks, s) && s !in taken && Address(s) <= address < Address(s) + SLOT
  }

  /** Memory is unchanged outside of the free slots of some blocks. */
  ghost predicate OnlyFreeWritten(words: map<int, int>, words': map<int, int>, blocks: set<Block>, taken: set<Slot>) {
    forall a :: !InFree(blocks, taken, a) ==> Read(words', a) == Read(words, a)
  }

  lemma FreeWrittenMore(words: map<int, int>, words': map<int, int>, blocks: set<Block>, more: set<Block>,
      taken: set<Slot>)
    requires OnlyFreeWritten(words, words', blocks, taken) && blocks <= more
    ensures OnlyFreeWritten(words, words', more, taken)
  {
    forall a | InFree(blocks, taken, a)
      ensures InFree(more, taken, a)
    {
      var s :| IsSlot(blocks, s) && s !in taken && Address(s) <= a < Address(s) + SLOT;
      assert IsSlot(more, s);
    }
  }

  lemma FreeWrittenTwice(words: map<int, int>, words': map<int, int>, words'': map<int, int>,
                         blocks: set<Block>, taken: set<Slot>)
    requires OnlyFreeWritten(words, words', blocks, taken) && OnlyFreeWritten(words', words'', blocks, taken)
    ensures OnlyFreeWritten(words, words'', blocks, taken)
  {
    hide InFree;
  }

  /** Free slots and taken slots share no address. */
  lemma TakenIsKept(words: map<int, int>, words': map<int, int>, blocks: set<Block>, taken: set<Slot>, s: Slot, a: int)
    requires OnlyFreeWritten(words, words', blocks, taken) && Apart(blocks) && IsSlot(blocks, s) && s in taken
    requires Address(s) <= a < Address(s) + SLOT
    ensures Read(words', a) == Read(words, a)
  {
    if InFree(blocks, taken, a) {
      var t :| IsSlot(blocks, t) && t !in taken && Address(t) <= a < Address(t) + SLOT;
      SlotsDiffer(blocks, s.block, s.index, t.block, t.index);
    }
  }

  /** The list holds the runs of the blocks that are done, and those of block `b` that end by slot `i`. */
  ghost predicate PartlyExact(done: set<Block>, b: Block, i: nat, marks: set<Slot>, chunks: seq<Chunk>) {
    && Distinct(chunks)
    && forall c :: c in chunks <==> FreeRun(done, marks, c) || (FreeRun({b}, marks, c) && c.to <= i)
  }

  /** No run of block `b` has slots on both sides of slot `i`. */
  ghost predicate Between(b: Block, i: nat, marks: set<Slot>) {
    !FreeBefore(marks, b, i) || !FreeAt(marks, b, i)
  }

  lemma StartExact(done: set<Block>, b: Block, marks: set<Slot>, chunks: seq<Chunk>)
    requires Exact(done, marks, chunks)
    ensures PartlyExact(done, b, 0, marks, chunks) && Between(b, 0, marks)
  {
  }

  lemma MarkedEndsNoRun(done: set<Block>, b: Block, i: nat, marks: set<Slot>, chunks: seq<Chunk>)
    requires PartlyExact(done, b, i, marks, chunks) && Slot(b, i) in marks
    ensures PartlyExact(done, b, i + 1, marks, chunks) && Between(b, i + 1, marks)
  {
    assert forall c :: FreeRun({b}, marks, c) ==> c.to != i + 1;
  }

  lemma RunEnds(done: set<Block>, b: Block, i: nat, j: nat, marks: set<Slot>, chunks: seq<Chunk>)
    requires PartlyExact(done, b, i, marks, chunks) && Between(b, i, marks) && b !in done
    requires i < j <= b.slots && NoneTaken(marks, Chunk(b, i, j)) && !FreeAt(marks, b, j)
    ensures PartlyExact(done, b, j, marks, [Chunk(b, i, j)] + chunks) && Between(b, j, marks)
    ensures FreeRun({b}, marks, Chunk(b, i, j))
  {
    var c := Chunk(b, i, j);
    assert FreeRun({b}, marks, c) by {
      assert FreeAt(marks, b, i);
    }
    assert c !in chunks;
    forall d | FreeRun({b}, marks, d) && i < d.to <= j
      ensures d == c
    {
      RunsMeetIn({b}, marks, c, d);
    }
  }

  lemma EndExact(done: set<Block>, b: Block, marks: set<Slot>, chunks: seq<Chunk>)
    requires PartlyExact(done, b, b.slots, marks, chunks)
    ensures Exact(done + {b}, marks, chunks)
  {
    assert forall c :: FreeRun(done + {b}, marks, c) <==> FreeRun(done, marks, c) || FreeRun({b}, marks, c);
  }

  lemma PartlySpread(done: set<Block>, b: Block, i: nat, marks: set<Slot>, chunks: seq<Chunk>)
    requires PartlyExact(done, b, i, marks, chunks) && Apart(done + {b})
    ensures Spread(chunks)
  {
    assert forall c :: FreeRun(done, marks, c) || FreeRun({b}, marks, c) ==> FreeRun(done + {b}, marks, c);
    RunsAreSpread(done + {b}, marks, chunks);
  }

  lemma ChunkIsFree(b: Block, marks: set<Slot>, words: map<int, int>, words': map<int, int>, c: Chunk)
    requires FreeRun({b}, marks, c) && KeptExcept(words, words', c)
    ensures OnlyFreeWritten(words, words', {b}, marks)
  {
    var s := Slot(c.block, c.from);
    assert IsSlot({b}, s) && s !in marks;
  }

  lemma NothingWritten(words: map<int, int>, blocks: set<Block>, taken: set<Slot>)
    ensures OnlyFreeWritten(words, words, blocks, taken)
  {
  }

  ghost predicate InBounds(bits: set<Slot>, blocks: set<Block>) {
    forall s: Slot :: s in bits && s.block in blocks ==> s.index < s.block.slots
  }

  ghost predicate AllInBounds(bits: Bits, blocks: set<Block>) {
    && InBounds(bits.objects, blocks) && InBounds(bits.inUse, blocks)
    && InBounds(bits.marked, blocks) && InBounds(bits.scanned, blocks)
  }

  /** Status bits after the first `k` slots of a block have been swept. */
  ghost predicate Swept(bits: Bits, bits': Bits, b: Block, k: nat, marks: set<Slot>) {
    && bits'.objects == bits.objects - (Span(b, 0, k) - marks)
    && bits'.inUse == bits.inUse - (Span(b, 0, k) - marks)
    && bits'.marked == bits.marked - Span(b, 0, k)
    && bits'.scanned == bits.scanned - Span(b, 0, k)
  }

  lemma SweepOne(bits: Bits, bits': Bits, b: Block, k: nat, marks: set<Slot>)
    requires Swept(bits, bits', b, k, marks)
    ensures var s := {Slot(b, k)};
            Swept(bits, if Slot(b, k) in marks
                        then bits'.(marked := bits'.marked - s, scanned := bits'.scanned - s)
                        else Bits(bits'.objects - s, bits'.inUse - s, bits'.marked - s, bits'.scanned - s), b, k + 1,
                            marks)
    ensures Slot(b, k) in bits'.marked <==> Slot(b, k) in bits.marked
  {
  }

  lemma SweepAll(bits: Bits, bits': Bits, b: Block, marks: set<Slot>)
    requires Swept(bits, bits', b, b.slots, marks) && AllInBounds(bits, {b})
    ensures bits' == BitsLeft(bits, {b}, marks)
  {
  }

  lemma CountOne(b: Block, k: nat, marks: set<Slot>)
    ensures |Span(b, 0, k + 1) * marks| == |Span(b, 0, k) * marks| + if Slot(b, k) in marks then 1 else 0
  {
    SpanGrows(b, 0, k + 1);
    var before := Span(b, 0, k) * marks;
    if Slot(b, k) in marks {
      assert Span(b, 0, k + 1) * marks == before + {Slot(b, k)} && Slot(b, k) !in before;
    } else {
      assert Span(b, 0, k + 1) * marks == before;
    }
  }

  lemma NoneTakenGrows(b: Block, i: nat, j: nat, marks: set<Slot>)
    ensures NoneTaken(marks, Chunk(b, i, i))
    ensures NoneTaken(marks, Chunk(b, i, j)) && Slot(b, j) !in marks ==> NoneTaken(marks, Chunk(b, i, j + 1))
    ensures FreeAt(marks, b, j) <==> j < b.slots && Slot(b, j) !in marks
  {
  }

  // ----- whole trees

  /** In these blocks, the marks are those given and the flags are as they should be. */
  ghost predicate MarkedAs(marked: set<Slot>, flagged: set<Block>, blocks: set<Block>, marks: set<Slot>) {
    && (forall s: Slot :: s.block in blocks ==> (s in marked <==> s in marks))
    && (forall b :: b in blocks ==> (b in flagged <==> HasMark(marks, b)))
  }

  ghost function Survivors(blocks: set<Block>, marks: set<Slot>): set<Block> {
    set b | b in blocks && HasMark(marks, b)
  }

  /** Counting, writing and removing add up over the two sides and the block of a node. */
  lemma SidesAddUp(words: map<int, int>, words1: map<int, int>, words2: map<int, int>,
                   xs: set<Block>, ys: set<Block>, taken: set<Slot>)
    requires OnlyFreeWritten(words, words1, xs, taken) && OnlyFreeWritten(words1, words2, ys, taken)
    ensures OnlyFreeWritten(words, words2, xs + ys, taken)
  {
    FreeWrittenMore(words, words1, xs, xs + ys, taken);
    FreeWrittenMore(words1, words2, ys, xs + ys, taken);
    FreeWrittenTwice(words, words1, words2, xs + ys, taken);
  }

  /** The part of a heap that sweeping changes. */
  datatype Area = Area(bits: Bits, flagged: set<Block>, words: map<int, int>)

  /** Blocks that have not been swept, beside those that are done. */
  ghost predicate ToSweep(a: Area, done: set<Block>, blocks: set<Block>, marks: set<Slot>) {
    && Apart(done + blocks) && done !! blocks
    && AllInBounds(a.bits, blocks) && InBounds(marks, blocks) && MarkedAs(a.bits.marked, a.flagged, blocks, marks)
  }

  /** Some blocks have been swept, and `count` marks were found there. */
  ghost predicate Cleaned(a: Area, a': Area, blocks: set<Block>, marks: set<Slot>, count: nat) {
    && a'.bits == BitsLeft(a.bits, blocks, marks) && a'.flagged == a.flagged - blocks
    && OnlyFreeWritten(a.words, a'.words, Survivors(blocks, marks), marks)
    && count == |Within(marks, blocks)|
  }

  lemma CleanedNothing(a: Area, marks: set<Slot>)
    ensures Cleaned(a, a, {}, marks, 0) && Survivors({}, marks) == {}
  {
    NothingWritten(a.words, {}, marks);
    LeftOfNothing(a.bits, marks);
    assert Within(marks, {}) == {};
  }

  lemma CleanedTwice(a: Area, b: Area, c: Area, xs: set<Block>, ys: set<Block>, marks: set<Slot>, n: nat, m: nat)
    requires Cleaned(a, b, xs, marks, n) && Cleaned(b, c, ys, marks, m) && xs !! ys
    ensures Cleaned(a, c, xs + ys, marks, n + m)
    ensures Survivors(xs + ys, marks) == Survivors(xs, marks) + Survivors(ys, marks)
  {
    hide OnlyFreeWritten, BitsLeft, Within;
    LeftTwice(a.bits, xs, ys, marks);
    WithinBoth(marks, xs, ys);
    assert Survivors(xs + ys, marks) == Survivors(xs, marks) + Survivors(ys, marks);
    SidesAddUp(a.words, b.words, c.words, Survivors(xs, marks), Survivors(ys, marks), marks);
  }

  /** Sweeping some of the blocks leaves the others to be swept. */
  lemma RestToSweep(a: Area, b: Area, done: set<Block>, blocks: set<Block>, marks: set<Slot>, swept: set<Block>, n: nat,
                    rest: set<Block>)
    requires ToSweep(a, done, blocks, marks) && Cleaned(a, b, swept, marks, n)
    requires swept <= blocks && rest <= blocks && swept !! rest
    ensures ToSweep(b, done + Survivors(swept, marks), rest, marks)
  {
    hide OnlyFreeWritten, Within;
    ApartPart(done + blocks, done + Survivors(swept, marks) + rest);
  }

  /** Freeing a block without marks takes all of its bits away. */
  lemma BitsOfFreed(bits: Bits, b: Block, marks: set<Slot>)
    requires !HasMark(marks, b)
    ensures BitsLeft(bits, {b}, marks) == Bits(Without(bits.objects, b), Without(bits.inUse, b),
                                               Without(bits.marked, b), Without(bits.scanned, b))
  {
  }

  function Without(bits: set<Slot>, b: Block): set<Slot> {
    set s | s in bits && s.block != b
  }

  lemma WithinOne(marks: set<Slot>, b: Block)
    requires InBounds(marks, {b})
    ensures Within(marks, {b}) == Span(b, 0, b.slots) * marks
    ensures !HasMark(marks, b) ==> Within(marks, {b}) == {}
  {
    assert !HasMark(marks, b) ==> forall s :: s in marks ==> s.block != b;
  }

  lemma ApartPart(blocks: set<Block>, part: set<Block>)
    requires Apart(blocks) && part <= blocks
    ensures Apart(part)
  {
  }

  /** The blocks of a node, taken one side after the other. */
  lemma NodeParts(t: Tree)
    requires Ordered(t) && t.Node?
    ensures Blocks(t) == Blocks(t.left) + Blocks(t.right) + {t.block}
    ensures Blocks(t.left) !! Blocks(t.right) && t.block !in Blocks(t.left) + Blocks(t.right)
    ensures Ordered(t.left) && Ordered(t.right)
  {
    hide Before;
    BeforeIsTransitive(t);
    forall b | b in Blocks(t.left) && b in Blocks(t.right)
      ensures false
    {
      OrderedApart(t.left);
      BeforeItself(b);
    }
    OrderedApart(t);
    BeforeItself(t.block);
  }

  lemma BeforeItself(b: Block)
    ensures b.slots > 0 ==> !Before(b, b)
  {
  }

  /** A node with its block in place, after its two sides have been swept. */
  lemma NodeStays(t: Tree, l: Tree, r: Tree, marks: set<Slot>)
    requires Ordered(t) && t.Node? && Ordered(l) && Ordered(r)
    requires Blocks(l) == Survivors(Blocks(t.left), marks) && Blocks(r) == Survivors(Blocks(t.right), marks)
    ensures Ordered(Node(l, t.block, r))
    ensures Blocks(Node(l, t.block, r)) == Blocks(l) + Blocks(r) + {t.block}
  {
    hide Before;
  }

  lemma FlagOf(a: Area, done: set<Block>, b: Block, marks: set<Slot>)
    requires ToSweep(a, done, {b}, marks)
    ensures b in a.flagged <==> HasMark(marks, b)
    ensures Survivors({b}, marks) == if HasMark(marks, b) then {b} else {}
  {
  }

  /** Freeing a block without marks. */
  lemma FreedIsClean(a: Area, done: set<Block>, b: Block, marks: set<Slot>)
    requires ToSweep(a, done, {b}, marks) && !HasMark(marks, b)
    ensures Cleaned(a, Area(Bits(Without(a.bits.objects, b), Without(a.bits.inUse, b),
                                 Without(a.bits.marked, b), Without(a.bits.scanned, b)), a.flagged, a.words), {b},
                                     marks, 0)
  {
    BitsOfFreed(a.bits, b, marks);
    WithinOne(marks, b);
    NothingWritten(a.words, Survivors({b}, marks), marks);
    assert b !in a.flagged;
  }

  lemma EmptyTree()
    ensures Ordered(Nil) && Blocks(Nil) == {}
  {
  }

  lemma MarkIs(a: Area, done: set<Block>, b: Block, k: nat, marks: set<Slot>, bits: Bits)
    requires ToSweep(a, done, {b}, marks) && Swept(a.bits, bits, b, k, marks)
    ensures Slot(b, k) in bits.marked <==> Slot(b, k) in marks
  {
  }

  lemma StartsSwept(a: Area, done: set<Block>, b: Block, marks: set<Slot>, chunks: seq<Chunk>)
    requires Exact(done, marks, chunks)
    ensures PartlyExact(done, b, 0, marks, chunks) && Between(b, 0, marks)
    ensures OnlyFreeWritten(a.words, a.words, {b}, marks) && Swept(a.bits, a.bits, b, 0, marks)
    ensures |Span(b, 0, 0) * marks| == 0
  {
    StartExact(done, b, marks, chunks);
    NothingWritten(a.words, {b}, marks);
    assert Span(b, 0, 0) * marks == {};
  }

  lemma RunSwept(a: Area, done: set<Block>, b: Block, i: nat, j: nat, marks: set<Slot>, chunks: seq<Chunk>)
    requires ToSweep(a, done, {b}, marks) && PartlyExact(done, b, i, marks, chunks) && Between(b, i, marks)
    requires i < j <= b.slots && NoneTaken(marks, Chunk(b, i, j)) && !FreeAt(marks, b, j)
    ensures PartlyExact(done, b, j, marks, [Chunk(b, i, j)] + chunks) && Between(b, j, marks)
    ensures FreeRun({b}, marks, Chunk(b, i, j)) && Spread([Chunk(b, i, j)] + chunks)
  {
    RunEnds(done, b, i, j, marks, chunks);
    PartlySpread(done, b, j, marks, [Chunk(b, i, j)] + chunks);
  }

  lemma BlockIsClean(a: Area, a': Area, done: set<Block>, b: Block, marks: set<Slot>, count: nat)
    requires ToSweep(a, done, {b}, marks) && b in a.flagged && Swept(a.bits, a'.bits, b, b.slots, marks)
    requires a'.flagged == a.flagged - {b} && OnlyFreeWritten(a.words, a'.words, {b}, marks)
    requires count == |Span(b, 0, b.slots) * marks|
    ensures Cleaned(a, a', {b}, marks, count)
  {
    SweepAll(a.bits, a'.bits, b, marks);
    WithinOne(marks, b);
    assert Survivors({b}, marks) == {b};
  }

  // ----- a whole heap

  /** What the mark phase leaves is ready to be swept. */
  lemma MarkedIsToSweep(v: View, m: Marks, scanned: set<Slot>)
    requires Apart(v.blocks) && AreSlots(v.blocks, v.inUse) && v.objects <= v.inUse
    requires MarksInv(v, m) && scanned <= m.slots
    ensures ToSweep(Area(Bits(v.objects, v.inUse, m.slots, scanned), m.flagged, v.words), {}, v.blocks, m.slots)
    ensures m.flagged <= v.blocks
    ensures Exact({}, m.slots, [])
  {
    assert {} + v.blocks == v.blocks;
    forall b | b in v.blocks
      ensures b in m.flagged <==> HasMark(m.slots, b)
    {
    }
  }

  /** After all blocks have been swept, what is left is what was marked. */
  lemma MarkedIsLeft(v: View, m: Marks, a: Area, a': Area, count: nat)
    requires Apart(v.blocks) && AreSlots(v.blocks, v.inUse) && v.objects <= v.inUse && MarksInv(v, m)
    requires a == Area(Bits(v.objects, v.inUse, m.slots, a.bits.scanned), m.flagged, v.words)
    requires a.bits.scanned <= m.slots
    requires Cleaned(a, a', v.blocks, m.slots, count)
    ensures a'.bits == Bits(v.objects * m.slots, m.slots, {}, {}) && a'.flagged == {}
    ensures count == |m.slots|
    ensures Apart(Survivors(v.blocks, m.slots)) && AreSlots(Survivors(v.blocks, m.slots), m.slots)
    ensures OnlyFreeWritten(v.words, a'.words, Survivors(v.blocks, m.slots), m.slots)
  {
    assert Within(m.slots, v.blocks) == m.slots;
    forall s | s in m.slots
      ensures s.block in Survivors(v.blocks, m.slots)
    {
    }
    forall b | b in m.flagged
      ensures b in v.blocks
    {
    }
  }

  lemma EmptyList(words: map<int, int>)
    ensures Linked(words, []) && First([]) == 0
  {
  }

  lemma SurvivingWords(words: map<int, int>, words': map<int, int>, blocks: set<Block>, taken: set<Slot>)
    requires OnlyFreeWritten(words, words', blocks, taken) && Apart(blocks) && AreSlots(blocks, taken)
    ensures SameWords(words, words', taken)
  {
    hide OnlyFreeWritten, Apart;
    forall s | s in taken
      ensures Read(words', Address(s)) == Read(words, Address(s))
      ensures Read(words', Address(s) + WORD) == Read(words, Address(s) + WORD)
    {
      TakenIsKept(words, words', blocks, taken, s, Address(s));
      TakenIsKept(words, words', blocks, taken, s, Address(s) + WORD);
    }
  }

  lemma FreeWrittenInside(words: map<int, int>, words': map<int, int>, blocks: set<Block>, part: set<Block>,
      taken: set<Slot>)
    requires OnlyFreeWritten(words, words', part, taken) && part == Survivors(blocks, taken)
    ensures WrittenIn(words, words', blocks)
  {
    forall a | InFree(part, taken, a)
      ensures InBlocks(blocks, a)
    {
      var s :| IsSlot(part, s) && s !in taken && Address(s) <= a < Address(s) + SLOT;
      assert Inside(s.block, a);
    }
  }

  lemma KeptIs(v: View, v': View, marks: set<Slot>)
    requires v'.blocks == Survivors(v.blocks, marks) && v'.objects == v.objects * marks && v'.inUse == marks
    requires v'.rootBegin == v.rootBegin && v'.rootEnd == v.rootEnd
    ensures v' == Kept(v, marks, v'.children).(words := v'.words)
  {
  }
}
