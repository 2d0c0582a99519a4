/** The allocated slots and the chunks of the free list together make up the blocks. */
module HeapAccounts {
  import opened BlockTrees
  import opened FreeLists
  import opened HeapSpec

  lemma {:induction false} SpanSize(b: Block, i: nat, j: nat)
    requires i <= j
    ensures |Span(b, i, j)| == j - i
    decreases j - i
  {
    SpanGrows(b, i, j);
    if i < j {
      SpanSize(b, i + 1, j);
      assert Slot(b, i) !in Span(b, i + 1, j);
    }
  }

  /** All slots of the blocks of a tree. */
  ghost function TreeSlots(t: Tree): set<Slot> {
    match t
    case Nil => {}
    case Node(l, b, r) => TreeSlots(l) + Span(b, 0, b.slots) + TreeSlots(r)
  }

  lemma {:induction false} TreeSlotsAreAll(t: Tree)
    ensures forall s :: s in TreeSlots(t) <==> IsSlot(Blocks(t), s)
  {
    match t
    case Nil =>
    case Node(l, b, r) =>
      TreeSlotsAreAll(l);
      TreeSlotsAreAll(r);
  }

  lemma {:induction false} TreeSlotsCount(t: Tree)
    requires Ordered(t)
    ensures |TreeSlots(t)| == TotalSlots(t)
  {
    match t
    case Nil =>
    case Node(l, b, r) =>
      TreeSlotsCount(l);
      TreeSlotsCount(r);
      TreeSlotsAreAll(l);
      TreeSlotsAreAll(r);
      BeforeIsTransitive(t);
      SpanSize(b, 0, b.slots);
      assert TreeSlots(l) !! Span(b, 0, b.slots) && TreeSlots(l) !! TreeSlots(r) && TreeSlots(r) !! Span(b, 0, b.slots);
      assert |TreeSlots(l) + Span(b, 0, b.slots)| == |TreeSlots(l)| + b.slots;
  }

  ghost function ChunkSlots(chunks: seq<Chunk>): set<Slot> {
    if chunks == [] then {} else Span(chunks[0].block, chunks[0].from, chunks[0].to) + ChunkSlots(chunks[1..])
  }

  ghost function TotalFree(chunks: seq<Chunk>): int {
    if chunks == [] then 0 else SizeOf(chunks[0]) + TotalFree(chunks[1..])
  }

  lemma {:induction false} ChunkSlotsAre(chunks: seq<Chunk>, s: Slot)
    ensures s in ChunkSlots(chunks) <==> exists c :: c in chunks && c.block == s.block && c.from <= s.index < c.to
  {
    if chunks != [] {
      ChunkSlotsAre(chunks[1..], s);
      assert forall c :: c in chunks <==> c == chunks[0] || c in chunks[1..];
    }
  }

  lemma {:induction false} ChunkSlotsCount(blocks: set<Block>, taken: set<Slot>, chunks: seq<Chunk>)
    requires Distinct(chunks) && forall c :: c in chunks ==> FreeRun(blocks, taken, c)
    ensures SLOT * |ChunkSlots(chunks)| == TotalFree(chunks)
  {
    if chunks != [] {
      var c := chunks[0];
      var rest := chunks[1..];
      ChunkSlotsCount(blocks, taken, rest);
      assert c in chunks && FreeRun(blocks, taken, c);
      SpanSize(c.block, c.from, c.to);
      forall s | s in ChunkSlots(rest)
        ensures s !in Span(c.block, c.from, c.to)
      {
        ChunkSlotsAre(rest, s);
        var d :| d in rest && d.block == s.block && d.from <= s.index < d.to;
        if s in Span(c.block, c.from, c.to) {
          RunsMeetIn(blocks, taken, c, d);
        }
      }
      assert Span(c.block, c.from, c.to) !! ChunkSlots(rest);
    }
  }

  /** The bytes in use and the sizes of the chunks add up to the sizes of the blocks. */
  lemma BytesAddUp(t: Tree, taken: set<Slot>, chunks: seq<Chunk>)
    requires Ordered(t) && AreSlots(Blocks(t), taken) && Exact(Blocks(t), taken, chunks)
    ensures SLOT * |taken| + TotalFree(chunks) == SLOT * TotalSlots(t)
  {
    hide Ordered, Blocks, ChunkSlots, TreeSlots, TotalSlots, TotalFree, FreeRun, Distinct;
    var free := ChunkSlots(chunks);
    ChunkSlotsCount(Blocks(t), taken, chunks);
    TreeSlotsCount(t);
    TreeSlotsAreAll(t);
    forall s
      ensures s in free <==> s in TreeSlots(t) && s !in taken
    {
      FreeIsInChunk(Blocks(t), taken, chunks, s);
    }
    assert TreeSlots(t) == taken + free;
  }

  lemma FreeIsInChunk(blocks: set<Block>, taken: set<Slot>, chunks: seq<Chunk>, s: Slot)
    requires AreSlots(blocks, taken) && Exact(blocks, taken, chunks)
    ensures s in ChunkSlots(chunks) <==> IsSlot(blocks, s) && s !in taken
  {
    ChunkSlotsAre(chunks, s);
    if IsSlot(blocks, s) && s !in taken {
      var c := FreeSlotHasRun(blocks, taken, s.block, s.index);
      assert c in chunks;
    }
    if s in ChunkSlots(chunks) {
      var c :| c in chunks && c.block == s.block && c.from <= s.index < c.to;
      assert FreeRun(blocks, taken, c);
    }
  }
}
