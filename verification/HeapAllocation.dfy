/** What allocation does to the free list, the status bits and memory. */
module HeapAllocation {
  import opened BlockTrees
  import opened FreeLists
  import opened HeapAccounts
  import opened HeapMarks
  import opened HeapSpec

  function Larger(x: int, y: int): int { if x > y then x else y }

  /** No block reaches into a range of memory. */
  ghost predicate Unused(blocks: set<Block>, from: int, size: int) {
    forall b :: b in blocks ==> from + size <= b.begin || EndOf(b) <= from
  }

  lemma ApartWith(blocks: set<Block>, b: Block)
    requires Apart(blocks) && Unused(blocks, b.begin, SLOT * b.slots)
    requires b.slots > 0 && b.begin > 0 && b.begin % WORD == 0
    ensures b !in blocks && Apart(blocks + {b})
    ensures forall c :: c in blocks ==> Before(b, c) || Before(c, b)
  {
  }

  lemma RunsOutside(blocks: set<Block>, taken: set<Slot>, b: Block, c: Chunk)
    requires Apart(blocks) && FreeRun(blocks, taken, c) && Unused(blocks, b.begin, SLOT * b.slots)
    ensures Start(c) + SLOT <= b.begin || EndOf(b) <= Start(c)
  {
  }

  lemma SlotsOutside(blocks: set<Block>, b: Block, s: Slot)
    requires Apart(blocks) && IsSlot(blocks, s) && Unused(blocks, b.begin, SLOT * b.slots)
    ensures Address(s) + SLOT <= b.begin || EndOf(b) <= Address(s)
  {
  }

  lemma SlotsMissRuns(blocks: set<Block>, taken: set<Slot>, c: Chunk, s: Slot)
    requires Apart(blocks) && FreeRun(blocks, taken, c) && IsSlot(blocks, s) && s in taken
    ensures Address(s) + SLOT <= Start(c) || Limit(c) <= Address(s)
  {
    if s.block == c.block {
      assert !(c.from <= s.index < c.to);
    }
  }

  /** The entry of a new block, before anything leads to it. */
  lemma BlockEntered(words: map<int, int>, blocks: set<Block>, taken: set<Slot>, chunks: seq<Chunk>, b: Block,
                     words': map<int, int>)
    requires Apart(blocks) && Exact(blocks, taken, chunks) && AreSlots(blocks, taken) && Linked(words, chunks)
    requires b.slots > 0 && b.begin > 0 && b.begin % WORD == 0 && Unused(blocks, b.begin, SLOT * b.slots)
    requires words' == Cleared(words, b.begin, EndOf(b))[b.begin + WORD := SLOT * b.slots][b.begin := 0]
    ensures Linked(words', chunks) && Linked(words', [Chunk(b, 0, b.slots)]) && SameWords(words, words', taken)
  {
    hide FreeRun, Apart, Unused, Linked, Entry;
    forall c | c in chunks
      ensures Start(c) + SLOT <= b.begin || EndOf(b) <= Start(c)
    {
      RunsOutside(blocks, taken, b, c);
    }
    forall s | s in taken
      ensures Address(s) + SLOT <= b.begin || EndOf(b) <= Address(s)
    {
      SlotsOutside(blocks, b, s);
    }
    LinkedFrame(words, words', chunks);
    OneEntry(words', Chunk(b, 0, b.slots));
  }

  lemma OneEntry(words: map<int, int>, c: Chunk)
    requires Read(words, Start(c)) == 0 && Read(words, Start(c) + WORD) == SizeOf(c)
    ensures Linked(words, [c])
  {
  }

  /** Memory after a block is cleared and put at the end of the free list. */
  function EnteredWords(words: map<int, int>, b: Block, previous: int): map<int, int> {
    var words' := Cleared(words, b.begin, EndOf(b))[b.begin + WORD := SLOT * b.slots][b.begin := 0];
    if previous == 0 then words' else words'[previous := b.begin]
  }

  lemma EntryInside(words: map<int, int>, blocks: set<Block>, b: Block)
    requires b in blocks && b.slots > 0
    ensures WrittenIn(words, Cleared(words, b.begin, EndOf(b))[b.begin + WORD := SLOT * b.slots][b.begin := 0], blocks)
  {
    hide WrittenIn, Cleared;
    var words1 := Cleared(words, b.begin, EndOf(b));
    ClearInside(words, blocks, b, b.begin, EndOf(b));
    WriteInside(words1, blocks, b, b.begin + WORD, SLOT * b.slots);
    WriteInside(words1[b.begin + WORD := SLOT * b.slots], blocks, b, b.begin, 0);
    WrittenInTwice(words, words1, words1[b.begin + WORD := SLOT * b.slots], blocks, blocks);
    WrittenInTwice(words, words1[b.begin + WORD := SLOT * b.slots],
                   words1[b.begin + WORD := SLOT * b.slots][b.begin := 0], blocks, blocks);
  }

  /** A new block at the end of the free list. */
  lemma BlockAdded(words: map<int, int>, blocks: set<Block>, taken: set<Slot>, chunks: seq<Chunk>, b: Block,
      previous: int)
    requires Apart(blocks) && Exact(blocks, taken, chunks) && AreSlots(blocks, taken) && Linked(words, chunks)
    requires b.slots > 0 && b.begin > 0 && b.begin % WORD == 0 && Unused(blocks, b.begin, SLOT * b.slots)
    requires previous == Leading(chunks, |chunks|)
    ensures var words' := EnteredWords(words, b, previous);
            var chunks' := chunks + [Chunk(b, 0, b.slots)];
            && Exact(blocks + {b}, taken, chunks') && Linked(words', chunks') && SameWords(words, words', taken)
            && First(chunks') == (if previous == 0 then b.begin else First(chunks))
            && WrittenIn(words, words', blocks + {b})
    ensures previous != b.begin && previous != b.begin + WORD
  {
    hide FreeRun, Apart, Unused, Linked, Exact, AreSlots, SameWords, Cleared, WrittenIn;
    var c := Chunk(b, 0, b.slots);
    var words' := Cleared(words, b.begin, EndOf(b))[b.begin + WORD := SLOT * b.slots][b.begin := 0];
    BlockEntered(words, blocks, taken, chunks, b, words');
    ApartWith(blocks, b);
    WithBlockIsExact(blocks, taken, chunks, b);
    ExactIsSpread(blocks + {b}, taken, chunks + [c]);
    EntryInside(words, blocks + {b}, b);
    if chunks == [] {
      LinkedAppend(words', words', chunks, [c]);
    } else {
      var k := |chunks| - 1;
      ChunkFacts(blocks, taken, words, chunks, k);
      RunOfList(blocks, taken, chunks, k);
      RunsOutside(blocks, taken, b, chunks[k]);
      LinkedAppend(words', words'[previous := b.begin], chunks, [c]);
      RunInBounds(blocks, taken, chunks[k]);
      WriteInside(words', blocks + {b}, chunks[k].block, previous, b.begin);
      WrittenInTwice(words, words', words'[previous := b.begin], blocks + {b}, blocks + {b});
      LinkOutside(words', blocks, taken, chunks, k, b.begin);
      SameWordsTwice(words, words', words'[previous := b.begin], taken);
    }
  }

  lemma ExactIsSpread(blocks: set<Block>, taken: set<Slot>, chunks: seq<Chunk>)
    requires Apart(blocks) && Exact(blocks, taken, chunks)
    ensures Spread(chunks)
  {
    RunsAreSpread(blocks, taken, chunks);
  }

  /** Changing a link does not touch what is allocated. */
  lemma LinkOutside(words: map<int, int>, blocks: set<Block>, taken: set<Slot>, chunks: seq<Chunk>, k: nat, value: int)
    requires Apart(blocks) && Exact(blocks, taken, chunks) && AreSlots(blocks, taken) && k < |chunks|
    ensures SameWords(words, words[Start(chunks[k]) := value], taken)
  {
    hide FreeRun, Apart;
    assert chunks[k] in chunks;
    RunInBounds(blocks, taken, chunks[k]);
    forall s | s in taken
      ensures Address(s) + SLOT <= Start(chunks[k]) || Limit(chunks[k]) <= Address(s)
    {
      SlotsMissRuns(blocks, taken, chunks[k], s);
    }
  }

  lemma SameWordsTwice(words: map<int, int>, words': map<int, int>, words'': map<int, int>, slots: set<Slot>)
    requires SameWords(words, words', slots) && SameWords(words', words'', slots)
    ensures SameWords(words, words'', slots)
  {
  }

  /** It makes no difference whether the link or the entry is written first. */
  lemma LinkBeforeEntry(words: map<int, int>, previous: int, at: int, size: int)
    requires previous != at && previous != at + WORD
    ensures words[previous := at][at + WORD := size][at := 0] == words[at + WORD := size][at := 0][previous := at]
  {
  }

  lemma WholeSlots(size: int)
    requires size % SLOT == 0
    ensures SLOT * (size / SLOT) == size && (2 * size) % SLOT == 0
  {
  }

  // ----- taking slots from a chunk

  /** A range of slots of a block shares no address with other slots. */
  lemma RangeMissesSlot(blocks: set<Block>, b: Block, i: nat, n: nat, s: Slot)
    requires Apart(blocks) && b in blocks && i + n <= b.slots && IsSlot(blocks, s) && s !in Span(b, i, i + n)
    ensures Address(s) + SLOT <= SlotAt(b, i) || SlotAt(b, i + n) <= Address(s)
  {
    if s.block == b {
      assert s == Slot(b, s.index);
    }
  }

  /** Memory after chunk `k` is taken out of the list and what is left of it is put at the head. */
  ghost predicate TakenWords(words: map<int, int>, chunks: seq<Chunk>, k: nat, n: nat, words': map<int, int>)
    requires k < |chunks|
  {
    var c := chunks[k];
    var words1 := if k == 0 then words else words[Start(chunks[k - 1]) := NextOf(chunks, k)];
    var d := Chunk(c.block, c.from + n, c.to);
    words' == if c.from + n < c.to
              then words1[Start(d) := First(chunks[..k] + chunks[k + 1..])][Start(d) + WORD := SizeOf(d)]
              else words1
  }

  lemma TakenIsLinked(words: map<int, int>, blocks: set<Block>, taken: set<Slot>, chunks: seq<Chunk>, k: nat, n: nat,
                      words': map<int, int>)
    requires Apart(blocks) && Exact(blocks, taken, chunks) && AreSlots(blocks, taken) && Linked(words, chunks)
    requires k < |chunks| && 0 < n <= chunks[k].to - chunks[k].from && TakenWords(words, chunks, k, n, words')
    ensures var taken' := taken + Span(chunks[k].block, chunks[k].from, chunks[k].from + n);
            && Exact(blocks, taken', Taken(chunks, k, n)) && AreSlots(blocks, taken')
            && Linked(words', Taken(chunks, k, n)) && SameWords(words, words', taken)
  {
    hide FreeRun, Apart, Exact, SameWords, Linked, Span, Spread;
    var c := chunks[k];
    var taken' := taken + Span(c.block, c.from, c.from + n);
    var words1 := if k == 0 then words else words[Start(chunks[k - 1]) := NextOf(chunks, k)];
    var rest := chunks[..k] + chunks[k + 1..];
    ExactIsSpread(blocks, taken, chunks);
    LinkedRemove(words, words1, chunks, k);
    TakenIsExact(blocks, taken, chunks, k, n);
    RunOfList(blocks, taken, chunks, k);
    SpanIsSlots(blocks, taken, c, n);
    assert SameWords(words, words1, taken) by {
      SameWordsSelf(words, taken);
      if k > 0 { LinkOutside(words, blocks, taken, chunks, k - 1, NextOf(chunks, k)); }
    }
    if c.from + n < c.to {
      var d := Chunk(c.block, c.from + n, c.to);
      ExactIsSpread(blocks, taken', [d] + rest);
      LinkedPush(words1, words', rest, d);
      RunOfList(blocks, taken', [d] + rest, 0);
      PushOutside(words1, words', blocks, taken', d);
      SameWordsFewer(words1, words', taken, taken');
      SameWordsTwice(words, words1, words', taken);
    }
  }

  lemma RunOfList(blocks: set<Block>, taken: set<Slot>, chunks: seq<Chunk>, k: nat)
    requires Exact(blocks, taken, chunks) && k < |chunks|
    ensures FreeRun(blocks, taken, chunks[k])
  {
    assert chunks[k] in chunks;
  }

  lemma SpanIsSlots(blocks: set<Block>, taken: set<Slot>, c: Chunk, n: nat)
    requires AreSlots(blocks, taken) && FreeRun(blocks, taken, c) && n <= c.to - c.from
    ensures AreSlots(blocks, taken + Span(c.block, c.from, c.from + n)) && taken !! Span(c.block, c.from, c.from + n)
  {
  }

  lemma SameWordsSelf(words: map<int, int>, slots: set<Slot>)
    ensures SameWords(words, words, slots)
  {
  }

  lemma SameWordsFewer(words: map<int, int>, words': map<int, int>, fewer: set<Slot>, slots: set<Slot>)
    requires SameWords(words, words', slots) && fewer <= slots
    ensures SameWords(words, words', fewer)
  {
  }

  lemma PushOutside(words: map<int, int>, words': map<int, int>, blocks: set<Block>, taken: set<Slot>, d: Chunk)
    requires Apart(blocks) && FreeRun(blocks, taken, d) && AreSlots(blocks, taken) && KeptExcept(words, words', d)
    ensures SameWords(words, words', taken)
  {
    hide FreeRun, Apart;
    RunInBounds(blocks, taken, d);
    forall s | s in taken
      ensures Address(s) + SLOT <= Start(d) || Limit(d) <= Address(s)
    {
      SlotsMissRuns(blocks, taken, d, s);
    }
  }

  /** Clearing the slots that were taken leaves the list and all other allocated slots alone. */
  lemma ClearingTaken(words: map<int, int>, blocks: set<Block>, taken: set<Slot>, more: set<Slot>, chunks: seq<Chunk>,
                      b: Block, i: nat, n: nat)
    requires Apart(blocks) && AreSlots(blocks, taken + more) && Exact(blocks, taken + more, chunks)
    requires Linked(words, chunks)
    requires b in blocks && 0 < n && i + n <= b.slots && more == Span(b, i, i + n) && taken !! more
    ensures var words' := Cleared(words, SlotAt(b, i), SlotAt(b, i + n));
            Linked(words', chunks) && SameWords(words, words', taken)
  {
    hide FreeRun, Apart, Linked;
    var words' := Cleared(words, SlotAt(b, i), SlotAt(b, i + n));
    forall c | c in chunks
      ensures Start(c) + SLOT <= SlotAt(b, i) || SlotAt(b, i + n) <= Start(c)
    {
      var s := Slot(c.block, c.from);
      RunStarts(blocks, taken + more, c);
      RangeMissesSlot(blocks, b, i, n, s);
    }
    LinkedCleared(words, chunks, SlotAt(b, i), SlotAt(b, i + n));
    forall s | s in taken
      ensures Address(s) + SLOT <= SlotAt(b, i) || SlotAt(b, i + n) <= Address(s)
    {
      RangeMissesSlot(blocks, b, i, n, s);
    }
  }

  lemma RunStarts(blocks: set<Block>, taken: set<Slot>, c: Chunk)
    requires FreeRun(blocks, taken, c)
    ensures IsSlot(blocks, Slot(c.block, c.from)) && Slot(c.block, c.from) !in taken
  {
  }

  // ----- an allocation

  /**
    An object of `n` slots has been allocated: fresh slots, holding zeros, and everything that was
    allocated before is as it was.
    */
  ghost predicate Allocated(v: View, v': View, slot: Slot, n: nat) {
    && slot.block in v'.blocks && slot.index + n <= slot.block.slots
    && v'.inUse == v.inUse + Span(slot.block, slot.index, slot.index + n)
    && v.inUse !! Span(slot.block, slot.index, slot.index + n)
    && v'.objects == v.objects + {slot} && v.blocks <= v'.blocks
    && SameWords(v.words, v'.words, v.inUse) && WrittenIn(v.words, v'.words, v'.blocks)
    && (forall a :: Address(slot) <= a < Address(slot) + SLOT * n ==> Read(v'.words, a) == 0)
    && v'.rootBegin == v.rootBegin && v'.rootEnd == v.rootEnd && v'.children == v.children
  }

  /** A link of the list is in a block. */
  lemma LinkInside(words: map<int, int>, blocks: set<Block>, taken: set<Slot>, c: Chunk, value: int)
    requires Apart(blocks) && FreeRun(blocks, taken, c)
    ensures WrittenIn(words, words[Start(c) := value], blocks) &&
      WrittenIn(words, words[Start(c) + WORD := value], blocks)
  {
    RunInBounds(blocks, taken, c);
    WriteInside(words, blocks, c.block, Start(c), value);
    WriteInside(words, blocks, c.block, Start(c) + WORD, value);
  }

  lemma ClearInside(words: map<int, int>, blocks: set<Block>, b: Block, from: int, to: int)
    requires b in blocks && b.begin <= from && to <= EndOf(b)
    ensures WrittenIn(words, Cleared(words, from, to), blocks)
  {
    assert forall a :: from <= a < to ==> Inside(b, a);
  }

  lemma WrittenNothing(words: map<int, int>, blocks: set<Block>)
    ensures WrittenIn(words, words, blocks)
  {
  }

  lemma TakenInside(words: map<int, int>, blocks: set<Block>, taken: set<Slot>, chunks: seq<Chunk>, k: nat, n: nat,
                    words': map<int, int>)
    requires Apart(blocks) && Exact(blocks, taken, chunks)
    requires k < |chunks| && 0 < n <= chunks[k].to - chunks[k].from && TakenWords(words, chunks, k, n, words')
    ensures var c := chunks[k];
            WrittenIn(words, Cleared(words', Start(c), SlotAt(c.block, c.from + n)), blocks)
  {
    hide FreeRun, Apart, Exact, WrittenIn, Cleared;
    var c := chunks[k];
    var words1 := if k == 0 then words else words[Start(chunks[k - 1]) := NextOf(chunks, k)];
    RunOfList(blocks, taken, chunks, k);
    RunInBounds(blocks, taken, c);
    RunInBlock(blocks, taken, c);
    assert WrittenIn(words, words1, blocks) by {
      WrittenNothing(words, blocks);
      if k > 0 {
        RunOfList(blocks, taken, chunks, k - 1);
        LinkInside(words, blocks, taken, chunks[k - 1], NextOf(chunks, k));
      }
    }
    assert WrittenIn(words1, words', blocks) by {
      WrittenNothing(words1, blocks);
      if c.from + n < c.to {
        var at := SlotAt(c.block, c.from + n);
        var value := First(chunks[..k] + chunks[k + 1..]);
        WriteInside(words1, blocks, c.block, at, value);
        WriteInside(words1[at := value], blocks, c.block, at + WORD, SizeOf(Chunk(c.block, c.from + n, c.to)));
        WrittenInTwice(words1, words1[at := value], words', blocks, blocks);
      }
    }
    WrittenInTwice(words, words1, words', blocks, blocks);
    ClearInside(words', blocks, c.block, Start(c), SlotAt(c.block, c.from + n));
    WrittenInTwice(words, words', Cleared(words', Start(c), SlotAt(c.block, c.from + n)), blocks, blocks);
  }

  /** Taking the first `n` slots of chunk `k` is an allocation. */
  lemma TakingAllocates(v: View, chunks: seq<Chunk>, k: nat, n: nat, words: map<int, int>, v': View)
    requires Apart(v.blocks) && Exact(v.blocks, v.inUse, chunks) && AreSlots(v.blocks, v.inUse)
    requires Linked(v.words, chunks)
    requires k < |chunks| && 0 < n <= chunks[k].to - chunks[k].from && TakenWords(v.words, chunks, k, n, words)
    requires var c := chunks[k];
             v' == v.(objects := v.objects + {Slot(c.block, c.from)}, inUse := v.inUse + Span(c.block, c.from,
                 c.from + n),
                      words := Cleared(words, Start(c), SlotAt(c.block, c.from + n)))
    ensures Allocated(v, v', Slot(chunks[k].block, chunks[k].from), n)
    ensures Exact(v.blocks, v'.inUse, Taken(chunks, k, n)) && AreSlots(v.blocks, v'.inUse)
    ensures Linked(v'.words, Taken(chunks, k, n)) && |v'.inUse| == |v.inUse| + n
  {
    hide FreeRun, Apart, Exact, SameWords, Linked, Span, Spread, Taken, TakenWords, Cleared, AreSlots, WrittenIn;
    var c := chunks[k];
    var more := Span(c.block, c.from, c.from + n);
    RunOfList(v.blocks, v.inUse, chunks, k);
    RunInBlock(v.blocks, v.inUse, c);
    SpanIsSlots(v.blocks, v.inUse, c, n);
    SpanSize(c.block, c.from, c.from + n);
    TakenIsLinked(v.words, v.blocks, v.inUse, chunks, k, n, words);
    ClearingTaken(words, v.blocks, v.inUse, more, Taken(chunks, k, n), c.block, c.from, n);
    SameWordsTwice(v.words, words, v'.words, v.inUse);
    ClearedIsZero(words, Start(c), SlotAt(c.block, c.from + n));
    TakenInside(v.words, v.blocks, v.inUse, chunks, k, n, words);
    assert Slot(c.block, c.from) in more by { SpanGrows(c.block, c.from, c.from + n); }
  }

  lemma ClearedIsZero(words: map<int, int>, from: int, to: int)
    ensures forall a :: from <= a < to ==> Read(Cleared(words, from, to), a) == 0
  {
  }

  lemma EntryOf(words: map<int, int>, chunks: seq<Chunk>, k: nat)
    requires Linked(words, chunks) && k < |chunks|
    ensures Entry(words, chunks[k], NextOf(chunks, k))
  {
  }

  /** What the list looks like around chunk `k`, as far as taking it is concerned. */
  lemma ChunkFacts(blocks: set<Block>, taken: set<Slot>, words: map<int, int>, chunks: seq<Chunk>, k: nat)
    requires Apart(blocks) && Exact(blocks, taken, chunks) && Linked(words, chunks) && k < |chunks|
    ensures var c := chunks[k];
            && Entry(words, c, NextOf(chunks, k)) && Inside(c.block, Start(c))
            && SlotOf(c.block, Start(c)) == Slot(c.block, c.from) && (Start(c) - c.block.begin) % SLOT == 0
            && c.block in blocks && c.from < c.to <= c.block.slots && Start(c) > 0
    ensures k > 0 ==> Start(chunks[k - 1]) > 0 && Start(chunks[k - 1]) != Start(chunks[k]) + WORD
    ensures First(chunks[..k] + chunks[k + 1..]) == if k == 0 then NextOf(chunks, 0) else First(chunks)
  {
    hide Apart, Linked, Entry;
    EntryOf(words, chunks, k);
    RunOfList(blocks, taken, chunks, k);
    RunInBounds(blocks, taken, chunks[k]);
    ExactIsSpread(blocks, taken, chunks);
    if k > 0 {
      RunOfList(blocks, taken, chunks, k - 1);
      RunInBounds(blocks, taken, chunks[k - 1]);
      LinkIsApart(chunks, k - 1, k);
    }
  }

  /** Allocation makes a whole object, and leaves the other ones whole. */
  lemma AllocatedIsHeaded(v: View, v': View, slot: Slot, n: nat)
    requires Headed(v) && Allocated(v, v', slot, n) && n > 0
    ensures Headed(v')
  {
    hide SameWords;
    forall s | s in v'.inUse
      ensures HasHead(v', s)
    {
      if s in v.inUse {
        assert HasHead(v, s);
        var h: nat :| IsHead(v, s.block, h, s.index);
        assert IsHead(v', s.block, h, s.index);
      } else {
        assert IsHead(v', s.block, slot.index, s.index);
      }
    }
  }

  /** An object that was allocated does not overlap any object from before. */
  lemma AllocatedIsFresh(v: View, v': View, slot: Slot, n: nat, s: Slot)
    requires Allocated(v, v', slot, n) && Apart(v'.blocks) && AreSlots(v.blocks, v.inUse) && s in v.inUse
    ensures Address(s) + SLOT <= Address(slot) || Address(slot) + SLOT * n <= Address(s)
  {
    RangeMissesSlot(v'.blocks, slot.block, slot.index, n, s);
  }

  // ----- merging two heaps

  lemma ApartBoth(xs: set<Block>, ys: set<Block>)
    requires Apart(xs) && Apart(ys) && Separate(xs, ys)
    ensures xs !! ys && Apart(xs + ys)
  {
    forall b | b in xs
      ensures b !in ys
    {
      NotBeforeItself(b);
    }
  }

  lemma NotBeforeItself(b: Block)
    requires b.slots > 0
    ensures !Before(b, b)
  {
  }

  /** Two free lists of separate heaps, one after the other. */
  lemma ListsMerged(words: map<int, int>, v: View, chunks: seq<Chunk>, x: View, more: seq<Chunk>, previous: int)
    requires Apart(v.blocks) && Exact(v.blocks, v.inUse, chunks) && AreSlots(v.blocks, v.inUse) && Linked(words, chunks)
    requires Apart(x.blocks) && Exact(x.blocks, x.inUse, more) && AreSlots(x.blocks, x.inUse) && Linked(words, more)
    requires Separate(v.blocks, x.blocks) && previous == Leading(chunks, |chunks|)
    ensures var blocks, taken := v.blocks + x.blocks, v.inUse + x.inUse;
            var words' := if previous == 0 then words else words[previous := First(more)];
            && Apart(blocks) && AreSlots(blocks, taken) && Exact(blocks, taken, chunks + more) &&
                Linked(words', chunks + more)
            && First(chunks + more) == (if previous == 0 then First(more) else First(chunks))
            && SameWords(words, words', taken) && |taken| == |v.inUse| + |x.inUse|
            && WrittenIn(words, words', blocks)
  {
    hide FreeRun, Apart, Linked, Separate, Spread, Exact, WrittenIn;
    var blocks, taken := v.blocks + x.blocks, v.inUse + x.inUse;
    ApartBoth(v.blocks, x.blocks);
    JoinedIsExact(v.blocks, v.inUse, chunks, x.blocks, x.inUse, more);
    ExactIsSpread(blocks, taken, chunks + more);
    assert v.inUse !! x.inUse;
    if chunks == [] {
      LinkedAppend(words, words, chunks, more);
      WrittenNothing(words, blocks);
    } else {
      var k := |chunks| - 1;
      RunOfList(blocks, taken, chunks + more, k);
      LinkInside(words, blocks, taken, (chunks + more)[k], First(more));
      ChunkFacts(v.blocks, v.inUse, words, chunks, k);
      LinkedAppend(words, words[previous := First(more)], chunks, more);
      assert (chunks + more)[k] == chunks[k];
      LinkOutside(words, blocks, taken, chunks + more, k, First(more));
    }
  }

  /** The objects of two heaps with separate blocks are whole in the heap that has both. */
  lemma MergedIsHeaded(v: View, x: View, v': View)
    requires Headed(v) && Headed(x) && v'.objects == v.objects + x.objects && v'.inUse == v.inUse + x.inUse
    ensures Headed(v')
  {
    forall s | s in v'.inUse
      ensures HasHead(v', s)
    {
      if s in v.inUse {
        assert HasHead(v, s);
        var h: nat :| IsHead(v, s.block, h, s.index);
        assert IsHead(v', s.block, h, s.index);
      } else {
        assert HasHead(x, s);
        var h: nat :| IsHead(x, s.block, h, s.index);
        assert IsHead(v', s.block, h, s.index);
      }
    }
  }

  lemma FirstTaken(chunks: seq<Chunk>, k: nat, n: nat)
    requires k < |chunks|
    ensures var c := chunks[k];
            First(Taken(chunks, k, n)) == if c.from + n < c.to then SlotAt(c.block, c.from + n)
                                          else First(chunks[..k] + chunks[k + 1..])
  {
  }

  /** Adding a block before allocating makes no difference to what was there. */
  lemma AllocatedLater(v: View, v1: View, v': View, slot: Slot, n: nat)
    requires Allocated(v1, v', slot, n) && v.blocks <= v1.blocks
    requires v1 == v.(blocks := v1.blocks, words := v1.words) && SameWords(v.words, v1.words, v.inUse)
    requires WrittenIn(v.words, v1.words, v1.blocks)
    ensures Allocated(v, v', slot, n)
  {
    hide SameWords, WrittenIn;
    WrittenInTwice(v.words, v1.words, v'.words, v1.blocks, v'.blocks);
    SameWordsTwice(v.words, v1.words, v'.words, v.inUse);
  }

  lemma AreSlotsMore(blocks: set<Block>, b: Block, slots: set<Slot>)
    requires AreSlots(blocks, slots)
    ensures AreSlots(blocks + {b}, slots)
  {
  }

  lemma NothingAllocated(v: View)
    requires v.blocks == {} && v.inUse == {}
    ensures Headed(v)
    ensures forall from, size :: Unused(v.blocks, from, size)
  {
  }

  lemma AllocatedObject(v: View, v': View, slot: Slot, n: nat)
    requires Allocated(v, v', slot, n)
    ensures v'.objects == v.objects + {slot} && WrittenIn(v.words, v'.words, v'.blocks)
    ensures v'.inUse == v.inUse + Span(slot.block, slot.index, slot.index + n)
    ensures forall a :: Address(slot) <= a < Address(slot) + SLOT * n ==> Read(v'.words, a) == 0
  {
  }

  // ----- several heaps in one memory

  lemma SeparateMiss(xs: set<Block>, ys: set<Block>, b: Block, address: int)
    requires Separate(xs, ys) && b in xs && Inside(b, address)
    ensures !InBlocks(ys, address)
  {
  }

  /** What is written elsewhere changes neither the free list nor what is allocated. */
  lemma BlocksUndisturbed(words: map<int, int>, words': map<int, int>, blocks: set<Block>, taken: set<Slot>,
                          chunks: seq<Chunk>, written: set<Block>)
    requires Apart(blocks) && Exact(blocks, taken, chunks) && AreSlots(blocks, taken) && Linked(words, chunks)
    requires Separate(blocks, written) && WrittenIn(words, words', written)
    ensures Linked(words', chunks) && SameWords(words, words', taken)
  {
    hide Apart, Separate, InBlocks, Linked, FreeRun, Exact;
    forall c | c in chunks
      ensures Read(words', Start(c)) == Read(words, Start(c)) &&
        Read(words', Start(c) + WORD) == Read(words, Start(c) + WORD)
    {
      var k :| 0 <= k < |chunks| && chunks[k] == c;
      RunOfList(blocks, taken, chunks, k);
      RunInBounds(blocks, taken, c);
      RunInBlock(blocks, taken, c);
      SeparateMiss(blocks, written, c.block, Start(c));
      SeparateMiss(blocks, written, c.block, Start(c) + WORD);
    }
    LinkedFrame(words, words', chunks);
    forall s | s in taken
      ensures Read(words', Address(s)) == Read(words, Address(s))
      ensures Read(words', Address(s) + WORD) == Read(words, Address(s) + WORD)
    {
      SeparateMiss(blocks, written, s.block, Address(s));
      SeparateMiss(blocks, written, s.block, Address(s) + WORD);
    }
  }

  /** A word of an allocated slot is no part of the free list. */
  lemma WritableMisses(words: map<int, int>, blocks: set<Block>, taken: set<Slot>, chunks: seq<Chunk>, address: int,
                       value: int)
    requires Apart(blocks) && Exact(blocks, taken, chunks) && AreSlots(blocks, taken) && Linked(words, chunks)
    requires forall b :: b in blocks && Inside(b, address) ==> SlotOf(b, address) in taken
    ensures Linked(words[address := value], chunks)
  {
    hide Apart, Linked, FreeRun, Exact;
    forall c | c in chunks
      ensures address != Start(c) && address != Start(c) + WORD
    {
      var k :| 0 <= k < |chunks| && chunks[k] == c;
      RunOfList(blocks, taken, chunks, k);
      RunInBounds(blocks, taken, c);
      RunInBlock(blocks, taken, c);
      if Start(c) <= address < Start(c) + SLOT {
        RunStarts(blocks, taken, c);
      }
    }
    LinkedFrame(words, words[address := value], chunks);
  }
}
