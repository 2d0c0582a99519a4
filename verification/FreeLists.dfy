/**
  The free list of a heap: chunks, which are runs of free slots. A chunk's first slot holds its list
  entry, the address of the next chunk and then the size of this one.
  */
module FreeLists {
  import opened BlockTrees
  import opened HeapSpec

  datatype Chunk = Chunk(block: Block, from: nat, to: nat)

  function Start(c: Chunk): int { SlotAt(c.block, c.from) }

  function Limit(c: Chunk): int { SlotAt(c.block, c.to) }

  ghost predicate Disjoint(c: Chunk, d: Chunk) { Limit(c) <= Start(d) || Limit(d) <= Start(c) }

  // ----- maximal runs of free slots

  ghost predicate NoneTaken(taken: set<Slot>, c: Chunk) {
    forall k: nat :: c.from <= k < c.to ==> Slot(c.block, k) !in taken
  }

  ghost predicate FreeBefore(taken: set<Slot>, b: Block, i: nat) { i > 0 && Slot(b, i - 1) !in taken }

  ghost predicate FreeAt(taken: set<Slot>, b: Block, i: nat) { i < b.slots && Slot(b, i) !in taken }

  /** The chunk is a run of free slots that cannot be extended. */
  ghost predicate FreeRun(blocks: set<Block>, taken: set<Slot>, c: Chunk) {
    && c.block in blocks && c.from < c.to <= c.block.slots && NoneTaken(taken, c)
    && !FreeBefore(taken, c.block, c.from) && !FreeAt(taken, c.block, c.to)
  }

  ghost predicate Distinct(chunks: seq<Chunk>) {
    forall i, j :: 0 <= i < j < |chunks| ==> chunks[i] != chunks[j]
  }

  /** The list holds exactly the maximal runs of free slots, each once. */
  ghost predicate Exact(blocks: set<Block>, taken: set<Slot>, chunks: seq<Chunk>) {
    Distinct(chunks) && forall c :: c in chunks <==> FreeRun(blocks, taken, c)
  }

  lemma RunsApart(blocks: set<Block>, taken: set<Slot>, c: Chunk, d: Chunk)
    requires Apart(blocks) && FreeRun(blocks, taken, c) && FreeRun(blocks, taken, d) && c != d
    ensures Disjoint(c, d)
  {
    if c.block == d.block && c.from < d.to && d.from < c.to {
      RunsMeet(taken, c, d);
      assert false;
    }
  }

  /** Two runs that overlap are the same. */
  lemma RunsMeet(taken: set<Slot>, c: Chunk, d: Chunk)
    requires FreeRun({c.block}, taken, c) && FreeRun({d.block}, taken, d)
    requires c.block == d.block && c.from < d.to && d.from < c.to
    ensures c == d
  {
    hide NoneTaken, FreeBefore, FreeAt;
    if c.from < d.from { InsideIsFree(taken, c, d.from); }
    if d.from < c.from { InsideIsFree(taken, d, c.from); }
    if c.to < d.to { InsideIsFree(taken, d, c.to); }
    if d.to < c.to { InsideIsFree(taken, c, d.to); }
  }

  lemma InsideIsFree(taken: set<Slot>, c: Chunk, i: nat)
    requires NoneTaken(taken, c) && c.to <= c.block.slots
    ensures c.from < i <= c.to ==> FreeBefore(taken, c.block, i)
    ensures c.from <= i < c.to ==> FreeAt(taken, c.block, i)
  {
    assert c.from < i <= c.to ==> c.from <= i - 1 < c.to;
  }

  // ----- how the runs change

  /** Taking the first `n` slots of a run leaves the other runs, and the rest of this one. */
  lemma RunsAfterTaking(blocks: set<Block>, taken: set<Slot>, c: Chunk, n: nat, d: Chunk)
    requires FreeRun(blocks, taken, c) && 0 < n <= c.to - c.from
    ensures FreeRun(blocks, taken + Span(c.block, c.from, c.from + n), d) <==>
            (d != c && FreeRun(blocks, taken, d)) || (c.from + n < c.to && d == Chunk(c.block, c.from + n, c.to))
  {
    var taken' := taken + Span(c.block, c.from, c.from + n);
    if d.block == c.block && c.from < d.to && d.from < c.to {
      if FreeRun(blocks, taken, d) {
        RunsMeet(taken, c, d);
      }
      if FreeRun(blocks, taken', d) {
        assert d.from <= c.from ==> Slot(c.block, c.from) in taken';
        assert c.from <= d.from < c.from + n ==> Slot(c.block, d.from) in taken';
        InsideIsFree(taken, c, d.from);
        InsideIsFree(taken, c, d.to);
      }
    }
  }

  /** The list after the first `n` slots of chunk `k` are taken and what is left is put at the head. */
  ghost function Taken(chunks: seq<Chunk>, k: nat, n: nat): seq<Chunk>
    requires k < |chunks|
  {
    var c := chunks[k];
    var rest := chunks[..k] + chunks[k + 1..];
    if c.from + n < c.to then [Chunk(c.block, c.from + n, c.to)] + rest else rest
  }

  lemma TakenIsExact(blocks: set<Block>, taken: set<Slot>, chunks: seq<Chunk>, k: nat, n: nat)
    requires Exact(blocks, taken, chunks) && k < |chunks| && 0 < n <= chunks[k].to - chunks[k].from
    ensures var c := chunks[k];
            Exact(blocks, taken + Span(c.block, c.from, c.from + n), Taken(chunks, k, n))
  {
    hide FreeRun, Span, Distinct;
    var c := chunks[k];
    var taken' := taken + Span(c.block, c.from, c.from + n);
    var rest := chunks[..k] + chunks[k + 1..];
    var left := Chunk(c.block, c.from + n, c.to);
    WithoutOne(chunks, k);
    assert c in chunks;
    if left in rest {
      RunInBlock(blocks, taken, left);
      RunsMeetIn(blocks, taken, c, left);
    }
    DistinctPush(rest, left);
    forall d
      ensures d in Taken(chunks, k, n) <==> FreeRun(blocks, taken', d)
    {
      RunsAfterTaking(blocks, taken, c, n, d);
    }
  }

  lemma WithoutOne(chunks: seq<Chunk>, k: nat)
    requires Distinct(chunks) && k < |chunks|
    ensures var rest := chunks[..k] + chunks[k + 1..];
            Distinct(rest) && forall d :: d in rest <==> d in chunks && d != chunks[k]
  {
    var rest := chunks[..k] + chunks[k + 1..];
    forall d | d in chunks && d != chunks[k]
      ensures d in rest
    {
      var j :| 0 <= j < |chunks| && chunks[j] == d;
      assert rest[if j < k then j else j - 1] == d;
    }
  }

  lemma DistinctPush(chunks: seq<Chunk>, c: Chunk)
    requires Distinct(chunks) && c !in chunks
    ensures Distinct([c] + chunks)
  {
  }

  lemma RunInBlock(blocks: set<Block>, taken: set<Slot>, c: Chunk)
    requires FreeRun(blocks, taken, c)
    ensures c.from < c.to <= c.block.slots && c.block in blocks
  {
  }

  lemma RunsMeetIn(blocks: set<Block>, taken: set<Slot>, c: Chunk, d: Chunk)
    requires FreeRun(blocks, taken, c) && FreeRun(blocks, taken, d)
    requires c.block == d.block && c.from < d.to && d.from < c.to
    ensures c == d
  {
    RunsMeet(taken, c, d);
  }

  /** The list with a new block, all of it free, at the end. */
  lemma WithBlockIsExact(blocks: set<Block>, taken: set<Slot>, chunks: seq<Chunk>, b: Block)
    requires Exact(blocks, taken, chunks) && AreSlots(blocks, taken) && b !in blocks && b.slots > 0
    ensures Exact(blocks + {b}, taken, chunks + [Chunk(b, 0, b.slots)])
  {
    var c := Chunk(b, 0, b.slots);
    assert c !in chunks;
    forall d
      ensures d in chunks + [c] <==> FreeRun(blocks + {b}, taken, d)
    {
      if d.block == b && FreeRun(blocks + {b}, taken, d) {
        assert d.from > 0 ==> FreeBefore(taken, b, d.from);
        assert d.to < b.slots ==> FreeAt(taken, b, d.to);
      }
    }
  }

  /** Two lists over different blocks, one after the other. */
  lemma JoinedIsExact(blocks: set<Block>, taken: set<Slot>, chunks: seq<Chunk>,
                      blocks': set<Block>, taken': set<Slot>, chunks': seq<Chunk>)
    requires Exact(blocks, taken, chunks) && AreSlots(blocks, taken)
    requires Exact(blocks', taken', chunks') && AreSlots(blocks', taken')
    requires blocks !! blocks'
    ensures Exact(blocks + blocks', taken + taken', chunks + chunks')
  {
    hide FreeRun;
    forall d
      ensures FreeRun(blocks + blocks', taken + taken', d) <==>
              FreeRun(blocks, taken, d) || FreeRun(blocks', taken', d)
      ensures FreeRun(blocks, taken, d) ==> d.block in blocks
      ensures FreeRun(blocks', taken', d) ==> d.block in blocks'
    {
      RunOfUnion(blocks, taken, blocks', taken', d);
      RunOfUnion(blocks', taken', blocks, taken, d);
      assert blocks + blocks' == blocks' + blocks && taken + taken' == taken' + taken;
    }
    var all := chunks + chunks';
    forall i, j | 0 <= i < j < |all|
      ensures all[i] != all[j]
    {
      if i < |chunks| <= j {
        assert all[i] in chunks && all[j] in chunks';
      }
    }
  }

  lemma RunOfUnion(blocks: set<Block>, taken: set<Slot>, blocks': set<Block>, taken': set<Slot>, d: Chunk)
    requires AreSlots(blocks, taken) && AreSlots(blocks', taken') && blocks !! blocks'
    ensures d.block in blocks ==> (FreeRun(blocks + blocks', taken + taken', d) <==> FreeRun(blocks, taken, d))
    ensures FreeRun(blocks + blocks', taken + taken', d) ==> d.block in blocks || d.block in blocks'
    ensures FreeRun(blocks, taken, d) ==> d.block in blocks
  {
    if d.block in blocks {
      assert forall k: nat :: Slot(d.block, k) in taken + taken' <==> Slot(d.block, k) in taken;
    }
  }

  /** Every free slot lies in a run. */
  lemma FreeSlotHasRun(blocks: set<Block>, taken: set<Slot>, b: Block, i: nat) returns (c: Chunk)
    requires b in blocks && i < b.slots && Slot(b, i) !in taken
    ensures FreeRun(blocks, taken, c) && c.block == b && c.from <= i < c.to
  {
    var from: nat, to: nat := i, i + 1;
    while FreeBefore(taken, b, from)
      invariant from <= i && to == i + 1 && NoneTaken(taken, Chunk(b, from, to))
      decreases from
    {
      from := from - 1;
    }
    while FreeAt(taken, b, to)
      invariant from <= i < to <= b.slots && NoneTaken(taken, Chunk(b, from, to)) && !FreeBefore(taken, b, from)
      decreases b.slots - to
    {
      to := to + 1;
    }
    c := Chunk(b, from, to);
  }

  // ----- the list in memory

  /** No two chunks of the list overlap, and none is empty or starts at the null pointer. */
  ghost predicate Spread(chunks: seq<Chunk>) {
    && (forall i :: 0 <= i < |chunks| ==> 0 < Start(chunks[i]) && Start(chunks[i]) + SLOT <= Limit(chunks[i]))
    && (forall i, j :: 0 <= i < |chunks| && 0 <= j < |chunks| && i != j ==> Disjoint(chunks[i], chunks[j]))
  }

  lemma RunsAreSpread(blocks: set<Block>, taken: set<Slot>, chunks: seq<Chunk>)
    requires Apart(blocks) && Distinct(chunks) && forall c :: c in chunks ==> FreeRun(blocks, taken, c)
    ensures Spread(chunks)
  {
    hide Apart, Disjoint, FreeRun;
    forall i | 0 <= i < |chunks|
      ensures 0 < Start(chunks[i]) && Start(chunks[i]) + SLOT <= Limit(chunks[i])
    {
      assert chunks[i] in chunks;
      RunInBounds(blocks, taken, chunks[i]);
    }
    forall i, j | 0 <= i < |chunks| && 0 <= j < |chunks| && i != j
      ensures Disjoint(chunks[i], chunks[j])
    {
      assert chunks[i] in chunks && chunks[j] in chunks;
      RunsApart(blocks, taken, chunks[i], chunks[j]);
    }
  }

  lemma RunInBounds(blocks: set<Block>, taken: set<Slot>, c: Chunk)
    requires Apart(blocks) && FreeRun(blocks, taken, c)
    ensures 0 < Start(c) && Start(c) + SLOT <= Limit(c) && c.block.begin <= Start(c) && Limit(c) <= EndOf(c.block)
  {
  }

  /** Where a list begins. */
  ghost function First(chunks: seq<Chunk>): int { if chunks == [] then 0 else Start(chunks[0]) }

  ghost function NextOf(chunks: seq<Chunk>, i: int): int
    requires 0 <= i < |chunks|
  {
    if i + 1 < |chunks| then Start(chunks[i + 1]) else 0
  }

  function SizeOf(c: Chunk): int { SLOT * (c.to - c.from) }

  /** Memory holds the entry of every chunk of the list. */
  ghost predicate Linked(words: map<int, int>, chunks: seq<Chunk>) {
    forall i :: 0 <= i < |chunks| ==> Entry(words, chunks[i], NextOf(chunks, i))
  }

  ghost predicate Entry(words: map<int, int>, c: Chunk, next: int) {
    Read(words, Start(c)) == next && Read(words, Start(c) + WORD) == SizeOf(c)
  }

  /** Memory is unchanged except, possibly, in the first slot of chunk `c`. */
  ghost predicate KeptExcept(words: map<int, int>, words': map<int, int>, c: Chunk) {
    forall a :: !(Start(c) <= a < Start(c) + SLOT) ==> Read(words', a) == Read(words, a)
  }

  lemma LinkIsApart(chunks: seq<Chunk>, i: nat, j: nat)
    requires Spread(chunks) && i < |chunks| && j < |chunks|
    ensures Start(chunks[i]) != Start(chunks[j]) + WORD && (i != j ==> Start(chunks[i]) != Start(chunks[j]))
  {
    assert i != j ==> Disjoint(chunks[i], chunks[j]);
  }

  /** Taking chunk `k` out of the list by changing the link that leads to it. */
  lemma LinkedRemove(words: map<int, int>, words': map<int, int>, chunks: seq<Chunk>, k: nat)
    requires Spread(chunks) && Linked(words, chunks) && k < |chunks|
    requires words' == if k == 0 then words else words[Start(chunks[k - 1]) := NextOf(chunks, k)]
    ensures Linked(words', chunks[..k] + chunks[k + 1..])
    ensures First(chunks[..k] + chunks[k + 1..]) == if k == 0 then NextOf(chunks, 0) else First(chunks)
  {
    hide Spread, Entry;
    var rest := chunks[..k] + chunks[k + 1..];
    forall i: nat | i < |rest|
      ensures Entry(words', rest[i], NextOf(rest, i))
    {
      var j := if i < k then i else i + 1;
      assert rest[i] == chunks[j] && Entry(words, chunks[j], NextOf(chunks, j));
      if i + 1 < |rest| {
        assert rest[i + 1] == chunks[if i + 1 < k then i + 1 else i + 2];
      }
      if k > 0 {
        LinkIsApart(chunks, k - 1, j);
        EntryWritten(words, chunks[j], NextOf(chunks, j), Start(chunks[k - 1]), NextOf(chunks, k));
      }
    }
  }

  /** Writing the link of a chunk affects its own entry only. */
  lemma EntryWritten(words: map<int, int>, c: Chunk, next: int, address: int, value: int)
    requires Entry(words, c, next) && address != Start(c) + WORD
    ensures Entry(words[address := value], c, if address == Start(c) then value else next)
  {
  }

  /** Adding a chunk at the head of the list. */
  lemma LinkedPush(words: map<int, int>, words': map<int, int>, chunks: seq<Chunk>, d: Chunk)
    requires Spread([d] + chunks) && Linked(words, chunks)
    requires words' == words[Start(d) := First(chunks)][Start(d) + WORD := SizeOf(d)]
    ensures Linked(words', [d] + chunks) && KeptExcept(words, words', d)
  {
    var all := [d] + chunks;
    forall i | 0 <= i < |all|
      ensures Entry(words', all[i], NextOf(all, i))
    {
      if i > 0 {
        assert all[i] == chunks[i - 1] && Entry(words, chunks[i - 1], NextOf(chunks, i - 1));
        assert Disjoint(all[0], all[i]);
      }
    }
  }

  /** Following one list by another one, by changing the link at the end of the first. */
  lemma LinkedAppend(words: map<int, int>, words': map<int, int>, chunks: seq<Chunk>, more: seq<Chunk>)
    requires Spread(chunks + more) && Linked(words, chunks) && Linked(words, more)
    requires words' == if chunks == [] then words else words[Start(chunks[|chunks| - 1]) := First(more)]
    ensures Linked(words', chunks + more)
    ensures First(chunks + more) == if chunks == [] then First(more) else First(chunks)
  {
    var all := chunks + more;
    var n := |chunks|;
    forall i | 0 <= i < |all|
      ensures Entry(words', all[i], NextOf(all, i))
    {
      if i < n {
        assert all[i] == chunks[i] && Entry(words, chunks[i], NextOf(chunks, i));
      } else {
        assert all[i] == more[i - n] && Entry(words, more[i - n], NextOf(more, i - n));
      }
      assert n > 0 && i != n - 1 ==> Disjoint(all[n - 1], all[i]);
    }
  }

  /** The list only depends on the entries of its chunks. */
  lemma LinkedFrame(words: map<int, int>, words': map<int, int>, chunks: seq<Chunk>)
    requires Linked(words, chunks)
    requires forall c :: c in chunks ==> Read(words', Start(c)) == Read(words, Start(c))
    requires forall c :: c in chunks ==> Read(words', Start(c) + WORD) == Read(words, Start(c) + WORD)
    ensures Linked(words', chunks)
  {
    forall i | 0 <= i < |chunks|
      ensures Entry(words', chunks[i], NextOf(chunks, i))
    {
      assert chunks[i] in chunks && Entry(words, chunks[i], NextOf(chunks, i));
    }
  }

  /** Clearing memory where no chunk has its entry. */
  function Cleared(words: map<int, int>, from: int, to: int): map<int, int> {
    map a | a in words && !(from <= a < to) :: words[a]
  }

  lemma LinkedCleared(words: map<int, int>, chunks: seq<Chunk>, from: int, to: int)
    requires Linked(words, chunks)
    requires forall c :: c in chunks ==> Start(c) + SLOT <= from || to <= Start(c)
    ensures Linked(Cleared(words, from, to), chunks)
  {
    LinkedFrame(words, Cleared(words, from, to), chunks);
  }

  /** The first chunk of the list that is large enough, or the end of the list. */
  ghost predicate FirstFit(chunks: seq<Chunk>, size: int, k: nat) {
    && k <= |chunks| && (k < |chunks| ==> SizeOf(chunks[k]) >= size)
    && forall i: nat :: i < k ==> SizeOf(chunks[i]) < size
  }

  /** The chunk that leads to chunk `k`; the null pointer stands for the head of the list. */
  ghost function Leading(chunks: seq<Chunk>, k: nat): int
    requires k <= |chunks|
  {
    if k == 0 then 0 else Start(chunks[k - 1])
  }

  ghost function Pointee(chunks: seq<Chunk>, k: nat): int
    requires k <= |chunks|
  {
    if k == |chunks| then 0 else Start(chunks[k])
  }
}
