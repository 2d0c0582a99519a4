/** What the collector should keep, in terms of the contents of memory and of the status bits. */
module HeapSpec {
  import opened BlockTrees

  /** A slot of a block; the status bits of a block are sets of its slots. */
  datatype Slot = Slot(block: Block, index: nat)

  ghost predicate IsSlot(blocks: set<Block>, s: Slot) { s.block in blocks && s.index < s.block.slots }

  ghost predicate AreSlots(blocks: set<Block>, slots: set<Slot>) {
    forall s :: s in slots ==> IsSlot(blocks, s)
  }

  /** The slots of a block from `i` up to but not including `j`. */
  ghost function Span(b: Block, i: nat, j: nat): set<Slot> {
    set k: nat | i <= k < j :: Slot(b, k)
  }

  lemma SpanGrows(b: Block, i: nat, j: nat)
    ensures i < j ==> Span(b, i, j) == {Slot(b, i)} + Span(b, i + 1, j) == Span(b, i, j - 1) + {Slot(b, j - 1)}
    ensures i == j ==> Span(b, i, j) == {}
  {
  }

  /** Words that have not been written hold zero. */
  function Read(words: map<int, int>, address: int): int {
    if address in words then words[address] else 0
  }

  ghost predicate InBlocks(blocks: set<Block>, address: int) { exists b :: b in blocks && Inside(b, address) }

  /** Memory is unchanged outside of these blocks. */
  ghost predicate WrittenIn(words: map<int, int>, words': map<int, int>, blocks: set<Block>) {
    forall a :: !InBlocks(blocks, a) ==> Read(words', a) == Read(words, a)
  }

  lemma WrittenInTwice(words: map<int, int>, words': map<int, int>, words'': map<int, int>,
                       blocks: set<Block>, more: set<Block>)
    requires WrittenIn(words, words', blocks) && WrittenIn(words', words'', more) && blocks <= more
    ensures WrittenIn(words, words'', more)
  {
    assert forall a :: InBlocks(blocks, a) ==> InBlocks(more, a);
  }

  lemma WriteInside(words: map<int, int>, blocks: set<Block>, b: Block, address: int, value: int)
    requires b in blocks && Inside(b, address)
    ensures WrittenIn(words, words[address := value], blocks)
  {
    assert InBlocks(blocks, address);
  }

  /**
    What the collector reads: the blocks, the slots that are object heads and those that are
    allocated, memory, the root range and the child heaps.
    */
  datatype View = View(blocks: set<Block>, objects: set<Slot>, inUse: set<Slot>, words: map<int, int>,
                       rootBegin: int, rootEnd: int, children: seq<int>)

  ghost predicate AllInUse(v: View, b: Block, i: nat, j: nat) {
    forall k: nat :: i <= k <= j ==> Slot(b, k) in v.inUse
  }

  ghost predicate NoneObject(v: View, b: Block, i: nat, j: nat) {
    forall k: nat :: i <= k <= j ==> Slot(b, k) !in v.objects
  }

  /** Slot `h` starts the object that slot `i` of the same block belongs to. */
  ghost predicate IsHead(v: View, b: Block, h: nat, i: nat) {
    h <= i && Slot(b, h) in v.objects && AllInUse(v, b, h, i)
  }

  ghost predicate HasHead(v: View, s: Slot) { exists h: nat :: IsHead(v, s.block, h, s.index) }

  /** Every allocated slot belongs to an object: a head, and allocated slots from there on. */
  ghost predicate Headed(v: View) { forall s :: s in v.inUse ==> HasHead(v, s) }

  /** The slot that holds an address. */
  function SlotOf(b: Block, address: int): Slot
    requires Inside(b, address)
  {
    Slot(b, (address - b.begin) / SLOT)
  }

  /** The address lies in an allocated slot. */
  ghost predicate Hits(v: View, address: int, s: Slot) {
    s.block in v.blocks && Inside(s.block, address) && s == SlotOf(s.block, address) && s in v.inUse
  }

  /**
    Slot `j` is kept because slot `i` of the same block is hit: everything from `i` on while slots
    are allocated, and everything before `i` back to the head of its object, but not the head.
    */
  ghost predicate Extends(v: View, b: Block, i: nat, j: nat) {
    j < b.slots && ((i <= j && AllInUse(v, b, i, j)) || (j <= i && NoneObject(v, b, j, i)))
  }

  lemma ExtendsIsTransitive(v: View, b: Block, i: nat, j: nat, k: nat)
    requires Extends(v, b, i, j) && Extends(v, b, j, k)
    ensures Extends(v, b, i, k)
  {
  }

  /** Everything that a pointer into slot `s` keeps. */
  ghost function Extent(v: View, s: Slot): set<Slot> {
    set j: nat | j < s.block.slots && Extends(v, s.block, s.index, j) :: Slot(s.block, j)
  }

  /** Everything that a pointer to `address` keeps is among the marked slots. */
  ghost predicate Pulled(v: View, address: int, marks: set<Slot>) {
    forall s :: Hits(v, address, s) ==> Extent(v, s) <= marks
  }

  /** The address is that of a child heap, and not in any block. */
  ghost predicate IsChild(v: View, address: int) {
    address in v.children && forall b :: b in v.blocks ==> !Inside(b, address)
  }

  /** A word with this value has been followed. */
  ghost predicate Followed(v: View, value: int, marks: set<Slot>, reached: set<int>) {
    Pulled(v, value, marks) && (IsChild(v, value) ==> value in reached)
  }

  ghost predicate RootWord(v: View, address: int) {
    v.rootBegin <= address < v.rootEnd && address % WORD == 0
  }

  /** Both words of a slot have been followed. */
  ghost predicate SlotFollowed(v: View, s: Slot, marks: set<Slot>, reached: set<int>) {
    && Followed(v, Read(v.words, Address(s)), marks, reached)
    && Followed(v, Read(v.words, Address(s) + WORD), marks, reached)
  }

  function Address(s: Slot): int { SlotAt(s.block, s.index) }

  ghost predicate RootFollowed(v: View, marks: set<Slot>, reached: set<int>) {
    forall a :: RootWord(v, a) ==> Followed(v, Read(v.words, a), marks, reached)
  }

  ghost predicate MarksFollowed(v: View, marks: set<Slot>, reached: set<int>) {
    forall s :: s in marks ==> SlotFollowed(v, s, marks, reached)
  }

  /** Marks that neither the root nor the marked slots themselves lead out of. */
  ghost predicate Closed(v: View, marks: set<Slot>, reached: set<int>) {
    Pulled(v, v.rootBegin, marks) && RootFollowed(v, marks, reached) && MarksFollowed(v, marks, reached)
  }

  /** Whatever is kept is kept by every closed set of marks. */
  ghost predicate Least(v: View, marks: set<Slot>, reached: set<int>) {
    forall m, r :: Closed(v, m, r) ==> marks <= m && reached <= r
  }

  lemma FollowedMore(v: View, value: int, marks: set<Slot>, reached: set<int>, marks': set<Slot>, reached': set<int>)
    requires Followed(v, value, marks, reached) && marks <= marks' && reached <= reached'
    ensures Followed(v, value, marks', reached')
  {
  }

  // ----- what follows from being the least closed set

  /** Some word that the collector follows, in the root or in a marked slot, holds this value. */
  ghost predicate Pointed(v: View, marks: set<Slot>, value: int) {
    || (exists a :: RootWord(v, a) && Read(v.words, a) == value)
    || (exists s :: s in marks && (Read(v.words, Address(s)) == value || Read(v.words, Address(s) + WORD) == value))
  }

  /** A child heap survives if and only if a surviving word holds its address. */
  lemma ChildSurvives(v: View, marks: set<Slot>, reached: set<int>, child: int)
    requires Closed(v, marks, reached) && Least(v, marks, reached)
    ensures child in reached <==> IsChild(v, child) && Pointed(v, marks, child)
  {
    if IsChild(v, child) && Pointed(v, marks, child) {
      assert child in reached;
    } else {
      var r := reached - {child};
      forall value | Followed(v, value, marks, reached) && !(IsChild(v, child) && value == child)
        ensures Followed(v, value, marks, r)
      {
      }
      assert Closed(v, marks, r);
      assert reached <= r;
    }
  }

  /** A slot survives only if a surviving word, or the root itself, points into its extent. */
  ghost predicate PulledBy(v: View, marks: set<Slot>, s: Slot) {
    exists value, t :: (value == v.rootBegin || Pointed(v, marks, value)) && Hits(v, value, t) && s in Extent(v, t)
  }

  lemma SlotSurvives(v: View, marks: set<Slot>, reached: set<int>, s: Slot)
    requires Closed(v, marks, reached) && Least(v, marks, reached)
    ensures s in marks <==> PulledBy(v, marks, s)
  {
    hide Extent, Hits;
    if PulledBy(v, marks, s) {
      var value, t :| (value == v.rootBegin || Pointed(v, marks, value)) && Hits(v, value, t) && s in Extent(v, t);
      assert Pulled(v, value, marks);
    } else {
      var m := marks - {s};
      forall value | Followed(v, value, marks, reached) && (value == v.rootBegin || Pointed(v, marks, value))
        ensures Followed(v, value, m, reached)
      {
      }
      assert Pulled(v, v.rootBegin, m);
      forall t | t in m
        ensures SlotFollowed(v, t, m, reached)
      {
        assert SlotFollowed(v, t, marks, reached);
        assert Pointed(v, marks, Read(v.words, Address(t)));
        assert Pointed(v, marks, Read(v.words, Address(t) + WORD));
      }
      forall a | RootWord(v, a)
        ensures Followed(v, Read(v.words, a), m, reached)
      {
        assert Pointed(v, marks, Read(v.words, a));
      }
      assert Closed(v, m, reached);
      assert marks <= m;
    }
  }
}
