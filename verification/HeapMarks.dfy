/** What every step of the mark phase keeps, and what the kept objects look like afterwards. */
module HeapMarks {
  import opened BlockTrees
  import opened HeapSpec

  /** The progress of a collection. */
  datatype Marks = Marks(slots: set<Slot>, flagged: set<Block>, workList: seq<Block>, reached: set<int>)

  ghost predicate ExtentClosed(v: View, marks: set<Slot>) {
    forall s :: s in marks ==> Extent(v, s) <= marks
  }

  /** The flag of a block says whether any of its slots is marked. */
  ghost predicate FlagsAgree(flagged: set<Block>, marks: set<Slot>) {
    && (forall s :: s in marks ==> s.block in flagged)
    && (forall b :: b in flagged ==> HasMark(marks, b))
  }

  ghost predicate HasMark(marks: set<Slot>, b: Block) { exists s :: s in marks && s.block == b }

  ghost predicate MarksInv(v: View, m: Marks) {
    m.slots <= v.inUse && ExtentClosed(v, m.slots) && FlagsAgree(m.flagged, m.slots)
  }

  /** Marks are only added, and the blocks they are added to are put on the work list. */
  ghost predicate Grown(m: Marks, n: Marks) {
    && m.slots <= n.slots && m.reached <= n.reached
    && (forall b :: b in m.workList ==> b in n.workList)
    && (forall s :: s in n.slots - m.slots ==> s.block in n.workList)
    && (m.slots == n.slots ==> m.workList == n.workList)
  }

  lemma GrownTransitive(m: Marks, n: Marks, o: Marks)
    requires Grown(m, n) && Grown(n, o)
    ensures Grown(m, o)
  {
  }

  /** Marked slots have been scanned, except in some blocks. */
  ghost predicate ScannedBut(v: View, m: Marks, scanned: set<Slot>, due: set<Slot>) {
    && scanned <= m.slots
    && (forall s :: s in scanned ==> SlotFollowed(v, s, m.slots, m.reached))
    && (forall s :: s in m.slots - scanned ==> s.block in m.workList || s in due)
  }

  lemma ScannedMore(v: View, m: Marks, n: Marks, scanned: set<Slot>, due: set<Slot>)
    requires ScannedBut(v, m, scanned, due) && Grown(m, n)
    ensures ScannedBut(v, n, scanned, due)
  {
    hide Followed;
    forall s | s in scanned
      ensures SlotFollowed(v, s, n.slots, n.reached)
    {
      FollowedMore(v, Read(v.words, Address(s)), m.slots, m.reached, n.slots, n.reached);
      FollowedMore(v, Read(v.words, Address(s) + WORD), m.slots, m.reached, n.slots, n.reached);
    }
  }

  /** Every closed set of marks has to follow this value. */
  ghost predicate Needed(v: View, value: int) {
    forall m, r :: Closed(v, m, r) ==> Followed(v, value, m, r)
  }

  lemma MarkedIsNeeded(v: View, marks: set<Slot>, reached: set<int>, s: Slot)
    requires Least(v, marks, reached) && s in marks
    ensures Needed(v, Read(v.words, Address(s))) && Needed(v, Read(v.words, Address(s) + WORD))
  {
    forall m, r | Closed(v, m, r)
      ensures SlotFollowed(v, s, m, r)
    {
      assert s in m;
    }
  }

  lemma PulledIsLeast(v: View, marks: set<Slot>, reached: set<int>, value: int, s: Slot)
    requires Least(v, marks, reached) && Hits(v, value, s)
    requires Needed(v, value) || value == v.rootBegin
    ensures Least(v, marks + Extent(v, s), reached)
  {
    forall m, r | Closed(v, m, r)
      ensures marks + Extent(v, s) <= m
    {
      assert Pulled(v, value, m);
    }
  }

  lemma ChildIsLeast(v: View, marks: set<Slot>, reached: set<int>, value: int)
    requires Least(v, marks, reached) && Needed(v, value) && IsChild(v, value)
    ensures Least(v, marks, reached + {value})
  {
  }

  lemma ExtentsStayClosed(v: View, marks: set<Slot>, s: Slot)
    requires ExtentClosed(v, marks)
    ensures ExtentClosed(v, marks + Extent(v, s))
  {
    forall t, u | t in Extent(v, s) && u in Extent(v, t)
      ensures u in Extent(v, s)
    {
      ExtendsIsTransitive(v, s.block, s.index, t.index, u.index);
    }
  }

  /** Nothing that is not allocated is in the extent of an allocated slot. */
  lemma ExtentIsInUse(v: View, s: Slot)
    requires Headed(v) && s in v.inUse
    ensures Extent(v, s) <= v.inUse
  {
    forall t | t in Extent(v, s)
      ensures t in v.inUse
    {
      assert HasHead(v, s);
      var h: nat :| IsHead(v, s.block, h, s.index);
      assert t.index <= s.index || t.index >= s.index;
    }
  }

  // ----- single steps

  lemma PulledInto(v: View, b: Block, address: int, marks: set<Slot>)
    requires Apart(v.blocks) && b in v.blocks && Inside(b, address)
    requires SlotOf(b, address) in v.inUse ==> Extent(v, SlotOf(b, address)) <= marks
    ensures Pulled(v, address, marks) && !IsChild(v, address)
  {
    hide Extent;
  }

  lemma ReachedMore(v: View, m: Marks, address: int)
    requires MarksInv(v, m)
    ensures MarksInv(v, m.(reached := m.reached + {address})) && Grown(m, m.(reached := m.reached + {address}))
  {
  }

  lemma FollowedGrows(v: View, value: int, m: Marks, n: Marks)
    requires Grown(m, n)
    ensures Followed(v, value, m.slots, m.reached) ==> Followed(v, value, n.slots, n.reached)
  {
    if Followed(v, value, m.slots, m.reached) {
      FollowedMore(v, value, m.slots, m.reached, n.slots, n.reached);
    }
  }

  lemma GrownMeans(m: Marks, n: Marks)
    requires Grown(m, n)
    ensures m.slots <= n.slots && m.reached <= n.reached && (m.slots == n.slots ==> m.workList == n.workList)
  {
  }

  lemma BlockIsDue(v: View, m: Marks, scanned: set<Slot>)
    requires ScannedBut(v, m, scanned, {}) && m.workList != [] && AreSlots(v.blocks, m.slots)
    ensures var b := m.workList[0];
            ScannedBut(v, m.(workList := m.workList[1..]), scanned, Span(b, 0, b.slots))
  {
    hide SlotFollowed;
  }

  lemma SlotScanned(v: View, m: Marks, n: Marks, scanned: set<Slot>, s: Slot)
    requires ScannedBut(v, m, scanned, Span(s.block, s.index, s.block.slots)) && Grown(m, n) && s in m.slots
    requires Followed(v, Read(v.words, Address(s)), n.slots, n.reached)
    requires Followed(v, Read(v.words, Address(s) + WORD), n.slots, n.reached)
    ensures ScannedBut(v, n, scanned + {s}, Span(s.block, s.index + 1, s.block.slots))
  {
    hide Followed;
    ScannedMore(v, m, n, scanned, Span(s.block, s.index, s.block.slots));
    SpanGrows(s.block, s.index, s.block.slots);
  }

  lemma SlotSkipped(v: View, m: Marks, scanned: set<Slot>, s: Slot)
    requires ScannedBut(v, m, scanned, Span(s.block, s.index, s.block.slots))
    requires s !in m.slots || s in scanned
    ensures ScannedBut(v, m, scanned, Span(s.block, s.index + 1, s.block.slots))
  {
    hide SlotFollowed;
  }

  lemma NothingGrows(m: Marks)
    ensures Grown(m, m)
  {
  }

  lemma MarkedAlready(v: View, m: Marks, s: Slot)
    requires MarksInv(v, m) && s in m.slots
    ensures s in v.inUse && m.slots + Extent(v, s) == m.slots && Grown(m, m)
  {
  }

  lemma SlotFacts(v: View, b: Block, address: int)
    requires b in v.blocks && Inside(b, address)
    ensures var s := SlotOf(b, address); s.index < b.slots && (s in v.inUse ==> Hits(v, address, s))
  {
  }

  lemma HeadOf(v: View, s: Slot) returns (h: nat)
    requires Headed(v) && s in v.inUse
    ensures IsHead(v, s.block, h, s.index)
  {
    assert HasHead(v, s);
    h :| IsHead(v, s.block, h, s.index);
  }

  /** Marking the extent of a slot. */
  lemma MarkGrows(v: View, m: Marks, address: int, s: Slot, n: Marks)
    requires Headed(v) && AreSlots(v.blocks, v.inUse) && MarksInv(v, m) && Least(v, m.slots, m.reached)
    requires Hits(v, address, s) && s !in m.slots && (Needed(v, address) || address == v.rootBegin)
    requires n == Marks(m.slots + Extent(v, s), m.flagged + {s.block},
                        if s.block in m.workList then m.workList else [s.block] + m.workList, m.reached)
    ensures MarksInv(v, n) && Least(v, n.slots, n.reached) && Grown(m, n)
  {
    hide Extent, Least, ExtentClosed, Headed, Needed, FlagsAgree;
    ExtentsStayClosed(v, m.slots, s);
    ExtentIsInUse(v, s);
    HitIsInExtent(v, address, s);
    ExtentInBlock(v, s);
    FlagsStayAgreed(m.flagged, m.slots, Extent(v, s), s);
    PulledIsLeast(v, m.slots, m.reached, address, s);
  }

  lemma ExtentInBlock(v: View, s: Slot)
    ensures forall t :: t in Extent(v, s) ==> t.block == s.block
  {
  }

  lemma FlagsStayAgreed(flagged: set<Block>, marks: set<Slot>, more: set<Slot>, s: Slot)
    requires FlagsAgree(flagged, marks) && s in more && forall t :: t in more ==> t.block == s.block
    ensures FlagsAgree(flagged + {s.block}, marks + more)
  {
    assert forall b :: HasMark(marks, b) ==> HasMark(marks + more, b);
    assert HasMark(marks + more, s.block);
  }

  /** The extent of a slot is what the two loops of `Mark` run over. */
  lemma ExtentSplits(v: View, s: Slot, first: nat, last: nat)
    requires s in v.inUse && first <= s.index < last <= s.block.slots
    requires Slot(s.block, first) in v.objects
    requires forall k: nat :: first < k <= s.index ==> Slot(s.block, k) !in v.objects
    requires forall k: nat :: s.index <= k < last ==> Slot(s.block, k) in v.inUse
    requires last == s.block.slots || Slot(s.block, last) !in v.inUse
    ensures Extent(v, s) == Span(s.block, first + 1, s.index + 1) + Span(s.block, s.index, last)
  {
    forall k: nat | k < s.block.slots
      ensures Extends(v, s.block, s.index, k) <==> (first < k < last || k == s.index)
    {
      if k <= first && k < s.index {
        assert Slot(s.block, first) in v.objects;
      }
      if last <= k {
        assert Slot(s.block, last) !in v.inUse;
      }
    }
  }

  // ----- the whole mark phase

  lemma NothingMarked(v: View)
    ensures MarksInv(v, Marks({}, {}, [], {})) && Least(v, {}, {}) && ScannedBut(v, Marks({}, {}, [], {}), {}, {})
  {
  }

  lemma RootIsNeeded(v: View)
    ensures forall a :: v.rootBegin <= a < v.rootEnd && a % WORD == 0 ==> Needed(v, Read(v.words, a))
  {
    forall a | v.rootBegin <= a < v.rootEnd && a % WORD == 0
      ensures Needed(v, Read(v.words, a))
    {
      assert RootWord(v, a);
    }
  }

  lemma PulledMore(v: View, value: int, marks: set<Slot>, marks': set<Slot>)
    requires Pulled(v, value, marks) && marks <= marks'
    ensures Pulled(v, value, marks')
  {
  }

  lemma NotPulled(v: View, value: int, marks: set<Slot>)
    requires forall b :: b in v.blocks ==> !Inside(b, value)
    ensures Pulled(v, value, marks)
  {
  }

  /** With nothing left on the work list, everything that is marked has been followed. */
  lemma AllFollowed(v: View, m: Marks, n: Marks, scanned: set<Slot>)
    requires Pulled(v, v.rootBegin, m.slots) && m.slots <= n.slots && m.reached <= n.reached
    requires forall a :: v.rootBegin <= a < v.rootEnd && a % WORD == 0 ==>
      Followed(v, Read(v.words, a), m.slots, m.reached)
    requires ScannedBut(v, n, scanned, {}) && n.workList == []
    ensures Closed(v, n.slots, n.reached) && scanned == n.slots
  {
    hide Followed;
    PulledMore(v, v.rootBegin, m.slots, n.slots);
    forall a | RootWord(v, a)
      ensures Followed(v, Read(v.words, a), n.slots, n.reached)
    {
      FollowedMore(v, Read(v.words, a), m.slots, m.reached, n.slots, n.reached);
    }
  }

  // ----- what is left

  /** The status bits and blocks after everything that is not marked is freed. */
  ghost function Kept(v: View, marks: set<Slot>, children: seq<int>): View {
    v.(blocks := (set b | b in v.blocks && HasMark(marks, b)),
       objects := v.objects * marks, inUse := marks, children := children)
  }

  /** The head of the object that slot `s` belongs to is among the marks. */
  ghost predicate HeadMarked(v: View, marks: set<Slot>, s: Slot) {
    exists h: nat :: IsHead(v, s.block, h, s.index) && Slot(s.block, h) in marks
  }

  // ----- tracing from the root

  /** The root range, or the address that it starts at, holds this value. */
  ghost predicate RootValue(v: View, value: int) {
    value == v.rootBegin || exists a :: RootWord(v, a) && Read(v.words, a) == value
  }

  /** One of the words of the slots that a pointer with the first value keeps holds the second one. */
  ghost predicate Leads(v: View, value: int, next: int) {
    exists s, t :: Hits(v, value, t) && s in Extent(v, t) && HoldsWord(v, s, next)
  }

  ghost predicate HoldsWord(v: View, s: Slot, value: int) {
    Read(v.words, Address(s)) == value || Read(v.words, Address(s) + WORD) == value
  }

  ghost predicate IsTrace(v: View, trace: seq<int>, value: int) {
    && trace != [] && RootValue(v, trace[0]) && trace[|trace| - 1] == value
    && forall k :: 0 < k < |trace| ==> Leads(v, trace[k - 1], trace[k])
  }

  /** A word with this value is found on the way from the root, from one kept slot to the next. */
  ghost predicate Traced(v: View, value: int) { exists trace :: IsTrace(v, trace, value) }

  ghost predicate SlotTraced(v: View, s: Slot) {
    exists value, t :: Traced(v, value) && Hits(v, value, t) && s in Extent(v, t)
  }

  lemma RootIsTraced(v: View, value: int)
    requires RootValue(v, value)
    ensures Traced(v, value)
  {
    assert IsTrace(v, [value], value);
  }

  lemma TraceGoesOn(v: View, s: Slot, value: int)
    requires SlotTraced(v, s) && HoldsWord(v, s, value)
    ensures Traced(v, value)
  {
    hide Hits, Extent, HoldsWord;
    var first, t :| Traced(v, first) && Hits(v, first, t) && s in Extent(v, t);
    var trace :| IsTrace(v, trace, first);
    assert Leads(v, first, value);
    var longer := trace + [value];
    forall k | 0 < k < |longer|
      ensures Leads(v, longer[k - 1], longer[k])
    {
      if k < |trace| {
        assert Leads(v, trace[k - 1], trace[k]);
      }
    }
    assert IsTrace(v, longer, value);
  }

  /** Whatever is traced has to be followed. */
  lemma {:induction false} TracedIsPulled(v: View, marks: set<Slot>, reached: set<int>, trace: seq<int>, value: int)
    requires Closed(v, marks, reached) && IsTrace(v, trace, value)
    ensures Followed(v, value, marks, reached) || value == v.rootBegin
    ensures Pulled(v, value, marks)
    decreases |trace|
  {
    hide Hits, Extent, RootWord;
    var n := |trace| - 1;
    if n > 0 {
      var before := trace[..n];
      assert Leads(v, trace[n - 1], trace[n]);
      assert IsTrace(v, before, trace[n - 1]);
      TracedIsPulled(v, marks, reached, before, trace[n - 1]);
      var s, t :| Hits(v, trace[n - 1], t) && s in Extent(v, t) && HoldsWord(v, s, value);
      assert s in marks;
      assert SlotFollowed(v, s, marks, reached);
    }
  }

  /** The traced slots among the marks are closed on their own. */
  lemma TracedIsClosed(v: View, marks: set<Slot>, reached: set<int>)
    requires Closed(v, marks, reached)
    ensures Closed(v, (set s | s in marks && SlotTraced(v, s)), reached)
  {
    hide Hits, Extent, SlotTraced, Traced, RootValue;
    var m := set s | s in marks && SlotTraced(v, s);
    forall value | Pulled(v, value, marks) && Traced(v, value)
      ensures Pulled(v, value, m)
    {
      forall t, s | Hits(v, value, t) && s in Extent(v, t)
        ensures SlotTraced(v, s)
      {
        NowTraced(v, value, t, s);
      }
    }
    assert RootValue(v, v.rootBegin) by { RootHolds(v, v.rootBegin); }
    RootIsTraced(v, v.rootBegin);
    forall a | RootWord(v, a)
      ensures Followed(v, Read(v.words, a), m, reached)
    {
      RootHolds(v, a);
      RootIsTraced(v, Read(v.words, a));
    }
    forall s | s in m
      ensures SlotFollowed(v, s, m, reached)
    {
      assert SlotFollowed(v, s, marks, reached);
      TraceGoesOn(v, s, Read(v.words, Address(s)));
      TraceGoesOn(v, s, Read(v.words, Address(s) + WORD));
    }
  }

  lemma RootHolds(v: View, a: int)
    ensures RootValue(v, v.rootBegin) && (RootWord(v, a) ==> RootValue(v, Read(v.words, a)))
  {
  }

  lemma NowTraced(v: View, value: int, t: Slot, s: Slot)
    requires Traced(v, value) && Hits(v, value, t) && s in Extent(v, t)
    ensures SlotTraced(v, s)
  {
  }

  /** What is kept is exactly what can be traced from the root. */
  lemma MarksAreTraced(v: View, marks: set<Slot>, reached: set<int>)
    requires Closed(v, marks, reached) && Least(v, marks, reached)
    ensures forall s :: s in marks <==> SlotTraced(v, s)
    ensures forall value :: Traced(v, value) <==> value == v.rootBegin || Pointed(v, marks, value)
  {
    hide Hits, Extent, Closed, SlotTraced, Traced, RootValue;
    TracedIsClosed(v, marks, reached);
    forall s
      ensures s in marks <==> SlotTraced(v, s)
    {
      if SlotTraced(v, s) {
        TracedIsMarked(v, marks, reached, s);
      }
    }
    forall value
      ensures Traced(v, value) <==> value == v.rootBegin || Pointed(v, marks, value)
    {
      if Traced(v, value) {
        TracedIsPointed(v, marks, reached, value);
      }
      if value == v.rootBegin || Pointed(v, marks, value) {
        PointedIsTraced(v, marks, value);
      }
    }
  }

  lemma TracedIsMarked(v: View, marks: set<Slot>, reached: set<int>, s: Slot)
    requires Closed(v, marks, reached) && SlotTraced(v, s)
    ensures s in marks
  {
    hide Hits, Extent, Closed;
    var value, t :| Traced(v, value) && Hits(v, value, t) && s in Extent(v, t);
    var trace :| IsTrace(v, trace, value);
    TracedIsPulled(v, marks, reached, trace, value);
  }

  lemma TracedIsPointed(v: View, marks: set<Slot>, reached: set<int>, value: int)
    requires Closed(v, marks, reached) && Traced(v, value)
    ensures value == v.rootBegin || Pointed(v, marks, value)
  {
    hide Hits, Extent, Closed;
    var trace :| IsTrace(v, trace, value);
    var n := |trace| - 1;
    if n > 0 {
      assert Leads(v, trace[n - 1], trace[n]);
      assert IsTrace(v, trace[..n], trace[n - 1]);
      TracedIsPulled(v, marks, reached, trace[..n], trace[n - 1]);
      var s, t :| Hits(v, trace[n - 1], t) && s in Extent(v, t) && HoldsWord(v, s, value);
      assert s in marks;
    }
  }

  lemma PointedIsTraced(v: View, marks: set<Slot>, value: int)
    requires value == v.rootBegin || Pointed(v, marks, value)
    requires forall s :: s in marks ==> SlotTraced(v, s)
    ensures Traced(v, value)
  {
    hide SlotTraced, Traced;
    if RootValue(v, value) {
      RootIsTraced(v, value);
    } else {
      var s :| s in marks && HoldsWord(v, s, value);
      TraceGoesOn(v, s, value);
    }
  }

  // ----- objects that keep their heads

  /** A traced word hits a slot at or before the head of the object of slot `s`, with all in between in use. */
  ghost predicate HeadPointed(v: View, s: Slot) {
    exists h: nat, value, t ::
      IsHead(v, s.block, h, s.index) && Traced(v, value) && Hits(v, value, t) && CoversHead(v, t, s.block, h)
  }

  ghost predicate CoversHead(v: View, t: Slot, b: Block, h: nat) {
    t.block == b && t.index <= h && AllInUse(v, b, t.index, h)
  }

  /** Whatever a traced word hits, there is such a word for the head of its object. */
  ghost predicate HeadsPointed(v: View) {
    forall value, s :: Traced(v, value) && Hits(v, value, s) ==> HeadPointed(v, s)
  }

  /** The traced words point to the first slots of objects, if they point to objects. */
  ghost predicate StartsOnly(v: View) {
    forall value, s :: Traced(v, value) && Hits(v, value, s) ==> s in v.objects
  }

  /** The head of an object is kept exactly if such a word points at or before it. */
  lemma HeadKept(v: View, marks: set<Slot>, reached: set<int>, s: Slot)
    requires Closed(v, marks, reached) && Least(v, marks, reached) && AreSlots(v.blocks, v.inUse)
    ensures HeadMarked(v, marks, s) <==> HeadPointed(v, s)
  {
    hide Closed, Least, Hits, Traced, IsHead, Pointed;
    MarksAreTraced(v, marks, reached);
    if HeadMarked(v, marks, s) {
      var h: nat :| IsHead(v, s.block, h, s.index) && Slot(s.block, h) in marks;
      var value, t :| Traced(v, value) && Hits(v, value, t) && Slot(s.block, h) in Extent(v, t);
      assert CoversHead(v, t, s.block, h) by { HeadIsAhead(v, t, s.block, h, s.index); }
    }
    if HeadPointed(v, s) {
      var h: nat, value, t :|
        IsHead(v, s.block, h, s.index) && Traced(v, value) && Hits(v, value, t) && CoversHead(v, t, s.block, h);
      assert Slot(s.block, h) in Extent(v, t) by { HeadIsSlot(v, s.block, h, s.index); }
      assert SlotTraced(v, Slot(s.block, h));
    }
  }

  lemma HeadIsAhead(v: View, t: Slot, b: Block, h: nat, i: nat)
    requires IsHead(v, b, h, i) && Slot(b, h) in Extent(v, t)
    ensures CoversHead(v, t, b, h)
  {
  }

  lemma HeadIsSlot(v: View, b: Block, h: nat, i: nat)
    requires IsHead(v, b, h, i) && AreSlots(v.blocks, v.inUse)
    ensures h < b.slots
  {
    assert Slot(b, h) in v.inUse;
  }

  /** The least closed set of marks consists of extents, of allocated slots. */
  lemma LeastIsExtents(v: View, marks: set<Slot>, reached: set<int>)
    requires Headed(v) && Closed(v, marks, reached) && Least(v, marks, reached)
    ensures ExtentClosed(v, marks) && marks <= v.inUse
  {
    hide Extent, Headed, Closed, Least, Pointed;
    forall s | s in marks
      ensures Extent(v, s) <= marks && s in v.inUse
    {
      SlotSurvives(v, marks, reached, s);
      var value, t :| (value == v.rootBegin || Pointed(v, marks, value)) && Hits(v, value, t) && s in Extent(v, t);
      ExtentIsInUse(v, t);
      SameExtent(v, s, t);
      PulledByPointed(v, marks, reached, value, t);
    }
  }

  lemma SameExtent(v: View, s: Slot, t: Slot)
    requires s in Extent(v, t)
    ensures Extent(v, s) <= Extent(v, t)
  {
    forall u | u in Extent(v, s)
      ensures u in Extent(v, t)
    {
      ExtendsIsTransitive(v, t.block, t.index, s.index, u.index);
    }
  }

  lemma PulledByPointed(v: View, marks: set<Slot>, reached: set<int>, value: int, t: Slot)
    requires Closed(v, marks, reached) && (value == v.rootBegin || Pointed(v, marks, value)) && Hits(v, value, t)
    ensures Extent(v, t) <= marks
  {
    hide Extent, Hits;
    assert Pulled(v, value, marks);
  }

  /** What is left consists of whole objects if and only if no object lost its head. */
  lemma KeptIsHeaded(v: View, marks: set<Slot>, reached: set<int>, children: seq<int>)
    requires Headed(v) && AreSlots(v.blocks, v.inUse) && Closed(v, marks, reached) && Least(v, marks, reached)
    ensures Headed(Kept(v, marks, children)) <==> HeadsPointed(v)
    ensures StartsOnly(v) ==> HeadsPointed(v)
  {
    hide Extent, Headed, Closed, Least, Pointed, ExtentClosed, AreSlots, Hits, HasHead, HeadMarked, Traced, HeadPointed;
    LeastIsExtents(v, marks, reached);
    MarksAreTraced(v, marks, reached);
    var k := Kept(v, marks, children);
    if Headed(k) {
      forall value, s | Traced(v, value) && Hits(v, value, s)
        ensures HeadPointed(v, s)
      {
        PulledByPointed(v, marks, reached, value, s);
        HitIsInExtent(v, value, s);
        HeadedMeans(k, s);
        KeptHead(v, marks, children, s);
        HeadKept(v, marks, reached, s);
      }
    }
    if HeadsPointed(v) {
      forall s | s in marks
        ensures HasHead(k, s)
      {
        assert SlotTraced(v, s);
        var value, t :| Traced(v, value) && Hits(v, value, t) && s in Extent(v, t);
        HitIsInExtent(v, value, t);
        HeadKept(v, marks, reached, t);
        HeadOfExtent(v, marks, children, s, t);
      }
      assert Headed(k) by { AllHeaded(v, marks, children); }
    }
    if StartsOnly(v) {
      forall value, s | Traced(v, value) && Hits(v, value, s)
        ensures HeadPointed(v, s)
      {
        PulledByPointed(v, marks, reached, value, s);
        HitIsInExtent(v, value, s);
        StartIsHead(v, marks, s);
        HeadKept(v, marks, reached, s);
      }
    }
  }

  lemma HeadedMeans(v: View, s: Slot)
    requires Headed(v)
    ensures s in v.inUse ==> HasHead(v, s)
  {
  }

  lemma AllHeaded(v: View, marks: set<Slot>, children: seq<int>)
    requires forall s :: s in marks ==> HasHead(Kept(v, marks, children), s)
    ensures Headed(Kept(v, marks, children))
  {
  }

  lemma StartIsHead(v: View, marks: set<Slot>, s: Slot)
    requires s in v.objects && s in marks && s in v.inUse
    ensures HeadMarked(v, marks, s)
  {
    assert IsHead(v, s.block, s.index, s.index);
  }

  lemma HitIsInExtent(v: View, value: int, s: Slot)
    requires AreSlots(v.blocks, v.inUse) && Hits(v, value, s)
    ensures s in Extent(v, s) && s in v.inUse
  {
    assert AllInUse(v, s.block, s.index, s.index);
  }

  lemma KeptHead(v: View, marks: set<Slot>, children: seq<int>, s: Slot)
    requires marks <= v.inUse && s in marks && HasHead(Kept(v, marks, children), s)
    ensures HeadMarked(v, marks, s)
  {
    var k := Kept(v, marks, children);
    var h: nat :| IsHead(k, s.block, h, s.index);
    assert IsHead(v, s.block, h, s.index) by {
      forall j: nat | h <= j <= s.index ensures Slot(s.block, j) in v.inUse { }
    }
  }

  lemma HeadOfExtent(v: View, marks: set<Slot>, children: seq<int>, s: Slot, t: Slot)
    requires ExtentClosed(v, marks) && AreSlots(v.blocks, v.inUse) && marks <= v.inUse && s in marks
    requires s in Extent(v, t) && HeadMarked(v, marks, t)
    ensures HasHead(Kept(v, marks, children), s)
  {
    hide ExtentClosed;
    var b := s.block;
    var h: nat :| IsHead(v, b, h, t.index) && Slot(b, h) in marks;
    assert h <= s.index && AllInUse(v, b, h, s.index);
    ForwardIsMarked(v, marks, b, h, s.index);
    assert IsHead(Kept(v, marks, children), b, h, s.index);
  }

  lemma ForwardIsMarked(v: View, marks: set<Slot>, b: Block, h: nat, i: nat)
    requires ExtentClosed(v, marks) && AllInUse(v, b, h, i) && Slot(b, h) in marks && h <= i < b.slots
    ensures forall j: nat :: h <= j <= i ==> Slot(b, j) in marks
  {
    forall j: nat | h <= j <= i
      ensures Slot(b, j) in marks
    {
      assert AllInUse(v, b, h, j);
      assert Slot(b, j) in Extent(v, Slot(b, h));
    }
  }

  /** A pointer into the middle of an object keeps slots of the object, but not its head. */
  lemma InteriorPointerLosesHead(b: Block, v: View)
    requires b == Block(64, 2)
    requires v == View({b}, {Slot(b, 0)}, {Slot(b, 0), Slot(b, 1)}, map[16 := 80], 16, 24, [])
    ensures Headed(v) && Apart(v.blocks)
    ensures Closed(v, {Slot(b, 1)}, {}) && Least(v, {Slot(b, 1)}, {})
    ensures !Headed(Kept(v, {Slot(b, 1)}, []))
  {
    var second := Slot(b, 1);
    assert IsHead(v, b, 0, 0) && IsHead(v, b, 0, 1);
    assert Headed(v) by {
      assert HasHead(v, Slot(b, 0)) && HasHead(v, second);
    }
    assert Hits(v, 80, second);
    assert Extent(v, second) == {second} by {
      assert Slot(b, 0) in v.objects && AllInUse(v, b, 1, 1);
    }
    assert Least(v, {second}, {}) by {
      forall m, r | Closed(v, m, r)
        ensures second in m
      {
        assert RootWord(v, 16) && Pulled(v, 80, m);
      }
    }
    assert !HasHead(Kept(v, {second}, []), second);
  }

  // ----- a collection

  ghost function Elements(xs: seq<int>): set<int> { set x | x in xs }

  /** The reachable children, in the order they were in. */
  ghost function Reached(children: seq<int>, reached: set<int>): seq<int> {
    if children == [] then []
    else (if children[0] in reached then [children[0]] else []) + Reached(children[1..], reached)
  }

  ghost predicate SameWords(words: map<int, int>, words': map<int, int>, slots: set<Slot>) {
    forall s :: s in slots ==>
      Read(words', Address(s)) == Read(words, Address(s)) &&
          Read(words', Address(s) + WORD) == Read(words, Address(s) + WORD)
  }

  /**
    A full collection: what is left is the least set of slots that nothing in it, nor the root,
    points out of, with its contents as they were, and the child heaps that it points to.
    */
  ghost predicate Collected(v: View, v': View) {
    && Closed(v, v'.inUse, Elements(v'.children)) && Least(v, v'.inUse, Elements(v'.children))
    && v'.children == Reached(v.children, Elements(v'.children))
    && SameWords(v.words, v'.words, v'.inUse) && WrittenIn(v.words, v'.words, v.blocks)
    && v' == Kept(v, v'.inUse, v'.children).(words := v'.words)
  }

  /**
    After a collection objects are whole if and only if, before it, whenever a traced word pointed into
    an object, one also pointed at or before its head.
    */
  lemma CollectedIsHeaded(v: View, v': View)
    requires Headed(v) && AreSlots(v.blocks, v.inUse) && Collected(v, v')
    ensures Headed(v') <==> HeadsPointed(v)
    ensures StartsOnly(v) ==> Headed(v')
  {
    KeptIsHeaded(v, v'.inUse, Elements(v'.children), v'.children);
    HeadedSame(Kept(v, v'.inUse, v'.children), v');
  }

  /** Whether objects are whole depends on the status bits only. */
  lemma HeadedSame(v: View, v': View)
    requires v'.objects == v.objects && v'.inUse == v.inUse
    ensures Headed(v) <==> Headed(v')
  {
    forall s
      ensures HasHead(v, s) <==> HasHead(v', s)
    {
      forall h: nat
        ensures IsHead(v, s.block, h, s.index) <==> IsHead(v', s.block, h, s.index)
      {
      }
    }
  }

  // ----- the list of children

  lemma NoneTwiceBoth(xs: seq<int>, ys: seq<int>)
    requires NoneTwice(xs) && NoneTwice(ys) && forall c :: c in xs ==> c !in ys
    ensures NoneTwice(xs + ys)
  {
    forall i, j | 0 <= i < j < |xs + ys|
      ensures (xs + ys)[i] != (xs + ys)[j]
    {
      if i < |xs| <= j {
        assert (xs + ys)[i] in xs && (xs + ys)[j] in ys;
      }
    }
  }

  lemma ReachedAreChildren(v: View, marks: set<Slot>, reached: set<int>)
    requires Closed(v, marks, reached) && Least(v, marks, reached)
    ensures reached <= Elements(v.children)
  {
    forall c | c in reached
      ensures c in Elements(v.children)
    {
      ChildSurvives(v, marks, reached, c);
    }
  }

  lemma NotReached(children: seq<int>, i: nat, reached: set<int>, reachable: set<int>)
    requires NoneTwice(children) && i < |children| && children[i] !in reachable
    requires reachable == reached - Elements(children[..i]) && reached <= Elements(children)
    ensures children[i] !in reached && NoneTwice(children[..i] + children[i + 1..])
    ensures reached <= Elements(children[..i] + children[i + 1..])
  {
    assert children[i] !in children[..i];
    var rest := children[..i] + children[i + 1..];
    forall j, k | 0 <= j < k < |rest|
      ensures rest[j] != rest[k]
    {
      assert rest[j] == children[if j < i then j else j + 1] && rest[k] == children[if k < i then k else k + 1];
    }
    forall c | c in reached
      ensures c in rest
    {
      var j :| 0 <= j < |children| && children[j] == c;
      assert j != i;
      assert rest[if j < i then j else j - 1] == c;
    }
  }

  ghost predicate NoneTwice(xs: seq<int>) {
    forall i, j :: 0 <= i < j < |xs| ==> xs[i] != xs[j]
  }

  lemma NoneTwiceMore(xs: seq<int>, x: int)
    requires NoneTwice(xs) && x !in xs
    ensures NoneTwice([x] + xs)
  {
  }

  /** The first `i` children that are left have been looked at; those still flagged come after them. */
  ghost predicate KeptSoFar(before: seq<int>, reached: set<int>, children: seq<int>, i: nat, reachable: set<int>) {
    && i <= |children| && NoneTwice(children)
    && Reached(before, reached) == children[..i] + Reached(children[i..], reached)
    && reachable == reached - Elements(children[..i])
    && Elements(children[..i]) <= reached <= Elements(children)
  }

  lemma NoneKept(children: seq<int>, reached: set<int>)
    requires NoneTwice(children) && reached <= Elements(children)
    ensures KeptSoFar(children, reached, children, 0, reached)
  {
    assert children[..0] == [] && children[0..] == children;
  }

  lemma KeepOne(before: seq<int>, reached: set<int>, children: seq<int>, i: nat, reachable: set<int>)
    requires KeptSoFar(before, reached, children, i, reachable) && i < |children|
    ensures if children[i] in reachable then KeptSoFar(before, reached, children, i + 1, reachable - {children[i]})
            else KeptSoFar(before, reached, children[..i] + children[i + 1..], i, reachable)
  {
    hide NoneTwice;
    var next, c := children[i..], children[i];
    assert next[0] == c && next[1..] == children[i + 1..];
    if c in reachable {
      assert children[..i + 1] == children[..i] + [c];
      assert Elements(children[..i + 1]) == Elements(children[..i]) + {c};
    } else {
      NotReached(children, i, reached, reachable);
      var rest := children[..i] + children[i + 1..];
      assert rest[..i] == children[..i] && rest[i..] == children[i + 1..];
    }
  }

  lemma AllKept(before: seq<int>, reached: set<int>, children: seq<int>, reachable: set<int>)
    requires KeptSoFar(before, reached, children, |children|, reachable)
    ensures children == Reached(before, reached) && reachable == {}
    ensures NoneTwice(children) && Elements(children) == reached
  {
    assert children[..|children|] == children && children[|children|..] == [];
  }
}
