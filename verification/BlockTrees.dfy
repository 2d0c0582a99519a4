/**
  The blocks of a heap: contiguous memory regions, divided into slots of equal size and kept in a
  binary search tree that is sorted by where they begin.
  */
module BlockTrees {

  const WORD: int := 8
  const SLOT: int := 16

  datatype Block = Block(begin: int, slots: nat)

  function SlotAt(b: Block, i: int): int { b.begin + SLOT * i }

  function EndOf(b: Block): int { SlotAt(b, b.slots) }

  predicate Inside(b: Block, address: int) { b.begin <= address < EndOf(b) }

  ghost predicate Before(b: Block, c: Block) { EndOf(b) <= c.begin }

  /** Blocks are not empty, word-aligned, away from the null pointer, and do not overlap. */
  ghost predicate Apart(blocks: set<Block>) {
    && (forall b :: b in blocks ==> b.slots > 0 && b.begin > 0 && b.begin % WORD == 0)
    && (forall b, c :: b in blocks && c in blocks && b != c ==> Before(b, c) || Before(c, b))
  }

  ghost predicate Separate(xs: set<Block>, ys: set<Block>) {
    forall b, c :: b in xs && c in ys ==> Before(b, c) || Before(c, b)
  }

  datatype Tree = Nil | Node(left: Tree, block: Block, right: Tree)

  ghost function Blocks(t: Tree): set<Block> {
    match t
    case Nil => {}
    case Node(l, b, r) => Blocks(l) + {b} + Blocks(r)
  }

  ghost predicate Ordered(t: Tree) {
    match t
    case Nil => true
    case Node(l, b, r) =>
      && b.slots > 0 && Ordered(l) && Ordered(r)
      && (forall c :: c in Blocks(l) ==> Before(c, b))
      && (forall c :: c in Blocks(r) ==> Before(b, c))
  }

  ghost function TotalSlots(t: Tree): nat {
    match t
    case Nil => 0
    case Node(l, b, r) => TotalSlots(l) + b.slots + TotalSlots(r)
  }

  datatype Option<T> = None | Some(value: T)

  // ----- find

  function Find(t: Tree, address: int): Option<Block> {
    match t
    case Nil => None
    case Node(l, b, r) =>
      if Inside(b, address) then Some(b)
      else if address < b.begin then Find(l, address)
      else Find(r, address)
  }

  /** Searching the tree agrees with looking at every block. */
  lemma {:induction false} FindAgrees(t: Tree, address: int)
    requires Ordered(t)
    ensures Find(t, address).Some? ==> Find(t, address).value in Blocks(t) && Inside(Find(t, address).value, address)
    ensures forall b :: b in Blocks(t) && Inside(b, address) ==> Find(t, address) == Some(b)
  {
    match t
    case Nil =>
    case Node(l, b, r) =>
      FindAgrees(l, address);
      FindAgrees(r, address);
  }

  // ----- insert

  function Insert(t: Tree, block: Block): Tree {
    match t
    case Nil => Node(Nil, block, Nil)
    case Node(l, b, r) =>
      if block.begin < b.begin then Node(Insert(l, block), b, r) else Node(l, b, Insert(r, block))
  }

  lemma {:induction false} InsertOrdered(t: Tree, block: Block)
    requires Ordered(t) && block.slots > 0
    requires forall b :: b in Blocks(t) ==> Before(b, block) || Before(block, b)
    ensures Ordered(Insert(t, block))
    ensures Blocks(Insert(t, block)) == Blocks(t) + {block}
    ensures TotalSlots(Insert(t, block)) == TotalSlots(t) + block.slots
  {
    match t
    case Nil =>
    case Node(l, b, r) =>
      if block.begin < b.begin {
        InsertOrdered(l, block);
      } else {
        InsertOrdered(r, block);
      }
  }

  // ----- merge

  /** Moves every block of `t` into `root`. */
  function Merge(root: Tree, t: Tree): Tree
    decreases t
  {
    match t
    case Nil => root
    case Node(l, b, r) => Insert(Merge(Merge(root, l), r), b)
  }

  lemma {:induction false} MergeOrdered(root: Tree, t: Tree)
    requires Ordered(root) && Ordered(t) && Separate(Blocks(root), Blocks(t))
    ensures Ordered(Merge(root, t))
    ensures Blocks(Merge(root, t)) == Blocks(root) + Blocks(t)
    ensures TotalSlots(Merge(root, t)) == TotalSlots(root) + TotalSlots(t)
    decreases t
  {
    hide Before;
    match t
    case Nil =>
    case Node(l, b, r) =>
      var (ls, rs) := (Blocks(l), Blocks(r));
      MergeOrdered(root, l);
      BeforeIsTransitive(t);
      assert Separate(ls, rs) && Separate(ls, {b}) && Separate(rs, {b});
      assert Separate(Blocks(root), rs) && Separate(Blocks(root), {b});
      var first := Merge(root, l);
      assert Separate(Blocks(first), rs);
      MergeOrdered(first, r);
      InsertOrdered(Merge(first, r), b);
  }

  lemma BeforeIsTransitive(t: Tree)
    requires Ordered(t) && t.Node?
    ensures forall b, c :: b in Blocks(t.left) && c in Blocks(t.right) ==> Before(b, c)
  {
  }

  // ----- remove

  /** Takes the right-most block out of a tree. */
  function RemoveRightMost(t: Tree): (Tree, Block)
    requires t.Node?
  {
    if t.right == Nil then (t.left, t.block)
    else
      var (rest, b) := RemoveRightMost(t.right);
      (t.(right := rest), b)
  }

  lemma {:induction false} RemoveRightMostOrdered(t: Tree)
    requires Ordered(t) && t.Node?
    ensures var (rest, b) := RemoveRightMost(t);
            && Ordered(rest) && b in Blocks(t) && b !in Blocks(rest) && Blocks(rest) + {b} == Blocks(t)
            && b.slots > 0 && TotalSlots(rest) + b.slots == TotalSlots(t)
            && (forall c :: c in Blocks(rest) ==> Before(c, b))
  {
    if t.right == Nil {
      assert Blocks(t) == Blocks(t.left) + {t.block};
    } else {
      RemoveRightMostOrdered(t.right);
      var (rest, b) := RemoveRightMost(t.right);
      assert Before(t.block, b);
    }
  }

  /** The tree that takes the place of a node whose block is freed. */
  function Unlink(t: Tree): Tree
    requires t.Node?
  {
    if t.left == Nil then t.right
    else if t.right == Nil then t.left
    else
      var (rest, b) := RemoveRightMost(t.left);
      Node(rest, b, t.right)
  }

  lemma UnlinkOrdered(t: Tree)
    requires Ordered(t) && t.Node?
    ensures Ordered(Unlink(t)) && Blocks(Unlink(t)) == Blocks(t.left) + Blocks(t.right)
    ensures TotalSlots(Unlink(t)) == TotalSlots(t.left) + TotalSlots(t.right)
  {
    if t.left != Nil && t.right != Nil {
      RemoveRightMostOrdered(t.left);
      BeforeIsTransitive(t);
    }
  }

  // ----- slots

  lemma OrderedApart(t: Tree)
    requires Ordered(t)
    ensures forall b, c :: b in Blocks(t) && c in Blocks(t) && b != c ==> Before(b, c) || Before(c, b)
    ensures forall b :: b in Blocks(t) ==> b.slots > 0
  {
    if t.Node? {
      OrderedApart(t.left);
      OrderedApart(t.right);
      BeforeIsTransitive(t);
    }
  }

  /** Slots of different blocks, and different slots of a block, have different addresses. */
  lemma SlotsDiffer(blocks: set<Block>, b: Block, i: int, c: Block, j: int)
    requires Apart(blocks) && b in blocks && c in blocks && 0 <= i < b.slots && 0 <= j < c.slots
    requires b != c || i != j
    ensures SlotAt(b, i) + SLOT <= SlotAt(c, j) || SlotAt(c, j) + SLOT <= SlotAt(b, i)
  {
  }
}
