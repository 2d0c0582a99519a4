/** The stack of an executor: a buffer that grows upwards, with a base pointer for frames. */
module Stacks {

  /** What an operation of the program leaves for later; the stack only carries it. */
  datatype Word<Op> = Value(n: int) | Null | Address(index: nat) | Code(op: Op)

  ghost function Zeros<Op>(n: nat): seq<Word<Op>> {
    seq(n, _ => Value(0))
  }

  class Stack<Op(!new)> {
    const data: array<Word<Op>>
    var base: Word<Op>
    var top: nat

    ghost predicate Valid()
      reads this
    {
      top <= data.Length
    }

    /** What has been pushed and not popped. */
    ghost function Contents(): (s: seq<Word<Op>>)
      requires Valid()
      reads this, data
      ensures |s| == top
    {
      data[..top]
    }

    constructor (capacity: nat)
      ensures Valid() && fresh(data) && data.Length == capacity && Contents() == [] && base == Null
    {
      data := new Word<Op>[capacity](_ => Value(0));
      base := Null;
      top := 0;
    }

    method Push(w: Word<Op>)
      requires Valid() && top < data.Length
      modifies this`top, data
      ensures Valid() && Contents() == old(Contents()) + [w]
    {
      data[top] := w;
      top := top + 1;
    }

    method Pop() returns (w: Word<Op>)
      requires Valid() && top > 0
      modifies this`top
      ensures Valid() && old(Contents()) == Contents() + [w]
    {
      top := top - 1;
      w := data[top];
    }

    method PopMany(n: nat)
      requires Valid() && n <= top
      modifies this`top
      ensures Valid() && top == old(top) - n && Contents() == old(Contents())[..top]
    {
      top := top - n;
    }

    method Reserve(n: nat)
      requires Valid() && top + n <= data.Length
      modifies this`top, data
      ensures Valid() && Contents() == old(Contents()) + Zeros(n)
    {
      forall i | top <= i < top + n {
        data[i] := Value(0);
      }
      top := top + n;
    }

    /** Copies words that are already on the stack to the top. */
    method Load(from: nat, n: nat)
      requires Valid() && from + n <= top && top + n <= data.Length
      modifies this`top, data
      ensures Valid() && Contents() == old(Contents()) + old(Contents())[from..from + n]
    {
      forall i | top <= i < top + n {
        data[i] := data[from + i - top];
      }
      top := top + n;
    }

    method Write(i: nat, w: Word<Op>)
      requires Valid() && i < top
      modifies data
      ensures Contents() == old(Contents())[i := w]
    {
      data[i] := w;
    }

    /** A new frame: saves the base pointer and makes room for `n` words of locals. */
    method Setup(n: nat)
      requires Valid() && top + 1 + n <= data.Length
      modifies this, data
      ensures Valid() && base == Address(old(top))
      ensures Contents() == old(Contents()) + [old(base)] + Zeros(n)
    {
      var bp := top;
      Push(base);
      base := Address(bp);
      Reserve(n);
    }

    /** Drops everything down to the current frame and goes back to the saved base pointer. */
    method Teardown()
      requires Valid() && base.Address? && base.index < top
      modifies this
      ensures Valid() && top == old(base.index)
      ensures Contents() == old(Contents())[..top] && base == old(Contents())[top]
    {
      top := base.index + 1;
      base := Pop();
    }
  }
}
