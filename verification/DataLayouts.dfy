/** Sizes, alignments and offsets of types, and where the leaves of a type come to lie. */
module DataLayouts {
  import opened Alignments

  /** A component is a structure that starts with a pointer for the runtime. */
  datatype Type =
    | Scalar(size: nat, alignment: nat)
    | Struct(fields: seq<Type>)
    | Component(fields: seq<Type>)
    | Array(base: Type, dimension: nat)

  const RUNTIME_FIELD: Type := Scalar(8, 8)

  predicate IsPowerOfTwo(n: nat) {
    n == 1 || (n > 1 && n % 2 == 0 && IsPowerOfTwo(n / 2))
  }

  ghost predicate WellFormed(t: Type) {
    match t
    case Scalar(size, alignment) => size > 0 && IsPowerOfTwo(alignment)
    case Struct(fields) => fields != [] && forall f :: f in fields ==> WellFormed(f)
    case Component(fields) => fields != [] && fields[0] == RUNTIME_FIELD && forall f :: f in fields ==> WellFormed(f)
    case Array(base, _) => WellFormed(base)
  }

  ghost predicate FieldsWellFormed(fields: seq<Type>) { forall f :: f in fields ==> WellFormed(f) }

  // ----- alignment

  function Align(t: Type): nat
    decreases t
  {
    match t
    case Scalar(_, alignment) => alignment
    case Struct(fields) => MaxAlign(fields, |fields|)
    case Component(fields) => MaxAlign(fields, |fields|)
    case Array(base, _) => Align(base)
  }

  /** The greatest alignment of the first `n` fields. */
  function MaxAlign(fields: seq<Type>, n: nat): nat
    requires n <= |fields|
    decreases fields, n
  {
    if n == 0 then 0
    else
      var before, last := MaxAlign(fields, n - 1), Align(fields[n - 1]);
      if last > before then last else before
  }

  lemma {:induction false} AlignIsPower(t: Type)
    requires WellFormed(t)
    ensures IsPowerOfTwo(Align(t))
    decreases t
  {
    match t
    case Scalar(_, _) =>
    case Struct(fields) => MaxAlignIsPower(fields, |fields|);
    case Component(fields) => MaxAlignIsPower(fields, |fields|);
    case Array(base, _) => AlignIsPower(base);
  }

  lemma {:induction false} MaxAlignIsPower(fields: seq<Type>, n: nat)
    requires n <= |fields| && FieldsWellFormed(fields)
    ensures n > 0 ==> IsPowerOfTwo(MaxAlign(fields, n))
    ensures forall i :: 0 <= i < n ==> Align(fields[i]) <= MaxAlign(fields, n)
    decreases fields, n
  {
    if n > 0 {
      MaxAlignIsPower(fields, n - 1);
      AlignIsPower(fields[n - 1]);
    }
  }

  /** The alignment of a structure is that of one of its fields, and no field has a greater one. */
  lemma {:induction false} AlignIsGreatest(fields: seq<Type>, n: nat)
    requires 0 < n <= |fields|
    ensures forall i :: 0 <= i < n ==> Align(fields[i]) <= MaxAlign(fields, n)
    ensures exists i :: 0 <= i < n && Align(fields[i]) == MaxAlign(fields, n)
  {
    if n > 1 {
      AlignIsGreatest(fields, n - 1);
    }
    assert MaxAlign(fields, n) == Align(fields[n - 1]) || MaxAlign(fields, n) == MaxAlign(fields, n - 1);
  }

  /** Of two powers of two, the greater one is a multiple of the other one. */
  lemma {:induction false} PowersDivide(a: nat, b: nat)
    requires IsPowerOfTwo(a) && IsPowerOfTwo(b) && a <= b
    ensures b % a == 0
  {
    if a > 1 {
      PowersDivide(a / 2, b / 2);
      DoubleDivides(a / 2, b / 2);
    }
  }

  lemma DoubleDivides(a: nat, b: nat)
    requires a > 0 && b % a == 0
    ensures (2 * b) % (2 * a) == 0
  {
    QuotientBounds(b, a);
    assert 2 * b == (b / a) * (2 * a);
    MultipleHasNoRemainder(b / a, 2 * a);
  }

  lemma MultiplesAdd(x: int, y: int, a: nat)
    requires a > 0 && x % a == 0 && y % a == 0
    ensures (x + y) % a == 0
  {
    QuotientBounds(x, a);
    QuotientBounds(y, a);
    assert x + y == (x / a + y / a) * a;
    MultipleHasNoRemainder(x / a + y / a, a);
  }

  lemma MultiplesDivide(x: int, b: nat, a: nat)
    requires a > 0 && b > 0 && b % a == 0 && x % b == 0
    ensures x % a == 0
  {
    QuotientBounds(x, b);
    QuotientBounds(b, a);
    MultipleOfMultiple(x / b, b / a, a);
  }

  lemma MultipleOfMultiple(p: int, q: int, a: nat)
    requires a > 0
    ensures (p * (q * a)) % a == 0
  {
    assert p * (q * a) == (p * q) * a;
    MultipleHasNoRemainder(p * q, a);
  }

  // ----- size and offset

  function Size(t: Type): nat
    requires WellFormed(t)
    decreases t, 0
  {
    match t
    case Scalar(size, _) => size
    case Struct(fields) => EndAt(fields, |fields|)
    case Component(fields) => EndAt(fields, |fields|)
    case Array(base, dimension) => Unit(base) * dimension
  }

  /** The distance between elements of an array. */
  function Unit(base: Type): nat
    requires WellFormed(base)
    decreases base, 1
  {
    AlignIsPower(base);
    AlignUp(Size(base), Align(base))
  }

  /** Where the first `n` fields end. */
  function EndAt(fields: seq<Type>, n: nat): nat
    requires n <= |fields| && FieldsWellFormed(fields)
    decreases fields, n, 0
  {
    if n == 0 then 0 else Offset(fields, n - 1) + Size(fields[n - 1])
  }

  function Offset(fields: seq<Type>, i: nat): nat
    requires i < |fields| && FieldsWellFormed(fields)
    decreases fields, i, 1
  {
    AlignIsPower(fields[i]);
    AlignUp(EndAt(fields, i), Align(fields[i]))
  }

  method ComputeAlignment(t: Type) returns (r: nat)
    ensures r == Align(t)
    decreases t
  {
    match t
    case Scalar(_, alignment) => return alignment;
    case Array(base, _) => r := ComputeAlignment(base);
    case _ =>
      r := 0;
      var i := 0;
      while i < |t.fields|
        invariant 0 <= i <= |t.fields| && r == MaxAlign(t.fields, i)
      {
        var a := ComputeAlignment(t.fields[i]);
        r := if r < a then a else r;
        i := i + 1;
      }
  }

  method ComputeSize(t: Type) returns (r: nat)
    requires WellFormed(t)
    ensures r == Size(t)
    decreases t, 0
  {
    match t
    case Scalar(size, _) => return size;
    case Array(base, dimension) =>
      var unit := ComputeUnit(base);
      r := unit * dimension;
    case _ =>
      r := 0;
      var i := 0;
      while i < |t.fields|
        invariant 0 <= i <= |t.fields| && r == EndAt(t.fields, i)
      {
        var alignment := ComputeAlignment(t.fields[i]);
        AlignIsPower(t.fields[i]);
        r := AlignUp(r, alignment);
        var size := ComputeSize(t.fields[i]);
        r := r + size;
        i := i + 1;
      }
  }

  method ComputeUnit(base: Type) returns (r: nat)
    requires WellFormed(base)
    ensures r == Unit(base)
    decreases base, 1
  {
    var size := ComputeSize(base);
    var alignment := ComputeAlignment(base);
    AlignIsPower(base);
    r := AlignUp(size, alignment);
  }

  method ComputeOffset(fields: seq<Type>, field: nat) returns (r: nat)
    requires field < |fields| && FieldsWellFormed(fields)
    ensures r == Offset(fields, field)
  {
    r := 0;
    var i := 0;
    while i != field
      invariant 0 <= i <= field && r == EndAt(fields, i)
      decreases field - i
    {
      var alignment := ComputeAlignment(fields[i]);
      AlignIsPower(fields[i]);
      r := AlignUp(r, alignment);
      var size := ComputeSize(fields[i]);
      r := r + size;
      i := i + 1;
    }
    var alignment := ComputeAlignment(fields[field]);
    AlignIsPower(fields[field]);
    r := AlignUp(r, alignment);
  }

  lemma UnitFits(base: Type, n: nat)
    requires WellFormed(base)
    ensures Size(base) <= Unit(base) && Unit(base) * 0 == 0
    ensures n > 0 ==> Unit(base) * n == Unit(base) * (n - 1) + Unit(base)
    ensures n > 0 ==> Unit(base) * (n - 1) >= 0
  {
    AlignIsPower(base);
  }

  lemma UnitIsMultiple(base: Type)
    requires WellFormed(base)
    ensures Align(base) > 0 && Unit(base) % Align(base) == 0
  {
    AlignIsPower(base);
  }

  lemma MultipleTimes(x: int, k: int, a: nat)
    requires a > 0 && x % a == 0
    ensures (x * k) % a == 0
  {
    QuotientBounds(x, a);
    assert x * k == (k * (x / a)) * a;
    MultipleHasNoRemainder(k * (x / a), a);
  }
}
