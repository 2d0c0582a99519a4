/** The places within a value of a type: paths through fields and elements, and the offsets that they lead to. */
module TypePaths {
  import opened Alignments
  import opened DataLayouts

  datatype Hop = Field(index: nat) | Element(index: nat)

  type Path = seq<Hop>

  ghost predicate IsHop(t: Type, h: Hop) {
    match h
    case Field(i) => (t.Struct? || t.Component?) && i < |t.fields|
    case Element(k) => t.Array? && k < t.dimension
  }

  ghost function Behind(t: Type, h: Hop): Type
    requires IsHop(t, h)
  {
    if h.Field? then t.fields[h.index] else t.base
  }

  ghost function HopOffset(t: Type, h: Hop): int
    requires WellFormed(t) && IsHop(t, h)
  {
    if h.Field? then Offset(t.fields, h.index) else Unit(t.base) * h.index
  }

  ghost predicate Leads(t: Type, path: Path)
    decreases path
  {
    path == [] || (IsHop(t, path[0]) && Leads(Behind(t, path[0]), path[1..]))
  }

  ghost function Target(t: Type, path: Path): Type
    requires Leads(t, path)
    decreases path
  {
    if path == [] then t else Target(Behind(t, path[0]), path[1..])
  }

  ghost function PathOffset(t: Type, path: Path): int
    requires WellFormed(t) && Leads(t, path)
    decreases path
  {
    if path == [] then 0 else HopOffset(t, path[0]) + PathOffset(Behind(t, path[0]), path[1..])
  }

  lemma BehindIsWellFormed(t: Type, h: Hop)
    requires WellFormed(t) && IsHop(t, h)
    ensures WellFormed(Behind(t, h))
  {
  }

  // ----- where scalars lie

  ghost predicate IsScalar(t: Type, path: Path) { Leads(t, path) && Target(t, path).Scalar? }

  lemma HopFits(t: Type, h: Hop)
    requires WellFormed(t) && IsHop(t, h)
    ensures 0 <= HopOffset(t, h) && HopOffset(t, h) + Size(Behind(t, h)) <= Size(t)
  {
    hide Unit, Align, Offset;
    match h
    case Field(i) => FieldFits(t.fields, i, |t.fields|);
    case Element(k) => ElementFits(t.base, k, t.dimension);
  }

  lemma {:induction false} FieldFits(fields: seq<Type>, i: nat, n: nat)
    requires FieldsWellFormed(fields) && i < n <= |fields|
    ensures Offset(fields, i) + Size(fields[i]) <= EndAt(fields, n)
  {
    if i < n - 1 {
      FieldFits(fields, i, n - 1);
    }
  }

  lemma ElementFits(base: Type, k: nat, dimension: nat)
    requires WellFormed(base) && k < dimension
    ensures 0 <= Unit(base) * k && Unit(base) * k + Size(base) <= Unit(base) * dimension
  {
    hide WellFormed;
    var unit := Unit(base);
    assert Size(base) <= unit;
    hide Unit, Size;
    assert unit * (k + 1) <= unit * dimension by { TimesMore(unit, k + 1, dimension); }
    assert unit * (k + 1) == unit * k + unit;
    TimesMore(unit, 0, k);
  }

  lemma TimesMore(unit: nat, j: nat, k: nat)
    requires j <= k
    ensures unit * j <= unit * k
  {
  }

  /** What a path leads to lies within the value. */
  lemma {:induction false} PathFits(t: Type, path: Path)
    requires WellFormed(t) && Leads(t, path)
    ensures WellFormed(Target(t, path))
    ensures 0 <= PathOffset(t, path) && PathOffset(t, path) + Size(Target(t, path)) <= Size(t)
    decreases path
  {
    hide WellFormed, Size, HopOffset;
    if path != [] {
      HopFits(t, path[0]);
      BehindIsWellFormed(t, path[0]);
      PathFits(Behind(t, path[0]), path[1..]);
    }
  }

  /** Two places do not overlap. */
  ghost predicate Disjoint(t: Type, p: Path, q: Path)
    requires WellFormed(t) && Leads(t, p) && Leads(t, q) && WellFormed(Target(t, p)) && WellFormed(Target(t, q))
  {
    || PathOffset(t, p) + Size(Target(t, p)) <= PathOffset(t, q)
    || PathOffset(t, q) + Size(Target(t, q)) <= PathOffset(t, p)
  }

  lemma HopsApart(t: Type, g: Hop, h: Hop)
    requires WellFormed(t) && IsHop(t, g) && IsHop(t, h) && g.index < h.index
    ensures HopOffset(t, g) + Size(Behind(t, g)) <= HopOffset(t, h)
  {
    hide Unit, Align, Size;
    match g
    case Field(i) =>
      FieldFits(t.fields, i, h.index);
    case Element(k) =>
      ElementFits(t.base, k, h.index);
  }

  /** Different scalars of a type, wherever they are in it, have places of their own. */
  lemma {:induction false} ScalarsApart(t: Type, p: Path, q: Path)
    requires WellFormed(t) && IsScalar(t, p) && IsScalar(t, q) && p != q
    ensures WellFormed(Target(t, p)) && WellFormed(Target(t, q)) && Disjoint(t, p, q)
    decreases p
  {
    PathFits(t, p);
    PathFits(t, q);
    hide WellFormed, Size, HopOffset;
    assert p != [] && q != [];
    var (g, h) := (p[0], q[0]);
    BehindIsWellFormed(t, g);
    BehindIsWellFormed(t, h);
    PathFits(Behind(t, g), p[1..]);
    PathFits(Behind(t, h), q[1..]);
    if g == h {
      assert p == [g] + p[1..] && q == [h] + q[1..];
      ScalarsApart(Behind(t, g), p[1..], q[1..]);
    } else if g.index < h.index {
      HopsApart(t, g, h);
    } else {
      HopsApart(t, h, g);
    }
  }

  /** At an address that suits the type, every scalar is at a multiple of its own alignment. */
  lemma {:induction false} ScalarsAligned(t: Type, path: Path, at: int)
    requires WellFormed(t) && IsScalar(t, path) && Align(t) > 0 && at % Align(t) == 0
    ensures Target(t, path).alignment > 0 && (at + PathOffset(t, path)) % Target(t, path).alignment == 0
    decreases path
  {
    if path != [] {
      HopAligned(t, path[0], at);
      BehindIsWellFormed(t, path[0]);
      hide WellFormed, HopOffset, Align;
      ScalarsAligned(Behind(t, path[0]), path[1..], at + HopOffset(t, path[0]));
    }
  }

  lemma HopAligned(t: Type, h: Hop, at: int)
    requires WellFormed(t) && IsHop(t, h) && Align(t) > 0 && at % Align(t) == 0
    ensures Align(Behind(t, h)) > 0 && (at + HopOffset(t, h)) % Align(Behind(t, h)) == 0
  {
    hide Unit, Offset, Size;
    AlignIsPower(Behind(t, h));
    match h
    case Field(i) =>
      MaxAlignIsPower(t.fields, |t.fields|);
      AlignIsPower(t);
      PowersDivide(Align(t.fields[i]), Align(t));
      MultiplesDivide(at, Align(t), Align(t.fields[i]));
      assert Offset(t.fields, i) % Align(t.fields[i]) == 0 by { OffsetIsFirst(t.fields, i); }
      MultiplesAdd(at, Offset(t.fields, i), Align(t.fields[i]));
    case Element(k) =>
      UnitIsMultiple(t.base);
      MultipleTimes(Unit(t.base), k, Align(t.base));
      MultiplesAdd(at, Unit(t.base) * k, Align(t.base));
  }

  // ----- nothing is wasted

  /** A field is at the first place after the fields before it that suits it. */
  lemma OffsetIsFirst(fields: seq<Type>, i: nat)
    requires FieldsWellFormed(fields) && i < |fields|
    ensures Align(fields[i]) > 0 && Offset(fields, i) % Align(fields[i]) == 0
    ensures forall at: nat :: EndAt(fields, i) <= at && at % Align(fields[i]) == 0 ==> Offset(fields, i) <= at
    ensures EndAt(fields, i) <= Offset(fields, i)
  {
    AlignIsPower(fields[i]);
    var a, end, offset := Align(fields[i]), EndAt(fields, i), Offset(fields, i);
    hide Align, EndAt, Offset;
    forall at: nat | end <= at && at % a == 0
      ensures offset <= at
    {
      FirstMultiple(offset, at, end, a);
    }
  }

  lemma FirstMultiple(x: nat, y: nat, from: nat, a: nat)
    requires a > 0 && x % a == 0 && y % a == 0 && from <= x < from + a && from <= y
    ensures x <= y
  {
    QuotientBounds(x, a);
    QuotientBounds(y, a);
    var p, q := x / a, y / a;
    MultipleIs(a, p, q, x, y);
  }

  lemma MultipleIs(a: nat, p: nat, q: nat, x: nat, y: nat)
    requires x == p * a && y == q * a
    ensures x <= y || y + a <= x
  {
    if p <= q {
      TimesMore(a, p, q);
    } else {
      TimesMore(a, q + 1, p);
      assert a * (q + 1) == a * q + a;
    }
  }

  /** The first field is at the beginning, and the last one ends where the structure does. */
  lemma FieldsFill(t: Type)
    requires WellFormed(t) && (t.Struct? || t.Component?)
    ensures FieldsWellFormed(t.fields) && Offset(t.fields, 0) == 0
    ensures var last := |t.fields| - 1; Offset(t.fields, last) + Size(t.fields[last]) == Size(t)
  {
    OffsetIsFirst(t.fields, 0);
    assert 0 % Align(t.fields[0]) == 0;
  }

  /** Elements of an array are as close as their alignment allows, and fill it. */
  lemma ElementsFill(base: Type, dimension: nat)
    requires WellFormed(base)
    ensures Align(base) > 0 && Unit(base) % Align(base) == 0 && Size(base) <= Unit(base)
    ensures forall u: nat :: Size(base) <= u && u % Align(base) == 0 ==> Unit(base) <= u
    ensures Align(Array(base, dimension)) == Align(base) && Size(Array(base, dimension)) == dimension * Unit(base)
  {
    AlignIsPower(base);
    var a, size, unit := Align(base), Size(base), Unit(base);
    forall u: nat | size <= u && u % a == 0
      ensures unit <= u
    {
      FirstMultiple(unit, u, size, a);
    }
  }
}
