/**
  Instance sets: which component instances a piece of the composition touches, and how strongly.
  A set is kept in the order of its instances, which is also the order in which it is locked.
  */
module InstanceSets {

  datatype Access = AccessNone | AccessRead | AccessWrite

  datatype Entry = Entry(instance: nat, access: Access)

  function Rank(a: Access): nat {
    match a
    case AccessNone => 1
    case AccessRead => 2
    case AccessWrite => 3
  }

  function Stronger(a: Access, b: Access): Access {
    if Rank(a) < Rank(b) then b else a
  }

  ghost predicate Sorted(s: seq<Entry>) {
    forall i, j :: 0 <= i < j < |s| ==> s[i].instance < s[j].instance
  }

  /** How strongly a set touches an instance; 0 says that it does not. */
  function Level(s: seq<Entry>, instance: nat): (level: nat)
    ensures level <= 3
    ensures level > 0 ==> exists k :: 0 <= k < |s| && s[k].instance == instance && Rank(s[k].access) == level
  {
    if s == [] then 0
    else if s[0].instance == instance then Rank(s[0].access)
    else
      var rest := Level(s[1..], instance);
      assert forall k :: 0 <= k < |s[1..]| ==> s[1..][k] == s[k + 1];
      rest
  }

  lemma {:induction false} LevelAt(s: seq<Entry>, k: nat)
    requires Sorted(s) && k < |s|
    ensures Level(s, s[k].instance) == Rank(s[k].access)
  {
    if k > 0 {
      assert s[0].instance < s[k].instance;
      LevelAt(s[1..], k - 1);
    }
  }

  function Max(a: nat, b: nat): nat {
    if a < b then b else a
  }

  /** Adds an entry, keeping the stronger access when the instance is already present. */
  function Insert(s: seq<Entry>, e: Entry): (r: seq<Entry>)
    requires Sorted(s)
    ensures Sorted(r)
    ensures r != [] && r[0].instance == (if s == [] || e.instance < s[0].instance then e.instance else s[0].instance)
  {
    if s == [] || e.instance < s[0].instance then [e] + s
    else if e.instance == s[0].instance then [Entry(e.instance, Stronger(s[0].access, e.access))] + s[1..]
    else [s[0]] + Insert(s[1..], e)
  }

  lemma {:induction false} InsertRaisesLevel(s: seq<Entry>, e: Entry, i: nat)
    requires Sorted(s)
    ensures Level(Insert(s, e), i) == if i == e.instance then Max(Level(s, i), Rank(e.access)) else Level(s, i)
  {
    if s == [] || e.instance < s[0].instance {
      Absent(s, e.instance);
      assert ([e] + s)[1..] == s;
    } else if e.instance == s[0].instance {
      assert Insert(s, e)[1..] == s[1..];
    } else {
      InsertRaisesLevel(s[1..], e, i);
      assert Insert(s, e)[1..] == Insert(s[1..], e);
    }
  }

  lemma Absent(s: seq<Entry>, instance: nat)
    requires forall k :: 0 <= k < |s| ==> s[k].instance != instance
    ensures Level(s, instance) == 0
  {
    if s != [] { Absent(s[1..], instance); }
  }

  method AddUnion(s: seq<Entry>, other: seq<Entry>) returns (r: seq<Entry>)
    requires Sorted(s) && Sorted(other)
    ensures Sorted(r)
    ensures forall i :: Level(r, i) == Max(Level(s, i), Level(other, i))
  {
    r := s;
    for k := 0 to |other|
      invariant Sorted(r)
      invariant forall i :: Level(r, i) == Max(Level(s, i), Level(other[..k], i))
    {
      LevelOfPrefix(other, k);
      forall i { InsertRaisesLevel(r, other[k], i); }
      r := Insert(r, other[k]);
    }
    assert other[..|other|] == other;
  }

  lemma {:induction false} LevelOfPrefixAt(s: seq<Entry>, k: nat, i: nat)
    requires Sorted(s) && k < |s|
    ensures Level(s[..k + 1], i) == if i == s[k].instance then Rank(s[k].access) else Level(s[..k], i)
  {
    var longer, shorter := s[..k + 1], s[..k];
    if k == 0 {
      assert longer == [s[0]] && shorter == [] && longer[1..] == [];
    } else if s[0].instance == i {
      assert longer[0] == s[0] && shorter[0] == s[0];
    } else {
      LevelOfPrefixAt(s[1..], k - 1, i);
      assert s[1..][k - 1] == s[k];
      assert longer[1..] == s[1..][..k] && longer[0] == s[0];
      assert shorter[1..] == s[1..][..k - 1] && shorter[0] == s[0];
    }
  }

  lemma LevelOfPrefix(s: seq<Entry>, k: nat)
    requires Sorted(s) && k < |s|
    ensures forall i :: Level(s[..k + 1], i) == if i == s[k].instance then Rank(s[k].access) else Level(s[..k], i)
    ensures Level(s[..k], s[k].instance) == 0
  {
    hide Level;
    forall i { LevelOfPrefixAt(s, k, i); }
    Absent(s[..k], s[k].instance);
  }

  /** No instance is written in both sets. */
  ghost predicate WritesDisjoint(s: seq<Entry>, other: seq<Entry>) {
    forall i :: !(Level(s, i) == Rank(AccessWrite) && Level(other, i) == Rank(AccessWrite))
  }

  /**
    Two iterators walk the sets in step.  Only a write against a write is a conflict: the sets
    may share an instance that one of them writes and the other one reads.
    */
  method IsCompatible(s: seq<Entry>, other: seq<Entry>) returns (compatible: bool)
    requires Sorted(s) && Sorted(other)
    ensures compatible <==> WritesDisjoint(s, other)
  {
    var p, q := 0, 0;
    while p < |s| && q < |other|
      invariant 0 <= p <= |s| && 0 <= q <= |other|
      invariant forall i, j :: 0 <= i < p && 0 <= j < |other| && s[i] == other[j] ==> s[i].access != AccessWrite
      invariant forall i, j :: 0 <= i < |s| && 0 <= j < q && s[i] == other[j] ==> s[i].access != AccessWrite
      decreases |s| - p + |other| - q
    {
      if s[p] == other[q] && s[p].access == AccessWrite {
        LevelAt(s, p);
        LevelAt(other, q);
        return false;
      }
      if s[p].instance < other[q].instance {
        p := p + 1;
      } else if s[p].instance > other[q].instance {
        q := q + 1;
      } else {
        p := p + 1;
        q := q + 1;
      }
    }
    return true;
  }
}
