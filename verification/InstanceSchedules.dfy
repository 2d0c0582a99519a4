/**
  The schedule of the instance scheduler: a list threaded through the instances themselves.  An
  instance is on it exactly when its link is set; the last one links to a sentinel.
  */
module InstanceSchedules {

  /** The link of an instance: not on the schedule, the last one, or followed by another one. */
  datatype Link = Off | End | To(instance: nat)

  /** Where the next instance will be linked from: the head of the list, or an instance. */
  datatype Slot = Head | LinkOf(instance: nat)

  ghost predicate Distinct(list: seq<nat>) {
    forall i, j :: 0 <= i < j < |list| ==> list[i] != list[j]
  }

  /** An instance that is on the schedule already stays where it is. */
  function Pushed(list: seq<nat>, instance: nat): seq<nat> {
    if instance in list then list else list + [instance]
  }

  function PushedAll(list: seq<nat>, instances: seq<nat>): seq<nat> {
    if instances == [] then list
    else Pushed(PushedAll(list, instances[..|instances| - 1]), instances[|instances| - 1])
  }

  /** Whatever is pushed is on the schedule then, once, and nothing changes its place. */
  lemma {:induction false} PushedIsThere(list: seq<nat>, instances: seq<nat>)
    requires Distinct(list)
    ensures var after := PushedAll(list, instances);
            Distinct(after) && list <= after && forall i :: i in after <==> i in list || i in instances
  {
    if instances != [] {
      PushedIsThere(list, instances[..|instances| - 1]);
      assert forall i :: i in instances <==> i in instances[..|instances| - 1] || i == instances[|instances| - 1];
    }
  }

  /** The links of the instances thread the list. */
  ghost predicate Threaded(links: seq<Link>, list: seq<nat>) {
    && Distinct(list)
    && (forall k: nat :: k < |list| ==> list[k] < |links| && links[list[k]] == LinkAt(list, k))
    && (forall i: nat :: i < |links| ==> (links[i] == Off <==> i !in list))
  }

  ghost function LinkAt(list: seq<nat>, k: nat): Link { if k + 1 < |list| then To(list[k + 1]) else End }

  ghost function HeadOf(list: seq<nat>): Link { if list == [] then Off else To(list[0]) }

  ghost function TailOf(list: seq<nat>): Slot { if list == [] then Head else LinkOf(list[|list| - 1]) }

  lemma PopThreads(links: seq<Link>, list: seq<nat>)
    requires Threaded(links, list) && list != []
    ensures list[0] < |links| && Threaded(links[list[0] := Off], list[1..])
    ensures HeadOf(list[1..]) == if links[list[0]] == End then Off else links[list[0]]
    ensures TailOf(list[1..]) == if links[list[0]] == End then Head else TailOf(list)
  {
    hide Distinct;
    var rest := list[1..];
    assert links[list[0]] == LinkAt(list, 0);
    var links' := links[list[0] := Off];
    Rest(list);
    forall k: nat | k < |rest|
      ensures rest[k] < |links| && links'[rest[k]] == LinkAt(rest, k)
    {
      assert rest[k] == list[k + 1] && rest[k] in rest;
      assert links[list[k + 1]] == LinkAt(list, k + 1);
    }
  }

  lemma Rest(list: seq<nat>)
    requires Distinct(list) && list != []
    ensures Distinct(list[1..]) && list[0] !in list[1..] && forall i :: i in list <==> i == list[0] || i in list[1..]
  {
    assert list == [list[0]] + list[1..];
  }

  lemma PushThreads(links: seq<Link>, list: seq<nat>, i: nat)
    requires Threaded(links, list) && i < |links| && links[i] == Off
    ensures list == [] ==> Threaded(links[i := End], [i])
    ensures list != [] ==> list[|list| - 1] < |links|
    ensures list != [] ==> Threaded(links[list[|list| - 1] := To(i)][i := End], list + [i])
    ensures TailOf(list + [i]) == LinkOf(i) && HeadOf(list + [i]) == if list == [] then To(i) else HeadOf(list)
  {
    if list != [] {
      PushLinks(links, list, i);
    }
  }

  lemma PushLinks(links: seq<Link>, list: seq<nat>, i: nat)
    requires Threaded(links, list) && i < |links| && links[i] == Off && list != []
    ensures list[|list| - 1] < |links|
    ensures Threaded(links[list[|list| - 1] := To(i)][i := End], list + [i])
  {
    hide Distinct;
    var last := list[|list| - 1];
    assert last < |links| && last in list;
    DistinctMore(list, i);
    var links', list' := links[last := To(i)][i := End], list + [i];
    forall k: nat | k < |list'|
      ensures list'[k] < |links| && links'[list'[k]] == LinkAt(list', k)
    {
      if k < |list| {
        assert list[k] in list && links[list[k]] == LinkAt(list, k);
        if k < |list| - 1 { LastIsLast(list, k); }
      }
    }
  }

  lemma LastIsLast(list: seq<nat>, k: nat)
    requires Distinct(list) && k < |list| - 1
    ensures list[k] != list[|list| - 1]
  {
  }

  lemma DistinctMore(list: seq<nat>, i: nat)
    requires Distinct(list) && i !in list
    ensures Distinct(list + [i])
  {
  }

  lemma OffMeans(links: seq<Link>, list: seq<nat>, i: nat)
    requires Threaded(links, list)
    ensures i < |links| ==> (links[i] == Off <==> i !in list)
    ensures i in list ==> i < |links|
    ensures list != [] ==> list[|list| - 1] < |links|
  {
    assert list != [] ==> list[|list| - 1] in list;
  }

  class Schedule {
    var head: Link
    var tail: Slot
    var next: array<Link>
    ghost var list: seq<nat>

    ghost predicate Valid()
      reads this, next
    {
      Threaded(next[..], list) && head == HeadOf(list) && tail == TailOf(list)
    }

    constructor (instances: nat)
      ensures Valid() && list == [] && next.Length == instances && fresh(next)
    {
      head, tail := Off, Head;
      next := new Link[instances](_ => Off);
      list := [];
      new;
      assert Threaded(next[..], []);
    }

    method Push(instance: nat)
      requires Valid() && instance < next.Length
      modifies this, next
      ensures Valid() && next == old(next) && list == Pushed(old(list), instance)
    {
      hide Threaded, Distinct;
      if next[instance] == Off {
        OffMeans(next[..], list, instance);
        PushThreads(next[..], list, instance);
        ghost var links, before := next[..], list;
        // Not on the schedule.
        match tail {
          case Head => head := To(instance);
          case LinkOf(last) => next[last] := To(instance);
        }
        tail := LinkOf(instance);
        next[instance] := End;
        list := list + [instance];
        assert before == [] ==> list == [instance] && next[..] == links[instance := End];
        assert before != [] ==> next[..] == links[before[|before| - 1] := To(instance)][instance := End];
      } else {
        OffMeans(next[..], list, instance);
      }
    }

    /** Pushes an instance and all instances that are linked to it. */
    method PushLinked(instance: nat, linked: seq<nat>)
      requires Valid() && instance < next.Length && forall k :: 0 <= k < |linked| ==> linked[k] < next.Length
      modifies this, next
      ensures Valid() && next == old(next) && list == PushedAll(old(list), [instance] + linked)
    {
      hide Threaded, Distinct, Pushed, HeadOf, TailOf;
      Push(instance);
      assert ([instance] + linked)[..1] == [instance];
      var k := 0;
      while k < |linked|
        invariant 0 <= k <= |linked| && Valid() && next == old(next)
        invariant list == PushedAll(old(list), ([instance] + linked)[..k + 1])
      {
        assert ([instance] + linked)[..k + 2][..k + 1] == ([instance] + linked)[..k + 1];
        Push(linked[k]);
        k := k + 1;
      }
      assert ([instance] + linked)[..k + 1] == [instance] + linked;
    }

    /** Takes the first instance off the schedule. */
    method Pop() returns (instance: nat)
      requires Valid() && head != Off
      modifies this, next
      ensures Valid() && next == old(next) && instance < next.Length
      ensures old(list) == [instance] + list && next[instance] == Off
    {
      hide Threaded, Distinct;
      PopThreads(next[..], list);
      OffMeans(next[..], list, list[0]);
      instance := head.instance;
      head := next[instance];
      if head == End {
        head := Off;
        tail := Head;
      }
      next[instance] := Off;
      list := list[1..];
    }
  }
}
