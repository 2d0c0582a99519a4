/** Every step of the lock protocol keeps the invariant. */
module LockProtocolInvariant {
  import opened InstanceSets
  import opened ReaderWriterLock
  import opened LockProtocol

  // ----- holders

  lemma SameHoldersAll(c: Config, s: State, s': State)
    requires Shaped(c, s) && Shaped(c, s')
    requires forall t, k :: 0 <= t < |c.sets| ==> HoldsAt(c, s, t, k) == HoldsAt(c, s', t, k)
    ensures forall l, w :: Holders(c, s, l, w) == Holders(c, s', l, w)
  {
  }

  /** Only task `t` changes, and only at position `k`, which it gains or loses. */
  lemma OneTaskGains(c: Config, s: State, s': State, t: nat, k: nat)
    requires ValidConfig(c) && Shaped(c, s) && Shaped(c, s') && t < |c.sets| && k < |c.sets[t]|
    requires !HoldsAt(c, s, t, k) && HoldsAt(c, s', t, k)
    requires forall u, j :: 0 <= u < |c.sets| && (u != t || j != k) ==> HoldsAt(c, s, u, j) == HoldsAt(c, s', u, j)
    ensures forall l, w :: Holders(c, s', l, w) ==
                           if c.sets[t][k].instance == l && Writes(c.sets[t][k]) == w
                           then Holders(c, s, l, w) + {t} else Holders(c, s, l, w)
    ensures forall w :: t !in Holders(c, s, c.sets[t][k].instance, w)
  {
  }

  /** The waiters of a granted batch gain the lock they waited for, and nothing else changes. */
  lemma BatchGains(c: Config, s: State, s': State, ts: seq<nat>, l: nat, read: bool, e: nat)
    requires ValidConfig(c) && Shaped(c, s) && Shaped(c, s')
    requires forall i :: 0 <= i < |ts| ==> WaitsFor(c, s, ts[i], l, read)
    requires s'.pos == s.pos && s'.place == Moved(s.place, ts, Granted(e))
    ensures forall m, w :: Holders(c, s', m, w) ==
                           if m == l && w == !read then Holders(c, s, m, w) + set t | t in ts else Holders(c, s, m, w)
    ensures forall t, w :: t in ts ==> t !in Holders(c, s, l, w)
  {
    forall t | t in ts
      ensures forall w :: t !in Holders(c, s, l, w)
      ensures HoldsAt(c, s', t, s.pos[t] - 1)
      ensures forall k :: k != s.pos[t] - 1 ==> HoldsAt(c, s, t, k) == HoldsAt(c, s', t, k)
    {
      assert WaitsFor(c, s, t, l, read);
    }
    forall m, w
      ensures Holders(c, s', m, w) ==
              if m == l && w == !read then Holders(c, s, m, w) + set t | t in ts else Holders(c, s, m, w)
    {
      forall t: nat | t < |c.sets|
        ensures Holds(c, s', t, m, w) <==> Holds(c, s, t, m, w) || (m == l && w == !read && t in ts)
      {
        if t in ts {
          assert WaitsFor(c, s, t, l, read);
          assert HoldsAt(c, s', t, s.pos[t] - 1);
        } else {
          assert forall k :: HoldsAt(c, s, t, k) == HoldsAt(c, s', t, k);
        }
      }
    }
  }

  ghost function Elements(ts: seq<nat>): set<nat> { set t | t in ts }

  lemma {:induction false} CountDistinct(ts: seq<nat>)
    requires NoDuplicates(ts)
    ensures |Elements(ts)| == |ts|
  {
    if ts != [] {
      Tail(ts);
      CountDistinct(ts[1..]);
      assert Elements(ts) == {ts[0]} + Elements(ts[1..]);
    } else {
      assert Elements(ts) == {};
    }
  }

  /** A list that loses its head: what is left, and that the head is not in it. */
  lemma Tail(q: seq<nat>)
    requires q != [] && NoDuplicates(q)
    ensures NoDuplicates(q[1..]) && q[0] in q
    ensures forall t :: t in q[1..] <==> t in q && t != q[0]
  {
    forall t | t in q && t != q[0] ensures t in q[1..] {
      var i :| 0 <= i < |q| && q[i] == t;
      assert q[1..][i - 1] == t;
    }
  }

  lemma Appended(q: seq<nat>, t: nat)
    requires NoDuplicates(q) && t !in q
    ensures NoDuplicates(q + [t])
    ensures forall u :: u in q + [t] <==> u in q || u == t
  {
  }

  // ----- steps that move one task and leave the locks alone

  ghost predicate ListsInv(c: Config, s: State)
    requires ValidConfig(c) && Shaped(c, s)
  {
    && (forall e :: 0 <= e < c.executors ==> ExecutorInv(c, s, e))
    && (forall t :: 0 <= t < |c.sets| ==> TaskInv(c, s, t))
  }

  ghost predicate LocksInv(c: Config, s: State)
    requires ValidConfig(c) && Shaped(c, s)
  {
    && (forall l :: 0 <= l < c.locks ==> QueueInv(c, s, l))
    && (forall l :: 0 <= l < c.locks ==> LockInv(c, s, l))
  }

  /** Task `t` apart, an executor has the same lists and runs the same task. */
  ghost predicate SameBut(x: Executor, x': Executor, t: nat) {
    && (forall u :: u != t ==> (u in x'.idle <==> u in x.idle))
    && (forall u :: u != t ==> (u in x'.ready <==> u in x.ready))
    && (forall u :: u != t ==> (u in x'.batch <==> u in x.batch))
    && (forall u :: u != t ==> (x'.current == Task(u) <==> x.current == Task(u)))
    && NoDuplicates(x'.idle) && NoDuplicates(x'.ready) && NoDuplicates(x'.batch)
  }

  /** The lists of executor `e` agree with the place of task `t`. */
  ghost predicate Placed(c: Config, s: State, e: nat, t: nat)
    requires ValidConfig(c) && Shaped(c, s) && e < c.executors && t < |c.sets|
  {
    var x := s.executors[e];
    && (t in x.idle ==> c.owner[t] == e && s.place[t] == Idle)
    && (t in x.ready ==> c.owner[t] == e && s.place[t] == Ready)
    && (t in x.batch ==> s.place[t] == Granted(e))
    && (x.current == Task(t) ==> c.owner[t] == e && Running(s.place[t]))
    && (x.batch != [] ==> RunsAt(c, s, e, Releasing))
    && (x.exited ==> x.current == Nothing)
  }

  lemma MoveKeepsLists(c: Config, s: State, s': State, t: nat)
    requires ValidConfig(c) && Shaped(c, s) && Shaped(c, s') && ListsInv(c, s) && t < |c.sets|
    requires forall u :: 0 <= u < |c.sets| && u != t ==> s'.place[u] == s.place[u] && s'.pos[u] == s.pos[u]
    requires forall l :: 0 <= l < c.locks ==> forall w :: w in s.locks[l].queue && w.task != t ==>
      w in s'.locks[l].queue
    requires TaskInv(c, s', t)
    requires forall e :: 0 <= e < c.executors ==> SameBut(s.executors[e], s'.executors[e], t) && Placed(c, s', e, t)
    ensures ListsInv(c, s')
  {
    forall u: nat | u < |c.sets| ensures TaskInv(c, s', u) {
      assert TaskInv(c, s, u);
    }
    forall e: nat | e < c.executors ensures ExecutorInv(c, s', e) {
      assert ExecutorInv(c, s, e);
    }
  }

  lemma MoveKeepsLocks(c: Config, s: State, s': State)
    requires ValidConfig(c) && Shaped(c, s) && Shaped(c, s') && LocksInv(c, s)
    requires s'.locks == s.locks
    requires forall u :: 0 <= u < |c.sets| && s.place[u] == Waiting ==> s'.place[u] == Waiting && s'.pos[u] == s.pos[u]
    requires forall t, k :: 0 <= t < |c.sets| ==> HoldsAt(c, s, t, k) == HoldsAt(c, s', t, k)
    ensures LocksInv(c, s')
  {
    SameHoldersAll(c, s, s');
    forall l: nat | l < c.locks ensures QueueInv(c, s', l) && LockInv(c, s', l) {
      assert QueueInv(c, s, l) && LockInv(c, s, l);
      forall i | 0 <= i < |s.locks[l].queue| ensures WaitsFor(c, s', s.locks[l].queue[i].task, l,
          s.locks[l].queue[i].read) {
        assert WaitsFor(c, s, s.locks[l].queue[i].task, l, s.locks[l].queue[i].read);
      }
    }
  }

  /** Starting a task takes it off the list it was on, and leaves all others where they are. */
  lemma StartMovesOne(x: Executor, t: nat, fromIdle: bool)
    requires NoDuplicates(x.idle) && NoDuplicates(x.ready) && NoDuplicates(x.batch) && x.current == Nothing
    requires if fromIdle then x.idle != [] && x.idle[0] == t else x.ready != [] && x.ready[0] == t
    ensures var x' := if fromIdle then x.(idle := x.idle[1..], current := Task(t)) else x.(ready := x.ready[1..],
      current := Task(t));
            SameBut(x, x', t) && (if fromIdle then t !in x'.idle else t !in x'.ready)
  {
    Tail(if fromIdle then x.idle else x.ready);
  }

  lemma FinishMovesOne(x: Executor, t: nat)
    requires NoDuplicates(x.idle) && NoDuplicates(x.ready) && NoDuplicates(x.batch) && x.current == Task(t)
    requires t !in x.idle
    ensures SameBut(x, x.(idle := x.idle + [t], current := Nothing), t)
  {
    Appended(x.idle, t);
  }

  lemma SameAsItself(x: Executor, t: nat)
    requires NoDuplicates(x.idle) && NoDuplicates(x.ready) && NoDuplicates(x.batch)
    ensures SameBut(x, x, t)
  {
  }

  lemma StartPlaces(c: Config, s: State, e: nat, f: nat)
    requires ValidConfig(c) && Shaped(c, s) && Enabled(c, s, Start(e)) && f < c.executors
    requires ExecutorInv(c, s, e) && ExecutorInv(c, s, f)
    ensures var s', t := Next(c, s, Start(e)), s.executors[e].idle[0];
            Shaped(c, s') && SameBut(s.executors[f], s'.executors[f], t) && Placed(c, s', f, t)
  {
    hide NoDuplicates, SameBut;
    var t := s.executors[e].idle[0];
    StartMovesOne(s.executors[e], t, true);
    SameAsItself(s.executors[f], t);
    assert ExecutorShaped(c, s.executors[e]);
  }

  lemma StartKeepsLists(c: Config, s: State, e: nat)
    requires ValidConfig(c) && Shaped(c, s) && ListsInv(c, s) && Enabled(c, s, Start(e))
    ensures Shaped(c, Next(c, s, Start(e))) && ListsInv(c, Next(c, s, Start(e)))
  {
    hide ListsInv, SameBut, Placed;
    var s' := Next(c, s, Start(e));
    var t := s.executors[e].idle[0];
    InvOf(c, s, e);
    forall f: nat | f < c.executors
      ensures Shaped(c, s') && SameBut(s.executors[f], s'.executors[f], t) && Placed(c, s', f, t)
    {
      InvOf(c, s, f);
      StartPlaces(c, s, e, f);
    }
    StartPlaces(c, s, e, e);
    MoveKeepsLists(c, s, s', t);
  }

  lemma StartKeepsInv(c: Config, s: State, e: nat)
    requires ValidConfig(c) && Inv(c, s) && Enabled(c, s, Start(e))
    ensures Inv(c, Next(c, s, Start(e)))
  {
    hide QueueInv, LockInv, NoDuplicates, TaskInv;
    var s' := Next(c, s, Start(e));
    StartKeepsLists(c, s, e);
    assert ExecutorInv(c, s, e);
    MoveKeepsLocks(c, s, s');
  }

  lemma ResumePlaces(c: Config, s: State, e: nat, f: nat)
    requires ValidConfig(c) && Shaped(c, s) && Enabled(c, s, Resume(e)) && f < c.executors
    requires ExecutorInv(c, s, e) && ExecutorInv(c, s, f)
    ensures var s', t := Next(c, s, Resume(e)), s.executors[e].ready[0];
            Shaped(c, s') && SameBut(s.executors[f], s'.executors[f], t) && Placed(c, s', f, t)
  {
    hide NoDuplicates, SameBut;
    var t := s.executors[e].ready[0];
    StartMovesOne(s.executors[e], t, false);
    SameAsItself(s.executors[f], t);
    assert ExecutorShaped(c, s.executors[e]);
  }

  lemma ResumeKeepsLists(c: Config, s: State, e: nat)
    requires ValidConfig(c) && Shaped(c, s) && ListsInv(c, s) && Enabled(c, s, Resume(e))
    ensures Shaped(c, Next(c, s, Resume(e))) && ListsInv(c, Next(c, s, Resume(e)))
  {
    hide ListsInv, SameBut, Placed;
    var s' := Next(c, s, Resume(e));
    var t := s.executors[e].ready[0];
    InvOf(c, s, e);
    forall f: nat | f < c.executors
      ensures Shaped(c, s') && SameBut(s.executors[f], s'.executors[f], t) && Placed(c, s', f, t)
    {
      InvOf(c, s, f);
      ResumePlaces(c, s, e, f);
    }
    ResumePlaces(c, s, e, e);
    MoveKeepsLists(c, s, s', t);
  }

  lemma ResumeKeepsInv(c: Config, s: State, e: nat)
    requires ValidConfig(c) && Inv(c, s) && Enabled(c, s, Resume(e))
    ensures Inv(c, Next(c, s, Resume(e)))
  {
    hide QueueInv, LockInv, NoDuplicates, TaskInv;
    var s' := Next(c, s, Resume(e));
    ResumeKeepsLists(c, s, e);
    assert ExecutorInv(c, s, e);
    MoveKeepsLocks(c, s, s');
  }

  lemma InvOf(c: Config, s: State, e: nat)
    requires ValidConfig(c) && Shaped(c, s) && ListsInv(c, s) && e < c.executors
    ensures ExecutorInv(c, s, e)
  {
  }

  /** Giving the head of a batch away, or taking it onto the ready list, leaves all other tasks where they are. */
  lemma DeliverMovesOne(x: Executor, x': Executor, t: nat, gives: bool, takes: bool)
    requires NoDuplicates(x.idle) && NoDuplicates(x.ready) && NoDuplicates(x.batch) && t !in x.ready
    requires gives ==> x.batch != [] && x.batch[0] == t
    requires x' == x.(batch := if gives then x.batch[1..] else x.batch, ready := if takes then x.ready + [t]
      else x.ready)
    ensures SameBut(x, x', t) && (gives ==> t !in x'.batch) && (x'.batch != [] ==> x.batch != [])
    ensures t in x'.ready <==> takes
  {
    Appended(x.ready, t);
    if gives {
      Tail(x.batch);
    }
  }

  lemma DeliverShaped(c: Config, x: Executor, x': Executor, t: nat, gives: bool, takes: bool)
    requires ExecutorShaped(c, x) && t < |c.sets| && (gives ==> x.batch != [])
    requires x' == x.(batch := if gives then x.batch[1..] else x.batch, ready := if takes then x.ready + [t]
      else x.ready)
    ensures ExecutorShaped(c, x')
  {
  }

  lemma DeliverPlaces(c: Config, s: State, s': State, e: nat, t: nat, f: nat)
    requires ValidConfig(c) && Shaped(c, s) && e < c.executors && t < |c.sets| && f < c.executors
    requires ExecutorInv(c, s, e) && ExecutorInv(c, s, f)
    requires s.executors[e].batch != [] && s.executors[e].batch[0] == t
    requires s'.pos == s.pos && s'.place == s.place[t := Ready] && s'.executors == Delivered(s.executors, e, c.owner[t])
    ensures ExecutorShaped(c, s'.executors[f])
    ensures Shaped(c, s') ==> SameBut(s.executors[f], s'.executors[f], t) && Placed(c, s', f, t)
  {
    hide NoDuplicates, SameBut, ExecutorShaped;
    assert s.place[t] == Granted(e);
    DeliverMovesOne(s.executors[f], s'.executors[f], t, f == e, f == c.owner[t]);
    DeliverShaped(c, s.executors[f], s'.executors[f], t, f == e, f == c.owner[t]);
  }

  lemma DeliverKeepsLists(c: Config, s: State, s': State, e: nat, t: nat)
    requires ValidConfig(c) && Shaped(c, s) && ListsInv(c, s) && e < c.executors && t < |c.sets|
    requires s.executors[e].batch != [] && s.executors[e].batch[0] == t
    requires s'.locks == s.locks && s'.pos == s.pos && s'.place == s.place[t := Ready]
    requires s'.executors == Delivered(s.executors, e, c.owner[t])
    ensures Shaped(c, s') && ListsInv(c, s')
  {
    hide ListsInv, ExecutorShaped, SameBut, Placed;
    forall f: nat | f < c.executors
      ensures ExecutorShaped(c, s'.executors[f])
      ensures Shaped(c, s') ==> SameBut(s.executors[f], s'.executors[f], t) && Placed(c, s', f, t)
    {
      InvOf(c, s, e);
      InvOf(c, s, f);
      DeliverPlaces(c, s, s', e, t, f);
    }
    MoveKeepsLists(c, s, s', t);
  }

  lemma DeliverKeepsInv(c: Config, s: State, e: nat)
    requires ValidConfig(c) && Inv(c, s) && Enabled(c, s, Deliver(e))
    ensures Inv(c, Next(c, s, Deliver(e)))
  {
    var s' := Next(c, s, Deliver(e));
    assert ExecutorInv(c, s, e);
    DeliverKeepsLists(c, s, s', e, s.executors[e].batch[0]);
    MoveKeepsLocks(c, s, s');
  }

  lemma StageKeepsLists(c: Config, s: State, e: nat, step: Step)
    requires ValidConfig(c) && Shaped(c, s) && ListsInv(c, s) && Enabled(c, s, step)
    requires step == Begin(e) || step == End(e)
    ensures Shaped(c, Next(c, s, step)) && ListsInv(c, Next(c, s, step))
  {
    hide ListsInv, SameBut, NoDuplicates;
    var s' := Next(c, s, step);
    var t := s.executors[e].current.id;
    InvOf(c, s, e);
    forall f: nat | f < c.executors ensures SameBut(s.executors[f], s'.executors[f], t) && Placed(c, s', f, t) {
      InvOf(c, s, f);
      SameAsItself(s.executors[f], t);
    }
    MoveKeepsLists(c, s, s', t);
  }

  lemma StageKeepsInv(c: Config, s: State, e: nat, step: Step)
    requires ValidConfig(c) && Inv(c, s) && Enabled(c, s, step)
    requires step == Begin(e) || step == End(e)
    ensures Inv(c, Next(c, s, step))
  {
    hide QueueInv, LockInv, NoDuplicates;
    StageKeepsLists(c, s, e, step);
    assert ExecutorInv(c, s, e) && TaskInv(c, s, s.executors[e].current.id);
    MoveKeepsLocks(c, s, Next(c, s, step));
  }

  lemma FinishPlaces(c: Config, s: State, e: nat, f: nat)
    requires ValidConfig(c) && Shaped(c, s) && Enabled(c, s, Finish(e)) && f < c.executors
    requires ExecutorInv(c, s, e) && ExecutorInv(c, s, f)
    ensures var s', t := Next(c, s, Finish(e)), s.executors[e].current.id;
            Shaped(c, s') && SameBut(s.executors[f], s'.executors[f], t) && Placed(c, s', f, t)
  {
    hide NoDuplicates, SameBut;
    var t := s.executors[e].current.id;
    FinishMovesOne(s.executors[e], t);
    SameAsItself(s.executors[f], t);
    assert ExecutorShaped(c, s.executors[e]);
  }

  lemma FinishKeepsLists(c: Config, s: State, e: nat)
    requires ValidConfig(c) && Shaped(c, s) && ListsInv(c, s) && Enabled(c, s, Finish(e))
    ensures Shaped(c, Next(c, s, Finish(e))) && ListsInv(c, Next(c, s, Finish(e)))
  {
    hide ListsInv, SameBut, Placed;
    var s' := Next(c, s, Finish(e));
    var t := s.executors[e].current.id;
    InvOf(c, s, e);
    forall f: nat | f < c.executors
      ensures Shaped(c, s') && SameBut(s.executors[f], s'.executors[f], t) && Placed(c, s', f, t)
    {
      InvOf(c, s, f);
      FinishPlaces(c, s, e, f);
    }
    FinishPlaces(c, s, e, e);
    MoveKeepsLists(c, s, s', t);
  }

  lemma FinishKeepsInv(c: Config, s: State, e: nat)
    requires ValidConfig(c) && Inv(c, s) && Enabled(c, s, Finish(e))
    ensures Inv(c, Next(c, s, Finish(e)))
  {
    hide QueueInv, LockInv, NoDuplicates, TaskInv;
    var s' := Next(c, s, Finish(e));
    FinishKeepsLists(c, s, e);
    assert ExecutorInv(c, s, e);
    MoveKeepsLocks(c, s, s');
  }

  /** Returning from the loop leaves all tasks where they are, also those that nobody resumes any more. */
  lemma ExitKeepsInv(c: Config, s: State, e: nat)
    requires ValidConfig(c) && Inv(c, s) && Enabled(c, s, Exit(e))
    ensures Inv(c, Next(c, s, Exit(e)))
  {
    hide NoDuplicates, WaitsFor, WellFormed;
    var s' := Next(c, s, Exit(e));
    forall f: nat | f < c.executors ensures ExecutorShaped(c, s'.executors[f]) {
      assert ExecutorShaped(c, s.executors[f]);
    }
    assert Shaped(c, s');
    forall f: nat | f < c.executors ensures ExecutorInv(c, s', f) {
      assert ExecutorInv(c, s, f) && ExecutorInv(c, s, e);
    }
    forall t: nat | t < |c.sets| ensures TaskInv(c, s', t) {
      assert TaskInv(c, s, t);
    }
    MoveKeepsLocks(c, s, s');
  }

  // ----- asking for a lock

  lemma AcquirePlaces(c: Config, s: State, e: nat, f: nat)
    requires ValidConfig(c) && Shaped(c, s) && Enabled(c, s, Acquire(e)) && f < c.executors
    requires ExecutorInv(c, s, e) && ExecutorInv(c, s, f) && Shaped(c, Next(c, s, Acquire(e)))
    ensures var s', t := Next(c, s, Acquire(e)), s.executors[e].current.id;
            SameBut(s.executors[f], s'.executors[f], t) && Placed(c, s', f, t)
  {
    hide NoDuplicates;
  }

  lemma AcquireShape(c: Config, s: State, e: nat)
    requires ValidConfig(c) && Shaped(c, s) && ListsInv(c, s) && Enabled(c, s, Acquire(e))
    ensures var s', t := Next(c, s, Acquire(e)), s.executors[e].current.id;
            && Shaped(c, s') && TaskInv(c, s', t)
            && forall l :: 0 <= l < c.locks ==> forall w :: w in s.locks[l].queue ==> w in s'.locks[l].queue
  {
    assert TaskInv(c, s, s.executors[e].current.id);
  }

  lemma AcquireKeepsLists(c: Config, s: State, s': State, e: nat)
    requires ValidConfig(c) && Shaped(c, s) && ListsInv(c, s) && Enabled(c, s, Acquire(e))
    requires s' == Next(c, s, Acquire(e))
    ensures Shaped(c, s') && ListsInv(c, s')
  {
    hide ListsInv, TaskInv, SameBut, Placed;
    var t := s.executors[e].current.id;
    AcquireShape(c, s, e);
    forall f: nat | f < c.executors ensures SameBut(s.executors[f], s'.executors[f], t) && Placed(c, s', f, t) {
      InvOf(c, s, e);
      InvOf(c, s, f);
      AcquirePlaces(c, s, e, f);
    }
    MoveKeepsLists(c, s, s', t);
  }

  /** The queues after task `t`, which waited for nothing, asked for a lock. */
  lemma AcquireKeepsQueues(c: Config, s: State, e: nat, l: nat)
    requires ValidConfig(c) && Inv(c, s) && Enabled(c, s, Acquire(e)) && l < c.locks
    ensures Shaped(c, Next(c, s, Acquire(e))) && QueueInv(c, Next(c, s, Acquire(e)), l)
  {
    hide LockInv, Holders, HoldsAt, ExecutorInv, WellFormed;
    var s' := Next(c, s, Acquire(e));
    var t := s.executors[e].current.id;
    assert QueueInv(c, s, l);
    var (q, q') := (s.locks[l].queue, s'.locks[l].queue);
    forall i | 0 <= i < |q| ensures q[i].task != t && WaitsFor(c, s', q[i].task, l, q[i].read) {
      assert WaitsFor(c, s, q[i].task, l, q[i].read);
    }
    assert q' == q || (q' == q + [Waiter(t, !Writes(c.sets[t][s.pos[t]]))] && WaitsFor(c, s', t, l, q'[|q|].read));
  }

  /** The count and the holders of one lock, as in `LockInv`. */
  ghost predicate Counted(lock: LockState, readers: set<nat>, writers: set<nat>) {
    && WellFormed(lock)
    && lock.count == |readers| - |writers|
    && (lock.count == -1 ==> readers == {})
    && (lock.count >= 0 ==> writers == {})
  }

  lemma CountAfterRequest(lock: LockState, entry: Entry, t: nat, readers: set<nat>, writers: set<nat>)
    requires Counted(lock, readers, writers) && t !in readers && t !in writers
    ensures var r := AskFor(lock, t, entry);
            Counted(r.lock,
                    if r.parked || Writes(entry) then readers else readers + {t},
                    if r.parked || !Writes(entry) then writers else writers + {t})
  {
  }

  lemma AcquireKeepsLock(c: Config, s: State, e: nat, l: nat)
    requires ValidConfig(c) && Inv(c, s) && Enabled(c, s, Acquire(e)) && l < c.locks
    requires Shaped(c, Next(c, s, Acquire(e)))
    ensures LockInv(c, Next(c, s, Acquire(e)), l)
  {
    var s' := Next(c, s, Acquire(e));
    var t := s.executors[e].current.id;
    var entry := c.sets[t][s.pos[t]];
    assert LockInv(c, s, l);
    if s'.place[t] == Waiting {
      SameHoldersAll(c, s, s');
    } else {
      OneTaskGains(c, s, s', t, s.pos[t]);
    }
    if l == entry.instance {
      NotYetHeld(c, s, t);
      CountAfterRequest(s.locks[l], entry, t, Holders(c, s, l, false), Holders(c, s, l, true));
    }
  }

  /** A task does not hold the lock it is about to ask for. */
  lemma NotYetHeld(c: Config, s: State, t: nat)
    requires ValidConfig(c) && Shaped(c, s) && t < |c.sets| && s.place[t] == Acquiring && s.pos[t] < |c.sets[t]|
    ensures forall w :: t !in Holders(c, s, c.sets[t][s.pos[t]].instance, w)
  {
  }

  lemma AcquireKeepsInv(c: Config, s: State, e: nat)
    requires ValidConfig(c) && Inv(c, s) && Enabled(c, s, Acquire(e))
    ensures Inv(c, Next(c, s, Acquire(e)))
  {
    AcquireKeepsLists(c, s, Next(c, s, Acquire(e)), e);
    forall l: nat | l < c.locks
      ensures QueueInv(c, Next(c, s, Acquire(e)), l) && LockInv(c, Next(c, s, Acquire(e)), l)
    {
      AcquireKeepsQueues(c, s, e, l);
      AcquireKeepsLock(c, s, e, l);
    }
  }

  // ----- releasing a lock

  /** A task that releases a lock holds it, and the count of the lock says so. */
  lemma UnlockerHolds(c: Config, s: State, e: nat)
    requires ValidConfig(c) && Inv(c, s) && Enabled(c, s, Unlock(e))
    ensures var t := s.executors[e].current.id; var entry := c.sets[t][s.pos[t]];
            && entry.instance < c.locks && WellFormed(s.locks[entry.instance])
            && if Writes(entry) then s.locks[entry.instance].count == -1 else s.locks[entry.instance].count > 0
  {
    hide QueueInv, TaskInv, ExecutorInv;
    var t := s.executors[e].current.id;
    var k := s.pos[t];
    var l := c.sets[t][k].instance;
    assert LockInv(c, s, l);
    assert HoldsAt(c, s, t, k);
    assert t in Holders(c, s, l, Writes(c.sets[t][k]));
  }

  /** What an unlock takes out of the queue of lock `l`: distinct waiters of that lock, of one kind. */
  lemma GrantedWaiters(c: Config, s: State, e: nat)
    requires ValidConfig(c) && Inv(c, s) && Enabled(c, s, Unlock(e))
    ensures var t := s.executors[e].current.id; var entry := c.sets[t][s.pos[t]];
            var lock := s.locks[entry.instance]; var r := GiveUp(lock, entry); var ts := TaskIds(r.granted);
            && entry.instance < c.locks
            && (if Writes(entry) then lock.count == -1 else lock.count > 0)
            && NoDuplicates(ts)
            && (forall i :: 0 <= i < |ts| ==> WaitsFor(c, s, ts[i], entry.instance, r.granted[i].read))
            && (forall i :: 0 <= i < |ts| ==> r.granted[i].read == r.granted[0].read)
            && lock.queue == r.granted + r.lock.queue
            && WellFormed(r.lock)
  {
    hide LockInv, TaskInv, ExecutorInv, Holders, HoldsAt, GiveUp, WellFormed;
    UnlockerHolds(c, s, e);
    var t := s.executors[e].current.id;
    var entry := c.sets[t][s.pos[t]];
    var lock := s.locks[entry.instance];
    assert QueueInv(c, s, entry.instance);
    GivesUpPrefix(lock, entry);
    var r := GiveUp(lock, entry);
    forall i | 0 <= i < |r.granted| ensures lock.queue[i] == r.granted[i] {
    }
  }

  /** An unlock grants waiters of one kind from the front of the queue. */
  lemma GivesUpPrefix(lock: LockState, entry: Entry)
    requires WellFormed(lock) && if Writes(entry) then lock.count == -1 else lock.count > 0
    ensures var r := GiveUp(lock, entry);
            && lock.queue == r.granted + r.lock.queue && WellFormed(r.lock)
            && forall i :: 0 <= i < |r.granted| ==> r.granted[i].read == r.granted[0].read
  {
    ServiceIsMaximal(lock, 0);
    var r := GiveUp(lock, entry);
    assert lock.queue == r.granted + r.lock.queue;
    forall i | 0 <= i < |r.granted| ensures r.granted[i] in r.granted {
    }
  }

  /** The tasks that an unlock grants were waiting, and it takes them all out of the queue. */
  lemma GrantedLeave(c: Config, s: State, e: nat)
    requires ValidConfig(c) && Inv(c, s) && Enabled(c, s, Unlock(e))
    ensures var t := s.executors[e].current.id; var entry := c.sets[t][s.pos[t]];
            && entry.instance < c.locks
            && var r := GiveUp(s.locks[entry.instance], entry); var ts := TaskIds(r.granted);
               && NoDuplicates(ts) && (forall u :: u in ts ==> u < |c.sets| && s.place[u] == Waiting)
               && (forall w :: w in s.locks[entry.instance].queue && w.task !in ts ==> w in r.lock.queue)
  {
    hide LockInv, QueueInv, TaskInv, ExecutorInv, Holders, HoldsAt, WellFormed;
    GrantedWaiters(c, s, e);
    var t := s.executors[e].current.id;
    var entry := c.sets[t][s.pos[t]];
    var r := GiveUp(s.locks[entry.instance], entry);
    assert forall i :: 0 <= i < |r.granted| ==> r.granted[i].task == TaskIds(r.granted)[i];
  }

  lemma UnlockKeepsTask(c: Config, s: State, e: nat, u: nat)
    requires ValidConfig(c) && Inv(c, s) && Enabled(c, s, Unlock(e)) && u < |c.sets|
    requires Shaped(c, Next(c, s, Unlock(e)))
    ensures TaskInv(c, Next(c, s, Unlock(e)), u)
  {
    hide QueueInv, LockInv, Holders, HoldsAt, ExecutorInv, NoDuplicates, WellFormed, GiveUp;
    GrantedLeave(c, s, e);
    assert s.executors[e].batch == [] && c.owner[s.executors[e].current.id] == e by {
      assert ExecutorInv(c, s, e);
      OwnerOfCurrent(c, s, e);
    }
    assert TaskInv(c, s, u);
  }

  lemma OwnerOfCurrent(c: Config, s: State, e: nat)
    requires ValidConfig(c) && Shaped(c, s) && e < c.executors && ExecutorInv(c, s, e) && s.executors[e].current.Task?
    ensures c.owner[s.executors[e].current.id] == e
  {
  }

  lemma UnlockKeepsExecutor(c: Config, s: State, e: nat, f: nat)
    requires ValidConfig(c) && Inv(c, s) && Enabled(c, s, Unlock(e)) && f < c.executors
    requires Shaped(c, Next(c, s, Unlock(e)))
    ensures ExecutorInv(c, Next(c, s, Unlock(e)), f)
  {
    hide QueueInv, LockInv, Holders, HoldsAt, TaskInv, WellFormed, NoDuplicates, GiveUp;
    GrantedLeave(c, s, e);
    assert ExecutorInv(c, s, f) && ExecutorInv(c, s, e);
  }

  lemma UnlockKeepsLists(c: Config, s: State, e: nat)
    requires ValidConfig(c) && Inv(c, s) && Enabled(c, s, Unlock(e))
    ensures Shaped(c, Next(c, s, Unlock(e))) && ListsInv(c, Next(c, s, Unlock(e)))
  {
    hide QueueInv, LockInv, Holders, HoldsAt, ExecutorInv, TaskInv, WellFormed;
    var s' := Next(c, s, Unlock(e));
    var t := s.executors[e].current.id;
    var entry := c.sets[t][s.pos[t]];
    var ts := TaskIds(GiveUp(s.locks[entry.instance], entry).granted);
    GrantedWaiters(c, s, e);
    assert forall u :: u in ts ==> u < |c.sets|;
    assert ExecutorShaped(c, s'.executors[e]);
    forall f: nat | f < c.executors ensures ExecutorInv(c, s', f) { UnlockKeepsExecutor(c, s, e, f); }
    forall u: nat | u < |c.sets| ensures TaskInv(c, s', u) { UnlockKeepsTask(c, s, e, u); }
  }

  lemma UnlockKeepsQueues(c: Config, s: State, e: nat, l: nat)
    requires ValidConfig(c) && Inv(c, s) && Enabled(c, s, Unlock(e)) && l < c.locks
    requires Shaped(c, Next(c, s, Unlock(e)))
    ensures QueueInv(c, Next(c, s, Unlock(e)), l)
  {
    hide LockInv, Holders, HoldsAt, ExecutorInv, TaskInv, WellFormed, WaitsFor;
    var s' := Next(c, s, Unlock(e));
    var t := s.executors[e].current.id;
    var entry := c.sets[t][s.pos[t]];
    var r := GiveUp(s.locks[entry.instance], entry);
    var ts := TaskIds(r.granted);
    GrantedWaiters(c, s, e);
    assert QueueInv(c, s, l);
    hide GiveUp;
    var (q, q') := (s.locks[l].queue, s'.locks[l].queue);
    var skip := if l == entry.instance then |ts| else 0;
    assert q' == q[skip..];
    forall i | 0 <= i < |q'| ensures WaitsFor(c, s', q'[i].task, l, q'[i].read) {
      assert WaitsFor(c, s, q[skip + i].task, l, q[skip + i].read);
      forall j | 0 <= j < |ts| ensures ts[j] != q'[i].task {
        assert WaitsFor(c, s, ts[j], entry.instance, r.granted[j].read);
        assert s.locks[entry.instance].queue[j] == r.granted[j];
        if l != entry.instance && ts[j] == q'[i].task {
          WaitsForOne(c, s, ts[j], l, q'[i].read, entry.instance, r.granted[j].read);
        }
      }
      WaitsElsewhere(c, s, s', t, ts, e, q'[i].task, l, q'[i].read);
    }
  }

  lemma WaitsForOne(c: Config, s: State, u: nat, l: nat, read: bool, m: nat, read': bool)
    requires ValidConfig(c) && Shaped(c, s) && WaitsFor(c, s, u, l, read) && WaitsFor(c, s, u, m, read')
    ensures l == m
  {
  }

  /** A waiter that is not granted still waits for the same lock. */
  lemma WaitsElsewhere(c: Config, s: State, s': State, t: nat, ts: seq<nat>, e: nat, u: nat, l: nat, read: bool)
    requires ValidConfig(c) && Shaped(c, s) && Shaped(c, s') && t < |c.sets| && s.place[t] == Releasing
    requires s'.pos == s.pos[t := s.pos[t] + 1] && s'.place == Moved(s.place, ts, Granted(e))
    requires WaitsFor(c, s, u, l, read) && u !in ts
    ensures WaitsFor(c, s', u, l, read)
  {
  }

  lemma CountAfterUnlock(lock: LockState, entry: Entry, t: nat, readers: set<nat>, writers: set<nat>, ts: seq<nat>)
    requires Counted(lock, readers, writers)
    requires if Writes(entry) then lock.count == -1 && t in writers else lock.count > 0 && t in readers
    requires ts == TaskIds(GiveUp(lock, entry).granted) && NoDuplicates(ts)
    requires Elements(ts) !! readers - {t} && Elements(ts) !! writers - {t}
    ensures var r := GiveUp(lock, entry);
            var read := ts != [] && r.granted[0].read;
            var write := ts != [] && !r.granted[0].read;
            Counted(r.lock,
                    if read then readers - {t} + Elements(ts) else readers - {t},
                    if write then writers - {t} + Elements(ts) else writers - {t})
  {
    CountDistinct(ts);
    ServiceIsMaximal(lock, 0);
    if Writes(entry) {
      assert writers == {t} by {
        assert |writers - {t}| == 0;
      }
    } else if lock.count == 1 {
      assert |readers - {t}| == 0;
    }
  }

  /** Moving past a position while releasing gives up the lock at that position. */
  lemma ReleaseLoses(c: Config, s: State, mid: State, t: nat)
    requires ValidConfig(c) && Shaped(c, s) && t < |c.sets|
    requires s.place[t] == Releasing && s.pos[t] < |c.sets[t]|
    requires mid == s.(pos := s.pos[t := s.pos[t] + 1])
    ensures Shaped(c, mid)
    ensures var entry := c.sets[t][s.pos[t]];
            && t in Holders(c, s, entry.instance, Writes(entry))
            && (forall l, w :: l != entry.instance ==> Holders(c, mid, l, w) == Holders(c, s, l, w))
            && (forall w :: Holders(c, mid, entry.instance, w) == Holders(c, s, entry.instance, w) - {t})
  {
    OneTaskGains(c, mid, s, t, s.pos[t]);
  }

  lemma HoldersAfterUnlock(c: Config, s: State, e: nat)
    requires ValidConfig(c) && Inv(c, s) && Enabled(c, s, Unlock(e))
    requires Shaped(c, Next(c, s, Unlock(e)))
    ensures var s' := Next(c, s, Unlock(e));
            var t := s.executors[e].current.id;
            var entry := c.sets[t][s.pos[t]];
            var r := GiveUp(s.locks[entry.instance], entry);
            var ts := TaskIds(r.granted);
            && t in Holders(c, s, entry.instance, Writes(entry))
            && (forall l, w :: l != entry.instance ==> Holders(c, s', l, w) == Holders(c, s, l, w))
            && (forall w :: Elements(ts) !! Holders(c, s, entry.instance, w) - {t})
            && (forall w :: Holders(c, s', entry.instance, w) ==
                            if ts != [] && r.granted[0].read == !w
                            then Holders(c, s, entry.instance, w) - {t} + Elements(ts)
                            else Holders(c, s, entry.instance, w) - {t})
  {
    hide LockInv, QueueInv, ExecutorInv, TaskInv, WellFormed, Holders, WaitsFor, GiveUp, NoDuplicates;
    var s' := Next(c, s, Unlock(e));
    var t := s.executors[e].current.id;
    var k := s.pos[t];
    var entry := c.sets[t][k];
    var r := GiveUp(s.locks[entry.instance], entry);
    var ts := TaskIds(r.granted);
    GrantedWaiters(c, s, e);
    var mid := s.(pos := s'.pos);
    ReleaseLoses(c, s, mid, t);
    StillWaiting(c, s, mid, t, ts, r.granted, entry.instance);
    BatchGains(c, mid, s', ts, entry.instance, if ts == [] then true else r.granted[0].read, e);
    assert (set u | u in ts) == Elements(ts);
  }

  /** Waiters still wait for the same lock when another task has moved on. */
  lemma StillWaiting(c: Config, s: State, mid: State, t: nat, ts: seq<nat>, granted: seq<Waiter>, l: nat)
    requires ValidConfig(c) && Shaped(c, s) && Shaped(c, mid) && t < |c.sets| && s.place[t] == Releasing
    requires |ts| == |granted| && forall i :: 0 <= i < |ts| ==> granted[i].read == granted[0].read
    requires forall i :: 0 <= i < |ts| ==> WaitsFor(c, s, ts[i], l, granted[i].read)
    requires mid == s.(pos := s.pos[t := s.pos[t] + 1])
    ensures forall i :: 0 <= i < |ts| ==> WaitsFor(c, mid, ts[i], l, granted[0].read)
  {
    forall i | 0 <= i < |ts| ensures WaitsFor(c, mid, ts[i], l, granted[0].read) {
      assert WaitsFor(c, s, ts[i], l, granted[i].read);
    }
  }

  lemma UnlockKeepsLock(c: Config, s: State, e: nat, l: nat)
    requires ValidConfig(c) && Inv(c, s) && Enabled(c, s, Unlock(e)) && l < c.locks
    requires Shaped(c, Next(c, s, Unlock(e)))
    ensures LockInv(c, Next(c, s, Unlock(e)), l)
  {
    var t := s.executors[e].current.id;
    var entry := c.sets[t][s.pos[t]];
    assert LockInv(c, s, l);
    GrantedWaiters(c, s, e);
    HoldersAfterUnlock(c, s, e);
    if l == entry.instance {
      CountAfterUnlock(s.locks[l], entry, t, Holders(c, s, l, false), Holders(c, s, l, true),
                       TaskIds(GiveUp(s.locks[l], entry).granted));
    }
  }

  lemma UnlockKeepsInv(c: Config, s: State, e: nat)
    requires ValidConfig(c) && Inv(c, s) && Enabled(c, s, Unlock(e))
    ensures Inv(c, Next(c, s, Unlock(e)))
  {
    UnlockKeepsLists(c, s, e);
    forall l: nat | l < c.locks
      ensures QueueInv(c, Next(c, s, Unlock(e)), l) && LockInv(c, Next(c, s, Unlock(e)), l)
    {
      UnlockKeepsQueues(c, s, e, l);
      UnlockKeepsLock(c, s, e, l);
    }
  }
}
