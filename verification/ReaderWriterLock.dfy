/**
  The FIFO reader/writer lock that every component instance carries.  Its waiters are tasks, not
  threads: a refused task is queued and its executor goes on with something else.

  `LockState` is the value of a lock; the class `Info` is the lock itself, updated in place.
  */
module ReaderWriterLock {

  /** A queued task; `read` is the flag stored in the task when it is queued. */
  datatype Waiter = Waiter(task: nat, read: bool)

  /** `count` is the number of readers that hold the lock, or -1 for a writer. */
  datatype LockState = LockState(count: int, queue: seq<Waiter>)

  const UNLOCKED := LockState(0, [])

  ghost predicate WellFormed(l: LockState) {
    && l.count >= -1
    && (l.count == 0 ==> l.queue == [])
    && (l.count > 0 && l.queue != [] ==> !l.queue[0].read)
  }

  /** The outcome of a lock request: the new lock, and whether the task was queued. */
  datatype Request = Request(lock: LockState, parked: bool)

  function AfterReadLock(l: LockState, task: nat): Request {
    if l.count == 0 || (l.count > 0 && l.queue == [])
    then Request(l.(count := l.count + 1), false)
    else Request(l.(queue := l.queue + [Waiter(task, true)]), true)
  }

  function AfterWriteLock(l: LockState, task: nat): Request {
    if l.count == 0
    then Request(l.(count := -1), false)
    else Request(l.(queue := l.queue + [Waiter(task, false)]), true)
  }

  /** Number of readers at the front of a queue. */
  function LeadingReaders(q: seq<Waiter>): (n: nat)
    ensures n <= |q|
    ensures forall i :: 0 <= i < n ==> q[i].read
    ensures n < |q| ==> !q[n].read
  {
    if q == [] || !q[0].read then 0 else 1 + LeadingReaders(q[1..])
  }

  /** The outcome of an unlock: the new lock, and the tasks that were granted it. */
  datatype Release = Release(lock: LockState, granted: seq<Waiter>)

  function ProcessList(l: LockState): (r: Release)
    ensures r.granted + r.lock.queue == l.queue
  {
    if l.count == 0 && l.queue != [] then
      if l.queue[0].read then
        var n := LeadingReaders(l.queue);
        Release(LockState(n, l.queue[n..]), l.queue[..n])
      else
        Release(LockState(-1, l.queue[1..]), [l.queue[0]])
    else
      Release(l, [])
  }

  function AfterReadUnlock(l: LockState): Release {
    ProcessList(l.(count := l.count - 1))
  }

  function AfterWriteUnlock(l: LockState): Release {
    ProcessList(l.(count := l.count + 1))
  }

  // ----- the queue, threaded through the tasks

  /** A pointer to a task. */
  datatype Link = Null | To(task: nat)

  /** Where the next task will be linked from: the head of the queue, or a task. */
  datatype Slot = Head | NextOf(task: nat)

  ghost predicate Distinct(list: seq<nat>) {
    forall i, j :: 0 <= i < j < |list| ==> list[i] != list[j]
  }

  ghost function LinkAt(list: seq<nat>, k: nat): Link { if k < |list| then To(list[k]) else Null }

  ghost function TailOf(list: seq<nat>): Slot { if list == [] then Head else NextOf(list[|list| - 1]) }

  /** From `head` on, the links of the tasks lead through the list. */
  ghost predicate Threaded(links: seq<Link>, head: Link, list: seq<nat>) {
    && Distinct(list) && head == LinkAt(list, 0)
    && forall k: nat :: k < |list| ==> list[k] < |links| && links[list[k]] == LinkAt(list, k + 1)
  }

  ghost function TasksOf(queue: seq<Waiter>): seq<nat> { seq(|queue|, k requires 0 <= k < |queue| => queue[k].task) }

  lemma TasksOfParts(queue: seq<Waiter>, k: nat)
    requires k <= |queue|
    ensures TasksOf(queue[..k]) == TasksOf(queue)[..k] && TasksOf(queue[k..]) == TasksOf(queue)[k..]
  {
  }

  lemma TasksOfMore(queue: seq<Waiter>, w: Waiter)
    ensures TasksOf(queue + [w]) == TasksOf(queue) + [w.task]
  {
  }

  lemma DistinctMore(list: seq<nat>, t: nat)
    requires Distinct(list) && t !in list
    ensures Distinct(list + [t])
  {
  }

  lemma DistinctParts(list: seq<nat>, n: nat)
    requires Distinct(list) && n <= |list|
    ensures Distinct(list[..n]) && Distinct(list[n..])
  {
  }

  lemma Differ(list: seq<nat>, i: nat, j: nat)
    requires Distinct(list) && i < |list| && j < |list| && i != j
    ensures list[i] != list[j]
  {
  }

  /** A task at the end of the list. */
  lemma AppendThreads(links: seq<Link>, head: Link, list: seq<nat>, t: nat)
    requires Threaded(links, head, list) && t < |links| && links[t] == Null && t !in list
    ensures list != [] ==> list[|list| - 1] < |links|
    ensures Threaded(if list == [] then links else links[list[|list| - 1] := To(t)],
                     if list == [] then To(t) else head, list + [t])
  {
    hide Distinct;
    DistinctMore(list, t);
    if list != [] {
      var last := |list| - 1;
      assert links[list[last]] == LinkAt(list, last + 1);
      var links', list' := links[list[last] := To(t)], list + [t];
      forall k: nat | k < |list'|
        ensures list'[k] < |links| && links'[list'[k]] == LinkAt(list', k + 1)
      {
        if k < last {
          Differ(list, k, last);
          assert links[list[k]] == LinkAt(list, k + 1);
        } else if k > last {
          assert list[last] in list;
        }
      }
    }
  }

  lemma LinkOf(links: seq<Link>, head: Link, list: seq<nat>, k: nat)
    requires Threaded(links, head, list) && k < |list|
    ensures list[k] < |links| && links[list[k]] == LinkAt(list, k + 1)
  {
  }

  /** The list is cut after task `m`: what comes up to there, */
  lemma CutFront(links: seq<Link>, head: Link, list: seq<nat>, m: nat)
    requires Threaded(links, head, list) && m < |list| && list[m] < |links|
    ensures Threaded(links[list[m] := Null], head, list[..m + 1])
  {
    hide Distinct;
    var front := list[..m + 1];
    assert Distinct(front) by { DistinctParts(list, m + 1); }
    forall k: nat | k < |front|
      ensures front[k] < |links| && links[list[m] := Null][front[k]] == LinkAt(front, k + 1)
    {
      LinkOf(links, head, list, k);
      if k < m { Differ(list, k, m); }
    }
  }

  /** and what comes after it. */
  lemma CutBack(links: seq<Link>, head: Link, list: seq<nat>, m: nat)
    requires Threaded(links, head, list) && m < |list| && list[m] < |links|
    ensures Threaded(links[list[m] := Null], links[list[m]], list[m + 1..])
  {
    hide Distinct, Threaded;
    var n := m + 1;
    var back := list[n..];
    assert Distinct(back) by { ThreadedDistinct(links, head, list); DistinctParts(list, n); }
    assert links[list[m]] == LinkAt(back, 0) by { LinkOf(links, head, list, m); }
    forall k: nat | k < |back|
      ensures back[k] < |links| && links[list[m] := Null][back[k]] == LinkAt(back, k + 1)
    {
      LinkOf(links, head, list, n + k);
      ThreadedDistinct(links, head, list);
      Differ(list, n + k, m);
    }
    MakeThreaded(links[list[m] := Null], links[list[m]], back);
  }

  lemma HeadOf(links: seq<Link>, head: Link, list: seq<nat>)
    requires Threaded(links, head, list)
    ensures head == LinkAt(list, 0)
  {
  }

  lemma ThreadedDistinct(links: seq<Link>, head: Link, list: seq<nat>)
    requires Threaded(links, head, list)
    ensures Distinct(list)
  {
  }

  lemma MakeThreaded(links: seq<Link>, head: Link, list: seq<nat>)
    requires Distinct(list) && head == LinkAt(list, 0)
    requires forall k: nat :: k < |list| ==> list[k] < |links| && links[list[k]] == LinkAt(list, k + 1)
    ensures Threaded(links, head, list)
  {
  }

  /** The end of the list is the end of what is left, and tells whether task `m` is the last one. */
  lemma CutTail(list: seq<nat>, m: nat)
    requires Distinct(list) && m < |list|
    ensures TailOf(list[m + 1..]) == if m + 1 == |list| then Head else TailOf(list)
    ensures TailOf(list) == NextOf(list[m]) <==> m + 1 == |list|
  {
    if m + 1 < |list| {
      Differ(list, m, |list| - 1);
    }
  }

  /** Links of tasks that are not on the list do not matter. */
  lemma ThreadsElsewhere(links: seq<Link>, links': seq<Link>, head: Link, list: seq<nat>, involved: seq<nat>)
    requires Threaded(links, head, list) && |links'| == |links| && forall t :: t in list ==> t !in involved
    requires forall t: nat :: t < |links| && t !in involved ==> links'[t] == links[t]
    ensures Threaded(links', head, list)
  {
    forall k: nat | k < |list|
      ensures list[k] < |links| && links'[list[k]] == LinkAt(list, k + 1)
    {
      assert list[k] in list;
    }
  }

  lemma EmptyThreads(links: seq<Link>)
    ensures Threaded(links, Null, []) && TasksOf([]) == []
  {
  }

  lemma {:induction false} LeadingIs(q: seq<Waiter>, n: nat)
    requires n <= |q| && (forall k: nat :: k < n ==> q[k].read) && (n < |q| ==> !q[n].read)
    ensures LeadingReaders(q) == n
  {
    if n > 0 {
      LeadingIs(q[1..], n - 1);
    }
  }

  /** What the lists of the program are made of: every task has one link, and says what it was queued for. */
  class Tasks {
    const next: array<Link>
    const readLock: array<bool>

    constructor (n: nat)
      ensures next.Length == readLock.Length == n && fresh(next) && fresh(readLock)
      ensures forall t :: 0 <= t < n ==> next[t] == Null
    {
      next := new Link[n](_ => Null);
      readLock := new bool[n](_ => false);
    }
  }

  /** The lock as the program updates it. */
  class Info {
    const tasks: Tasks
    var count: int
    var head: Link
    var tail: Slot
    ghost var queue: seq<Waiter>

    ghost function State(): LockState
      reads this
    {
      LockState(count, queue)
    }

    /** The links lead through the queue, and the flags of its tasks say what they wait for. */
    ghost predicate Valid()
      reads this, tasks, tasks.next, tasks.readLock
    {
      && tasks.next.Length == tasks.readLock.Length
      && Threaded(tasks.next[..], head, TasksOf(queue)) && tail == TailOf(TasksOf(queue))
      && forall k: nat :: k < |queue| && queue[k].task < tasks.readLock.Length ==>
        tasks.readLock[queue[k].task] == queue[k].read
    }

    /** Tasks that have nothing to do with the lock are left alone. */
    twostate predicate OthersKept(involved: seq<nat>)
      reads tasks, tasks.next, tasks.readLock
    {
      forall t: nat :: t !in involved ==>
        && (t < tasks.next.Length ==> tasks.next[t] == old(tasks.next[t]))
        && (t < tasks.readLock.Length ==> tasks.readLock[t] == old(tasks.readLock[t]))
    }

    constructor (tasks: Tasks)
      requires tasks.next.Length == tasks.readLock.Length
      ensures Valid() && this.tasks == tasks && State() == UNLOCKED
    {
      this.tasks := tasks;
      count, head, tail := 0, Null, Head;
      queue := [];
    }

    /** Puts a task at the end of the queue. */
    method Enqueue(task: nat, read: bool)
      requires Valid() && task < tasks.next.Length && tasks.next[task] == Null && task !in TasksOf(queue)
      modifies `head, `tail, `queue, tasks.next, tasks.readLock
      ensures Valid() && queue == old(queue) + [Waiter(task, read)] && OthersKept(TasksOf(queue))
    {
      hide Threaded;
      ghost var links, list := tasks.next[..], TasksOf(queue);
      AppendThreads(links, head, list, task);
      TasksOfMore(queue, Waiter(task, read));
      tasks.readLock[task] := read;
      match tail {
        case Head => head := To(task);
        case NextOf(last) => tasks.next[last] := To(task);
      }
      tail := NextOf(task);
      queue := queue + [Waiter(task, read)];
      assert tasks.next[..] == if list == [] then links else links[list[|list| - 1] := To(task)];
      assert forall k: nat :: k < |list| ==> list[k] == queue[k].task && list[k] != task;
    }

    method ReadLock(task: nat) returns (parked: bool)
      requires Valid() && task < tasks.next.Length && tasks.next[task] == Null && task !in TasksOf(queue)
      modifies this, tasks.next, tasks.readLock
      ensures Valid() && Request(State(), parked) == AfterReadLock(old(State()), task)
      ensures OthersKept(TasksOf(queue))
    {
      hide Threaded, TasksOf;
      parked := false;
      if count == 0 {
        count := count + 1;
      } else if count > 0 && head == Null {
        assert queue == [] by { HeadIsNull(); }
        count := count + 1;
      } else {
        assert head == Null <==> queue == [] by { HeadIsNull(); }
        Enqueue(task, true);
        parked := true;
      }
    }

    lemma HeadIsNull()
      requires Valid()
      ensures head == Null <==> queue == []
    {
      assert |TasksOf(queue)| == |queue|;
    }

    method WriteLock(task: nat) returns (parked: bool)
      requires Valid() && task < tasks.next.Length && tasks.next[task] == Null && task !in TasksOf(queue)
      modifies this, tasks.next, tasks.readLock
      ensures Valid() && Request(State(), parked) == AfterWriteLock(old(State()), task)
      ensures OthersKept(TasksOf(queue))
    {
      hide Threaded, TasksOf;
      parked := false;
      if count == 0 {
        count := count - 1;
      } else {
        Enqueue(task, false);
        parked := true;
      }
    }

    /** What is known of the waiter at place `k` of the queue. */
    lemma WaiterAt(k: nat)
      requires Valid() && k < |queue|
      ensures var t := queue[k].task;
              && TasksOf(queue)[k] == t && |TasksOf(queue)| == |queue| && t < tasks.next.Length
              && tasks.readLock[t] == queue[k].read && (k == 0 ==> head == To(t))
              && tasks.next[t] == (if k + 1 < |queue| then To(queue[k + 1].task) else Null)
              && (tail == NextOf(t) <==> k + 1 == |queue|)
    {
      hide Threaded;
      var list := TasksOf(queue);
      LinkOf(tasks.next[..], head, list, k);
      ThreadedDistinct(tasks.next[..], head, list);
      CutTail(list, k);
      HeadOf(tasks.next[..], head, list);
    }

    /** The last of the readers at the front of the queue; a writer is on its own. */
    method FindLast() returns (last: nat, size: nat)
      requires Valid() && queue != []
      ensures 0 < size <= |queue| && last == queue[size - 1].task
      ensures size == if queue[0].read then LeadingReaders(queue) else 1
    {
      hide Threaded, TasksOf, LeadingReaders;
      WaiterAt(0);
      last, size := head.task, 1;
      if tasks.readLock[last] {
        if size < |queue| {
          WaiterAt(size);
        }
        while NextOf(last) != tail && tasks.readLock[tasks.next[last].task]
          invariant 1 <= size <= |queue| && last == queue[size - 1].task && last < tasks.next.Length
          invariant forall k: nat :: k < size ==> queue[k].read
          invariant NextOf(last) == tail <==> size == |queue|
          invariant size < |queue| ==> tasks.next[last] == To(queue[size].task)
          invariant size < |queue| ==> queue[size].task < tasks.readLock.Length
          invariant size < |queue| ==> tasks.readLock[queue[size].task] == queue[size].read
          decreases |queue| - size
        {
          WaiterAt(size);
          last, size := tasks.next[last].task, size + 1;
          if size < |queue| {
            WaiterAt(size);
          }
        }
        LeadingIs(queue, size);
      }
    }

    /** Cuts the queue after a task. */
    method Cut(last: nat, ghost size: nat)
      requires Valid() && 0 < size <= |queue| && last == queue[size - 1].task && last < tasks.next.Length
      modifies `head, `tail, `queue, tasks.next
      ensures Valid() && queue == old(queue)[size..] && OthersKept(TasksOf(old(queue)))
      ensures Threaded(tasks.next[..], old(head), TasksOf(old(queue)[..size]))
    {
      hide Threaded, TasksOf;
      ghost var list, m: nat, links := TasksOf(queue), size - 1, tasks.next[..];
      WaiterAt(m);
      CutFront(links, head, list, m);
      CutBack(links, head, list, m);
      ThreadedDistinct(links, head, list);
      CutTail(list, m);
      TasksOfParts(queue, size);
      head := tasks.next[last];
      tasks.next[last] := Null;
      queue := queue[size..];
      assert tasks.next[..] == links[last := Null];
      assert head == Null <==> queue == [] by { HeadOf(tasks.next[..], head, TasksOf(queue)); }
      if head == Null {
        tail := Head;
      }
      assert last in list;
    }

    /** Takes those who are granted the lock off the queue: a list of their own, that starts at `granted`. */
    method ProcessQueue() returns (granted: Link, ghost batch: seq<Waiter>)
      requires Valid()
      modifies this, tasks.next
      ensures Valid() && Release(State(), batch) == ProcessList(old(State()))
      ensures Threaded(tasks.next[..], granted, TasksOf(batch)) && OthersKept(TasksOf(old(queue)))
    {
      hide Threaded, TasksOf, LeadingReaders;
      granted, batch := Null, [];
      EmptyThreads(tasks.next[..]);
      HeadIsNull();
      if count == 0 && head != Null {
        WaiterAt(0);
        granted := head;
        var read := tasks.readLock[head.task];
        var last, size := FindLast();
        batch := queue[..size];
        WaiterAt(size - 1);
        Cut(last, size);
        count := if read then size else -1;
      }
    }

    /** Puts the tasks of a list on the ready lists of their executors, one after the other. */
    method Signal(granted: Link, ghost list: seq<nat>) returns (ready: seq<nat>)
      requires Threaded(tasks.next[..], granted, list)
      modifies tasks.next
      ensures ready == list && OthersKept(list)
      ensures forall t :: t in list ==> t < tasks.next.Length && tasks.next[t] == Null
    {
      hide Threaded, Distinct;
      ready := [];
      var h := granted;
      ghost var rest := list;
      HeadOf(tasks.next[..], h, rest);
      while h != Null
        invariant list == ready + rest && Threaded(tasks.next[..], h, rest) && h == LinkAt(rest, 0)
        invariant forall t :: t in ready ==> t < tasks.next.Length && tasks.next[t] == Null
        invariant forall t: nat :: t < tasks.next.Length && t !in list ==> tasks.next[t] == old(tasks.next[t])
        decreases |rest|
      {
        var task := h.task;
        ghost var links := tasks.next[..];
        LinkOf(links, h, rest, 0);
        CutBack(links, h, rest, 0);
        assert task in list;
        h := tasks.next[task];
        tasks.next[task] := Null;
        assert tasks.next[..] == links[task := Null];
        ready, rest := ready + [task], rest[1..];
        HeadOf(tasks.next[..], h, rest);
      }
    }

    /** Serves the queue, and tells those who are granted the lock. */
    method Serve() returns (ready: seq<nat>, ghost batch: seq<Waiter>)
      requires Valid()
      modifies this, tasks.next
      ensures Valid() && Release(State(), batch) == ProcessList(old(State()))
      ensures ready == TasksOf(batch) && forall t :: t in ready ==> t < tasks.next.Length && tasks.next[t] == Null
      ensures OthersKept(TasksOf(old(queue)))
    {
      hide Threaded, TasksOf, ProcessList, Distinct, LinkAt, TailOf;
      ThreadedDistinct(tasks.next[..], head, TasksOf(queue));
      var granted;
      granted, batch := ProcessQueue();
      assert batch + queue == old(queue);
      BatchApart(batch, queue);
      ghost var links := tasks.next[..];
      ready := Signal(granted, TasksOf(batch));
      ThreadsElsewhere(links, tasks.next[..], head, TasksOf(queue), TasksOf(batch));
    }

    method ReadUnlock() returns (ready: seq<nat>, ghost batch: seq<Waiter>)
      requires Valid() && count > 0
      modifies this, tasks.next
      ensures Valid() && Release(State(), batch) == AfterReadUnlock(old(State()))
      ensures ready == TasksOf(batch) && forall t :: t in ready ==> t < tasks.next.Length && tasks.next[t] == Null
      ensures OthersKept(TasksOf(old(queue)))
    {
      hide Threaded, TasksOf, ProcessList;
      count := count - 1;
      ready, batch := Serve();
    }

    method WriteUnlock() returns (ready: seq<nat>, ghost batch: seq<Waiter>)
      requires Valid() && count == -1
      modifies this, tasks.next
      ensures Valid() && Release(State(), batch) == AfterWriteUnlock(old(State()))
      ensures ready == TasksOf(batch) && forall t :: t in ready ==> t < tasks.next.Length && tasks.next[t] == Null
      ensures OthersKept(TasksOf(old(queue)))
    {
      hide Threaded, TasksOf, ProcessList;
      count := count + 1;
      ready, batch := Serve();
    }
  }

  lemma BatchApart(batch: seq<Waiter>, queue: seq<Waiter>)
    requires Distinct(TasksOf(batch + queue))
    ensures forall t :: t in TasksOf(queue) ==> t !in TasksOf(batch)
    ensures TasksOf(batch + queue) == TasksOf(batch) + TasksOf(queue)
  {
    var all := TasksOf(batch + queue);
    assert all == TasksOf(batch) + TasksOf(queue);
    forall i: nat, j: nat | i < |batch| && j < |queue|
      ensures TasksOf(batch)[i] != TasksOf(queue)[j]
    {
      Differ(all, i, |batch| + j);
    }
  }

  /** What a lock operation does, for runs of one lock. */
  datatype Op = RequestRead(task: nat) | RequestWrite(task: nat) | EndRead | EndWrite

  /** A lock with the history of its requests and grants, both in the order they happened. */
  datatype History = History(lock: LockState, requests: seq<Waiter>, grants: seq<Waiter>)

  /** Only holders unlock: these are the two assertions of the unlock operations. */
  predicate Allowed(h: History, op: Op) {
    match op
    case EndRead => h.lock.count > 0
    case EndWrite => h.lock.count == -1
    case _ => true
  }

  function Requested(h: History, w: Waiter, r: Request): History {
    History(r.lock, h.requests + [w], if r.parked then h.grants else h.grants + [w])
  }

  function Released(h: History, r: Release): History {
    History(r.lock, h.requests, h.grants + r.granted)
  }

  function Apply(h: History, op: Op): History {
    match op
    case RequestRead(t) => Requested(h, Waiter(t, true), AfterReadLock(h.lock, t))
    case RequestWrite(t) => Requested(h, Waiter(t, false), AfterWriteLock(h.lock, t))
    case EndRead => Released(h, AfterReadUnlock(h.lock))
    case EndWrite => Released(h, AfterWriteUnlock(h.lock))
  }

  ghost predicate AllowedRun(h: History, ops: seq<Op>)
    decreases |ops|
  {
    ops == [] || (Allowed(h, ops[0]) && AllowedRun(Apply(h, ops[0]), ops[1..]))
  }

  function Run(h: History, ops: seq<Op>): History
    decreases |ops|
  {
    if ops == [] then h else Run(Apply(h, ops[0]), ops[1..])
  }

  /** Granted requests followed by queued requests are all requests, in order of arrival. */
  ghost predicate Fifo(h: History) {
    WellFormed(h.lock) && h.grants + h.lock.queue == h.requests
  }

  lemma RequestKeepsFifo(h: History, w: Waiter, r: Request)
    requires Fifo(h)
    requires r == if w.read then AfterReadLock(h.lock, w.task) else AfterWriteLock(h.lock, w.task)
    ensures Fifo(Requested(h, w, r))
  {
    if r.parked {
      assert h.grants + (h.lock.queue + [w]) == (h.grants + h.lock.queue) + [w];
    }
  }

  lemma ReleaseKeepsFifo(h: History, freed: int)
    requires Fifo(h) && freed >= -1 && (h.lock.count > 0 ==> freed >= 0)
    requires freed > 0 ==> h.lock.count > 0
    ensures Fifo(Released(h, ProcessList(h.lock.(count := freed))))
  {
    var r := ProcessList(h.lock.(count := freed));
    assert r.granted + r.lock.queue == h.lock.queue && WellFormed(r.lock);
    hide ProcessList;
    assert h.grants + r.granted + r.lock.queue == h.grants + (r.granted + r.lock.queue);
  }

  lemma FifoKept(h: History, op: Op)
    requires Fifo(h) && Allowed(h, op)
    ensures Fifo(Apply(h, op))
  {
    match op
    case RequestRead(t) => RequestKeepsFifo(h, Waiter(t, true), AfterReadLock(h.lock, t));
    case RequestWrite(t) => RequestKeepsFifo(h, Waiter(t, false), AfterWriteLock(h.lock, t));
    case EndRead => ReleaseKeepsFifo(h, h.lock.count - 1);
    case EndWrite => ReleaseKeepsFifo(h, h.lock.count + 1);
  }

  /** Whatever tasks do to a lock, it is granted in the order it was requested. */
  lemma {:induction false} GrantsFollowArrival(h: History, ops: seq<Op>)
    requires Fifo(h) && AllowedRun(h, ops)
    ensures Fifo(Run(h, ops))
    decreases |ops|
  {
    if ops != [] {
      FifoKept(h, ops[0]);
      GrantsFollowArrival(Apply(h, ops[0]), ops[1..]);
    }
  }

  /**
    Nobody is passed over: a request is served at once only when nobody waits, and an unlock
    that leaves the lock free serves the longest prefix of the queue that may share the lock.
    */
  lemma ServiceIsMaximal(l: LockState, task: nat)
    requires WellFormed(l)
    ensures !AfterReadLock(l, task).parked <==> l.count >= 0 && l.queue == []
    ensures !AfterWriteLock(l, task).parked <==> l.count == 0
    ensures var r := ProcessList(l.(count := 0));
            && WellFormed(r.lock)
            && (r.lock.count == 0 <==> l.queue == [])
            && (r.lock.count > 0 ==> r.lock.count == |r.granted| && forall w :: w in r.granted ==> w.read)
            && (r.lock.count == -1 ==> |r.granted| == 1 && !r.granted[0].read)
  {
    if l.queue != [] && l.queue[0].read {
      assert LeadingReaders(l.queue) >= 1;
    }
  }
}
