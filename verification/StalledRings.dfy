/**
  Runs of two or more executors, each with one task, that end with all of them waiting for ever: executor
  1 takes a message of executor 0 to check again, of an earlier round, for one of its own round.
  */
module StalledRings {
  import opened ExecutorStates
  import opened MessageRings
  import opened RingRounds
  import opened RingWaits
  import opened RingViews

  /** Executors 0 and 1, then those before executor `k`, then the others. */
  function Ring(n: nat, v0: View, v1: View, low: View, high: View, k: nat): seq<View> {
    seq(n, i => if i == 0 then v0 else if i == 1 then v1 else if i < k then low else high)
  }

  function Wrap(n: nat, k: nat): nat { if k == n then 0 else k }

  /** Messages wait in front of executor `k`, or of executor 0. */
  function Train(n: nat, v0: View, v1: View, low: View, high: View, k: nat, notes: seq<Note>): seq<View>
    requires 2 <= k <= n
  {
    Put(Ring(n, v0, v1, low, high, k), Wrap(n, k), notes)
  }

  function More(v: View, notes: seq<Note>): View { v.(queue := v.queue + notes) }

  lemma NothingMore(v: View)
    ensures More(v, []) == v
  {
  }

  // ----- one executor at a time

  /** The train goes on to the next executor, and the one it leaves looks like those before it. */
  lemma GoesOn(n: nat, v0: View, v1: View, low: View, high: View, k: nat, notes: seq<Note>, notes': seq<Note>)
    requires 2 <= k < n
    ensures After(Train(n, v0, v1, low, high, k, notes), k, low, notes') == Train(n, v0, v1, low, high, k + 1, notes')
  {
  }

  /** Whoever is next gets rid of the messages. */
  lemma Drops(n: nat, v0: View, v1: View, low: View, high: View, k: nat, notes: seq<Note>)
    requires 2 <= k <= n
    ensures After(Train(n, v0, v1, low, high, k, notes), Wrap(n, k), if k == n then v0 else high, []) ==
            Train(n, v0, v1, low, high, k, [])
  {
    NothingMore(v0);
    NothingMore(v1);
    NothingMore(low);
    NothingMore(high);
  }

  /** Executor 1 adds to the train that stands before its neighbor. */
  lemma OneActs(n: nat, v0: View, v1: View, low: View, high: View, notes: seq<Note>, v: View, sent: seq<Note>)
    requires 2 <= n
    ensures After(Train(n, v0, v1, low, high, 2, notes), 1, v, sent) == Train(n, v0, v, low, high, 2, notes + sent)
  {
    assert v0.queue + notes + sent == v0.queue + (notes + sent);
    assert high.queue + notes + sent == high.queue + (notes + sent);
  }

  /** Executor 0 sends to executor 1; the train may stand before executor 0 itself. */
  lemma ZeroActs(n: nat, v0: View, v1: View, low: View, high: View, notes: seq<Note>, v: View, sent: seq<Note>)
    requires 2 <= n
    ensures After(Train(n, v0, v1, low, high, 2, notes), 0, if n == 2 then More(v, notes) else v, sent) ==
            Train(n, v, More(v1, sent), low, high, 2, notes)
  {
  }

  /** The train has come around, and the next one starts. */
  lemma Arrives(n: nat, v0: View, v1: View, low: View, high: View, high': View, notes: seq<Note>)
    requires 2 <= n
    ensures Train(n, v0, v1, low, high, n, notes) == Train(n, More(v0, notes), v1, high', low, 2, [])
  {
    NothingMore(low);
    NothingMore(More(v0, notes));
  }

  /** With the train before executor 2 or 0, there is nobody in between. */
  lemma Nobody(n: nat, v0: View, v1: View, low: View, low': View, high: View, notes: seq<Note>)
    requires 2 <= n
    ensures Train(n, v0, v1, low, high, 2, notes) == Train(n, v0, v1, low', high, 2, notes)
  {
  }

  // ----- all shoot down

  function Shoots(id: nat): Note { Note(MessageKind.StartShootDown, id) }

  function Waits(id: nat): Note { Note(MessageKind.StartWaiting1, id) }

  function Checks(id: nat): Note { Note(MessageKind.StartDoubleCheck, id) }

  lemma ZeroShoots(n: nat)
    requires 2 <= n
    ensures Comes(Train(n, Calm(ShootDown), Calm(ShootDown), Calm(ShootDown), Calm(Normal), 2, [Shoots(0)]))
  {
    hide Comes, Train, After;
    var sd, no := Calm(ShootDown), Calm(Normal);
    Start(n);
    assert All(n, no) == Train(n, no, no, no, no, 2, []) by { AllTheSame(n, no); }
    var views := All(n, no);
    var v, sent := Begin(views, 0);
    v, sent := Proceeds(views, 0, v, sent);
    assert sent == [Shoots(0)];
    ZeroActs(n, no, no, no, no, [], sd, [Shoots(0)]);
    NothingMore(sd);
    views := Train(n, sd, More(no, [Shoots(0)]), no, no, 2, []);
    assert views[1] == More(no, [Shoots(0)]) by { OneLooks(n, sd, More(no, [Shoots(0)]), no, no, []); }
    v, sent := Begin(views, 1);
    v, sent := Step(views, 1, v, sent, Receives);
    assert sent == [Shoots(0)] && v.queue == [];
    OneActs(n, sd, More(no, [Shoots(0)]), no, no, [], sd, [Shoots(0)]);
    assert [] + [Shoots(0)] == [Shoots(0)];
    Nobody(n, sd, sd, no, sd, no, [Shoots(0)]);
  }

  lemma AllTheSame(n: nat, v: View)
    requires 2 <= n
    ensures All(n, v) == Train(n, v, v, v, v, 2, [])
  {
    NothingMore(v);
  }

  lemma OneLooks(n: nat, v0: View, v1: View, low: View, high: View, notes: seq<Note>)
    requires 2 <= n
    ensures |Train(n, v0, v1, low, high, 2, notes)| == n && Train(n, v0, v1, low, high, 2, notes)[1] == v1
    ensures Train(n, v0, v1, low, high, 2, notes)[0] == if n == 2 then More(v0, notes) else v0
  {
  }

  lemma NextLooks(n: nat, v0: View, v1: View, low: View, high: View, k: nat, notes: seq<Note>)
    requires 2 <= k <= n
    ensures |Train(n, v0, v1, low, high, k, notes)| == n
    ensures Train(n, v0, v1, low, high, k, notes)[Wrap(n, k)] == More(if k == n then v0 else high, notes)
  {
  }

  lemma {:induction false} AllShoot(n: nat, k: nat)
    requires 2 <= k <= n
    ensures Comes(Train(n, Calm(ShootDown), Calm(ShootDown), Calm(ShootDown), Calm(Normal), k, [Shoots(0)]))
  {
    hide Comes, Train, After;
    if k == 2 {
      ZeroShoots(n);
    } else {
      AllShoot(n, k - 1);
      var sd, no := Calm(ShootDown), Calm(Normal);
      var views := Train(n, sd, sd, sd, no, k - 1, [Shoots(0)]);
      NextLooks(n, sd, sd, sd, no, k - 1, [Shoots(0)]);
      var v, sent := Begin(views, k - 1);
      v, sent := Step(views, k - 1, v, sent, Receives);
      assert sent == [Shoots(0)] && v.queue == [];
      GoesOn(n, sd, sd, sd, no, k - 1, [Shoots(0)], [Shoots(0)]);
    }
  }

  lemma ShootingEnds(n: nat)
    requires 2 <= n
    ensures Comes(Train(n, Calm(ShootDown), Calm(ShootDown), Calm(Wait1), Calm(ShootDown), 2, []))
  {
    hide Comes, Train, After;
    AllShoot(n, n);
    var sd, no := Calm(ShootDown), Calm(Normal);
    var views := Train(n, sd, sd, sd, no, n, [Shoots(0)]);
    NextLooks(n, sd, sd, sd, no, n, [Shoots(0)]);
    var v, sent := Begin(views, 0);
    v, sent := Step(views, 0, v, sent, Receives);
    assert sent == [] && v.queue == [];
    Drops(n, sd, sd, sd, no, n, [Shoots(0)]);
    Arrives(n, sd, sd, sd, no, Calm(Wait1), []);
    NothingMore(sd);
  }

  // ----- all wait

  /** The executors from 2 on wait, one after the other; their messages come too early. */
  lemma {:induction false} OthersWait(n: nat, v1: State, k: nat)
    requires 2 <= k <= n && Comes(Train(n, Calm(ShootDown), Calm(v1), Calm(Wait1), Calm(ShootDown), 2, []))
    ensures Comes(Train(n, Calm(ShootDown), Calm(v1), Calm(Wait1), Calm(ShootDown), k, []))
  {
    hide Comes, Train, After;
    if k > 2 {
      OthersWait(n, v1, k - 1);
      var sd, w, one := Calm(ShootDown), Calm(Wait1), Calm(v1);
      var views := Train(n, sd, one, w, sd, k - 1, []);
      NextLooks(n, sd, one, w, sd, k - 1, []);
      NothingMore(sd);
      var v, sent := Begin(views, k - 1);
      v, sent := Proceeds(views, k - 1, v, sent);
      assert sent == [Waits(k - 1)];
      GoesOn(n, sd, one, w, sd, k - 1, [], [Waits(k - 1)]);
      views := Train(n, sd, one, w, sd, k, [Waits(k - 1)]);
      NextLooks(n, sd, one, w, sd, k, [Waits(k - 1)]);
      v, sent := Begin(views, Wrap(n, k));
      v, sent := Step(views, Wrap(n, k), v, sent, Receives);
      assert sent == [] && v.queue == [];
      Drops(n, sd, one, w, sd, k, [Waits(k - 1)]);
    }
  }

  /** An executor that has skipped its task and has just found its queue empty. */
  function DueToWait(): View { Calm(ShootDown).(counted := true, checked := true) }

  /** Executor 0 looks at its queue before executor 1 sends its message. */
  lemma OneWaits(n: nat)
    requires 2 <= n
    ensures Comes(Train(n, DueToWait(), Calm(Wait1), Calm(Wait1), Calm(Wait1), 2, [Waits(1)]))
  {
    hide Comes, Train, After;
    var sd, w, due := Calm(ShootDown), Calm(Wait1), DueToWait();
    ShootingEnds(n);
    OthersWait(n, ShootDown, n);
    Arrives(n, sd, sd, w, sd, w, []);
    NothingMore(sd);
    var views := Train(n, sd, sd, w, w, 2, []);
    OneLooks(n, sd, sd, w, w, []);
    var v, sent := Begin(views, 0);
    v, sent := Step(views, 0, v, sent, RingViews.Checks);
    v, sent := Step(views, 0, v, sent, SkipsTask);
    v, sent := Step(views, 0, v, sent, RingViews.Checks);
    assert sent == [];
    NothingMore(sd);
    ZeroActs(n, sd, sd, w, w, [], due, []);
    NothingMore(due);

    views := Train(n, due, sd, w, w, 2, []);
    OneLooks(n, due, sd, w, w, []);
    v, sent := Begin(views, 1);
    v, sent := Proceeds(views, 1, v, sent);
    assert sent == [Waits(1)] && [] + sent == sent;
    OneActs(n, due, sd, w, w, [], w, [Waits(1)]);
  }

  lemma BothWait(n: nat)
    requires 2 <= n
    ensures Comes(Train(n, Calm(Wait1), Calm(Wait1), Calm(Wait1), Calm(Wait1), 2, [Waits(1), Waits(0)]))
  {
    hide Comes, Train, After;
    var w, due := Calm(Wait1), DueToWait();
    OneWaits(n);
    var views := Train(n, due, w, w, w, 2, [Waits(1)]);
    OneLooks(n, due, w, w, w, [Waits(1)]);
    var v, sent := Begin(views, 0);
    v, sent := Step(views, 0, v, sent, Advances);
    assert sent == [Waits(0)] && n == 2 ==> v == More(w, [Waits(1)]);
    ZeroActs(n, due, w, w, w, [Waits(1)], w, [Waits(0)]);

    views := Train(n, w, More(w, [Waits(0)]), w, w, 2, [Waits(1)]);
    OneLooks(n, w, More(w, [Waits(0)]), w, w, [Waits(1)]);
    v, sent := Begin(views, 1);
    v, sent := Step(views, 1, v, sent, Receives);
    assert sent == [Waits(0)] && v.queue == [] && [Waits(1)] + sent == [Waits(1), Waits(0)];
    OneActs(n, w, More(w, [Waits(0)]), w, w, [Waits(1)], w, [Waits(0)]);
  }

  lemma {:induction false} BothGoAround(n: nat, k: nat)
    requires 2 <= k <= n
    ensures Comes(Train(n, Calm(Wait1), Calm(Wait1), Calm(Wait1), Calm(Wait1), k, [Waits(1), Waits(0)]))
  {
    hide Comes, Train, After;
    if k == 2 {
      BothWait(n);
    } else {
      BothGoAround(n, k - 1);
      var w, both := Calm(Wait1), [Waits(1), Waits(0)];
      var views := Train(n, w, w, w, w, k - 1, both);
      NextLooks(n, w, w, w, w, k - 1, both);
      var v, sent := Begin(views, k - 1);
      v, sent := Step(views, k - 1, v, sent, Receives);
      v, sent := Step(views, k - 1, v, sent, Receives);
      assert sent == both && v.queue == [];
      GoesOn(n, w, w, w, w, k - 1, both, both);
    }
  }

  // ----- executor 1 goes back to normal, and is told to check again for an earlier round

  function Round(): seq<Note> { [Checks(1), Note(Reset, 1), Shoots(1)] }

  function Rest(): seq<Note> { [Waits(1), Checks(0), Note(MessageKind.StartWaiting2, 1)] }

  /** Executor 0 has its message, and executor 1 as well. */
  lemma BothAreBack(n: nat)
    requires 2 <= n
    ensures Comes(Train(n, More(Calm(Wait1), [Waits(0)]), More(Calm(Wait1), [Waits(1)]), Calm(Wait1), Calm(Wait1), 2,
      []))
  {
    hide Comes, Train, After;
    var w := Calm(Wait1);
    var both := [Waits(1), Waits(0)];
    BothGoAround(n, n);
    Arrives(n, w, w, w, w, w, both);
    var views := Train(n, More(w, both), w, w, w, 2, []);
    OneLooks(n, More(w, both), w, w, w, []);
    NothingMore(More(w, both));
    var v, sent := Begin(views, 0);
    v, sent := Step(views, 0, v, sent, Receives);
    var last := More(w, [Waits(0)]);
    assert sent == [Waits(1)] && v.queue == last.queue;
    ZeroActs(n, More(w, both), w, w, w, [], last, [Waits(1)]);
    NothingMore(last);
  }

  /** Executor 1 gets its message, its task is not skipped, and it comes to wait again. */
  lemma OneIsHit(n: nat)
    requires 2 <= n
    ensures Comes(Train(n, More(Calm(Wait1), [Waits(0)]), Calm(Wait1), Calm(Wait1), Calm(Wait1), 2, Round()
      + [Waits(1)]))
  {
    hide Comes, Train, After;
    var w := Calm(Wait1);
    var last := More(w, [Waits(0)]);
    BothAreBack(n);
    var views := Train(n, last, More(w, [Waits(1)]), w, w, 2, []);
    OneLooks(n, last, More(w, [Waits(1)]), w, w, []);
    var v, sent := Begin(views, 1);
    v, sent := Step(views, 1, v, sent, Receives);
    v, sent := Step(views, 1, v, sent, RingViews.Checks);
    v, sent := Step(views, 1, v, sent, HitsTask);
    v, sent := Proceeds(views, 1, v, sent);
    v, sent := Proceeds(views, 1, v, sent);
    assert sent == Round() + [Waits(1)] && [] + sent == sent;
    OneActs(n, last, More(w, [Waits(1)]), w, w, [], w, Round() + [Waits(1)]);
  }

  lemma ZeroChecks(n: nat)
    requires 2 <= n
    ensures Comes(Train(n, Calm(DoubleCheck), More(Calm(Wait1), [Checks(0)]), Calm(Wait1), Calm(Wait1), 2,
                        Round() + [Waits(1)]))
  {
    hide Comes, Train, After, Round;
    var w, dc := Calm(Wait1), Calm(DoubleCheck);
    var last, four := More(w, [Waits(0)]), Round() + [Waits(1)];
    OneIsHit(n);
    var views := Train(n, last, w, w, w, 2, four);
    OneLooks(n, last, w, w, w, four);
    var v, sent := Begin(views, 0);
    v, sent := Step(views, 0, v, sent, Receives);
    assert v.queue == if n == 2 then four else [];
    assert sent == [Checks(0)] && More(dc, four).queue == four;
    ZeroActs(n, last, w, w, w, four, dc, [Checks(0)]);
  }

  lemma OneIsMisled(n: nat)
    requires 2 <= n
    ensures Comes(Train(n, Calm(DoubleCheck), Calm(Wait2), Calm(Wait1), Calm(Wait1), 2, Round() + Rest()))
  {
    hide Comes, Train, After, Round;
    var w, dc, four := Calm(Wait1), Calm(DoubleCheck), Round() + [Waits(1)];
    ZeroChecks(n);
    var views := Train(n, dc, More(w, [Checks(0)]), w, w, 2, four);
    OneLooks(n, dc, More(w, [Checks(0)]), w, w, four);
    var v, sent := Begin(views, 1);
    v, sent := Step(views, 1, v, sent, Receives);
    v, sent := Proceeds(views, 1, v, sent);
    assert v == Calm(Wait2);
    OneActs(n, dc, More(w, [Checks(0)]), w, w, four, Calm(Wait2), sent);
    assert four + sent == Round() + Rest();
  }

  // ----- the others go back to normal and wait

  function Tail(k: nat): seq<Note> { Round() + if k == 2 then Rest() else [] }

  /** The first three messages bring an executor that waits back to shooting down. */
  lemma TakesRound(views: seq<View>, i: nat, v0: View, tail: seq<Note>) returns (v: View, sent: seq<Note>)
    requires |views| >= 2 && i < |views| && i != 1 && Comes(After(views, i, More(v0, Round() + tail), []))
    requires v0 == Calm(Wait1) || v0 == Calm(DoubleCheck)
    ensures v == More(Calm(ShootDown), tail) && Comes(After(views, i, v, sent))
    ensures sent == if v0.state == Wait1 then Round() else Round()[1..]
  {
    hide Comes, After;
    v, sent := Step(views, i, More(v0, Round() + tail), [], Receives);
    v, sent := Step(views, i, v, sent, Receives);
    v, sent := Step(views, i, v, sent, Receives);
    assert v.queue == tail;
  }

  /** The others are of no use to it then. */
  lemma DropsRest(views: seq<View>, i: nat, sent: seq<Note>) returns (v: View)
    requires |views| >= 2 && i < |views| && i != 1 && Comes(After(views, i, More(Calm(ShootDown), Rest()), sent))
    ensures v == Calm(ShootDown) && Comes(After(views, i, v, sent))
  {
    hide Comes, After;
    var sent';
    v, sent' := Step(views, i, More(Calm(ShootDown), Rest()), sent, Receives);
    v, sent' := Step(views, i, v, sent', Receives);
    v, sent' := Step(views, i, v, sent', Receives);
    assert sent' == sent;
  }

  lemma TakesAll(views: seq<View>, i: nat, v0: View, k: nat) returns (sent: seq<Note>)
    requires |views| >= 2 && i < |views| && i != 1 && Comes(After(views, i, More(v0, Tail(k)), []))
    requires v0 == Calm(Wait1) || v0 == Calm(DoubleCheck)
    ensures Comes(After(views, i, Calm(ShootDown), sent))
    ensures sent == if v0.state == Wait1 then Round() else Round()[1..]
  {
    hide Comes, After;
    var v;
    v, sent := TakesRound(views, i, v0, if k == 2 then Rest() else []);
    if k == 2 {
      v := DropsRest(views, i, sent);
    } else {
      NothingMore(Calm(ShootDown));
    }
  }

  lemma {:induction false} OthersReset(n: nat, k: nat)
    requires 2 <= k <= n
    ensures Comes(Train(n, Calm(DoubleCheck), Calm(Wait2), Calm(ShootDown), Calm(Wait1), k, Tail(k)))
  {
    hide Comes, Train, After;
    var dc, w2, w, sd := Calm(DoubleCheck), Calm(Wait2), Calm(Wait1), Calm(ShootDown);
    if k == 2 {
      OneIsMisled(n);
      Nobody(n, dc, w2, w, sd, w, Tail(2));
    } else {
      OthersReset(n, k - 1);
      var views := Train(n, dc, w2, sd, w, k - 1, Tail(k - 1));
      NextLooks(n, dc, w2, sd, w, k - 1, Tail(k - 1));
      var v, sent := Begin(views, k - 1);
      sent := TakesAll(views, k - 1, w, k - 1);
      GoesOn(n, dc, w2, sd, w, k - 1, Tail(k - 1), Round());
      assert Tail(k) == Round();
    }
  }

  lemma ZeroIsReset(n: nat)
    requires 2 <= n
    ensures Comes(Train(n, Calm(ShootDown), Calm(Wait2), Calm(Wait1), Calm(ShootDown), 2, []))
  {
    hide Comes, Train, After;
    var dc, w2, w, sd := Calm(DoubleCheck), Calm(Wait2), Calm(Wait1), Calm(ShootDown);
    OthersReset(n, n);
    Arrives(n, dc, w2, sd, w, w, Tail(n));
    var views := Train(n, More(dc, Tail(n)), w2, w, sd, 2, []);
    OneLooks(n, More(dc, Tail(n)), w2, w, sd, []);
    NothingMore(More(dc, Tail(n)));
    var v, sent := Begin(views, 0);
    sent := TakesAll(views, 0, dc, n);
    ZeroActs(n, More(dc, Tail(n)), w2, w, sd, [], sd, sent);
    NothingMore(sd);

    views := Train(n, sd, More(w2, sent), w, sd, 2, []);
    OneLooks(n, sd, More(w2, sent), w, sd, []);
    OneActs(n, sd, More(w2, sent), w, sd, [], w2, []);
    v, sent := Begin(views, 1);
    v, sent := Step(views, 1, v, sent, Receives);
    v, sent := Step(views, 1, v, sent, Receives);
    assert sent == [] && v.queue == [] && sent + [] == sent;
  }

  lemma ZeroWaits(n: nat)
    requires 2 <= n
    ensures Comes(Train(n, Calm(Wait1), Calm(Wait2), Calm(Wait1), Calm(Wait1), 2, []))
  {
    hide Comes, Train, After;
    var w2, w, sd := Calm(Wait2), Calm(Wait1), Calm(ShootDown);
    ZeroIsReset(n);
    OthersWait(n, Wait2, n);
    Arrives(n, sd, w2, w, sd, w, []);
    NothingMore(sd);
    var views := Train(n, sd, w2, w, w, 2, []);
    OneLooks(n, sd, w2, w, w, []);
    var v, sent := Begin(views, 0);
    v, sent := Proceeds(views, 0, v, sent);
    assert sent == [Waits(0)];
    ZeroActs(n, sd, w2, w, w, [], w, [Waits(0)]);
    NothingMore(w);

    views := Train(n, w, More(w2, [Waits(0)]), w, w, 2, []);
    OneLooks(n, w, More(w2, [Waits(0)]), w, w, []);
    OneActs(n, w, More(w2, [Waits(0)]), w, w, [], w2, []);
    v, sent := Begin(views, 1);
    v, sent := Step(views, 1, v, sent, Receives);
    assert sent == [] && v.queue == [] && sent + [] == sent;
  }

  // ----- the result

  ghost predicate EndsStalled(run: seq<seq<Loop>>, n: nat) {
    IsRingRun(run) && |run[|run| - 1]| == n && Stalled(run[|run| - 1])
  }

  lemma CalmIsStuck(l: Loop, state: State)
    requires Shows(l, Calm(state)) && (state == Wait1 || state == Wait2)
    ensures Stuck(l)
  {
  }

  lemma RunIsNotEmpty(run: seq<seq<Loop>>)
    requires IsRingRun(run)
    ensures run != []
  {
  }

  /** Any number of executors from two on can come to wait for ever. */
  lemma TerminationCanStall(n: nat)
    requires 2 <= n
    ensures exists run: seq<seq<Loop>> :: EndsStalled(run, n)
  {
    hide Train, Shows, Stuck, IsRingRun;
    ZeroWaits(n);
    var w, w2 := Calm(Wait1), Calm(Wait2);
    var views := Train(n, w, w2, w, w, 2, []);
    var run :| ComesTo(run, views);
    assert run != [] by { RunIsNotEmpty(run); }
    var ring := run[|run| - 1];
    assert |views| == n by { OneLooks(n, w, w2, w, w, []); }
    forall i: nat | i < n
      ensures Stuck(ring[i])
    {
      assert views[i] == if i == 1 then w2 else w by { EndLooks(n, i); }
      assert Shows(ring[i], views[i]);
      CalmIsStuck(ring[i], views[i].state);
    }
    assert EndsStalled(run, n);
  }

  lemma EndLooks(n: nat, i: nat)
    requires 2 <= n && i < n
    ensures |Train(n, Calm(Wait1), Calm(Wait2), Calm(Wait1), Calm(Wait1), 2, [])| == n
    ensures Train(n, Calm(Wait1), Calm(Wait2), Calm(Wait1), Calm(Wait1), 2, [])[i] == if i == 1 then Calm(Wait2)
      else Calm(Wait1)
  {
    NothingMore(Calm(Wait1));
  }

  /** A ring can stall if and only if it has several executors. */
  lemma StallsIfSeveral(n: nat)
    requires n > 0
    ensures (exists run: seq<seq<Loop>> :: EndsStalled(run, n)) <==> n >= 2
  {
    hide Stalled, IsRingRun;
    if n >= 2 {
      TerminationCanStall(n);
    } else {
      forall run: seq<seq<Loop>>
        ensures !EndsStalled(run, n)
      {
        if EndsStalled(run, n) {
          RunIsNotEmpty(run);
          OneNeverStalls(run, |run| - 1);
        }
      }
    }
  }
}
