/** The lock calls themselves, one method body each, over the table that all goroutines share.

    Between any two steps of a call the other goroutines may act. What they do then is a parameter:
    `others(k)` is what they do at the k-th pause. */
module LockTable {
  import opened LockOrder

  /** What a request for a lock comes to. */
  datatype Entry = Entered | OrderError | TimedOut

  /** A call and the calls made while it is open, in order. */
  datatype Call = Call(lock: LockId, inner: seq<Call>)

  /** The actions one goroutine takes in a run. */
  function Own(run: seq<Move>, g: nat): seq<Action> {
    if run == [] then []
    else Own(run[..|run| - 1], g) + if run[|run| - 1].g == g then [run[|run| - 1].action] else []
  }

  predicate ByOthers(run: seq<Move>, g: nat) {
    forall i :: 0 <= i < |run| ==> run[i].g != g
  }

  lemma {:induction false} OwnOfBoth(run: seq<Move>, more: seq<Move>, g: nat)
    ensures Own(run + more, g) == Own(run, g) + Own(more, g)
  {
    if more == [] {
      assert run + more == run;
    } else {
      OwnOfBoth(run, more[..|more| - 1], g);
      assert (run + more)[..|run + more| - 1] == run + more[..|more| - 1];
    }
  }

  /** What the others do shows nothing of this goroutine and leaves its calls alone. */
  lemma {:induction false} OthersLeaveMe(s: State, run: seq<Move>, g: nat)
    requires Possible(s, run) && ByOthers(run, g) && g < |s.gs|
    ensures Own(run, g) == []
    ensures |Final(s, run).gs| == |s.gs| && Final(s, run).gs[g] == s.gs[g]
    decreases |run|
  {
    if run != [] {
      OthersLeaveMe(After(s, run[0].g, run[0].action), run[1..], g);
      OwnOfBoth([run[0]], run[1..], g);
      assert run == [run[0]] + run[1..] && [run[0]][..0] == [];
    }
  }

  lemma Extend(s: State, run: seq<Move>, g: nat, a: Action) returns (longer: seq<Move>)
    requires Possible(s, run) && Enabled(Final(s, run), g, a)
    ensures longer == run + [Move(g, a)] && Possible(s, longer)
    ensures Final(s, longer) == After(Final(s, run), g, a) && Own(longer, g) == Own(run, g) + [a]
  {
    OneMove(Final(s, run), Move(g, a));
    RunsCompose(s, run, [Move(g, a)]);
    longer := run + [Move(g, a)];
    assert longer[..|run|] == run;
  }

  lemma Join(s: State, run: seq<Move>, more: seq<Move>, g: nat) returns (longer: seq<Move>)
    requires Possible(s, run) && Possible(Final(s, run), more)
    ensures Possible(s, longer) && Final(s, longer) == Final(Final(s, run), more)
    ensures Own(longer, g) == Own(run, g) + Own(more, g)
  {
    RunsCompose(s, run, more);
    OwnOfBoth(run, more, g);
    longer := run + more;
  }

  lemma OwnersAreDeep(s: State, g: nat, l: LockId)
    requires Inv(s) && g < |s.gs|
    ensures Depth(s.gs[g].frames, l) == if At(s, l).owner == g + 1 then At(s, l).depth else 0
    ensures At(s, l).owner == g + 1 <==> Depth(s.gs[g].frames, l) > 0
  {
    assert Exclusive(s, l);
  }

  class Table {
    var cells: map<LockId, Cell>
    var gs: seq<Goroutine>
    var clock: nat

    function Value(): State
      reads this
    {
      State(cells, gs)
    }

    constructor (n: nat)
      ensures Value() == Start(n)
    {
      cells, gs, clock := map[], seq(n, _ => Goroutine(Running, [])), 0;
    }

    /** Looks at every spec lock of every root for one that is this goroutine's. */
    method FindSpecLock(gid: nat) returns (held: bool)
      ensures held <==> HoldsSpecLock(Value(), gid)
    {
      var todo := cells.Keys;
      while todo != {}
        invariant todo <= cells.Keys
        invariant forall l :: l in cells.Keys - todo && l.SpecLock? ==> !(cells[l].owner == gid && cells[l].depth > 0)
        decreases |todo|
      {
        var l :| l in todo;
        if l.SpecLock? && cells[l].owner == gid && cells[l].depth > 0 {
          return true;
        }
        todo := todo - {l};
      }
      return false;
    }

    /** The other goroutines act, as far as what they want is possible. */
    method Pause(g: nat, others: nat -> seq<Move>) returns (ghost acted: seq<Move>)
      requires g < |gs|
      modifies this
      ensures Possible(old(Value()), acted) && Value() == Final(old(Value()), acted) && Own(acted, g) == []
      ensures |gs| == old(|gs|) && gs[g] == old(gs[g])
    {
      acted := [];
      var moves := others(clock);
      clock := clock + 1;
      if ByOthers(moves, g) && Possible(Value(), moves) {
        acted := moves;
        OthersLeaveMe(Value(), moves, g);
        var s := Final(Value(), moves);
        cells, gs := s.cells, s.gs;
      }
    }

    /** One attempt, some time later, to create the lock file. */
    method Attempt(g: nat, l: LockId, others: nat -> seq<Move>) returns (acquired: bool, ghost run: seq<Move>)
      requires g < |gs| && gs[g].phase == Waiting(l)
      modifies this
      ensures Possible(old(Value()), run) && Value() == Final(old(Value()), run)
      ensures Own(run, g) == if acquired then [Take] else []
      ensures |gs| == old(|gs|)
      ensures gs[g] == if acquired then old(gs[g]).(phase := Took(l)) else old(gs[g])
      ensures At(Value(), l).file
    {
      ghost var s := Value();
      run := Pause(g, others);
      var cell := At(Value(), l);
      acquired := !cell.file;
      if acquired {
        run := Extend(s, run, g, Take);
        cells := cells[l := cell.(file := true)];
        gs := gs[g := gs[g].(phase := Took(l))];
      }
    }

    /** Attempts until one succeeds or patience runs out. */
    method Await(g: nat, l: LockId, patience: nat, others: nat -> seq<Move>)
      returns (acquired: bool, ghost run: seq<Move>)
      requires g < |gs| && gs[g].phase == Waiting(l)
      modifies this
      ensures Possible(old(Value()), run) && Value() == Final(old(Value()), run)
      ensures Own(run, g) == if acquired then [Take] else [TimeOut]
      ensures |gs| == old(|gs|)
      ensures gs[g] == old(gs[g]).(phase := if acquired then Took(l) else Running)
      ensures At(Value(), l).file
    {
      ghost var s := Value();
      acquired, run := Attempt(g, l, others);
      var attempts := 0;
      while !acquired && attempts < patience
        invariant Possible(s, run) && Value() == Final(s, run)
        invariant Own(run, g) == if acquired then [Take] else []
        invariant |gs| == old(|gs|) && gs[g] == if acquired then old(gs[g]).(phase := Took(l)) else old(gs[g])
        invariant At(Value(), l).file
      {
        ghost var more;
        acquired, more := Attempt(g, l, others);
        run := Join(s, run, more, g);
        attempts := attempts + 1;
      }
      if !acquired {
        run := Extend(s, run, g, TimeOut);
        gs := gs[g := gs[g].(phase := Running)];
      }
    }

    /** Some time after the file, the record. */
    method RecordOwner(g: nat, l: LockId, others: nat -> seq<Move>) returns (ghost run: seq<Move>)
      requires g < |gs| && gs[g].phase == Took(l)
      modifies this
      ensures Possible(old(Value()), run) && Value() == Final(old(Value()), run) && Own(run, g) == [Record]
      ensures |gs| == old(|gs|) && gs[g] == Goroutine(Running, old(gs[g].frames) + [l])
      ensures At(Value(), l).owner == g + 1
    {
      ghost var s := Value();
      run := Pause(g, others);
      run := Extend(s, run, g, Record);
      cells := cells[l := At(Value(), l).(owner := g + 1, depth := 1)];
      gs := gs[g := Goroutine(Running, gs[g].frames + [l])];
    }

    /** The first acquisition: the file, within the patience given, and then the record. */
    method Acquire(g: nat, l: LockId, patience: nat, others: nat -> seq<Move>)
      returns (acquired: bool, ghost run: seq<Move>)
      requires g < |gs| && gs[g].phase.Running?
      requires At(Value(), l).owner != g + 1 && !OrderRefused(Value(), g, l)
      modifies this
      ensures Possible(old(Value()), run) && Value() == Final(old(Value()), run)
      ensures Own(run, g) == [Request(l)] + if acquired then [Take, Record] else [TimeOut]
      ensures |gs| == old(|gs|)
      ensures gs[g] == Goroutine(Running, if acquired then old(gs[g].frames) + [l] else old(gs[g].frames))
      ensures if acquired then At(Value(), l).owner == g + 1 else At(Value(), l).file
    {
      ghost var s := Value();
      run := Extend(s, [], g, Request(l));
      gs := gs[g := gs[g].(phase := Waiting(l))];
      ghost var more;
      acquired, more := Await(g, l, patience, others);
      run := Join(s, run, more, g);
      if acquired {
        more := RecordOwner(g, l, others);
        run := Join(s, run, more, g);
      }
    }

    /** The way into a call: one level deeper for the owner; the order error for an authority
        request under a spec lock; otherwise the first acquisition. */
    method Enter(g: nat, l: LockId, patience: nat, others: nat -> seq<Move>)
      returns (entry: Entry, ghost run: seq<Move>)
      requires Inv(Value()) && g < |gs| && gs[g].phase.Running?
      modifies this
      ensures Possible(old(Value()), run) && Value() == Final(old(Value()), run) && Inv(Value())
      ensures |gs| == old(|gs|)
      ensures gs[g] == Goroutine(Running, if entry.Entered? then old(gs[g].frames) + [l] else old(gs[g].frames))
      ensures entry.OrderError? <==> old(OrderRefused(Value(), g, l))
      ensures entry.OrderError? ==> Value() == old(Value())
      ensures entry.TimedOut? ==> At(Value(), l).file && At(Value(), l).owner != g + 1
      ensures entry.Entered? ==> At(Value(), l).owner == g + 1 && At(Value(), l).depth == Depth(gs[g].frames, l)
      ensures Own(run, g) == [Request(l)] + (
                if old(At(Value(), l).owner) == g + 1 || entry.OrderError? then []
                else if entry.Entered? then [Take, Record]
                else [TimeOut])
    {
      ghost var s := Value();
      OwnersAreDeep(s, g, l);
      var cell := At(Value(), l);
      var held := false;
      if l.Authority? && cell.owner != g + 1 {
        held := FindSpecLock(g + 1);
      }
      if held {
        run := Extend(s, [], g, Request(l));
        entry := OrderError;
      } else if cell.owner == g + 1 {
        run := Extend(s, [], g, Request(l));
        cells := cells[l := cell.(depth := cell.depth + 1)];
        gs := gs[g := gs[g].(frames := gs[g].frames + [l])];
        entry := Entered;
      } else {
        var acquired;
        acquired, run := Acquire(g, l, patience, others);
        entry := if acquired then Entered else TimedOut;
      }
      RunsKeepInv(s, run);
      OwnersAreDeep(Value(), g, l);
    }

    /** The way out: the last level clears the owner and removes the file. */
    method Unlock(g: nat)
      requires Enabled(Value(), g, Exit)
      modifies this
      ensures Value() == After(old(Value()), g, Exit)
    {
      var n := |gs[g].frames| - 1;
      var l := gs[g].frames[n];
      var cell := At(Value(), l);
      cells := cells[l := cell.(depth := cell.depth - 1)];
      gs := gs[g := gs[g].(frames := gs[g].frames[..n])];
      if cells[l].depth > 0 {
        return;
      }
      cells := cells[l := cells[l].(owner := 0, file := false)];
    }

    /** A whole call with the calls made inside it: enter, run them one after another, leave. What
        is inside runs only if the lock was had, and whatever becomes of it the goroutine ends with
        exactly the calls it had open before, each at its depth. */
    method WithLock(g: nat, call: Call, patience: nat, others: nat -> seq<Move>)
      returns (entry: Entry, ghost run: seq<Move>)
      requires Inv(Value()) && g < |gs| && gs[g].phase.Running?
      modifies this
      ensures Possible(old(Value()), run) && Value() == Final(old(Value()), run) && Inv(Value())
      ensures |gs| == old(|gs|) && gs[g] == old(gs[g])
      ensures forall l :: Depth(old(gs[g].frames), l) == if At(Value(), l).owner == g + 1 then At(Value(), l).depth else 0
      ensures !entry.Entered? ==> |Own(run, g)| <= 2
      decreases call
    {
      ghost var s := Value();
      entry, run := Enter(g, call.lock, patience, others);
      if entry.Entered? {
        var i := 0;
        while i < |call.inner|
          invariant i <= |call.inner|
          invariant Possible(s, run) && Value() == Final(s, run) && Inv(Value())
          invariant |gs| == old(|gs|) && gs[g] == old(gs[g]).(frames := old(gs[g].frames) + [call.lock])
        {
          ghost var more;
          var inside;
          inside, more := WithLock(g, call.inner[i], patience, others);
          run := Join(s, run, more, g);
          i := i + 1;
        }
        assert Exclusive(Value(), call.lock);
        DepthPush(old(gs[g].frames), call.lock, call.lock);
        run := Extend(s, run, g, Exit);
        assert Value() == Final(s, run[..|run| - 1]);
        Unlock(g);
        RunsKeepInv(s, run);
        assert gs[g].frames == old(gs[g].frames);
      }
      assert gs[g] == old(gs[g]);
      forall l ensures Depth(old(gs[g].frames), l) == if At(Value(), l).owner == g + 1 then At(Value(), l).depth else 0 {
        assert Exclusive(Value(), l);
      }
    }
  }
}
