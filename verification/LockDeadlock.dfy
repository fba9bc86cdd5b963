/** Which orders of taking locks can deadlock.

    The code fixes one order, authority lock before spec lock, and refuses the other. Nothing fixes
    an order among locks of one kind in several roots. A discipline says which lock a goroutine may
    wait for while it holds which others; the theorem here says exactly which disciplines are free
    of deadlock. */
module LockDeadlock {
  import opened LockOrder

  /** Whether a lock may be asked for while another is held. */
  type Discipline = (LockId, LockId) -> bool

  // ----- runs that keep a discipline -----

  /** Whether this request makes the goroutine wait: a reentrant one never does, and neither does
      one refused with the order error. */
  predicate WouldWait(s: State, g: nat, l: LockId) {
    At(s, l).owner != g + 1 && !OrderRefused(s, g, l)
  }

  predicate Allowed(s: State, m: Move, may: Discipline)
    requires Enabled(s, m.g, m.action)
  {
    m.action.Request? && WouldWait(s, m.g, m.action.lock) ==>
      forall held :: held in s.gs[m.g].frames ==> may(held, m.action.lock)
  }

  predicate Keeps(s: State, run: seq<Move>, may: Discipline)
    requires Possible(s, run)
    decreases |run|
  {
    run == [] ||
    (Allowed(s, run[0], may) && Keeps(After(s, run[0].g, run[0].action), run[1..], may))
  }

  lemma {:induction false} KeepsCompose(s: State, run: seq<Move>, more: seq<Move>, may: Discipline)
    requires Possible(s, run) && Keeps(s, run, may)
    requires Possible(Final(s, run), more) && Keeps(Final(s, run), more, may)
    ensures Possible(s, run + more) && Keeps(s, run + more, may)
    decreases |run|
  {
    RunsCompose(s, run, more);
    if run == [] {
      assert run + more == more;
    } else {
      KeepsCompose(After(s, run[0].g, run[0].action), run[1..], more, may);
      assert (run + more)[1..] == run[1..] + more;
    }
  }

  lemma PrependKept(s: State, m: Move, rest: seq<Move>, may: Discipline) returns (run: seq<Move>)
    requires Enabled(s, m.g, m.action) && Allowed(s, m, may)
    requires Possible(After(s, m.g, m.action), rest) && Keeps(After(s, m.g, m.action), rest, may)
    ensures Possible(s, run) && Keeps(s, run, may) && Final(s, run) == Final(After(s, m.g, m.action), rest)
  {
    run := [m] + rest;
    assert run[1..] == rest;
  }

  /** What a goroutine waits for, it was allowed to ask for. */
  predicate Obedient(me: Goroutine, may: Discipline) {
    !me.phase.Running? ==> forall held :: held in me.frames ==> may(held, me.phase.lock)
  }

  predicate AllObedient(s: State, may: Discipline) {
    forall g :: 0 <= g < |s.gs| ==> Obedient(s.gs[g], may)
  }

  lemma StepKeepsObedient(s: State, m: Move, may: Discipline)
    requires AllObedient(s, may) && Enabled(s, m.g, m.action) && Allowed(s, m, may)
    ensures AllObedient(After(s, m.g, m.action), may)
  {
    var t := After(s, m.g, m.action);
    forall g | 0 <= g < |t.gs| ensures Obedient(t.gs[g], may) {
      assert Obedient(s.gs[g], may);
    }
  }

  lemma {:induction false} RunsStayObedient(s: State, run: seq<Move>, may: Discipline)
    requires AllObedient(s, may) && Possible(s, run) && Keeps(s, run, may)
    ensures AllObedient(Final(s, run), may)
    decreases |run|
  {
    if run != [] {
      StepKeepsObedient(s, run[0], may);
      RunsStayObedient(After(s, run[0].g, run[0].action), run[1..], may);
    }
  }

  // ----- cycles -----

  /** Two or more different locks of one kind, each of which may be waited for by a holder of the
      one before it, around in a circle. */
  predicate Cycle(may: Discipline, c: seq<LockId>) {
    && |c| >= 2
    && (forall i, j :: 0 <= i < j < |c| ==> c[i] != c[j])
    && (forall i :: 0 <= i < |c| ==> c[i].Authority? == c[0].Authority?)
    && (forall i :: 0 <= i < |c| ==> may(c[i], c[Next(c, i)]))
  }

  function Next(c: seq<LockId>, i: nat): nat
    requires i < |c|
    ensures Next(c, i) < |c|
  {
    if i + 1 == |c| then 0 else i + 1
  }

  ghost predicate Acyclic(may: Discipline) { forall c :: !Cycle(may, c) }

  // ----- without a cycle, some goroutine can always go on -----

  /** A call in progress or asked for. */
  predicate Busy(me: Goroutine) { !me.phase.Running? || me.frames != [] }

  predicate AllIdle(s: State) { forall g :: 0 <= g < |s.gs| ==> !Busy(s.gs[g]) }

  /** The actions that bring a call nearer its end: no new requests and no timeouts. */
  predicate Finishing(a: Action) { a.Take? || a.Record? || a.Exit? }

  predicate AllFinishing(run: seq<Move>) {
    forall i :: 0 <= i < |run| ==> Finishing(run[i].action)
  }

  lemma {:induction false} HeldIsOpen(frames: seq<LockId>, l: LockId)
    requires Depth(frames, l) > 0
    ensures l in frames
  {
    if frames[|frames| - 1] != l {
      HeldIsOpen(frames[..|frames| - 1], l);
    }
  }

  lemma UnlessWaiting(s: State, g: nat) returns (a: Action)
    requires Inv(s) && g < |s.gs| && Busy(s.gs[g]) && !s.gs[g].phase.Waiting?
    ensures Finishing(a) && Enabled(s, g, a)
  {
    if s.gs[g].phase.Took? {
      a := Record;
    } else {
      a := Exit;
      var frames := s.gs[g].frames;
      var l := frames[|frames| - 1];
      DepthPush(frames[..|frames| - 1], l, l);
      assert Exclusive(s, l) && frames == frames[..|frames| - 1] + [l];
    }
  }

  /** Who stands in the way of a waiter: nobody, or a goroutine with an action of its own, or a
      holder that is itself waiting. */
  lemma Blocker(s: State, g: nat, l: LockId) returns (h: nat, a: Action)
    requires Inv(s) && g < |s.gs| && s.gs[g].phase == Waiting(l)
    ensures h < |s.gs| && Finishing(a)
    ensures Enabled(s, h, a) || (l in s.cells && Depth(s.gs[h].frames, l) > 0 && s.gs[h].phase.Waiting?)
  {
    assert Exclusive(s, l);
    if !At(s, l).file {
      h, a := g, Take;
    } else if At(s, l).owner == 0 {
      h :| IsTaking(s, h, l);
      a := Record;
    } else {
      h, a := At(s, l).owner - 1, Exit;
      if !s.gs[h].phase.Waiting? {
        HeldIsOpen(s.gs[h].frames, l);
        a := UnlessWaiting(s, h);
      }
    }
  }

  /** Different locks, each but the last held by somebody who waits for the next. */
  predicate Chain(may: Discipline, c: seq<LockId>) {
    && c != []
    && (forall i, j :: 0 <= i < j < |c| ==> c[i] != c[j])
    && (forall i, j :: 0 <= i < j < |c| ==> c[j].Authority? ==> c[i].Authority?)
    && (forall i :: 0 <= i < |c| - 1 ==> may(c[i], c[i + 1]))
  }

  /** A waiting holder lengthens the chain, unless what it waits for closes a cycle. */
  lemma ChainGrows(s: State, may: Discipline, c: seq<LockId>, h: nat)
    requires Inv(s) && AllObedient(s, may) && Acyclic(may) && Chain(may, c)
    requires h < |s.gs| && s.gs[h].phase.Waiting? && Depth(s.gs[h].frames, c[|c| - 1]) > 0
    ensures Chain(may, c + [s.gs[h].phase.lock])
  {
    var last, next := c[|c| - 1], s.gs[h].phase.lock;
    HeldIsOpen(s.gs[h].frames, last);
    assert Obedient(s.gs[h], may) && Ordered(s, h) && Asks(s, h, next);
    assert may(last, next) && next != last && (next.Authority? ==> last.Authority?);
    if j :| 0 <= j < |c| && c[j] == next {
      var loop := c[j..];
      forall i | 0 <= i < |loop| ensures may(loop[i], loop[Next(loop, i)]) {
        if i + 1 < |loop| {
          assert may(c[j + i], c[j + i + 1]);
        }
      }
      assert Cycle(may, loop);
    }
  }

  /** The locks a chain has not passed. */
  function Ahead(s: State, c: seq<LockId>): set<LockId>
    requires c != []
  {
    set l | l in s.cells && l !in c[..|c| - 1]
  }

  /** Following who waits for whom ends at a goroutine that can go on. */
  lemma FollowTheChain(s: State, may: Discipline, g: nat, c: seq<LockId>) returns (h: nat, a: Action)
    requires Inv(s) && AllObedient(s, may) && Acyclic(may) && Chain(may, c)
    requires g < |s.gs| && s.gs[g].phase == Waiting(c[|c| - 1])
    ensures h < |s.gs| && Finishing(a) && Enabled(s, h, a)
    decreases Ahead(s, c)
  {
    h, a := Blocker(s, g, c[|c| - 1]);
    if !Enabled(s, h, a) {
      ChainGrows(s, may, c, h);
      var longer := c + [s.gs[h].phase.lock];
      assert longer[..|longer| - 1] == c;
      assert c[|c| - 1] in Ahead(s, c) && Ahead(s, longer) <= Ahead(s, c);
      h, a := FollowTheChain(s, may, h, longer);
    }
  }

  /** While any call is open or asked for, some goroutine can take a finishing action. */
  lemma SomebodyCanFinish(s: State, may: Discipline, g: nat) returns (h: nat, a: Action)
    requires Inv(s) && AllObedient(s, may) && Acyclic(may) && g < |s.gs| && Busy(s.gs[g])
    ensures h < |s.gs| && Finishing(a) && Enabled(s, h, a)
  {
    if s.gs[g].phase.Waiting? {
      h, a := FollowTheChain(s, may, g, [s.gs[g].phase.lock]);
    } else {
      h := g;
      a := UnlessWaiting(s, g);
    }
  }

  // ----- and every call can be brought to its end -----

  function Weight(me: Goroutine): nat {
    |me.frames| + match me.phase case Running => 0 case Took(_) => 2 case Waiting(_) => 3
  }

  function TotalWeight(gs: seq<Goroutine>): nat {
    if gs == [] then 0 else Weight(gs[0]) + TotalWeight(gs[1..])
  }

  lemma {:induction false} WeightUpdate(gs: seq<Goroutine>, g: nat, me: Goroutine)
    requires g < |gs|
    ensures TotalWeight(gs[g := me]) == TotalWeight(gs) - Weight(gs[g]) + Weight(me)
  {
    if g == 0 {
      assert gs[0 := me][1..] == gs[1..];
    } else {
      WeightUpdate(gs[1..], g - 1, me);
      assert gs[g := me][1..] == gs[1..][g - 1 := me];
    }
  }

  lemma {:induction false} IdleWhenWeightless(gs: seq<Goroutine>)
    ensures (TotalWeight(gs) == 0) <==> (forall g :: 0 <= g < |gs| ==> !Busy(gs[g]))
  {
    if gs != [] {
      IdleWhenWeightless(gs[1..]);
      assert forall g :: 0 < g < |gs| ==> gs[g] == gs[1..][g - 1];
      if forall g :: 0 <= g < |gs| ==> !Busy(gs[g]) {
        assert forall g :: 0 <= g < |gs| - 1 ==> gs[1..][g] == gs[g + 1];
      }
    }
  }

  lemma FinishingIsProgress(s: State, h: nat, a: Action)
    requires Enabled(s, h, a) && Finishing(a)
    ensures TotalWeight(After(s, h, a).gs) == TotalWeight(s.gs) - 1
  {
    var t := After(s, h, a);
    WeightUpdate(s.gs, h, t.gs[h]);
    assert t.gs == s.gs[h := t.gs[h]];
  }

  /** From every such state the open calls can all be brought to an end, without a single timeout,
      in exactly as many actions as they weigh. */
  lemma {:induction false} EveryCallCanFinish(s: State, may: Discipline) returns (run: seq<Move>)
    requires Inv(s) && AllObedient(s, may) && Acyclic(may)
    ensures Possible(s, run) && AllFinishing(run) && AllIdle(Final(s, run))
    ensures |run| == TotalWeight(s.gs)
    decreases TotalWeight(s.gs)
  {
    IdleWhenWeightless(s.gs);
    if TotalWeight(s.gs) == 0 {
      return [];
    }
    var g :| 0 <= g < |s.gs| && Busy(s.gs[g]);
    var h, a := SomebodyCanFinish(s, may, g);
    FinishingIsProgress(s, h, a);
    StepKeepsInv(s, h, a);
    StepKeepsObedient(s, Move(h, a), may);
    var rest := EveryCallCanFinish(After(s, h, a), may);
    run := Prepend(s, Move(h, a), rest);
  }

  // ----- a cycle deadlocks -----

  /** The first `i` goroutines hold a lock of the circle each, and the first `w` of them wait for
      the next one. */
  ghost predicate Around(s: State, c: seq<LockId>, i: nat, w: nat)
    requires w <= i <= |c|
  {
    && |s.gs| == |c|
    && (forall j :: 0 <= j < |c| ==>
          s.gs[j] == Goroutine(if j < w then Waiting(c[Next(c, j)]) else Running, if j < i then [c[j]] else []))
    && (forall j :: 0 <= j < i ==> At(s, c[j]) == Cell(j + 1, 1, true))
    && (forall l :: l !in c[..i] ==> At(s, l) == Free)
  }

  /** Nobody in the circle is refused for holding a spec lock. */
  lemma NobodyIsRefused(s: State, may: Discipline, c: seq<LockId>, i: nat, w: nat, g: nat, k: nat)
    requires Cycle(may, c) && w <= i <= |c| && Around(s, c, i, w) && g < |c| && k < |c|
    ensures !OrderRefused(s, g, c[k])
  {
    if HoldsSpecLock(s, g + 1) {
      var l :| l in s.cells && l.SpecLock? && s.cells[l].owner == g + 1 && s.cells[l].depth > 0;
      assert At(s, l) != Free;
      var j :| 0 <= j < i && c[j] == l;
      assert c[j].Authority? == c[k].Authority?;
    }
  }

  /** An idle goroutine takes a free lock in three steps. */
  lemma TakeFree(s: State, may: Discipline, g: nat, l: LockId) returns (run: seq<Move>)
    requires g < |s.gs| && s.gs[g] == Goroutine(Running, [])
    requires At(s, l) == Free && WouldWait(s, g, l)
    ensures Possible(s, run) && Keeps(s, run, may)
    ensures Final(s, run).gs == s.gs[g := Goroutine(Running, [l])]
    ensures forall m :: At(Final(s, run), m) == if m == l then Cell(g + 1, 1, true) else At(s, m)
  {
    var s1 := After(s, g, Request(l));
    var s2 := After(s1, g, Take);
    run := PrependKept(s2, Move(g, Record), [], may);
    run := PrependKept(s1, Move(g, Take), run, may);
    run := PrependKept(s, Move(g, Request(l)), run, may);
    assert s2.gs[g].frames + [l] == [l];
    assert After(s2, g, Record).gs == s.gs[g := Goroutine(Running, [l])];
  }

  lemma OneTakes(s: State, may: Discipline, c: seq<LockId>, i: nat) returns (run: seq<Move>)
    requires Cycle(may, c) && i < |c| && Around(s, c, i, 0)
    ensures Possible(s, run) && Keeps(s, run, may) && Around(Final(s, run), c, i + 1, 0)
  {
    NobodyIsRefused(s, may, c, i, 0, i, i);
    run := TakeFree(s, may, i, c[i]);
    assert c[..i + 1] == c[..i] + [c[i]];
  }

  lemma OneWaits(s: State, may: Discipline, c: seq<LockId>, w: nat) returns (run: seq<Move>)
    requires Cycle(may, c) && w < |c| && Around(s, c, |c|, w)
    ensures Possible(s, run) && Keeps(s, run, may) && Around(Final(s, run), c, |c|, w + 1)
  {
    var l := c[Next(c, w)];
    NobodyIsRefused(s, may, c, |c|, w, w, Next(c, w));
    run := PrependKept(s, Move(w, Request(l)), [], may);
  }

  lemma {:induction false} AllTake(may: Discipline, c: seq<LockId>, i: nat) returns (run: seq<Move>)
    requires Cycle(may, c) && i <= |c|
    ensures Possible(Start(|c|), run) && Keeps(Start(|c|), run, may)
    ensures Around(Final(Start(|c|), run), c, i, 0)
  {
    run := [];
    if i > 0 {
      run := AllTake(may, c, i - 1);
      var more := OneTakes(Final(Start(|c|), run), may, c, i - 1);
      KeepsCompose(Start(|c|), run, more, may);
      RunsCompose(Start(|c|), run, more);
      run := run + more;
    }
  }

  lemma {:induction false} AllWait(may: Discipline, c: seq<LockId>, w: nat) returns (run: seq<Move>)
    requires Cycle(may, c) && w <= |c|
    ensures Possible(Start(|c|), run) && Keeps(Start(|c|), run, may)
    ensures Around(Final(Start(|c|), run), c, |c|, w)
  {
    if w == 0 {
      run := AllTake(may, c, |c|);
    } else {
      run := AllWait(may, c, w - 1);
      var more := OneWaits(Final(Start(|c|), run), may, c, w - 1);
      KeepsCompose(Start(|c|), run, more, may);
      RunsCompose(Start(|c|), run, more);
      run := run + more;
    }
  }

  /** Everybody is in a call and nobody can do anything but time out. */
  ghost predicate Stuck(s: State) {
    && s.gs != []
    && (forall g :: 0 <= g < |s.gs| ==> Busy(s.gs[g]))
    && (forall g, a :: Enabled(s, g, a) ==> a.TimeOut?)
  }

  /** One goroutine per lock of the circle is enough to reach a state that only timeouts leave. */
  lemma CyclesDeadlock(may: Discipline, c: seq<LockId>) returns (run: seq<Move>)
    requires Cycle(may, c)
    ensures Possible(Start(|c|), run) && Keeps(Start(|c|), run, may)
    ensures Stuck(Final(Start(|c|), run))
  {
    run := AllWait(may, c, |c|);
    var s := Final(Start(|c|), run);
    forall g, a | Enabled(s, g, a) ensures a.TimeOut? {
      assert At(s, c[Next(c, g)]).file;
    }
  }

  // ----- the exact condition -----

  ghost predicate CanFinish(s: State) {
    exists rest :: Possible(s, rest) && AllFinishing(rest) && AllIdle(Final(s, rest))
  }

  /** Whatever any number of goroutines do that keeps the discipline, all calls can still end
      without a timeout. */
  ghost predicate DeadlockFree(may: Discipline) {
    forall n: nat, run :: Possible(Start(n), run) && Keeps(Start(n), run, may) ==> CanFinish(Final(Start(n), run))
  }

  lemma NoDeadlockWithoutCycle(may: Discipline, n: nat, run: seq<Move>)
    requires Acyclic(may) && Possible(Start(n), run) && Keeps(Start(n), run, may)
    ensures CanFinish(Final(Start(n), run))
  {
    StartIsSafe(n);
    RunsKeepInv(Start(n), run);
    RunsStayObedient(Start(n), run, may);
    var rest := EveryCallCanFinish(Final(Start(n), run), may);
  }

  lemma StuckCannotFinish(s: State)
    requires Stuck(s)
    ensures !CanFinish(s)
  {
    assert Busy(s.gs[0]);
    forall rest: seq<Move> | Possible(s, rest) && rest != [] ensures !Finishing(rest[0].action) {
      assert Enabled(s, rest[0].g, rest[0].action);
    }
  }

  /** A discipline is free of deadlock if and only if no circle of locks of one kind keeps it. The
      order between the two kinds is already kept by the refusal. */
  lemma DeadlockFreeExactlyWhen(may: Discipline)
    ensures DeadlockFree(may) <==> Acyclic(may)
  {
    if Acyclic(may) {
      forall n: nat, run | Possible(Start(n), run) && Keeps(Start(n), run, may)
        ensures CanFinish(Final(Start(n), run))
      {
        NoDeadlockWithoutCycle(may, n, run);
      }
    } else {
      var c :| Cycle(may, c);
      var run := CyclesDeadlock(may, c);
      StuckCannotFinish(Final(Start(|c|), run));
    }
  }

  // ----- disciplines of interest -----

  /** Locks of one kind are taken in the order of their roots. */
  predicate RootsAscend(held: LockId, asked: LockId) {
    held.Authority? == asked.Authority? ==> held.root <= asked.root
  }

  lemma {:induction false} RootsAscendAlong(c: seq<LockId>)
    requires c != [] && forall i :: 0 <= i < |c| ==> c[i].Authority? == c[0].Authority?
    requires forall i :: 0 <= i < |c| - 1 ==> RootsAscend(c[i], c[i + 1])
    ensures c[0].root <= c[|c| - 1].root
  {
    if |c| > 1 {
      var front := c[..|c| - 1];
      RootsAscendAlong(front);
      assert RootsAscend(c[|c| - 2], c[|c| - 1]);
    }
  }

  lemma NoWayBack(may: Discipline, c: seq<LockId>)
    requires forall l, m :: may(l, m) ==> RootsAscend(l, m)
    requires |c| >= 2 && forall i :: 0 <= i < |c| - 1 ==> RootsAscend(c[i], c[i + 1])
    ensures !Cycle(may, c)
  {
    if (forall i :: 0 <= i < |c| ==> c[i].Authority? == c[0].Authority?) && c[0] != c[|c| - 1] {
      RootsAscendAlong(c);
      assert !RootsAscend(c[|c| - 1], c[0]);
      assert !may(c[|c| - 1], c[Next(c, |c| - 1)]);
    }
  }

  /** Taking several roots' locks in one fixed order of roots is safe; so is the narrower rule that
      a goroutine asks for one root's locks at a time. */
  lemma AscendingRootsNeverDeadlock(may: Discipline)
    requires forall l, m :: may(l, m) ==> RootsAscend(l, m)
    ensures DeadlockFree(may)
  {
    forall c: seq<LockId> ensures !Cycle(may, c) {
      if |c| >= 2 && forall i :: 0 <= i < |c| - 1 ==> RootsAscend(c[i], c[i + 1]) {
        NoWayBack(may, c);
      } else if i :| 0 <= i < |c| - 1 && !RootsAscend(c[i], c[i + 1]) {
        assert !may(c[i], c[Next(c, i)]);
      }
    }
    DeadlockFreeExactlyWhen(may);
  }

  /** A discipline that lets the locks of two roots be taken in either order is not safe. */
  lemma OppositeOrdersDeadlock(may: Discipline, l: LockId, m: LockId)
    requires l.Authority? == m.Authority? && l != m && may(l, m) && may(m, l)
    ensures !DeadlockFree(may)
  {
    assert Cycle(may, [l, m]);
    DeadlockFreeExactlyWhen(may);
  }
}
