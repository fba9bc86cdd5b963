/** The two reentrant locks, taken by goroutines that nest them: authority lock before spec lock.

    A goroutine is named by its index plus one, so that 0 can mean "no owner", as in the lock state.
    A waiting call retries until it creates the lock file; creating the file and recording the owner
    are two actions, as they are in the code. */
module LockOrder {

  datatype LockId = Authority(root: nat) | SpecLock(root: nat)

  /** The in-process lock state and the lock file beside it. */
  datatype Cell = Cell(owner: nat, depth: nat, file: bool)

  const Free := Cell(0, 0, false)

  datatype Phase = Running | Waiting(lock: LockId) | Took(lock: LockId)

  /** `frames` holds the calls in progress, innermost last. */
  datatype Goroutine = Goroutine(phase: Phase, frames: seq<LockId>)

  datatype State = State(cells: map<LockId, Cell>, gs: seq<Goroutine>)

  function At(s: State, l: LockId): Cell {
    if l in s.cells then s.cells[l] else Free
  }

  // ----- the lock state's own moves -----

  function Entered(c: Cell): Cell { c.(depth := c.depth + 1) }

  function Recorded(c: Cell, gid: nat): Cell { c.(owner := gid, depth := 1) }

  function Left(c: Cell): Cell
    requires c.depth > 0
  {
    if c.depth > 1 then c.(depth := c.depth - 1) else Free
  }

  // ----- actions -----

  datatype Action =
    | Request(lock: LockId)
    | Take
    | Record
    | Exit
    | TimeOut

  /** Whether any spec lock, of any root, is recorded as this goroutine's. */
  predicate HoldsSpecLock(s: State, gid: nat) {
    exists l :: l in s.cells && l.SpecLock? && s.cells[l].owner == gid && s.cells[l].depth > 0
  }

  predicate Enabled(s: State, g: nat, a: Action) {
    g < |s.gs| &&
    var me := s.gs[g];
    match a
    case Request(_) => me.phase.Running?
    case Take => me.phase.Waiting? && !At(s, me.phase.lock).file
    case Record => me.phase.Took?
    case Exit => me.phase.Running? && me.frames != [] && At(s, me.frames[|me.frames| - 1]).depth > 0
    case TimeOut => me.phase.Waiting?
  }

  /** An authority request made while holding a spec lock is refused with the order error. */
  predicate OrderRefused(s: State, g: nat, l: LockId) {
    At(s, l).owner != g + 1 && l.Authority? && HoldsSpecLock(s, g + 1)
  }

  function Put(s: State, g: nat, me: Goroutine, l: LockId, c: Cell): State
    requires g < |s.gs|
  {
    State(s.cells[l := c], s.gs[g := me])
  }

  function After(s: State, g: nat, a: Action): State
    requires Enabled(s, g, a)
  {
    var me := s.gs[g];
    match a
    case Request(l) =>
      if At(s, l).owner == g + 1 then Put(s, g, me.(frames := me.frames + [l]), l, Entered(At(s, l)))
      else if OrderRefused(s, g, l) then s
      else s.(gs := s.gs[g := me.(phase := Waiting(l))])
    case Take =>
      Put(s, g, me.(phase := Took(me.phase.lock)), me.phase.lock, At(s, me.phase.lock).(file := true))
    case Record =>
      var l := me.phase.lock;
      Put(s, g, Goroutine(Running, me.frames + [l]), l, Recorded(At(s, l), g + 1))
    case Exit =>
      var l := me.frames[|me.frames| - 1];
      Put(s, g, me.(frames := me.frames[..|me.frames| - 1]), l, Left(At(s, l)))
    case TimeOut => s.(gs := s.gs[g := me.(phase := Running)])
  }

  // ----- the invariant -----

  /** How many open calls of a goroutine hold a lock. */
  function Depth(frames: seq<LockId>, l: LockId): nat {
    if frames == [] then 0
    else Depth(frames[..|frames| - 1], l) + if frames[|frames| - 1] == l then 1 else 0
  }

  predicate IsTaking(s: State, g: nat, l: LockId) {
    g < |s.gs| && s.gs[g].phase == Took(l)
  }

  predicate Asks(s: State, g: nat, l: LockId) {
    g < |s.gs| && (s.gs[g].phase == Waiting(l) || s.gs[g].phase == Took(l))
  }

  /** One owner, its depth is its number of open calls, and the file stands for exactly one claim. */
  ghost predicate Exclusive(s: State, l: LockId) {
    var c := At(s, l);
    && (c.owner == 0 <==> c.depth == 0)
    && c.owner <= |s.gs|
    && (forall g :: 0 <= g < |s.gs| ==> Depth(s.gs[g].frames, l) == if c.owner == g + 1 then c.depth else 0)
    && (c.owner > 0 ==> c.file && forall g :: !IsTaking(s, g, l))
    && (forall g, h :: IsTaking(s, g, l) && IsTaking(s, h, l) ==> g == h)
    && (forall g :: IsTaking(s, g, l) ==> c.file)
    && (c.file && c.owner == 0 ==> exists g :: IsTaking(s, g, l))
  }

  /** A goroutine asks only for a lock it does not hold, and for the authority lock only while it
      holds no spec lock of any root. */
  ghost predicate Ordered(s: State, g: nat) {
    forall l :: Asks(s, g, l) ==>
      && Depth(s.gs[g].frames, l) == 0
      && (l.Authority? ==> forall m: LockId :: m.SpecLock? ==> Depth(s.gs[g].frames, m) == 0)
  }

  ghost predicate Inv(s: State) {
    && (forall l :: Exclusive(s, l))
    && (forall g :: 0 <= g < |s.gs| ==> Ordered(s, g))
  }

  lemma DepthPush(frames: seq<LockId>, l: LockId, m: LockId)
    ensures Depth(frames + [l], m) == Depth(frames, m) + if l == m then 1 else 0
  {
  }

  /** The test against the lock table is the test against the open calls. */
  lemma HoldsMeansDepth(s: State, g: nat)
    requires Inv(s) && g < |s.gs|
    ensures HoldsSpecLock(s, g + 1) <==> exists m: LockId :: m.SpecLock? && Depth(s.gs[g].frames, m) > 0
  {
    if m: LockId :| m.SpecLock? && Depth(s.gs[g].frames, m) > 0 {
      assert Exclusive(s, m);
      assert m in s.cells && s.cells[m].owner == g + 1 && s.cells[m].depth > 0;
    }
    if HoldsSpecLock(s, g + 1) {
      var l :| l in s.cells && l.SpecLock? && s.cells[l].owner == g + 1 && s.cells[l].depth > 0;
      assert Exclusive(s, l);
    }
  }

  /** The order error is for a goroutine that has an open call on a spec lock and none on the authority lock it
      asks for. */
  lemma OrderRefusedExactlyWhen(s: State, g: nat, l: LockId)
    requires Inv(s) && g < |s.gs|
    ensures OrderRefused(s, g, l) <==>
            && l.Authority? && Depth(s.gs[g].frames, l) == 0
            && exists m: LockId :: m.SpecLock? && Depth(s.gs[g].frames, m) > 0
  {
    HoldsMeansDepth(s, g);
    assert Exclusive(s, l);
  }

  lemma RequestKeepsInv(s: State, g: nat, l: LockId)
    requires Inv(s) && Enabled(s, g, Request(l))
    ensures Inv(After(s, g, Request(l)))
  {
    var t := After(s, g, Request(l));
    var me := s.gs[g];
    HoldsMeansDepth(s, g);
    forall m ensures Exclusive(t, m) {
      assert Exclusive(s, m);
      DepthPush(me.frames, l, m);
      forall h ensures IsTaking(t, h, m) == IsTaking(s, h, m) {}
    }
    forall h | 0 <= h < |t.gs| ensures Ordered(t, h) {
      assert Ordered(s, h) && Exclusive(s, l);
    }
  }

  lemma TakeKeepsInv(s: State, g: nat)
    requires Inv(s) && Enabled(s, g, Take)
    ensures Inv(After(s, g, Take))
  {
    var t := After(s, g, Take);
    var l := s.gs[g].phase.lock;
    forall m ensures Exclusive(t, m) {
      assert Exclusive(s, m);
      assert IsTaking(t, g, l);
      forall h ensures IsTaking(t, h, m) == (IsTaking(s, h, m) || (h == g && m == l)) {}
    }
    forall h | 0 <= h < |t.gs| ensures Ordered(t, h) {
      assert Ordered(s, h);
      assert forall m :: Asks(t, h, m) ==> Asks(s, h, m);
    }
  }

  lemma RecordKeepsInv(s: State, g: nat)
    requires Inv(s) && Enabled(s, g, Record)
    ensures Inv(After(s, g, Record))
  {
    var t := After(s, g, Record);
    var l := s.gs[g].phase.lock;
    assert IsTaking(s, g, l) && Asks(s, g, l) && Ordered(s, g);
    forall m ensures Exclusive(t, m) {
      assert Exclusive(s, m);
      DepthPush(s.gs[g].frames, l, m);
      forall h ensures IsTaking(t, h, m) == (IsTaking(s, h, m) && h != g) {}
      assert m != l ==> !IsTaking(s, g, m);
    }
    forall h | 0 <= h < |t.gs| ensures Ordered(t, h) {
      assert Ordered(s, h);
    }
  }

  lemma ExitKeepsInv(s: State, g: nat)
    requires Inv(s) && Enabled(s, g, Exit)
    ensures Inv(After(s, g, Exit))
  {
    var t := After(s, g, Exit);
    var n := |s.gs[g].frames| - 1;
    var l := s.gs[g].frames[n];
    assert s.gs[g].frames == s.gs[g].frames[..n] + [l];
    forall m ensures Exclusive(t, m) {
      assert Exclusive(s, m);
      DepthPush(s.gs[g].frames[..n], l, m);
      forall h ensures IsTaking(t, h, m) == IsTaking(s, h, m) {}
    }
    forall h | 0 <= h < |t.gs| ensures Ordered(t, h) {
      assert Ordered(s, h);
    }
  }

  lemma TimeOutKeepsInv(s: State, g: nat)
    requires Inv(s) && Enabled(s, g, TimeOut)
    ensures Inv(After(s, g, TimeOut))
  {
    var t := After(s, g, TimeOut);
    forall m ensures Exclusive(t, m) {
      assert Exclusive(s, m);
      forall h ensures IsTaking(t, h, m) == IsTaking(s, h, m) {}
    }
    forall h | 0 <= h < |t.gs| ensures Ordered(t, h) {
      assert Ordered(s, h);
    }
  }

  lemma StepKeepsInv(s: State, g: nat, a: Action)
    requires Inv(s) && Enabled(s, g, a)
    ensures Inv(After(s, g, a))
  {
    match a {
      case Request(l) => RequestKeepsInv(s, g, l);
      case Take => TakeKeepsInv(s, g);
      case Record => RecordKeepsInv(s, g);
      case Exit => ExitKeepsInv(s, g);
      case TimeOut => TimeOutKeepsInv(s, g);
    }
  }

  // ----- whole runs -----

  datatype Move = Move(g: nat, action: Action)

  predicate Possible(s: State, run: seq<Move>)
    decreases |run|
  {
    run == [] || (Enabled(s, run[0].g, run[0].action) && Possible(After(s, run[0].g, run[0].action), run[1..]))
  }

  function Final(s: State, run: seq<Move>): State
    requires Possible(s, run)
    decreases |run|
  {
    if run == [] then s else Final(After(s, run[0].g, run[0].action), run[1..])
  }

  /** Any number of goroutines, none of them in a call. */
  function Start(n: nat): State { State(map[], seq(n, _ => Goroutine(Running, []))) }

  lemma StartIsSafe(n: nat)
    ensures Inv(Start(n))
  {
  }

  lemma {:induction false} RunsKeepInv(s: State, run: seq<Move>)
    requires Inv(s) && Possible(s, run)
    ensures Inv(Final(s, run))
    decreases |run|
  {
    if run != [] {
      StepKeepsInv(s, run[0].g, run[0].action);
      RunsKeepInv(After(s, run[0].g, run[0].action), run[1..]);
    }
  }

  /** In every reachable state a lock is held by at most one goroutine, at the depth of that
      goroutine's open calls, and no goroutine asks for the authority lock holding a spec lock. */
  lemma LocksExcludeAndAreOrdered(n: nat, run: seq<Move>, g: nat, l: LockId)
    requires Possible(Start(n), run) && g < |Final(Start(n), run).gs|
    ensures var s := Final(Start(n), run);
            var held := Depth(s.gs[g].frames, l);
            && (held > 0 ==> At(s, l).owner == g + 1 && At(s, l).depth == held && At(s, l).file)
            && (held > 0 ==> forall h :: 0 <= h < |s.gs| && h != g ==> Depth(s.gs[h].frames, l) == 0)
            && (Asks(s, g, l) && l.Authority? ==> !HoldsSpecLock(s, g + 1))
  {
    StartIsSafe(n);
    RunsKeepInv(Start(n), run);
    var s := Final(Start(n), run);
    assert Exclusive(s, l) && Ordered(s, g);
    HoldsMeansDepth(s, g);
  }

  // ----- building runs -----

  lemma Prepend(s: State, m: Move, rest: seq<Move>) returns (run: seq<Move>)
    requires Enabled(s, m.g, m.action) && Possible(After(s, m.g, m.action), rest)
    ensures run == [m] + rest && Possible(s, run) && Final(s, run) == Final(After(s, m.g, m.action), rest)
  {
    run := [m] + rest;
    assert run[1..] == rest;
  }

  lemma {:induction false} RunsCompose(s: State, run: seq<Move>, more: seq<Move>)
    requires Possible(s, run) && Possible(Final(s, run), more)
    ensures Possible(s, run + more) && Final(s, run + more) == Final(Final(s, run), more)
    decreases |run|
  {
    if run == [] {
      assert run + more == more;
    } else {
      RunsCompose(After(s, run[0].g, run[0].action), run[1..], more);
      assert (run + more)[1..] == run[1..] + more;
    }
  }

  lemma OneMove(s: State, m: Move)
    requires Enabled(s, m.g, m.action)
    ensures Possible(s, [m]) && Final(s, [m]) == After(s, m.g, m.action)
  {
    assert [m][1..] == [];
  }
}
