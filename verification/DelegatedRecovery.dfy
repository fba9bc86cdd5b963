/** What happens outside the guard: a new cycle or an archive between a crash and its reconciliation, or
    a reconciliation that cannot read the state. */
module DelegatedRecovery {
  import opened Common
  import opened RequestIds
  import opened DelegatedApproval
  import opened DelegatedRuns

  /** Reconciling an open committed use whose record is gone hands the use back to its grant. */
  lemma UnpinnedUseIsLost(s: State, a: Approval)
    requires G.SoundLedger(s.ledger) && s.pc.Idle? && SlugForm(a.use.slug)
    requires Open(s, a) && !Pinned(s.specs, a.use)
    ensures var run := [Begin(a.grantID, a.use.slug), Adjudicate(ID(a.use)), CloseReservation];
            Possible(s, run) && !Open(Final(s, run), a) && !Spent(Final(s, run), a)
  {
    var id, requestID := a.grantID, ID(a.use);
    var run := [Begin(id, a.use.slug), Adjudicate(requestID), CloseReservation];
    IDReadsBack(a.use);
    assert G.Sound(G.Project(s.ledger, id), id);
    var s1 := After(s, run[0]);
    var s2 := After(s1, run[1]);
    assert !s2.pc.committed;
    ClosedAsReleased(s2);
    ThreeSteps(s, run[0], run[1], run[2]);
  }

  lemma ThreeSteps(s: State, a: Label, b: Label, c: Label)
    requires Enabled(s, a) && Enabled(After(s, a), b) && Enabled(After(After(s, a), b), c)
    ensures Possible(s, [a, b, c]) && Final(s, [a, b, c]) == After(After(After(s, a), b), c)
  {
    var t := After(s, a);
    var u := After(t, b);
    Prepend(u, c, []);
    Prepend(t, b, [c]);
    Prepend(s, a, [b, c]);
    assert [c] + [] == [c] && [b] + [c] == [b, c] && [a] + [b, c] == [a, b, c];
  }

  lemma TwoSteps(s: State, a: Label, b: Label)
    requires Enabled(s, a) && Enabled(After(s, a), b)
    ensures Possible(s, [a, b]) && Final(s, [a, b]) == After(After(s, a), b)
  {
    var t := After(s, a);
    Prepend(t, b, []);
    Prepend(s, a, [b]);
    assert [b] + [] == [b] && [a] + [b] == [a, b];
  }

  lemma FourSteps(s: State, a: Label, b: Label, c: Label, d: Label)
    requires Enabled(s, a) && Enabled(After(s, a), b) && Enabled(After(After(s, a), b), c)
    requires Enabled(After(After(After(s, a), b), c), d)
    ensures Possible(s, [a, b, c, d]) && Final(s, [a, b, c, d]) == After(After(After(After(s, a), b), c), d)
  {
    ThreeSteps(After(s, a), b, c, d);
    Prepend(s, a, [b, c, d]);
    assert [a] + [b, c, d] == [a, b, c, d];
  }

  lemma Prepend(s: State, l: Label, run: seq<Label>)
    requires Enabled(s, l) && Possible(After(s, l), run)
    ensures Possible(s, [l] + run) && Final(s, [l] + run) == Final(After(s, l), run)
  {
  }

  /** So an unguarded write is one after which a crash and a reconciliation take back the use of an
      approval that did commit: the guard is exactly what a caller must check before starting a new cycle
      or archiving, and a delegated approval before it commits. */
  lemma UnguardedWriteLosesAUse(s: State, l: Label) returns (a: Approval)
    requires Inv(s) && Enabled(s, l) && !Guard(s, l) && !l.Misread?
    ensures a in After(s, l).history
    ensures var t := After(s, l);
            var run := [Crash, Begin(a.grantID, a.use.slug), Adjudicate(ID(a.use)), CloseReservation];
            Possible(t, run) && !Open(Final(t, run), a) && !Spent(Final(t, run), a)
  {
    var t := After(s, l);
    a := SomethingUnpinned(s, l);
    var u := After(t, Crash);
    UnpinnedUseIsLost(u, a);
    CrashFirst(t, Begin(a.grantID, a.use.slug), Adjudicate(ID(a.use)), CloseReservation);
  }

  lemma CrashFirst(s: State, a: Label, b: Label, c: Label)
    requires Possible(After(s, Crash), [a, b, c])
    ensures Possible(s, [Crash, a, b, c]) && Final(s, [Crash, a, b, c]) == Final(After(s, Crash), [a, b, c])
  {
    Prepend(s, Crash, [a, b, c]);
    assert [Crash] + [a, b, c] == [Crash, a, b, c];
  }

  /** The committed approval whose record an unguarded write took. */
  lemma SomethingUnpinned(s: State, l: Label) returns (a: Approval)
    requires Inv(s) && Enabled(s, l) && !Guard(s, l) && !l.Misread?
    ensures a in After(s, l).history && SlugForm(a.use.slug)
    ensures Open(After(s, l), a) && !Pinned(After(s, l).specs, a.use)
    ensures After(s, l).ledger == s.ledger
  {
    var t := After(s, l);
    if l.Commit? {
      a := Approval(s.pc.grantID, s.pc.use);
      CommitUnpinned(s);
      assert t.history[|s.history|] == a;
    } else {
      var g :| HeldUse(s, l.slug, g).Some?;
      a := HeldUse(s, l.slug, g).value;
      HeldIsOpenCommitted(s, a);
      RecordsGone(s, l, a.use);
    }
  }

  lemma RecordsGone(s: State, l: Label, u: Use)
    requires Enabled(s, l) && (l.Archive? || (l.ChangeSpec? && l.change.ReopenSpec?)) && u.slug == l.slug
    ensures !Pinned(After(s, l).specs, u)
    ensures After(s, l).ledger == s.ledger && After(s, l).history == s.history
  {
  }

  /** An approval that was committed for another gate has no record of its own. */
  lemma CommitUnpinned(s: State)
    requires Filed(s.specs) && Enabled(s, Commit) && !Guard(s, Commit)
    ensures !Pinned(After(s, Commit).specs, s.pc.use)
  {
    var spec := s.specs[s.pc.use.slug];
    assert WellFiled(spec) && spec.approvals in Versions(spec);
  }

  /** Reconciling while the state file of a committed approval cannot be read hands its use back. */
  lemma MisreadLosesTheUse(s: State, requestID: string)
    requires Inv(s) && Enabled(s, Misread(requestID)) && HeldAs(s, s.pc.grantID, requestID)
    ensures var run := [Misread(requestID), CloseReservation];
            && Possible(s, run)
            && requestID !in Reserved(Final(s, run), s.pc.grantID)
            && requestID !in Consumed(Final(s, run), s.pc.grantID)
  {
    var id := s.pc.grantID;
    assert G.Sound(G.Project(s.ledger, id), id);
    ClosedAsReleased(After(s, Misread(requestID)));
    TwoSteps(s, Misread(requestID), CloseReservation);
  }

  lemma ClosedAsReleased(s: State)
    requires s.pc.Adjudicated? && !s.pc.committed
    requires var p := G.Project(s.ledger, s.pc.grantID);
             p.grant.Some? && s.pc.requestID in p.reserved
    ensures var p, q := G.Project(s.ledger, s.pc.grantID), G.Project(After(s, CloseReservation).ledger, s.pc.grantID);
            q == p.(reserved := p.reserved - {s.pc.requestID})
  {
  }

  // ----- the overdraw, step by step -----

  /** The request a correctly configured caller makes for a use. */
  function Ask(g: G.Grant, token: string, u: Use): G.Request {
    G.Request(g.project, u.slug, ApproveTransition(u.gate), ID(u), "", g.configDigest, g.policyDigest, false, token)
  }

  /** The grant covers approving one gate of a spec, now and without a reason. */
  predicate Covers(g: G.Grant, slug: string, gate: Gate, token: string, now: int) {
    var t := ApproveTransition(gate);
    && SlugForm(slug) && slug in g.specIDs && t in g.transitions && t !in g.prohibitions
    && !g.reasonRequired && g.expiresAt.Some? && now < g.expiresAt.value && g.tokenDigest == G.Sha256(token)
  }

  predicate CoversAll(g: G.Grant, slug: string, gates: set<Gate>, token: string, now: int) {
    forall gate :: gate in gates ==> Covers(g, slug, gate, token, now)
  }

  lemma IDIsNotBlank(u: Use)
    ensures !Blank(ID(u))
  {
    assert ID(u)[|u.slug|] == ':';
  }

  /** A transaction that has finished reconciling, with a spec to approve and a use to spare. */
  predicate ReadyToApprove(s: State, g: G.Grant, token: string, now: int) {
    && s.pc.Reconciling? && s.pc.todo == {} && s.pc.slug in s.specs && Approvable(s.specs[s.pc.slug])
    && Covers(g, s.pc.slug, ApprovalGateFor(s.specs[s.pc.slug].status), token, now)
    && g.maxUses >= 1 && G.Project(s.ledger, s.pc.grantID) == G.Projection(Some(g), false, {}, {})
  }

  /** Such a transaction gets its use. */
  lemma TransactionReserves(s: State, g: G.Grant, token: string, now: int) returns (u: Use, t: State)
    requires ReadyToApprove(s, g, token, now)
    ensures u == Use(s.pc.slug, ApprovalGateFor(s.specs[s.pc.slug].status), s.specs[s.pc.slug].revision)
    ensures Possible(s, [LoadSpec, ReserveUse(true, Ask(g, token, u), now)])
    ensures t == Final(s, [LoadSpec, ReserveUse(true, Ask(g, token, u), now)])
    ensures t == State(s.ledger + [G.GrantEvent(G.UsePrepared, s.pc.grantID, None, ID(u))], s.specs,
                       Prepared(s.pc.grantID, u), s.history)
  {
    u := Use(s.pc.slug, ApprovalGateFor(s.specs[s.pc.slug].status), s.specs[s.pc.slug].revision);
    var reserve := ReserveUse(true, Ask(g, token, u), now);
    var s1 := After(s, LoadSpec);
    IDIsNotBlank(u);
    assert G.Authorize(G.Project(s.ledger, s.pc.grantID), Ask(g, token, u), now).None?;
    t := After(s1, reserve);
    TwoSteps(s, LoadSpec, reserve);
  }

  /** And goes through to its commit. */
  lemma TransactionCommits(s: State, g: G.Grant, token: string, now: int) returns (u: Use, t: State)
    requires ReadyToApprove(s, g, token, now)
    ensures u == Use(s.pc.slug, ApprovalGateFor(s.specs[s.pc.slug].status), s.specs[s.pc.slug].revision)
    ensures Possible(s, [LoadSpec, ReserveUse(true, Ask(g, token, u), now), Commit])
    ensures t == Final(s, [LoadSpec, ReserveUse(true, Ask(g, token, u), now), Commit])
    ensures t.history == s.history + [Approval(s.pc.grantID, u)] && t.pc == Approved(s.pc.grantID, u)
    ensures t.specs == s.specs[s.pc.slug := Advance(s.specs[s.pc.slug], Some(s.pc.grantID))]
    ensures t.ledger == s.ledger + [G.GrantEvent(G.UsePrepared, s.pc.grantID, None, ID(u))]
  {
    var s2: State;
    u, s2 := TransactionReserves(s, g, token, now);
    var begun := [LoadSpec, ReserveUse(true, Ask(g, token, u), now)];
    t := After(s2, Commit);
    Prepend(s2, Commit, []);
    RunsCompose(s, begun, [Commit] + []);
    assert begun + ([Commit] + []) == [LoadSpec, ReserveUse(true, Ask(g, token, u), now), Commit];
  }

  lemma {:induction false} RunsCompose(s: State, first: seq<Label>, second: seq<Label>)
    requires Possible(s, first) && Possible(Final(s, first), second)
    ensures Possible(s, first + second) && Final(s, first + second) == Final(Final(s, first), second)
    decreases |first|
  {
    if first == [] {
      assert first + second == second;
    } else {
      RunsCompose(After(s, first[0]), first[1..], second);
      assert (first + second)[1..] == first[1..] + second;
    }
  }

  lemma SecondReconcile(s: State, u: Use) returns (t: State)
    requires s.pc.Reconciling? && s.pc.todo == {ID(u)} && SlugForm(u.slug) && !Pinned(s.specs, u)
    requires var p := G.Project(s.ledger, s.pc.grantID); p.grant.Some? && p.reserved == {ID(u)}
    ensures Possible(s, [Adjudicate(ID(u)), CloseReservation]) && t == Final(s, [Adjudicate(ID(u)), CloseReservation])
    ensures t.pc == Reconciling(s.pc.grantID, s.pc.slug, {}) && t.specs == s.specs && t.history == s.history
    ensures var p, q := G.Project(s.ledger, s.pc.grantID), G.Project(t.ledger, s.pc.grantID);
            q == p.(reserved := {})
  {
    IDReadsBack(u);
    var s1 := After(s, Adjudicate(ID(u)));
    assert !s1.pc.committed;
    t := After(s1, CloseReservation);
    TwoSteps(s, Adjudicate(ID(u)), CloseReservation);
    ClosedAsReleased(s1);
  }

  /** No gate is answered that lies ahead. */
  predicate ClearAhead(spec: Spec) {
    forall g :: g in spec.approvals.answered ==> GateIndex(g) < Index(spec.status)
  }

  lemma OneApproval(spec: Spec)
    requires ClearAhead(spec) && spec.status != Complete && spec.revision < INT64_MAX
    ensures Approvable(spec) && ClearAhead(Advance(spec, None))
    ensures Index(Advance(spec, None).status) == Index(spec.status) + 1
  {
  }

  /** Interactive approvals take a spec to any later status. */
  lemma {:induction false} Climb(s: State, slug: string, status: Status) returns (run: seq<Label>, t: State)
    requires slug in s.specs && ClearAhead(s.specs[slug]) && Index(s.specs[slug].status) <= Index(status)
    requires s.specs[slug].revision + Index(status) - Index(s.specs[slug].status) <= INT64_MAX
    ensures Possible(s, run) && t == Final(s, run)
    ensures slug in t.specs && t == s.(specs := s.specs[slug := t.specs[slug]])
    ensures t.specs[slug].status == status && ClearAhead(t.specs[slug])
    ensures t.specs[slug].revision == s.specs[slug].revision + Index(status) - Index(s.specs[slug].status)
    ensures s.specs[slug].tip.NoEvents? ==> t.specs[slug].tip.NoEvents?
    decreases Index(status) - Index(s.specs[slug].status)
  {
    if s.specs[slug].status == status {
      run, t := [], s;
      assert s.specs[slug := s.specs[slug]] == s.specs;
    } else {
      var spec := s.specs[slug];
      OneApproval(spec);
      var next := Write(s, slug, Advance(spec, None));
      var rest;
      rest, t := Climb(next, slug, status);
      Prepend(s, ChangeSpec(slug, Approve), rest);
      run := [ChangeSpec(slug, Approve)] + rest;
      assert next.specs[slug := t.specs[slug]] == s.specs[slug := t.specs[slug]];
    }
  }

  /** Issue a grant, create a spec, approve it up to a status, and start a delegated approval. */
  lemma SetUp(g: G.Grant, token: string, slug: string, status: Status, sealed: G.Grant) returns (run: seq<Label>, t: State)
    requires sealed == G.Sealed(g, token) && G.Bounded(sealed) && SlugForm(slug)
    ensures Possible(Init, run) && t == Final(Init, run)
    ensures SetAt(t, sealed, slug, status)
  {
    var issue := IssueGrant(true, g, token);
    var s1 := Issued(g, token, sealed);
    var rest;
    rest, t := Begun(s1, g.id, slug, status);
    Prepend(Init, issue, rest);
    run := [issue] + rest;
  }

  lemma Begun(s: State, id: string, slug: string, status: Status) returns (run: seq<Label>, t: State)
    requires s.pc.Idle? && s.specs == map[] && SlugForm(slug)
    requires var p := G.Project(s.ledger, id); p.grant.Some? && p.reserved == {}
    ensures Possible(s, run) && t == Final(s, run)
    ensures t.pc == Reconciling(id, slug, {}) && t.specs.Keys == {slug} && t.history == s.history && t.ledger == s.ledger
    ensures t.specs[slug].status == status && t.specs[slug].revision == Index(status)
    ensures ClearAhead(t.specs[slug]) && t.specs[slug].tip.NoEvents?
  {
    var s1 := After(s, NewSpec(slug));
    var climb, s2 := Climb(s1, slug, status);
    t := After(s2, Begin(id, slug));
    Prepend(s2, Begin(id, slug), []);
    RunsCompose(s1, climb, [Begin(id, slug)] + []);
    Prepend(s, NewSpec(slug), climb + ([Begin(id, slug)] + []));
    run := [NewSpec(slug)] + (climb + ([Begin(id, slug)] + []));
  }

  lemma Issued(g: G.Grant, token: string, sealed: G.Grant) returns (s: State)
    requires sealed == G.Sealed(g, token) && G.Bounded(sealed)
    ensures s == After(Init, IssueGrant(true, g, token)) && s == Init.(ledger := s.ledger)
    ensures G.Project(s.ledger, g.id) == G.Projection(Some(sealed), false, {}, {})
  {
    s := After(Init, IssueGrant(true, g, token));
    var line := G.LineOf(G.Issue(true, g, token));
    assert G.Project([], g.id) == G.NoGrant;
    G.ProjectAppend([], line, g.id);
    assert s.ledger == [] + [line];
  }

  /** The same transaction as a run, with what it leaves in the ledger. */
  lemma ApproveFrom(run0: seq<Label>, s: State, g: G.Grant, token: string, now: int) returns (run: seq<Label>, u: Use, t: State)
    requires Possible(Init, run0) && s == Final(Init, run0) && ReadyToApprove(s, g, token, now)
    ensures Possible(Init, run) && t == Final(Init, run)
    ensures u == Use(s.pc.slug, ApprovalGateFor(s.specs[s.pc.slug].status), s.specs[s.pc.slug].revision)
    ensures t.history == s.history + [Approval(s.pc.grantID, u)]
    ensures t.specs == s.specs[s.pc.slug := Advance(s.specs[s.pc.slug], Some(s.pc.grantID))]
    ensures G.Project(t.ledger, s.pc.grantID) == G.Projection(Some(g), false, {ID(u)}, {})
  {
    u, t := TransactionCommits(s, g, token, now);
    var approve := [LoadSpec, ReserveUse(true, Ask(g, token, u), now), Commit];
    RunsCompose(Init, run0, approve);
    run := run0 + approve;
    G.ProjectAppend(s.ledger, G.GrantEvent(G.UsePrepared, s.pc.grantID, None, ID(u)), s.pc.grantID);
  }

  /** The state after a committed approval whose process died before settling its use. */
  predicate LeftOpen(s: State, id: string, u: Use) {
    && SlugForm(u.slug) && u.slug in s.specs && s.specs[u.slug].revision + 1 < INT64_MAX
    && s.specs[u.slug].tip.NoEvents?
    && var p := G.Project(s.ledger, id); p.grant.Some? && p.reserved == {ID(u)}
  }

  /** Crash, reopen the spec into a new cycle, and reconcile: the committed use comes back. */
  lemma ReopenGivesTheUseBack(s: State, id: string, u: Use) returns (run: seq<Label>, t: State)
    requires LeftOpen(s, id, u)
    ensures Possible(s, run) && t == Final(s, run) && t.history == s.history
    ensures t.pc == Reconciling(id, u.slug, {}) && u.slug in t.specs
    ensures t.specs[u.slug].status == Requirements && Approvable(t.specs[u.slug])
    ensures G.Project(t.ledger, id) == G.Project(s.ledger, id).(reserved := {})
  {
    var lose := [Crash, ChangeSpec(u.slug, ReopenSpec), Begin(id, u.slug)];
    ThreeSteps(s, lose[0], lose[1], lose[2]);
    var mid := Final(s, lose);
    t := SecondReconcile(mid, u);
    RunsCompose(s, lose, [Adjudicate(ID(u)), CloseReservation]);
    run := lose + [Adjudicate(ID(u)), CloseReservation];
  }

  /** Crash, archive the completed spec, create its slug anew, and reconcile: likewise. */
  lemma ArchiveGivesTheUseBack(s: State, id: string, u: Use) returns (run: seq<Label>, t: State)
    requires LeftOpen(s, id, u) && s.specs[u.slug].status == Complete
    ensures Possible(s, run) && t == Final(s, run) && t.history == s.history
    ensures t.pc == Reconciling(id, u.slug, {}) && u.slug in t.specs && t.specs[u.slug] == Created
    ensures G.Project(t.ledger, id) == G.Project(s.ledger, id).(reserved := {})
  {
    var lose := [Crash, Archive(u.slug), NewSpec(u.slug), Begin(id, u.slug)];
    FourSteps(s, lose[0], lose[1], lose[2], lose[3]);
    var mid := Final(s, lose);
    t := SecondReconcile(mid, u);
    RunsCompose(s, lose, [Adjudicate(ID(u)), CloseReservation]);
    run := lose + [Adjudicate(ID(u)), CloseReservation];
  }

  lemma LastGate()
    ensures ApprovalGateFor(Verifying) == CompleteGate && NextStatus(Verifying) == Some(Complete)
  {
  }

  lemma DelegatedApprovalOf(spec: Spec, id: string)
    requires Approvable(spec) && spec.tip.NoEvents?
    ensures var next := Advance(spec, Some(id));
            next.tip.NoEvents? && next.revision == spec.revision + 1 && next.status == NextStatus(spec.status).value
  {
  }

  lemma Ready(s: State, g: G.Grant, token: string, now: int, status: Status)
    requires s.pc.Reconciling? && s.pc.todo == {} && s.pc.slug in s.specs
    requires var spec := s.specs[s.pc.slug];
             spec.status == status && spec.revision == Index(status) && ClearAhead(spec) && status != Complete
    requires Covers(g, s.pc.slug, ApprovalGateFor(status), token, now) && g.maxUses >= 1
    requires G.Project(s.ledger, s.pc.grantID) == G.Projection(Some(g), false, {}, {})
    ensures ReadyToApprove(s, g, token, now)
  {
    OneApproval(s.specs[s.pc.slug]);
  }

  /** A spec set up at a status, approved by delegation, and the process dead before settling the use. */
  lemma FirstApproval(run0: seq<Label>, s: State, g: G.Grant, token: string, now: int)
    returns (run: seq<Label>, u: Use, t: State)
    requires Possible(Init, run0) && s == Final(Init, run0) && ReadyToApprove(s, g, token, now) && s.history == []
    requires s.specs[s.pc.slug].tip.NoEvents? && s.specs[s.pc.slug].revision < 10
    ensures Possible(Init, run) && t == Final(Init, run) && t.history == [Approval(s.pc.grantID, u)]
    ensures LeftOpen(t, s.pc.grantID, u) && u.slug == s.pc.slug
    ensures t.specs[u.slug].status == NextStatus(s.specs[u.slug].status).value
    ensures G.Project(t.ledger, s.pc.grantID) == G.Projection(Some(g), false, {ID(u)}, {})
  {
    DelegatedApprovalOf(s.specs[s.pc.slug], s.pc.grantID);
    run, u, t := ApproveFrom(run0, s, g, token, now);
  }

  /** A transaction that has finished reconciling on a fresh spec at a status, under an unused grant. */
  predicate SetAt(s: State, g: G.Grant, slug: string, status: Status) {
    && s.pc == Reconciling(g.id, slug, {}) && s.specs.Keys == {slug} && s.history == []
    && s.specs[slug].status == status && s.specs[slug].revision == Index(status)
    && ClearAhead(s.specs[slug]) && s.specs[slug].tip.NoEvents?
    && G.Project(s.ledger, g.id) == G.Projection(Some(g), false, {}, {})
  }

  /** Two approvals committed under a grant of one use, because the spec was reopened after the
      process died and before its reservation was reconciled. */
  lemma ReopenBeforeReconcileOverdraws(g: G.Grant, token: string, slug: string, now: int, sealed: G.Grant)
    returns (run: seq<Label>)
    requires sealed == G.Sealed(g, token) && g.maxUses == 1 && G.Bounded(sealed)
    requires Covers(sealed, slug, RequirementsGate, token, now)
    ensures Possible(Init, run) && !WithinUses(Final(Init, run), g.id)
  {
    var run0, s := SetUp(g, token, slug, Requirements, sealed);
    run := ReopenOverdraws(run0, s, sealed, token, slug, now);
  }

  lemma ReopenOverdraws(run0: seq<Label>, s: State, g: G.Grant, token: string, slug: string, now: int)
    returns (run: seq<Label>)
    requires Possible(Init, run0) && s == Final(Init, run0) && SetAt(s, g, slug, Requirements)
    requires g.maxUses == 1 && Covers(g, slug, RequirementsGate, token, now)
    ensures Possible(Init, run) && !WithinUses(Final(Init, run), g.id)
  {
    Ready(s, g, token, now, Requirements);
    var first, u, committed := FirstApproval(run0, s, g, token, now);
    var lose, t := ReopenGivesTheUseBack(committed, g.id, u);
    run := Again(first, lose, t, g.id, u, g, token, now);
  }

  /** The same because the spec was archived and its slug created anew: no reopen, no undo, and every state
      file readable. */
  lemma ArchiveBeforeReconcileOverdraws(g: G.Grant, token: string, slug: string, now: int, sealed: G.Grant)
    returns (run: seq<Label>)
    requires sealed == G.Sealed(g, token) && g.maxUses == 1 && G.Bounded(sealed)
    requires CoversAll(sealed, slug, {CompleteGate, RequirementsGate}, token, now)
    ensures Possible(Init, run) && !WithinUses(Final(Init, run), g.id)
  {
    var run0, s := SetUp(g, token, slug, Verifying, sealed);
    run := ArchiveOverdraws(run0, s, sealed, token, slug, now);
  }

  lemma ArchiveOverdraws(run0: seq<Label>, s: State, g: G.Grant, token: string, slug: string, now: int)
    returns (run: seq<Label>)
    requires Possible(Init, run0) && s == Final(Init, run0) && SetAt(s, g, slug, Verifying)
    requires g.maxUses == 1 && CoversAll(g, slug, {CompleteGate, RequirementsGate}, token, now)
    ensures Possible(Init, run) && !WithinUses(Final(Init, run), g.id)
  {
    LastGate();
    Ready(s, g, token, now, Verifying);
    var first, u, committed := FirstApproval(run0, s, g, token, now);
    var lose, t := ArchiveGivesTheUseBack(committed, g.id, u);
    run := Again(first, lose, t, g.id, u, g, token, now);
  }

  lemma Again(first: seq<Label>, lose: seq<Label>, t: State, id: string, u: Use, g: G.Grant, token: string, now: int)
    returns (run: seq<Label>)
    requires Possible(Init, first) && Possible(Final(Init, first), lose) && t == Final(Final(Init, first), lose)
    requires t.pc == Reconciling(id, u.slug, {}) && t.history == [Approval(id, u)]
    requires u.slug in t.specs && t.specs[u.slug].status == Requirements && Approvable(t.specs[u.slug])
    requires Covers(g, u.slug, RequirementsGate, token, now) && g.maxUses == 1
    requires G.Project(t.ledger, id) == G.Projection(Some(g), false, {}, {})
    ensures Possible(Init, run) && !WithinUses(Final(Init, run), id)
  {
    RunsCompose(Init, first, lose);
    run := SecondApproval(first + lose, t, id, u, g, token, now);
  }

  /** A grant of one use with one approval committed and its use back approves again. */
  lemma SecondApproval(run0: seq<Label>, s: State, id: string, u: Use, g: G.Grant, token: string, now: int)
    returns (run: seq<Label>)
    requires Possible(Init, run0) && s == Final(Init, run0) && ReadyToApprove(s, g, token, now)
    requires g.maxUses == 1 && s.pc.grantID == id && s.history == [Approval(id, u)]
    ensures Possible(Init, run) && !WithinUses(Final(Init, run), id)
  {
    var v: Use, t: State;
    run, v, t := ApproveFrom(run0, s, g, token, now);
    TwoUnderOne(t, Approval(id, u), Approval(id, v));
  }

  lemma TwoUnderOne(s: State, a: Approval, b: Approval)
    requires a.grantID == b.grantID && s.history == [a] + [b]
    requires var grant := G.Project(s.ledger, a.grantID).grant; grant.Some? && grant.value.maxUses == 1
    ensures !WithinUses(s, a.grantID)
  {
    TwoApprovals(a, b);
  }

  /** Both with a concrete grant. */
  lemma OverdrawHappens() returns (reopened: seq<Label>, archived: seq<Label>, id: string)
    ensures Possible(Init, reopened) && !WithinUses(Final(Init, reopened), id)
    ensures Possible(Init, archived) && !WithinUses(Final(Init, archived), id)
  {
    assert SlugForm("a");
    var first, last := ApproveTransition(CompleteGate), ApproveTransition(RequirementsGate);
    var g := SampleGrant("a", "t", first, last);
    id := g.id;
    ApprovalsAreDelegable(CompleteGate);
    ApprovalsAreDelegable(RequirementsGate);
    SampleIsBounded("a", "t", first, last);
    SampleCovers("a", "t", CompleteGate, RequirementsGate);
    reopened := ReopenBeforeReconcileOverdraws(g, "t", "a", 0, G.Sealed(g, "t"));
    archived := ArchiveBeforeReconcileOverdraws(g, "t", "a", 0, G.Sealed(g, "t"));
  }

  /** One use, for either of two approvals of one spec, for ten seconds. */
  function SampleGrant(slug: string, token: string, first: string, last: string): G.Grant {
    G.Grant("g", "p", "o", G.Advisory, [slug], [first, last], 1, Some(0), Some(10), NoDigest(), NoDigest(), false, false,
            [], G.Sha256(token))
  }

  function NoDigest(): (d: string)
    ensures G.ValidDigest(d)
  {
    seq(64, _ => '0')
  }

  /** No approval is among the transitions a grant may not delegate. */
  lemma ApprovalsAreDelegable(gate: Gate)
    ensures ApproveTransition(gate) !in G.FORBIDDEN
  {
    assert ApproveTransition(gate)[1] == 'p';
    forall i | 0 <= i < |G.FORBIDDEN| ensures G.FORBIDDEN[i][1] != 'p' {}
  }

  lemma SampleIsBounded(slug: string, token: string, first: string, last: string)
    requires SlugForm(slug) && first !in G.FORBIDDEN && last !in G.FORBIDDEN
    ensures G.Bounded(G.Sealed(SampleGrant(slug, token, first, last), token))
  {
    var g := SampleGrant(slug, token, first, last);
    assert g.id[0] == 'g' && g.project[0] == 'p' && g.issuer[0] == 'o';
    assert G.Identified(g);
    assert G.BoundedFields(g);
    G.StampingSuffices(g, token);
  }

  lemma SampleCovers(slug: string, token: string, first: Gate, last: Gate)
    requires SlugForm(slug)
    ensures var sealed := G.Sealed(SampleGrant(slug, token, ApproveTransition(first), ApproveTransition(last)), token);
            CoversAll(sealed, slug, {first, last}, token, 0)
  {
    var g := SampleGrant(slug, token, ApproveTransition(first), ApproveTransition(last));
    assert g.transitions[0] == ApproveTransition(first) && g.transitions[1] == ApproveTransition(last);
    assert g.specIDs[0] == slug;
    forall gate | gate in {first, last} ensures Covers(G.Sealed(g, token), slug, gate, token, 0) {
      SealedCovers(g, slug, token, gate);
    }
  }

  lemma SealedCovers(g: G.Grant, slug: string, token: string, gate: Gate)
    requires SlugForm(slug) && slug in g.specIDs && g.prohibitions == [] && ApproveTransition(gate) in g.transitions
    requires !g.reasonRequired && g.expiresAt == Some(10)
    ensures Covers(G.Sealed(g, token), slug, gate, token, 0)
  {
    ApprovalsAreDelegable(gate);
    StaysAllowed(g, token, ApproveTransition(gate));
  }

  lemma StaysAllowed(g: G.Grant, token: string, transition: string)
    requires g.prohibitions == [] && transition !in G.FORBIDDEN
    ensures transition !in G.Sealed(g, token).prohibitions
  {
    G.SealingDenies(g, token, transition);
  }

  lemma TwoApprovals(a: Approval, b: Approval)
    requires a.grantID == b.grantID
    ensures CommittedUnder([a] + [b], a.grantID) == 2
  {
    assert ([a] + [b])[..1] == [a] && [a][..0] == [];
    assert CommittedUnder([a], a.grantID) == 1;
  }
}
