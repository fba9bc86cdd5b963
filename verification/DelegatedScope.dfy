/** What delegated approvals write, against what their grants cover.

    The grant is checked when a use is reserved; the approval that follows compares revisions and not
    gates. These results say when the gate it writes is the gate that was checked, and when it is
    covered by the grant. */
module DelegatedScope {
  import opened Common
  import opened RequestIds
  import opened DelegatedApproval
  import opened DelegatedGuard
  import opened DelegatedRuns
  import opened DelegatedRecovery

  // ----- which gate a commit writes -----

  /** The gate a commit is about to write. */
  function GateFound(s: State): Gate
    requires Enabled(s, Commit)
  {
    ApprovalGateFor(s.specs[s.pc.use.slug].status)
  }

  /** A commit leaves this gate's approval record and companion naming its grant and its revision. */
  predicate Writes(s: State, gate: Gate)
    requires Enabled(s, Commit)
  {
    var a := After(s, Commit).specs[s.pc.use.slug].approvals;
    && gate in a.records && a.records[gate] == s.pc.use.revision
    && gate in a.delegations && a.delegations[gate] == Delegation(s.pc.grantID, s.pc.use.revision)
  }

  /** In every reachable state a commit writes the gate its use was reserved for if and only if the spec
      stands at that gate; it always writes the gate it finds, and no other. */
  lemma CommitWritesItsGateExactlyWhen(run: seq<Label>, gate: Gate)
    requires Possible(Init, run) && Enabled(Final(Init, run), Commit)
    ensures var s := Final(Init, run);
            && (Writes(s, gate) <==> gate == GateFound(s))
            && (Writes(s, s.pc.use.gate) <==> s.pc.use.gate == ApprovalGateFor(s.specs[s.pc.use.slug].status))
  {
    RunsStayFiled(Init, run);
    WritesGateFound(Final(Init, run), gate);
    WritesGateFound(Final(Init, run), Final(Init, run).pc.use.gate);
  }

  lemma WritesGateFound(s: State, gate: Gate)
    requires Filed(s.specs) && Enabled(s, Commit)
    ensures Writes(s, gate) <==> gate == GateFound(s)
  {
    var spec := s.specs[s.pc.use.slug];
    assert WellFiled(spec) && spec.approvals in Versions(spec);
  }

  // ----- when commits find the gate they asked for -----

  /** Every commit of the run finds the gate its use was reserved for. */
  predicate CommitsAgree(s: State, run: seq<Label>)
    requires Possible(s, run)
    decreases |run|
  {
    run == [] ||
    ((run[0].Commit? ==> s.pc.use.gate == GateFound(s)) && CommitsAgree(After(s, run[0]), run[1..]))
  }

  /** No spec is archived between being loaded by a transaction and being approved by it. */
  predicate NoArchiveInFlight(s: State, run: seq<Label>)
    requires Possible(s, run)
    decreases |run|
  {
    run == [] ||
    ((run[0].Archive? ==> !InFlight(s, run[0].slug)) && NoArchiveInFlight(After(s, run[0]), run[1..]))
  }

  /** Only an archive in between can make a commit find another gate: every other write moves the
      revision the commit compares. */
  lemma {:induction false} WithoutArchivesCommitsAgree(s: State, run: seq<Label>)
    requires Expected(s) && Possible(s, run) && NoArchiveInFlight(s, run)
    ensures CommitsAgree(s, run)
    decreases |run|
  {
    if run != [] {
      ExpectedStep(s, run[0]);
      WithoutArchivesCommitsAgree(After(s, run[0]), run[1..]);
    }
  }

  lemma {:induction false} GuardedCommitsAgree(s: State, run: seq<Label>)
    requires Possible(s, run) && Guarded(s, run)
    ensures CommitsAgree(s, run)
    decreases |run|
  {
    if run != [] {
      GuardedCommitsAgree(After(s, run[0]), run[1..]);
    }
  }

  // ----- the scope of what is written -----

  /** The grant lists the spec and the approval of the gate. */
  predicate Covered(ledger: seq<G.GrantEvent>, grantID: string, slug: string, gate: Gate) {
    var p := G.Project(ledger, grantID);
    p.grant.Some? && slug in p.grant.value.specIDs && ApproveTransition(gate) in p.grant.value.transitions
  }

  /** Every companion record names a grant that covers its spec and gate. */
  predicate AllCovered(ledger: seq<G.GrantEvent>, slug: string, a: Approvals) {
    forall g :: g in a.delegations ==> Covered(ledger, a.delegations[g].grantID, slug, g)
  }

  predicate InScope(s: State) {
    forall slug, a :: slug in s.specs && a in Versions(s.specs[slug]) ==> AllCovered(s.ledger, slug, a)
  }

  /** What was reserved was covered. */
  predicate AskedInScope(s: State) {
    s.pc.Prepared? ==> Covered(s.ledger, s.pc.grantID, s.pc.use.slug, s.pc.use.gate)
  }

  /** A grant never changes once it is issued. */
  lemma GrantStays(events: seq<G.GrantEvent>, op: G.Operation, id: string)
    requires G.Project(events, id).grant.Some?
    ensures G.Project(G.Do(events, op), id).grant == G.Project(events, id).grant
  {
    if G.Refuses(events, op).None? {
      G.ProjectAppend(events, G.LineOf(op), id);
    }
  }

  lemma CoverStays(s: State, l: Label, id: string, slug: string, gate: Gate)
    requires Enabled(s, l) && Covered(s.ledger, id, slug, gate)
    ensures Covered(After(s, l).ledger, id, slug, gate)
  {
    match l {
      case IssueGrant(enabled, grant, token) => GrantStays(s.ledger, G.Issue(enabled, grant, token), id);
      case RevokeGrant(grantID) => GrantStays(s.ledger, G.Revoke(grantID), id);
      case ReserveUse(enabled, request, now) => GrantStays(s.ledger, G.Reserve(enabled, request, s.pc.grantID, now), id);
      case CloseReservation => GrantStays(s.ledger, CloseOf(s.pc), id);
      case ReleaseUse => GrantStays(s.ledger, G.Release(s.pc.grantID, ID(s.pc.use)), id);
      case ConsumeUse => GrantStays(s.ledger, G.Consume(s.pc.grantID, ID(s.pc.use)), id);
      case _ =>
    }
  }

  /** A reservation that is accepted is for a spec and a gate its grant covers. */
  lemma ReservedIsCovered(s: State, l: Label)
    requires Enabled(s, l) && l.ReserveUse? && After(s, l).pc.Prepared?
    ensures Covered(After(s, l).ledger, s.pc.grantID, s.pc.use.slug, s.pc.use.gate)
  {
    CoverStays(s, l, s.pc.grantID, s.pc.use.slug, s.pc.use.gate);
  }

  lemma AskedStep(s: State, l: Label)
    requires AskedInScope(s) && Enabled(s, l)
    ensures AskedInScope(After(s, l))
  {
    if l.ReserveUse? {
      if After(s, l).pc.Prepared? {
        ReservedIsCovered(s, l);
      }
    } else if s.pc.Prepared? {
      CoverStays(s, l, s.pc.grantID, s.pc.use.slug, s.pc.use.gate);
    }
  }

  /** The versions a step leaves in a state file were there before, lost their records to a new cycle, or
      are new. */
  lemma ChangeAddsNoCompanion(spec: Spec, change: Change, a: Approvals) returns (from: Approvals)
    requires Allows(spec, change) && a in Versions(Changed(spec, change))
    ensures from in Versions(spec) && a.delegations == from.delegations
  {
    from := if a in Versions(spec) then a else spec.approvals;
  }

  /** One action keeps every companion covered if and only if, when it is a commit, its grant covers the
      gate it finds. */
  lemma ScopeIsExact(s: State, l: Label)
    requires InScope(s) && Enabled(s, l)
    ensures InScope(After(s, l)) <==>
            (l.Commit? ==> Covered(s.ledger, s.pc.grantID, s.pc.use.slug, GateFound(s)))
  {
    if l.Commit? {
      CommitScope(s);
    } else {
      OthersKeepScope(s, l);
    }
  }

  lemma CommitScope(s: State)
    requires InScope(s) && Enabled(s, Commit)
    ensures InScope(After(s, Commit)) <==> Covered(s.ledger, s.pc.grantID, s.pc.use.slug, GateFound(s))
  {
    var t, slug := After(s, Commit), s.pc.use.slug;
    var now := t.specs[slug].approvals;
    assert s.specs[slug].approvals in Versions(s.specs[slug]) && now in Versions(t.specs[slug]);
    if InScope(t) {
      assert AllCovered(t.ledger, slug, now);
      assert GateFound(s) in now.delegations;
    }
    if Covered(s.ledger, s.pc.grantID, slug, GateFound(s)) {
      assert AllCovered(s.ledger, slug, s.specs[slug].approvals);
      forall k, a | k in t.specs && a in Versions(t.specs[k]) ensures AllCovered(t.ledger, k, a) {
        if k == slug {
          assert a == now;
        } else {
          assert AllCovered(s.ledger, k, a);
        }
      }
    }
  }

  lemma OthersKeepScope(s: State, l: Label)
    requires InScope(s) && Enabled(s, l) && !l.Commit?
    ensures InScope(After(s, l))
  {
    var t := After(s, l);
    forall slug, a | slug in t.specs && a in Versions(t.specs[slug]) ensures AllCovered(t.ledger, slug, a) {
      var from := a;
      if l.ChangeSpec? && l.slug == slug {
        from := ChangeAddsNoCompanion(s.specs[slug], l.change, a);
      }
      if slug in s.specs {
        assert AllCovered(s.ledger, slug, from);
        forall g | g in from.delegations ensures Covered(t.ledger, from.delegations[g].grantID, slug, g) {
          CoverStays(s, l, from.delegations[g].grantID, slug, g);
        }
      }
    }
  }

  lemma {:induction false} AgreedRunsStayInScope(s: State, run: seq<Label>)
    requires InScope(s) && AskedInScope(s) && Possible(s, run) && CommitsAgree(s, run)
    ensures InScope(Final(s, run))
    decreases |run|
  {
    if run != [] {
      ScopeIsExact(s, run[0]);
      AskedStep(s, run[0]);
      AgreedRunsStayInScope(After(s, run[0]), run[1..]);
    }
  }

  /** Main result: as long as no spec is archived under a transaction on it, every delegated approval any
      state file shows, or an undo would bring back, is of a spec and a gate its grant covers. Crashes,
      reopens, undos and misread state files do not matter. */
  lemma CommittedApprovalsAreCovered(run: seq<Label>, slug: string, gate: Gate)
    requires Possible(Init, run) && NoArchiveInFlight(Init, run)
    requires var s := Final(Init, run); slug in s.specs && gate in s.specs[slug].approvals.delegations
    ensures var s := Final(Init, run);
            Covered(s.ledger, s.specs[slug].approvals.delegations[gate].grantID, slug, gate)
  {
    WithoutArchivesCommitsAgree(Init, run);
    AgreedRunsStayInScope(Init, run);
    var spec := Final(Init, run).specs[slug];
    assert spec.approvals in Versions(spec);
  }

  /** So it is in every guarded run. */
  lemma GuardedApprovalsAreCovered(run: seq<Label>, slug: string, gate: Gate)
    requires Possible(Init, run) && Guarded(Init, run)
    requires var s := Final(Init, run); slug in s.specs && gate in s.specs[slug].approvals.delegations
    ensures var s := Final(Init, run);
            Covered(s.ledger, s.specs[slug].approvals.delegations[gate].grantID, slug, gate)
  {
    GuardedCommitsAgree(Init, run);
    AgreedRunsStayInScope(Init, run);
    var spec := Final(Init, run).specs[slug];
    assert spec.approvals in Versions(spec);
  }

  // ----- with an archive in between -----

  /** For every grant that covers approving the design of a spec and not its requirements there is a run
      in which the requirements are approved under it: the spec is finished, archived and created anew
      while the process holds its use, and stands at the revision it loaded. */
  lemma ArchiveInFlightEscapes(g: G.Grant, token: string, slug: string, now: int, sealed: G.Grant)
    returns (run: seq<Label>)
    requires sealed == G.Sealed(g, token) && G.Bounded(sealed)
    requires Covers(sealed, slug, DesignGate, token, now) && ApproveTransition(RequirementsGate) !in g.transitions
    ensures Possible(Init, run) && Escaped(Final(Init, run), g.id, slug, RequirementsGate)
  {
    var run0, s := SetUp(g, token, slug, Design, sealed);
    run := SetAtEscapes(run0, s, sealed, token, slug, now);
  }

  /** A state file shows an approval under a grant that does not cover it. */
  predicate Escaped(s: State, grantID: string, slug: string, gate: Gate) {
    && slug in s.specs && gate in s.specs[slug].approvals.delegations
    && s.specs[slug].approvals.delegations[gate].grantID == grantID && !Covered(s.ledger, grantID, slug, gate)
  }

  lemma SetAtEscapes(run0: seq<Label>, s: State, g: G.Grant, token: string, slug: string, now: int)
    returns (run: seq<Label>)
    requires Possible(Init, run0) && s == Final(Init, run0) && SetAt(s, g, slug, Design) && g.maxUses >= 1
    requires Covers(g, slug, DesignGate, token, now) && ApproveTransition(RequirementsGate) !in g.transitions
    ensures Possible(Init, run) && Escaped(Final(Init, run), g.id, slug, RequirementsGate)
  {
    Ready(s, g, token, now, Design);
    var u, held := TransactionReserves(s, g, token, now);
    var reserve := [LoadSpec, ReserveUse(true, Ask(g, token, u), now)];
    G.ProjectAppend(s.ledger, G.GrantEvent(G.UsePrepared, g.id, None, ID(u)), g.id);
    var climb, done := Climb(held, slug, Complete);
    var last, t := Replaced(done, g.id, slug);
    RunsCompose(held, climb, last);
    RunsCompose(s, reserve, climb + last);
    RunsCompose(Init, run0, reserve + (climb + last));
    run := run0 + (reserve + (climb + last));
  }

  /** A finished spec is archived and created anew under a transaction that loaded it at revision 1. */
  lemma Replaced(s: State, id: string, slug: string) returns (run: seq<Label>, t: State)
    requires SlugForm(slug) && slug in s.specs && s.specs[slug].status == Complete
    requires s.pc == Prepared(id, Use(slug, DesignGate, 1))
    ensures Possible(s, run) && t == Final(s, run) && t.ledger == s.ledger && slug in t.specs
    ensures RequirementsGate in t.specs[slug].approvals.delegations
    ensures t.specs[slug].approvals.delegations[RequirementsGate].grantID == id
  {
    run := [Archive(slug), NewSpec(slug), ChangeSpec(slug, OtherWrite), Commit];
    FourSteps(s, run[0], run[1], run[2], run[3]);
    t := Final(s, run);
  }

  /** With a concrete grant of one use for the design of one spec. */
  lemma EscapeHappens() returns (run: seq<Label>, id: string, slug: string)
    ensures Possible(Init, run) && Escaped(Final(Init, run), id, slug, RequirementsGate)
  {
    slug := "a";
    assert SlugForm(slug);
    var design := ApproveTransition(DesignGate);
    var g := SampleGrant(slug, "t", design, design);
    id := g.id;
    ApprovalsAreDelegable(DesignGate);
    SampleIsBounded(slug, "t", design, design);
    SampleCovers(slug, "t", DesignGate, DesignGate);
    GatesHaveTheirTransitions(DesignGate, RequirementsGate);
    run := ArchiveInFlightEscapes(g, "t", slug, 0, G.Sealed(g, "t"));
  }

  lemma GatesHaveTheirTransitions(g: Gate, h: Gate)
    requires g != h
    ensures ApproveTransition(g) != ApproveTransition(h)
  {
    assert ApproveTransition(g)[|"approve."|..] == GateName(g) && ApproveTransition(h)[|"approve."|..] == GateName(h);
    GateNamesAreFaithful(g);
    GateNamesAreFaithful(h);
  }
}
