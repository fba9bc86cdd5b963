/** Whole runs of the protocol: which of them are guarded, and what holds of those. */
module DelegatedRuns {
  import opened Common
  import opened RequestIds
  import opened DelegatedApproval
  import opened DelegatedGuard

  // ----- careful runs -----

  /** Every state file can be read; and a new cycle waits until the spec shows no open use, an archive
      also until no transaction on the spec is between loading it and approving it. */
  predicate Careful(s: State, l: Label) {
    && !l.Misread?
    && (l.ChangeSpec? && l.change.ReopenSpec? ==> NothingHeld(s, l.slug))
    && (l.Archive? ==> NothingHeld(s, l.slug) && !InFlight(s, l.slug))
  }

  predicate InFlight(s: State, slug: string) {
    (s.pc.Loaded? || s.pc.Prepared?) && s.pc.use.slug == slug
  }

  predicate AllCareful(s: State, run: seq<Label>)
    requires Possible(s, run)
    decreases |run|
  {
    run == [] || (Careful(s, run[0]) && AllCareful(After(s, run[0]), run[1..]))
  }

  /** The version a transaction in flight has loaded is not ahead of the spec, and names the gate the spec
      stands at. */
  predicate Expected(s: State) {
    s.pc.Loaded? || s.pc.Prepared? ==>
      var u := s.pc.use;
      && u.slug in s.specs
      && u.revision <= s.specs[u.slug].revision
      && (u.revision == s.specs[u.slug].revision ==> u.gate == ApprovalGateFor(s.specs[u.slug].status))
  }

  /** As long as a spec is not archived under a transaction on it, a commit finds the gate it asked for:
      every write moves the revision. */
  lemma ExpectedStep(s: State, l: Label)
    requires Expected(s) && Enabled(s, l) && (l.Archive? ==> !InFlight(s, l.slug))
    ensures Expected(After(s, l))
    ensures l.Commit? ==> s.pc.use.gate == ApprovalGateFor(s.specs[s.pc.use.slug].status)
  {
  }

  /** A run that waits for open uses before it archives or starts a new cycle never meets an unguarded
      step, whatever else it reopens or undoes. */
  lemma {:induction false} CarefulRunsAreGuarded(s: State, run: seq<Label>)
    requires Expected(s) && Possible(s, run) && AllCareful(s, run)
    ensures Guarded(s, run)
    decreases |run|
  {
    if run != [] {
      ExpectedStep(s, run[0]);
      CarefulRunsAreGuarded(After(s, run[0]), run[1..]);
    }
  }

  lemma InitIsSafe()
    ensures Inv(Init) && Expected(Init)
  {
  }

  // ----- approvals committed under one grant never exceed its uses -----

  function CommittedUnder(history: seq<Approval>, grantID: string): nat {
    if history == [] then 0
    else CommittedUnder(history[..|history| - 1], grantID) + if history[|history| - 1].grantID == grantID then 1 else 0
  }

  function RequestsUnder(history: seq<Approval>, grantID: string): set<string> {
    if history == [] then {}
    else
      var last := history[|history| - 1];
      RequestsUnder(history[..|history| - 1], grantID) + if last.grantID == grantID then {ID(last.use)} else {}
  }

  lemma {:induction false} RequestsUnderMeans(history: seq<Approval>, grantID: string, requestID: string)
    ensures requestID in RequestsUnder(history, grantID)
       <==> exists i :: 0 <= i < |history| && IsUse(history[i], grantID, requestID)
  {
    if history != [] {
      var before, last := history[..|history| - 1], history[|history| - 1];
      RequestsUnderMeans(before, grantID, requestID);
      UsesOfBoth(before, last, grantID, requestID);
      assert history == before + [last];
    }
  }

  lemma UsesOfBoth(before: seq<Approval>, last: Approval, grantID: string, requestID: string)
    ensures (exists i :: 0 <= i < |before + [last]| && IsUse((before + [last])[i], grantID, requestID)) <==>
            (exists i :: 0 <= i < |before| && IsUse(before[i], grantID, requestID)) || IsUse(last, grantID, requestID)
  {
    var all := before + [last];
    if i :| 0 <= i < |before| && IsUse(before[i], grantID, requestID) {
      assert IsUse(all[i], grantID, requestID);
    }
    assert all[|before|] == last;
  }

  lemma {:induction false} DistinctUsesAreDistinctRequests(history: seq<Approval>, grantID: string)
    requires forall i :: 0 <= i < |history| ==> SlugForm(history[i].use.slug)
    requires forall i, j :: 0 <= i < j < |history| ==> history[i] != history[j]
    ensures |RequestsUnder(history, grantID)| == CommittedUnder(history, grantID)
  {
    if history != [] {
      var n := |history| - 1;
      var before, last := history[..n], history[n];
      DistinctUsesAreDistinctRequests(before, grantID);
      RequestsUnderMeans(before, grantID, ID(last.use));
      if last.grantID == grantID {
        forall i | 0 <= i < n ensures !IsUse(before[i], grantID, ID(last.use)) {
          assert before[i] == history[i] && history[i] != last;
          if ID(before[i].use) == ID(last.use) {
            IDsDiffer(before[i].use, last.use);
          }
        }
      }
    }
  }

  predicate WithinUses(s: State, grantID: string) {
    match G.Project(s.ledger, grantID).grant
    case None => CommittedUnder(s.history, grantID) == 0
    case Some(g) => CommittedUnder(s.history, grantID) <= g.maxUses
  }

  lemma InvBoundsApprovals(s: State, grantID: string)
    requires Inv(s)
    ensures WithinUses(s, grantID)
  {
    var p := G.Project(s.ledger, grantID);
    assert G.Sound(p, grantID);
    DistinctUsesAreDistinctRequests(s.history, grantID);
    forall id | id in RequestsUnder(s.history, grantID) ensures id in p.reserved + p.consumed {
      RequestsUnderMeans(s.history, grantID, id);
      var i :| 0 <= i < |s.history| && IsUse(s.history[i], grantID, id);
      CommittedHoldsAUse(s, grantID, id);
    }
    SubsetCardinality(RequestsUnder(s.history, grantID), p.reserved + p.consumed);
  }

  /** Main result: through every interleaving of delegated transactions, crashes, reconciliations,
      interactive approvals, reopens, undos, issues, revocations, archives, recreations and unrelated writes
      that is careful, no grant ever commits more approvals than its uses. */
  lemma ApprovalsNeverExceedUses(run: seq<Label>, grantID: string)
    requires Possible(Init, run) && AllCareful(Init, run)
    ensures WithinUses(Final(Init, run), grantID)
  {
    InitIsSafe();
    CarefulRunsAreGuarded(Init, run);
    GuardedRunsStayWithinUses(run, grantID);
  }

  /** The same bound for every run, as long as every step is guarded. */
  lemma GuardedRunsStayWithinUses(run: seq<Label>, grantID: string)
    requires Possible(Init, run) && Guarded(Init, run)
    ensures WithinUses(Final(Init, run), grantID)
  {
    InitIsSafe();
    GuardedRunsKeepInv(Init, run);
    InvBoundsApprovals(Final(Init, run), grantID);
  }

  /** No action of a guarded run appends a release for a request whose approval committed. */
  lemma CommittedUsesAreNeverReleased(run: seq<Label>, l: Label, grantID: string, requestID: string)
    requires Possible(Init, run) && Guarded(Init, run) && Enabled(Final(Init, run), l)
    ensures var s := Final(Init, run);
            G.Count(After(s, l).ledger, G.UseReleased, grantID, requestID) > G.Count(s.ledger, G.UseReleased, grantID, requestID)
            ==> !WasCommitted(s, grantID, requestID)
  {
    InitIsSafe();
    GuardedRunsKeepInv(Init, run);
    ReleasesAreUncommitted(Final(Init, run), l, grantID, requestID);
  }

  /** The steps that give a use back. */
  predicate GivesBack(s: State, l: Label, grantID: string, requestID: string)
    requires Enabled(s, l)
  {
    || (l.CloseReservation? && CloseOf(s.pc) == G.Release(grantID, requestID))
    || (l.ReleaseUse? && G.Release(s.pc.grantID, ID(s.pc.use)) == G.Release(grantID, requestID))
  }

  lemma ReleasesAreUncommitted(s: State, l: Label, grantID: string, requestID: string)
    requires Inv(s) && Enabled(s, l)
    ensures G.Count(After(s, l).ledger, G.UseReleased, grantID, requestID) > G.Count(s.ledger, G.UseReleased, grantID, requestID)
            ==> !WasCommitted(s, grantID, requestID)
  {
    if GivesBack(s, l, grantID, requestID) {
      GivenBackIsUncommitted(s, l, grantID, requestID);
    } else {
      OnlyGivingBackCounts(s, l, grantID, requestID);
    }
  }

  lemma GivenBackIsUncommitted(s: State, l: Label, grantID: string, requestID: string)
    requires Inv(s) && Enabled(s, l) && GivesBack(s, l, grantID, requestID)
    ensures !WasCommitted(s, grantID, requestID)
  {
  }

  lemma OnlyGivingBackCounts(s: State, l: Label, grantID: string, requestID: string)
    requires Enabled(s, l) && !GivesBack(s, l, grantID, requestID)
    ensures G.Count(After(s, l).ledger, G.UseReleased, grantID, requestID) <= G.Count(s.ledger, G.UseReleased, grantID, requestID)
  {
    match l {
      case IssueGrant(enabled, grant, token) => LineCounted(s.ledger, G.Issue(enabled, grant, token), grantID, requestID);
      case RevokeGrant(id) => LineCounted(s.ledger, G.Revoke(id), grantID, requestID);
      case ReserveUse(enabled, request, now) =>
        LineCounted(s.ledger, G.Reserve(enabled, request, s.pc.grantID, now), grantID, requestID);
      case CloseReservation => LineCounted(s.ledger, CloseOf(s.pc), grantID, requestID);
      case ReleaseUse => LineCounted(s.ledger, G.Release(s.pc.grantID, ID(s.pc.use)), grantID, requestID);
      case ConsumeUse => LineCounted(s.ledger, G.Consume(s.pc.grantID, ID(s.pc.use)), grantID, requestID);
      case _ =>
    }
  }

  lemma LineCounted(events: seq<G.GrantEvent>, op: G.Operation, id: string, requestID: string)
    ensures G.Count(G.Do(events, op), G.UseReleased, id, requestID)
         <= G.Count(events, G.UseReleased, id, requestID)
            + if op == G.Release(id, requestID) then 1 else 0
  {
  }
}
