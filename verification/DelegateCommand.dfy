/** The commands that approve a spec, as they run when nothing interrupts them. Each one is shown to
    be a run of the protocol, so what holds of every run holds of every command. */
module DelegateCommand {
  import opened Common
  import opened RequestIds
  import opened DelegatedApproval
  import opened DelegatedRecovery
  import GrantChecks

  datatype ApproveRefusal = NoState | RevisionConflict | NoSuccessor | GatesFailed | AlreadyAnswered

  datatype PrepareRefusal = BadUsage | GrantRefused(why: G.Refusal) | ClosesFailed | StateNotLoaded

  /** What goes wrong around a command: specs whose state cannot be read, and reservations whose closing line
      cannot be appended. */
  datatype Faults = Faults(unreadable: set<string>, unclosable: set<string>)

  datatype Outcome =
    | ApprovalGiven
    | NotPrepared(refusal: PrepareRefusal)
    | ApprovalRefused(reason: ApproveRefusal)

  class Project {
    const grants: G.GrantLedger
    var specs: map<string, Spec>
    ghost var history: seq<Approval>

    constructor ()
      ensures Snapshot(Idle) == Init && fresh(grants)
    {
      grants := new G.GrantLedger();
      specs, history := map[], [];
    }

    /** The protocol state this project is in, with a transaction at `pc`. */
    ghost function Snapshot(pc: Pc): State
      reads this, grants
    {
      State(grants.events, specs, pc, history)
    }

    /** A grant as the ledger has it. */
    ghost function GrantNow(grantID: string): G.Projection
      reads this, grants
    {
      G.Project(grants.events, grantID)
    }

    /** The approval transaction, under the spec lock. `delegated` names the grant and the revision it was
        authorized against; `gatesPass` stands for readiness. */
    method ApproveSpec(slug: string, delegated: Option<Delegation>, gatesPass: bool) returns (refusal: Option<ApproveRefusal>)
      modifies this`specs
      ensures refusal.None? <==>
                slug in old(specs) && gatesPass && Approvable(old(specs)[slug])
                && (delegated.Some? ==> delegated.value.revision == old(specs)[slug].revision)
      ensures refusal == Some(NoState) <==> slug !in old(specs)
      ensures refusal == Some(RevisionConflict) <==>
                slug in old(specs) && delegated.Some? && delegated.value.revision != old(specs)[slug].revision
      ensures refusal == Some(AlreadyAnswered) ==> gatesPass
      ensures refusal in {Some(GatesFailed), Some(AlreadyAnswered)} ==> NextStatus(old(specs)[slug].status).Some?
      ensures specs == if refusal.None? then old(specs)[slug := Advance(old(specs)[slug], GrantOf(delegated))]
                       else old(specs)
    {
      if slug !in specs {
        return Some(NoState);
      }
      var spec := specs[slug];
      if delegated.Some? && spec.revision != delegated.value.revision {
        return Some(RevisionConflict);
      }
      if NextStatus(spec.status).None? || spec.revision == INT64_MAX {
        return Some(NoSuccessor);
      }
      if !gatesPass {
        return Some(GatesFailed);
      }
      var gate := ApprovalGateFor(spec.status);
      if gate in spec.approvals.answered {
        return Some(AlreadyAnswered);
      }
      var approvals := spec.approvals.(answered := spec.approvals.answered + {gate});
      if delegated.Some? {
        approvals := approvals.(delegations := approvals.delegations[gate := Delegation(delegated.value.grantID, spec.revision)]);
      }
      approvals := approvals.(records := approvals.records[gate := spec.revision]);
      specs := specs[slug := Rewritten(spec, NextStatus(spec.status).value, approvals)];
      return None;
    }

    /** Appends the line that consumes or gives back an open use. */
    method Close(grantID: string, requestID: string, consumed: bool)
      requires requestID in G.Project(grants.events, grantID).reserved && G.Project(grants.events, grantID).grant.Some?
      modifies grants
      ensures var before, after := G.Project(old(grants.events), grantID), G.Project(grants.events, grantID);
              after == before.(reserved := before.reserved - {requestID},
                               consumed := before.consumed + if consumed then {requestID} else {})
      ensures OthersKept(old(grants.events), grants.events, grantID)
      ensures grants.events ==
              G.Do(old(grants.events), if consumed then G.Consume(grantID, requestID) else G.Release(grantID, requestID))
    {
      ghost var events := grants.events;
      ghost var line := G.LineOf(if consumed then G.Consume(grantID, requestID) else G.Release(grantID, requestID));
      var _ := grants.CloseGrantUse(grantID, requestID, consumed);
      AppendTouchesOne(events, line);
    }

    /** One open reservation, settled against the approval record it names. */
    method ReconcileOne(grantID: string, requestID: string, faults: Faults, ghost slug: string, ghost todo: set<string>)
      returns (ghost steps: seq<Label>)
      requires requestID in todo && requestID in G.Project(grants.events, grantID).reserved
      requires G.Project(grants.events, grantID).grant.Some?
      modifies grants
      ensures G.Project(grants.events, grantID) == Settled(specs, faults, G.Project(old(grants.events), grantID), requestID)
      ensures OthersKept(old(grants.events), grants.events, grantID)
      ensures Kept(faults, requestID) ==> grants.events == old(grants.events)
      ensures var here := old(Snapshot(Reconciling(grantID, slug, todo)));
              Possible(here, steps) && Final(here, steps) == Snapshot(Reconciling(grantID, slug, todo - {requestID}))
    {
      ghost var here := Snapshot(Reconciling(grantID, slug, todo));
      if ParseGrantRequestID(requestID).None? {
        steps := [SkipForeign(requestID)];
        assert Possible(After(here, steps[0]), []);
        return;
      }
      var readable := ParseGrantRequestID(requestID).value.slug !in faults.unreadable;
      var committed := readable && ApprovalCommitted(specs, requestID);
      ghost var decide := if readable then Adjudicate(requestID) else Misread(requestID);
      if requestID in faults.unclosable {
        steps := [decide, CloseFails];
        TwoSteps(here, decide, CloseFails);
        return;
      }
      Close(grantID, requestID, committed);
      steps := [decide, CloseReservation];
      TwoSteps(here, decide, CloseReservation);
    }

    /** Reconciliation between two reservations: those outside `todo` are settled, nothing else moved, and
        the steps so far are a run of the protocol. */
    ghost predicate Adjudicating(was: seq<G.GrantEvent>, start: State, run: seq<Label>, grantID: string,
                                 faults: Faults, slug: string, todo: set<string>)
      reads this, grants
    {
      var before := G.Project(was, grantID);
      && before.grant.Some? && todo <= before.reserved
      && Reconciled(specs, faults, before, G.Project(grants.events, grantID), todo)
      && OthersKept(was, grants.events, grantID)
      && ((forall id :: id in before.reserved ==> Kept(faults, id)) ==> grants.events == was)
      && Possible(start, run) && Final(start, run) == Snapshot(Reconciling(grantID, slug, todo))
    }

    method AdjudicateNext(grantID: string, requestID: string, faults: Faults, ghost slug: string,
                          ghost todo: set<string>, ghost was: seq<G.GrantEvent>, ghost start: State, ghost run: seq<Label>)
      returns (ghost longer: seq<Label>)
      requires requestID in todo && Adjudicating(was, start, run, grantID, faults, slug, todo)
      modifies grants
      ensures Adjudicating(was, start, longer, grantID, faults, slug, todo - {requestID})
    {
      ghost var steps := ReconcileOne(grantID, requestID, faults, slug, todo);
      RunsCompose(start, run, steps);
      longer := run + steps;
    }

    /** Adjudicates every reservation a dead process left open: consumed when its approval is in state,
        released when it is not or the state cannot be read, left alone when its id does not parse or its
        closing line cannot be appended; the last is reported after the others are settled. */
    method ReconcileGrantUses(grantID: string, faults: Faults, ghost slug: string)
      returns (failed: Option<PrepareRefusal>, ghost run: seq<Label>)
      modifies grants
      ensures var before, after := G.Project(old(grants.events), grantID), G.Project(grants.events, grantID);
              && (failed == Some(GrantRefused(G.UnknownGrant)) <==> before.grant.None?)
              && (failed == Some(ClosesFailed) <==>
                    before.grant.Some?
                    && exists id :: id in before.reserved && ParseGrantRequestID(id).Some? && id in faults.unclosable)
              && (failed.None? || failed == Some(ClosesFailed) || failed == Some(GrantRefused(G.UnknownGrant)))
              && (before.grant.None? ==> grants.events == old(grants.events))
              && after == Reconciliation(specs, faults, before)
      ensures OthersKept(old(grants.events), grants.events, grantID)
      // running it again changes nothing
      ensures (forall id :: id in G.Project(old(grants.events), grantID).reserved ==> Kept(faults, id))
              ==> grants.events == old(grants.events)
      ensures Possible(old(Snapshot(Idle)), run)
      ensures Final(old(Snapshot(Idle)), run) == Snapshot(if failed.Some? then Idle else Reconciling(grantID, slug, {}))
    {
      ghost var start := Snapshot(Idle);
      var projection, found := G.ProjectGrant(grants.events, grantID);
      if !found {
        return Some(GrantRefused(G.UnknownGrant)), [];
      }
      var todo := projection.reserved;
      run := [Begin(grantID, slug)];
      var anyFailed := false;
      while todo != {}
        invariant Adjudicating(old(grants.events), start, run, grantID, faults, slug, todo)
        invariant anyFailed <==> exists id :: id in projection.reserved && id !in todo && Unclosed(faults, id)
        decreases todo
      {
        var requestID :| requestID in todo;
        anyFailed := anyFailed || Unclosed(faults, requestID);
        run := AdjudicateNext(grantID, requestID, faults, slug, todo, old(grants.events), start, run);
        todo := todo - {requestID};
      }
      ReconciledIs(specs, faults, projection, G.Project(grants.events, grantID));
      if anyFailed {
        run := Extend(start, run, GiveUp, Snapshot(Idle));
        return Some(ClosesFailed), run;
      }
      return None, run;
    }

    /** Reserves one use for the state that was loaded. */
    method ReserveFor(grantID: string, use: Use, enabled: bool, ask: G.Request, now: int, ghost start: State,
                      ghost run: seq<Label>)
      returns (refusal: Option<G.Refusal>, ghost longer: seq<Label>)
      requires Possible(start, run) && Final(start, run) == Snapshot(Loaded(grantID, use))
      modifies grants
      ensures Possible(start, longer)
      ensures Final(start, longer) == Snapshot(if refusal.Some? then Idle else Prepared(grantID, use))
      ensures var before, after := G.Project(old(grants.events), grantID), G.Project(grants.events, grantID);
              && (refusal.None? <==> GrantChecks.Reservable(before, enabled, Asking(ask, use), now))
              && GrantChecks.RefusedAs(before, enabled, Asking(ask, use), now, refusal)
              && after == if refusal.Some? then before else before.(reserved := before.reserved + {ID(use)})
      ensures OthersKept(old(grants.events), grants.events, grantID)
    {
      var request := ask.(specID := use.slug, transition := ApproveTransition(use.gate), requestID := ID(use));
      GrantChecks.ReservesExactlyWhen(grants.events, enabled, request, grantID, now);
      ghost var events := grants.events;
      refusal := grants.ReserveGrantUse(enabled, request, grantID, now);
      longer := Extend(start, run, ReserveUse(enabled, request, now),
                       Snapshot(if refusal.Some? then Idle else Prepared(grantID, use)));
      AppendTouchesOne(events, G.GrantEvent(G.UsePrepared, grantID, None, ID(use)));
    }

    /** Loads the state and reserves a use for it. */
    method LoadAndReserve(slug: string, grantID: string, enabled: bool, ask: G.Request, now: int, ghost start: State,
                          ghost run: seq<Label>)
      returns (r: Result<Use, PrepareRefusal>, ghost longer: seq<Label>)
      requires slug in specs
      requires Possible(start, run) && Final(start, run) == Snapshot(Reconciling(grantID, slug, {}))
      modifies grants
      ensures r.Ok? ==> r.value == UseOf(slug, specs[slug])
      ensures r.Err? ==> r.error.GrantRefused?
      ensures Possible(start, longer)
      ensures Final(start, longer) == Snapshot(if r.Ok? then Prepared(grantID, r.value) else Idle)
      ensures var before, after := G.Project(old(grants.events), grantID), G.Project(grants.events, grantID);
              var use := UseOf(slug, specs[slug]);
              && (r.Ok? <==> GrantChecks.Reservable(before, enabled, Asking(ask, use), now))
              && (r.Err? ==> GrantChecks.RefusedAs(before, enabled, Asking(ask, use), now, Some(r.error.why)))
              && after == if r.Err? then before else before.(reserved := before.reserved + {ID(use)})
      ensures OthersKept(old(grants.events), grants.events, grantID)
    {
      var use := Use(slug, ApprovalGateFor(specs[slug].status), specs[slug].revision);
      longer := Extend(start, run, LoadSpec, Snapshot(Loaded(grantID, use)));
      var refused;
      refused, longer := ReserveFor(grantID, use, enabled, ask, now, start, longer);
      r := if refused.Some? then Err(GrantRefused(refused.value)) else Ok(use);
    }

    /** The first half of `delegate approve`: reconcile, load the state, reserve a use. */
    method Prepare(slug: string, grantID: string, enabled: bool, ask: G.Request, now: int, faults: Faults)
      returns (r: Result<Use, PrepareRefusal>, ghost run: seq<Label>)
      modifies grants
      ensures r.Ok? ==> slug in specs && r.value == UseOf(slug, specs[slug])
      ensures Possible(old(Snapshot(Idle)), run)
      ensures Final(old(Snapshot(Idle)), run) == Snapshot(if r.Ok? then Prepared(grantID, r.value) else Idle)
      ensures var before, after := G.Project(old(grants.events), grantID), G.Project(grants.events, grantID);
              var settled := Reconciliation(specs, faults, before);
              && (r.Ok? <==> IsReady(specs, faults, before, slug, enabled, ask, now))
              && (r.Err? ==> NotReadyAs(specs, faults, before, slug, enabled, ask, now, r.error))
              && after == if r.Ok? then settled.(reserved := settled.reserved + {ID(r.value)}) else settled
      ensures OthersKept(old(grants.events), grants.events, grantID)
    {
      ghost var start := Snapshot(Idle);
      var failed;
      failed, run := ReconcileGrantUses(grantID, faults, slug);
      if failed.Some? {
        return Err(failed.value), run;
      }
      if slug !in specs || slug in faults.unreadable {
        run := Extend(start, run, GiveUp, Snapshot(Idle));
        return Err(StateNotLoaded), run;
      }
      r, run := LoadAndReserve(slug, grantID, enabled, ask, now, start, run);
    }

    /** Consumes the use of an approval that went through, or gives back the use of one that did not. */
    method Settle(grantID: string, use: Use, committed: bool, ghost start: State, ghost run: seq<Label>)
      returns (ghost longer: seq<Label>)
      requires var p := G.Project(grants.events, grantID); p.grant.Some? && ID(use) in p.reserved
      requires Possible(start, run)
      requires Final(start, run) == Snapshot(if committed then Approved(grantID, use) else Refused(grantID, use))
      modifies grants
      ensures Possible(start, longer) && Final(start, longer) == Snapshot(Idle)
      ensures var before, after := G.Project(old(grants.events), grantID), G.Project(grants.events, grantID);
              after == before.(reserved := before.reserved - {ID(use)},
                               consumed := before.consumed + if committed then {ID(use)} else {})
      ensures OthersKept(old(grants.events), grants.events, grantID)
    {
      Close(grantID, ID(use), committed);
      longer := Extend(start, run, if committed then ConsumeUse else ReleaseUse, Snapshot(Idle));
    }

    /** The second half: approve, then settle the use. The state may have moved since it was loaded. */
    method Conclude(grantID: string, use: Use, gatesPass: bool) returns (refusal: Option<ApproveRefusal>, ghost run: seq<Label>)
      requires var p := G.Project(grants.events, grantID); p.grant.Some? && ID(use) in p.reserved
      modifies this, grants
      ensures Possible(old(Snapshot(Prepared(grantID, use))), run)
      ensures Final(old(Snapshot(Prepared(grantID, use))), run) == Snapshot(Idle)
      ensures refusal.None? <==>
                gatesPass && use.slug in old(specs) && old(specs)[use.slug].revision == use.revision
                && Approvable(old(specs)[use.slug])
      ensures var before, after := G.Project(old(grants.events), grantID), G.Project(grants.events, grantID);
              after == before.(reserved := before.reserved - {ID(use)},
                               consumed := before.consumed + if refusal.None? then {ID(use)} else {})
      ensures OthersKept(old(grants.events), grants.events, grantID)
      ensures specs == if refusal.None? then old(specs)[use.slug := Advance(old(specs)[use.slug], Some(grantID))]
                       else old(specs)
      ensures history == old(history) + if refusal.None? then [Approval(grantID, use)] else []
    {
      ghost var start := Snapshot(Prepared(grantID, use));
      refusal := ApproveSpec(use.slug, Some(Delegation(grantID, use.revision)), gatesPass);
      if refusal.None? {
        history := history + [Approval(grantID, use)];
      }
      run := Extend(start, [], if refusal.None? then Commit else RefuseApproval,
                    Snapshot(if refusal.None? then Approved(grantID, use) else Refused(grantID, use)));
      run := Settle(grantID, use, refusal.None?, start, run);
    }

    /** `delegate approve`: once its arguments are in form, both halves from taking the authority lock to
        giving it back. */
    method DelegateApprove(slug: string, grantID: string, enabled: bool, ask: G.Request, now: int, gatesPass: bool,
                           faults: Faults)
      returns (outcome: Outcome, ghost run: seq<Label>)
      modifies this, grants
      ensures Possible(old(Snapshot(Idle)), run) && Final(old(Snapshot(Idle)), run) == Snapshot(Idle)
      ensures var ready := GoodUsage(slug, grantID, ask)
                           && IsReady(old(specs), faults, old(GrantNow(grantID)), slug, enabled, ask, now);
              && (outcome.ApprovalGiven? <==> ready && gatesPass && Approvable(old(specs)[slug]))
              && (outcome.ApprovalRefused? <==> ready && !(gatesPass && Approvable(old(specs)[slug])))
      ensures outcome.NotPrepared? ==>
                if GoodUsage(slug, grantID, ask)
                then NotReadyAs(old(specs), faults, old(GrantNow(grantID)), slug, enabled, ask, now, outcome.refusal)
                else outcome.refusal == BadUsage
      ensures if outcome.ApprovalGiven?
              then && specs == old(specs)[slug := Advance(old(specs)[slug], Some(grantID))]
                   && history == old(history) + [Approval(grantID, UseOf(slug, old(specs)[slug]))]
              else specs == old(specs) && history == old(history)
      ensures var settled := Reconciliation(old(specs), faults, old(GrantNow(grantID)));
              GrantNow(grantID) ==
              if !GoodUsage(slug, grantID, ask) then old(GrantNow(grantID))
              else if outcome.ApprovalGiven? then settled.(consumed := settled.consumed + {ID(UseOf(slug, old(specs)[slug]))})
              else settled
      ensures OthersKept(old(grants.events), grants.events, grantID)
    {
      var proper := ValidSlug(slug);
      if !proper || grantID == "" || ask.token == "" {
        return NotPrepared(BadUsage), [];
      }
      ghost var start := Snapshot(Idle);
      var prepared, steps := Prepare(slug, grantID, enabled, ask, now, faults);
      run := steps;
      if prepared.Err? {
        outcome := NotPrepared(prepared.error);
        return;
      }
      var refusal;
      refusal, steps := Conclude(grantID, prepared.value, gatesPass);
      RunsCompose(start, run, steps);
      run := run + steps;
      outcome := if refusal.None? then ApprovalGiven else ApprovalRefused(refusal.value);
    }
  }

  /** The command line names a spec, a grant and a token. */
  predicate GoodUsage(slug: string, grantID: string, ask: G.Request) {
    SlugForm(slug) && grantID != "" && ask.token != ""
  }

  /** The use a spec stands at. */
  function UseOf(slug: string, spec: Spec): Use {
    Use(slug, ApprovalGateFor(spec.status), spec.revision)
  }

  /** What the grant is asked for that use. */
  function Asking(ask: G.Request, use: Use): G.Request {
    G.Request(ask.project, use.slug, "approve." + GateName(use.gate), ID(use), ask.reason, ask.configDigest,
              ask.policyDigest, ask.production, ask.token)
  }

  function GrantOf(delegated: Option<Delegation>): Option<string> {
    if delegated.Some? then Some(delegated.value.grantID) else None
  }

  /** A run and one more action. */
  lemma Extend(start: State, run: seq<Label>, l: Label, there: State) returns (longer: seq<Label>)
    requires Possible(start, run) && Enabled(Final(start, run), l) && After(Final(start, run), l) == there
    ensures Possible(start, longer) && Final(start, longer) == there
  {
    var here := Final(start, run);
    assert [l][1..] == [] && Possible(After(here, l), []);
    RunsCompose(start, run, [l]);
    longer := run + [l];
  }

  /** Whether reconciliation finds the approval of a request in place. */
  predicate FoundCommitted(specs: map<string, Spec>, faults: Faults, requestID: string)
    requires ParseGrantRequestID(requestID).Some?
  {
    ParseGrantRequestID(requestID).value.slug !in faults.unreadable && ApprovalCommitted(specs, requestID)
  }

  /** A reservation that was adjudicated and could not be closed. */
  predicate Unclosed(faults: Faults, requestID: string) {
    ParseGrantRequestID(requestID).Some? && requestID in faults.unclosable
  }

  /** A reservation reconciliation leaves as it is. */
  predicate Kept(faults: Faults, requestID: string) {
    ParseGrantRequestID(requestID).None? || requestID in faults.unclosable
  }

  /** One reservation adjudicated. */
  function Settled(specs: map<string, Spec>, faults: Faults, p: G.Projection, requestID: string): G.Projection {
    if Kept(faults, requestID) then p
    else if FoundCommitted(specs, faults, requestID) then
      p.(reserved := p.reserved - {requestID}, consumed := p.consumed + {requestID})
    else p.(reserved := p.reserved - {requestID})
  }

  /** `after` is `before` with every reservation outside `todo` adjudicated. */
  ghost predicate Reconciled(specs: map<string, Spec>, faults: Faults, before: G.Projection,
                             after: G.Projection, todo: set<string>) {
    && after.grant == before.grant && after.revoked == before.revoked
    && (forall id :: id in after.reserved <==> id in before.reserved && (id in todo || Kept(faults, id)))
    && (forall id :: id in after.consumed <==>
          id in before.consumed
          || (id in before.reserved && id !in todo && !Kept(faults, id)
              && FoundCommitted(specs, faults, id)))
  }

  /** A grant after every reservation is adjudicated: what stays reserved is foreign or cannot be closed,
      and what is consumed was, or its approval is on file. */
  function Reconciliation(specs: map<string, Spec>, faults: Faults, p: G.Projection): G.Projection {
    if p.grant.None? then p
    else
      p.(reserved := (set id | id in p.reserved && (ParseGrantRequestID(id).None? || id in faults.unclosable)),
         consumed := p.consumed
                     + (set id | id in p.reserved && ParseGrantRequestID(id).Some? && id !in faults.unclosable
                                 && ParseGrantRequestID(id).value.slug !in faults.unreadable
                                 && ApprovalCommitted(specs, id)))
  }

  lemma ReconciledIs(specs: map<string, Spec>, faults: Faults, before: G.Projection, after: G.Projection)
    requires before.grant.Some? && Reconciled(specs, faults, before, after, {})
    ensures after == Reconciliation(specs, faults, before)
  {
  }

  predicate AllClosable(faults: Faults, p: G.Projection) {
    forall id :: id in p.reserved ==> ParseGrantRequestID(id).None? || id !in faults.unclosable
  }

  /** What has to hold, of the files and of the call, for a use to be reserved. */
  predicate IsReady(specs: map<string, Spec>, faults: Faults, p: G.Projection, slug: string, enabled: bool,
                  ask: G.Request, now: int)
  {
    && slug in specs && slug !in faults.unreadable && AllClosable(faults, p)
    && GrantChecks.Reservable(Reconciliation(specs, faults, p), enabled, Asking(ask, UseOf(slug, specs[slug])), now)
  }

  /** What is told when it does not, in the order it is found out. */
  predicate NotReadyAs(specs: map<string, Spec>, faults: Faults, p: G.Projection, slug: string, enabled: bool,
                       ask: G.Request, now: int, why: PrepareRefusal)
  {
    if p.grant.None? then why == GrantRefused(G.UnknownGrant)
    else if !AllClosable(faults, p) then why == ClosesFailed
    else if slug !in specs || slug in faults.unreadable then why == StateNotLoaded
    else
      && why.GrantRefused?
      && GrantChecks.RefusedAs(Reconciliation(specs, faults, p), enabled, Asking(ask, UseOf(slug, specs[slug])), now,
                               Some(why.why))
  }

  ghost predicate OthersKept(before: seq<G.GrantEvent>, after: seq<G.GrantEvent>, grantID: string) {
    forall id :: id != grantID ==> G.Project(after, id) == G.Project(before, id)
  }

  lemma AppendTouchesOne(events: seq<G.GrantEvent>, line: G.GrantEvent)
    ensures G.Project(events + [line], line.grantID) == G.Apply(G.Project(events, line.grantID), line)
    ensures OthersKept(events, events + [line], line.grantID)
  {
  }
}
