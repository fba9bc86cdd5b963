/** Each action of the protocol keeps the invariant if and only if it is guarded. */
module DelegatedGuard {
  import opened Common
  import opened RequestIds
  import opened DelegatedApproval

  // ----- the ledger and the transaction -----

  /** Issuing and revoking move no uses. */
  lemma OperatorEffect(events: seq<G.GrantEvent>, op: G.Operation, id: string)
    requires op.Issue? || op.Revoke?
    ensures var p, q := G.Project(events, id), G.Project(G.Do(events, op), id);
            q.reserved == p.reserved && q.consumed == p.consumed
  {
    if G.Refuses(events, op).None? {
      G.ProjectAppend(events, G.LineOf(op), id);
    }
  }

  /** A reservation adds a fresh request, if it is accepted. */
  lemma ReserveEffect(events: seq<G.GrantEvent>, op: G.Operation, id: string)
    requires op.Reserve?
    ensures var p, q := G.Project(events, id), G.Project(G.Do(events, op), id);
            var taken := if op.grantID == id && G.Refuses(events, op).None? then {op.request.requestID} else {};
            q.reserved == p.reserved + taken && taken !! p.reserved + p.consumed && q.consumed == p.consumed
  {
    if G.Refuses(events, op).None? {
      G.ProjectAppend(events, G.LineOf(op), id);
    }
  }

  /** A close takes its request out of the open ones of its grant, into the consumed ones if it is a
      consumption, and moves nothing else. */
  lemma CloseEffect(events: seq<G.GrantEvent>, op: G.Operation, id: string)
    requires op.Consume? || op.Release?
    ensures var p, q := G.Project(events, id), G.Project(G.Do(events, op), id);
            var closed := if op.grantID == id then {op.requestID} else {};
            && p.reserved - closed <= q.reserved <= p.reserved
            && p.consumed <= q.consumed
            && p.reserved - q.reserved <= (if op.Consume? then q.consumed else closed)
  {
    if G.Refuses(events, op).None? {
      G.ProjectAppend(events, G.LineOf(op), id);
    }
  }

  /** A committed approval is either still open in the ledger or spent. */
  lemma CommittedHoldsAUse(s: State, grantID: string, requestID: string)
    requires Accounted(s) && WasCommitted(s, grantID, requestID)
    ensures requestID in Reserved(s, grantID) || requestID in Consumed(s, grantID)
  {
  }

  /** Reconciliation reads every open reservation whose approval committed as committed. */
  lemma OpenCommittedIsProvable(s: State, grantID: string, requestID: string)
    requires Inv(s) && WasCommitted(s, grantID, requestID) && requestID in Reserved(s, grantID)
    ensures ParseGrantRequestID(requestID).Some? && ApprovalCommitted(s.specs, requestID)
  {
    var i :| 0 <= i < |s.history| && IsUse(s.history[i], grantID, requestID);
    assert Open(s, s.history[i]);
    IDReadsBack(s.history[i].use);
  }

  lemma LedgerKeepsBooks(s: State, op: G.Operation, pc: Pc)
    requires Inv(s)
    requires op.Release? ==> !WasCommitted(s, op.grantID, op.requestID)
    requires PcKnows(s.(ledger := G.Do(s.ledger, op), pc := pc))
    ensures Inv(s.(ledger := G.Do(s.ledger, op), pc := pc))
  {
    G.DoKeepsSound(s.ledger, op);
    var t := s.(ledger := G.Do(s.ledger, op), pc := pc);
    forall i | 0 <= i < |s.history|
      ensures Open(t, t.history[i]) || Spent(t, t.history[i])
      ensures Open(t, t.history[i]) ==> Open(s, s.history[i])
    {
      UseStays(s, op, pc, i);
    }
  }

  /** A committed approval keeps its use, and never gets it back once spent. */
  lemma UseStays(s: State, op: G.Operation, pc: Pc, i: nat)
    requires Accounted(s) && i < |s.history|
    requires op.Release? ==> !WasCommitted(s, op.grantID, op.requestID)
    ensures var t := s.(ledger := G.Do(s.ledger, op), pc := pc);
            && (Open(t, t.history[i]) || Spent(t, t.history[i]))
            && (Open(t, t.history[i]) ==> Open(s, s.history[i]))
  {
    var a := s.history[i];
    assert Open(s, a) || Spent(s, a);
    assert IsUse(a, a.grantID, ID(a.use)) && WasCommitted(s, a.grantID, ID(a.use));
    if op.Reserve? {
      ReserveEffect(s.ledger, op, a.grantID);
    } else if op.Issue? || op.Revoke? {
      OperatorEffect(s.ledger, op, a.grantID);
    } else {
      CloseEffect(s.ledger, op, a.grantID);
    }
  }

  lemma OperatorStep(s: State, l: Label)
    requires Inv(s) && Enabled(s, l) && (l.IssueGrant? || l.RevokeGrant?)
    ensures Inv(After(s, l))
  {
    LedgerKeepsBooks(s, if l.IssueGrant? then G.Issue(l.enabled, l.grant, l.token) else G.Revoke(l.grantID), Idle);
  }

  function CloseOf(pc: Pc): G.Operation
    requires pc.Adjudicated?
  {
    if pc.committed then G.Consume(pc.grantID, pc.requestID) else G.Release(pc.grantID, pc.requestID)
  }

  lemma CloseKeepsTodo(s: State)
    requires Inv(s) && s.pc.Adjudicated?
    ensures PcKnows(After(s, CloseReservation))
  {
    CloseEffect(s.ledger, CloseOf(s.pc), s.pc.grantID);
  }

  lemma CloseStep(s: State)
    requires Inv(s) && s.pc.Adjudicated?
    ensures Inv(After(s, CloseReservation))
  {
    CloseKeepsTodo(s);
    LedgerKeepsBooks(s, CloseOf(s.pc), Reconciling(s.pc.grantID, s.pc.slug, s.pc.todo));
  }

  lemma ReserveKnows(s: State, l: Label)
    requires Inv(s) && l.ReserveUse? && Enabled(s, l)
    ensures PcKnows(After(s, l))
  {
    var id, use := s.pc.grantID, s.pc.use;
    ReserveEffect(s.ledger, G.Reserve(l.enabled, l.request, id, l.now), id);
    if WasCommitted(s, id, ID(use)) {
      CommittedHoldsAUse(s, id, ID(use));
    }
  }

  lemma ReserveStep(s: State, l: Label)
    requires Inv(s) && l.ReserveUse? && Enabled(s, l)
    ensures Inv(After(s, l))
  {
    ReserveKnows(s, l);
    LedgerKeepsBooks(s, G.Reserve(l.enabled, l.request, s.pc.grantID, l.now), After(s, l).pc);
  }

  lemma SettleStep(s: State, l: Label)
    requires Inv(s) && (l.ReleaseUse? || l.ConsumeUse?) && Enabled(s, l)
    ensures Inv(After(s, l))
  {
    var id, requestID := s.pc.grantID, ID(s.pc.use);
    LedgerKeepsBooks(s, if l.ReleaseUse? then G.Release(id, requestID) else G.Consume(id, requestID), Idle);
  }

  /** Moving only the program counter keeps everything the files say. */
  lemma PcMoves(s: State, pc: Pc)
    requires Inv(s)
    ensures Inv(s.(pc := pc)) <==> PcKnows(s.(pc := pc))
  {
    var t := s.(pc := pc);
    forall i | 0 <= i < |s.history|
      ensures Open(t, s.history[i]) == Open(s, s.history[i]) && Spent(t, s.history[i]) == Spent(s, s.history[i])
    {
    }
  }

  predicate MovesPc(l: Label) {
    || l.Begin? || l.SkipForeign? || l.Adjudicate? || l.LoadSpec? || l.GiveUp? || l.CloseFails? || l.RefuseApproval?
    || l.Crash?
  }

  lemma PcStep(s: State, l: Label)
    requires Inv(s) && Enabled(s, l) && MovesPc(l)
    ensures Inv(After(s, l))
  {
    PcMoves(s, After(s, l).pc);
    if l.Adjudicate? && WasCommitted(s, s.pc.grantID, l.requestID) {
      OpenCommittedIsProvable(s, s.pc.grantID, l.requestID);
    }
  }

  /** Among open reservations the files show exactly the committed ones. */
  lemma HeldAsIsCommitted(s: State, grantID: string, requestID: string)
    requires Inv(s) && requestID in Reserved(s, grantID)
    ensures HeldAs(s, grantID, requestID) <==> WasCommitted(s, grantID, requestID)
  {
    if WasCommitted(s, grantID, requestID) {
      var i :| 0 <= i < |s.history| && IsUse(s.history[i], grantID, requestID);
      HeldIsOpenCommitted(s, s.history[i]);
      IDReadsBack(s.history[i].use);
      assert HeldUse(s, s.history[i].use.slug, s.history[i].use.gate) == Some(s.history[i]);
    }
    if HeldAs(s, grantID, requestID) {
      var slug := ParseGrantRequestID(requestID).value.slug;
      var g :| HeldUse(s, slug, g).Some? && IsUse(HeldUse(s, slug, g).value, grantID, requestID);
      HeldIsOpenCommitted(s, HeldUse(s, slug, g).value);
    }
  }

  /** Misreading a record is harmless exactly when no state file shows its approval. */
  lemma MisreadStep(s: State, l: Label)
    requires Inv(s) && Enabled(s, l) && l.Misread?
    ensures Inv(After(s, l)) <==> !HeldAs(s, s.pc.grantID, l.requestID)
  {
    PcMoves(s, After(s, l).pc);
    HeldAsIsCommitted(s, s.pc.grantID, l.requestID);
  }

  // ----- files stay well-formed, whatever happens -----

  lemma AdvanceIsFiled(spec: Spec, grantID: Option<string>)
    requires WellFiled(spec) && Approvable(spec)
    ensures WellFiled(Advance(spec, grantID))
  {
    assert spec.approvals in Versions(spec);
    assert Versions(Advance(spec, grantID)) == {Advance(spec, grantID).approvals};
  }

  lemma RecordedIsFiled(spec: Spec, status: Status, approvals: Approvals, reversible: bool)
    requires WellFiled(spec) && TakesEvents(spec)
    requires DatedBefore(approvals, spec.revision) && approvals.records.Keys <= approvals.answered
    requires reversible ==> KeepsRecords(approvals, spec.approvals)
    ensures WellFiled(Recorded(spec, status, approvals, reversible))
  {
    assert spec.approvals in Versions(spec);
    forall a | a in Versions(Recorded(spec, status, approvals, reversible))
      ensures DatedBefore(a, spec.revision + 1) && a.records.Keys <= a.answered
    {
      assert a == approvals || a == spec.approvals;
    }
  }

  /** Every change of a state file leaves it well-filed. */
  lemma ChangedIsFiled(spec: Spec, change: Change)
    requires WellFiled(spec) && Allows(spec, change)
    ensures WellFiled(Changed(spec, change))
  {
    assert spec.approvals in Versions(spec);
    match change {
      case Approve => AdvanceIsFiled(spec, None);
      case OtherWrite =>
      case TaskEvent(reversible) => RecordedIsFiled(spec, spec.status, spec.approvals, reversible);
      case ReopenArtifact(artifact) => RecordedIsFiled(spec, artifact, spec.approvals, true);
      case ReopenSpec => RecordedIsFiled(spec, Requirements, NewCycle(spec.approvals), true);
      case Undo =>
        assert spec.tip.before.value.approvals in Versions(spec);
        RecordedIsFiled(spec, spec.tip.before.value.status, spec.tip.before.value.approvals, false);
    }
  }

  lemma FiledStep(s: State, l: Label)
    requires Filed(s.specs) && Enabled(s, l)
    ensures Filed(After(s, l).specs)
  {
    if l.ChangeSpec? {
      ChangedIsFiled(s.specs[l.slug], l.change);
    } else if l.Commit? {
      AdvanceIsFiled(s.specs[s.pc.use.slug], Some(s.pc.grantID));
    }
  }

  lemma {:induction false} RunsStayFiled(s: State, run: seq<Label>)
    requires Filed(s.specs) && Possible(s, run)
    ensures Filed(Final(s, run).specs)
    decreases |run|
  {
    if run != [] {
      FiledStep(s, run[0]);
      RunsStayFiled(After(s, run[0]), run[1..]);
    }
  }

  /** An approval, interactive or delegated, never overwrites a record: a recorded gate is answered, and
      an answered gate is not asked again in its cycle. */
  lemma ApprovalsOverwriteNothing(run: seq<Label>, slug: string)
    requires Possible(Init, run) && slug in Final(Init, run).specs && Approvable(Final(Init, run).specs[slug])
    ensures var s := Final(Init, run);
            var gate := ApprovalGateFor(s.specs[slug].status);
            gate !in s.specs[slug].approvals.records && HeldUse(s, slug, gate).None?
  {
    RunsStayFiled(Init, run);
    var spec := Final(Init, run).specs[slug];
    assert WellFiled(spec) && spec.approvals in Versions(spec);
  }

  /** An undo is open right after an event exactly when the event can be undone and follows another one,
      and brings back what the event changed: a new cycle's undo restores every record. */
  lemma UndoBringsBack(spec: Spec, change: Change)
    requires Allows(spec, change) && spec.revision < INT64_MAX - 1 && !change.Approve? && !change.OtherWrite?
    ensures var next := Changed(spec, change);
            && (Allows(next, Undo) <==> spec.tip.AtEvent? && !change.Undo? && (change.TaskEvent? ==> change.reversible))
            && (Allows(next, Undo) ==>
                  Changed(next, Undo).status == spec.status && Changed(next, Undo).approvals == spec.approvals)
  {
  }

  predicate Archives(run: seq<Label>, slug: string) {
    exists i :: 0 <= i < |run| && run[i] == Archive(slug)
  }

  /** After an event, one write outside the ledger ends it: until the spec is archived, whatever happens, no
      event is accepted any more, so nothing of it can be reopened or undone. */
  lemma {:induction false} BehindForGood(s: State, run: seq<Label>, slug: string)
    requires slug in s.specs && s.specs[slug].tip.Behind? && Possible(s, run) && !Archives(run, slug)
    ensures slug in Final(s, run).specs && Final(s, run).specs[slug].tip.Behind?
    ensures forall change :: Allows(Final(s, run).specs[slug], change) ==> change.Approve? || change.OtherWrite?
    decreases |run|
  {
    if run != [] {
      assert run[0] != Archive(slug) && forall i :: 0 <= i < |run[1..]| ==> run[1..][i] == run[i + 1];
      BehindForGood(After(s, run[0]), run[1..], slug);
    }
  }

  /** An approval after an event is such a write. */
  lemma ApprovalAfterEventIsBehind(spec: Spec, grantID: Option<string>)
    requires Approvable(spec)
    ensures Advance(spec, grantID).tip.Behind? <==> !spec.tip.NoEvents?
  {
  }

  // ----- writes to the state files -----

  /** A later version that forgets nothing about who approved what. */
  predicate Succeeds(s: State, slug: string, spec: Spec) {
    && slug in s.specs && Versions(spec) <= Versions(s.specs[slug]) + {spec.approvals}
    && AttributedTo(spec.approvals, slug, s.history)
    && (forall i :: 0 <= i < |s.history| && Open(s, s.history[i]) && s.history[i].use.slug == slug ==>
          (PinnedIn(spec.approvals, s.history[i].use) ==> CompanionIn(spec.approvals, s.history[i])))
  }

  lemma SuccessorKeepsRecords(s: State, slug: string, spec: Spec)
    requires Inv(s) && Succeeds(s, slug, spec)
    ensures Attributed(Write(s, slug, spec))
  {
    var t := Write(s, slug, spec);
    forall k, a | k in t.specs && a in Versions(t.specs[k]) ensures AttributedTo(a, k, t.history) {
      assert a != spec.approvals || k != slug ==> a in Versions(s.specs[k]);
      if k in s.specs && a in Versions(s.specs[k]) {
        assert AttributedTo(a, k, s.history);
      }
    }
  }

  /** A use keeps its companions through a version that has one itself. */
  lemma CompanionsStay(before: Spec, after: Spec, a: Approval)
    requires Companioned(before, a) && Versions(after) <= Versions(before) + {after.approvals}
    requires PinnedIn(after.approvals, a.use) ==> CompanionIn(after.approvals, a)
    ensures Companioned(after, a)
  {
    forall v | v in Versions(after) && PinnedIn(v, a.use) ensures CompanionIn(v, a) {
      assert v == after.approvals || v in Versions(before);
    }
  }

  lemma ProvenAfter(specs: map<string, Spec>, slug: string, spec: Spec, a: Approval)
    requires slug in specs && Proven(specs, a)
    requires Versions(spec) <= Versions(specs[slug]) + {spec.approvals}
    requires a.use.slug == slug && PinnedIn(spec.approvals, a.use) ==> CompanionIn(spec.approvals, a)
    ensures Proven(specs[slug := spec], a) <==> (a.use.slug == slug ==> PinnedIn(spec.approvals, a.use))
  {
    if a.use.slug == slug {
      CompanionsStay(specs[slug], spec, a);
    }
  }

  /** Which open uses a write leaves provable. */
  lemma SuccessorProves(s: State, slug: string, spec: Spec, i: nat)
    requires Recoverable(s) && Succeeds(s, slug, spec) && i < |s.history| && Open(s, s.history[i])
    ensures Proven(s.specs[slug := spec], s.history[i]) <==>
            (s.history[i].use.slug == slug ==> PinnedIn(spec.approvals, s.history[i].use))
  {
    ProvenAfter(s.specs, slug, spec, s.history[i]);
  }

  /** The new version still shows every open use of the old one. */
  predicate KeepsHeld(s: State, slug: string, spec: Spec) {
    forall g :: HeldUse(s, slug, g).Some? ==> PinnedIn(spec.approvals, HeldUse(s, slug, g).value.use)
  }

  /** A write keeps the invariant exactly when it keeps the record of every open committed use. */
  lemma WriteKeepsInv(s: State, slug: string, spec: Spec)
    requires Inv(s) && Succeeds(s, slug, spec) && Filed(Write(s, slug, spec).specs)
    ensures Inv(Write(s, slug, spec)) <==> KeepsHeld(s, slug, spec)
  {
    var t := Write(s, slug, spec);
    SuccessorKeepsRecords(s, slug, spec);
    OnlySpecs(s, t.specs);
    if Inv(t) {
      forall g | HeldUse(s, slug, g).Some? ensures PinnedIn(spec.approvals, HeldUse(s, slug, g).value.use) {
        var a := HeldUse(s, slug, g).value;
        HeldIsOpenCommitted(s, a);
        var i :| 0 <= i < |s.history| && s.history[i] == a;
        SuccessorProves(s, slug, spec, i);
        assert Open(t, t.history[i]) && Proven(t.specs, t.history[i]);
      }
    }
    if KeepsHeld(s, slug, spec) {
      forall i | 0 <= i < |t.history| && Open(t, t.history[i]) ensures Proven(t.specs, t.history[i]) {
        var a := s.history[i];
        assert Open(s, a);
        HeldIsOpenCommitted(s, a);
        SuccessorProves(s, slug, spec, i);
      }
    }
  }

  /** Changing only state files leaves the books as they are. */
  lemma OnlySpecs(s: State, specs: map<string, Spec>)
    requires Inv(s)
    ensures Accounted(s.(specs := specs)) && PcKnows(s.(specs := specs))
  {
    var t := s.(specs := specs);
    forall i | 0 <= i < |s.history|
      ensures Open(t, s.history[i]) == Open(s, s.history[i]) && Spent(t, s.history[i]) == Spent(s, s.history[i])
    {
    }
    assert forall id, requestID :: WasCommitted(t, id, requestID) == WasCommitted(s, id, requestID);
  }

  lemma ApproveSucceeds(s: State, slug: string)
    requires Inv(s) && slug in s.specs && Approvable(s.specs[slug])
    ensures Succeeds(s, slug, Advance(s.specs[slug], None)) && KeepsHeld(s, slug, Advance(s.specs[slug], None))
  {
    var spec := s.specs[slug];
    assert WellFiled(spec) && spec.approvals in Versions(spec);
    assert AttributedTo(spec.approvals, slug, s.history);
    forall i | 0 <= i < |s.history| && Open(s, s.history[i]) && s.history[i].use.slug == slug
      && PinnedIn(Advance(spec, None).approvals, s.history[i].use)
      ensures CompanionIn(Advance(spec, None).approvals, s.history[i])
    {
      assert Proven(s.specs, s.history[i]) && Companioned(spec, s.history[i]);
      assert CompanionIn(spec.approvals, s.history[i]);
    }
  }

  /** A version with the approvals of one the file can show already. */
  lemma ShownSucceeds(s: State, slug: string, spec: Spec)
    requires Inv(s) && slug in s.specs && spec.approvals in Versions(s.specs[slug])
    requires Versions(spec) <= Versions(s.specs[slug])
    ensures Succeeds(s, slug, spec)
  {
    assert AttributedTo(spec.approvals, slug, s.history);
    forall i | 0 <= i < |s.history| && Open(s, s.history[i]) && s.history[i].use.slug == slug
      && PinnedIn(spec.approvals, s.history[i].use)
      ensures CompanionIn(spec.approvals, s.history[i])
    {
      assert Proven(s.specs, s.history[i]) && Companioned(s.specs[slug], s.history[i]);
    }
  }

  lemma NewCycleSucceeds(s: State, slug: string)
    requires Inv(s) && slug in s.specs && TakesEvents(s.specs[slug])
    ensures Succeeds(s, slug, Changed(s.specs[slug], ReopenSpec))
    ensures KeepsHeld(s, slug, Changed(s.specs[slug], ReopenSpec)) <==> NothingHeld(s, slug)
  {
    var spec := s.specs[slug];
    assert spec.approvals in Versions(spec);
    assert AttributedTo(spec.approvals, slug, s.history);
  }

  lemma CreateStep(s: State, slug: string)
    requires Inv(s) && Enabled(s, NewSpec(slug))
    ensures Inv(After(s, NewSpec(slug)))
  {
    var t := After(s, NewSpec(slug));
    OnlySpecs(s, t.specs);
    FiledStep(s, NewSpec(slug));
    forall k, a | k in t.specs && a in Versions(t.specs[k]) ensures AttributedTo(a, k, t.history) {
      if k != slug {
        assert AttributedTo(a, k, s.history);
      }
    }
    forall i | 0 <= i < |t.history| && Open(t, t.history[i]) ensures Proven(t.specs, t.history[i]) {
      assert Open(s, s.history[i]) && Proven(s.specs, s.history[i]);
    }
  }

  lemma ArchiveKeepsBooks(s: State, slug: string)
    requires Inv(s) && Enabled(s, Archive(slug))
    ensures Accounted(After(s, Archive(slug))) && PcKnows(After(s, Archive(slug)))
    ensures Filed(After(s, Archive(slug)).specs) && Attributed(After(s, Archive(slug)))
  {
    var t := After(s, Archive(slug));
    OnlySpecs(s, t.specs);
    forall k, a | k in t.specs && a in Versions(t.specs[k]) ensures AttributedTo(a, k, t.history) {
      assert AttributedTo(a, k, s.history);
    }
  }

  lemma UnguardedArchiveBreaks(s: State, slug: string)
    requires Inv(s) && Enabled(s, Archive(slug)) && !NothingHeld(s, slug)
    ensures !Recoverable(After(s, Archive(slug)))
  {
    var t := After(s, Archive(slug));
    var g :| HeldUse(s, slug, g).Some?;
    var a := HeldUse(s, slug, g).value;
    HeldIsOpenCommitted(s, a);
    var i :| 0 <= i < |s.history| && s.history[i] == a;
    assert Open(t, t.history[i]) && !Proven(t.specs, t.history[i]);
  }

  /** An archive is safe exactly when the spec shows no open use. */
  lemma ArchiveStep(s: State, slug: string)
    requires Inv(s) && Enabled(s, Archive(slug))
    ensures Inv(After(s, Archive(slug))) <==> NothingHeld(s, slug)
  {
    var t := After(s, Archive(slug));
    ArchiveKeepsBooks(s, slug);
    if NothingHeld(s, slug) {
      forall i | 0 <= i < |t.history| && Open(t, t.history[i]) ensures Proven(t.specs, t.history[i]) {
        assert Open(s, s.history[i]) && Proven(s.specs, s.history[i]);
        HeldIsOpenCommitted(s, s.history[i]);
      }
    } else {
      UnguardedArchiveBreaks(s, slug);
    }
  }

  lemma ChangeSucceeds(s: State, slug: string, change: Change)
    requires Inv(s) && Enabled(s, ChangeSpec(slug, change))
    ensures Succeeds(s, slug, Changed(s.specs[slug], change))
    ensures KeepsHeld(s, slug, Changed(s.specs[slug], change)) <==> (change.ReopenSpec? ==> NothingHeld(s, slug))
  {
    if change.Approve? {
      ApproveSucceeds(s, slug);
    } else if change.ReopenSpec? {
      NewCycleSucceeds(s, slug);
    } else {
      ChangeKeepsRecords(s.specs[slug], change);
      ShownSucceeds(s, slug, Changed(s.specs[slug], change));
    }
  }

  /** A new cycle is safe exactly when the spec shows no open use; every other change always is. */
  lemma ChangeStep(s: State, slug: string, change: Change)
    requires Inv(s) && Enabled(s, ChangeSpec(slug, change))
    ensures Inv(After(s, ChangeSpec(slug, change))) <==> (change.ReopenSpec? ==> NothingHeld(s, slug))
  {
    FiledStep(s, ChangeSpec(slug, change));
    ChangeSucceeds(s, slug, change);
    WriteKeepsInv(s, slug, Changed(s.specs[slug], change));
  }

  /** An undo included: it brings back a version with every record there is. */
  lemma ChangeKeepsRecords(spec: Spec, change: Change)
    requires WellFiled(spec) && Allows(spec, change) && !change.Approve? && !change.ReopenSpec?
    ensures var next := Changed(spec, change);
            && next.approvals in Versions(spec) && Versions(next) <= Versions(spec)
            && KeepsRecords(spec.approvals, next.approvals)
  {
    assert spec.approvals in Versions(spec);
  }

  // ----- the commit -----

  lemma CommitKeepsBooks(s: State)
    requires Inv(s) && Enabled(s, Commit)
    ensures Accounted(After(s, Commit)) && PcKnows(After(s, Commit))
  {
    var t, n := After(s, Commit), |s.history|;
    assert t.history[n] == Approval(s.pc.grantID, s.pc.use);
    forall i | 0 <= i < n
      ensures t.history[i] == s.history[i] && t.history[i] != t.history[n]
      ensures SlugForm(t.history[i].use.slug) && (Open(t, t.history[i]) || Spent(t, t.history[i]))
    {
      assert Open(s, s.history[i]) || Spent(s, s.history[i]);
      assert !IsUse(s.history[i], s.pc.grantID, ID(s.pc.use));
    }
    assert Open(t, t.history[n]);
  }

  /** The records of the version a delegated commit writes. */
  lemma CommitKeepsRecords(s: State)
    requires Inv(s) && Enabled(s, Commit) && Guard(s, Commit)
    ensures Attributed(After(s, Commit))
  {
    var t, slug := After(s, Commit), s.pc.use.slug;
    assert s.specs[slug].approvals in Versions(s.specs[slug]);
    forall k, a | k in t.specs && a in Versions(t.specs[k]) ensures AttributedTo(a, k, t.history) {
      var from := if k == slug then s.specs[slug].approvals else a;
      assert from in Versions(s.specs[k]) && AttributedTo(from, k, s.history);
      assert k == slug ==> a == t.specs[slug].approvals;
      assert t.history[|s.history|] == Approval(s.pc.grantID, s.pc.use);
    }
  }

  /** The new approval is provable exactly when it was committed for its own gate. */
  lemma CommitProvesItself(s: State)
    requires Filed(s.specs) && Enabled(s, Commit)
    ensures Proven(After(s, Commit).specs, Approval(s.pc.grantID, s.pc.use)) <==>
            s.pc.use.gate == ApprovalGateFor(s.specs[s.pc.use.slug].status)
  {
    var t, u := After(s, Commit), s.pc.use;
    var spec := s.specs[u.slug];
    assert WellFiled(spec) && spec.approvals in Versions(spec);
    assert !PinnedIn(spec.approvals, u);
    assert Versions(t.specs[u.slug]) == {t.specs[u.slug].approvals};
  }

  /** An approval keeps the proof of every earlier use: the gate it records had no record. */
  lemma AdvanceProves(spec: Spec, grantID: string, a: Approval)
    requires WellFiled(spec) && Approvable(spec) && PinnedIn(spec.approvals, a.use) && Companioned(spec, a)
    ensures PinnedIn(Advance(spec, Some(grantID)).approvals, a.use) && Companioned(Advance(spec, Some(grantID)), a)
  {
    assert spec.approvals in Versions(spec) && CompanionIn(spec.approvals, a);
    assert a.use.gate != ApprovalGateFor(spec.status);
    assert Versions(Advance(spec, Some(grantID))) == {Advance(spec, Some(grantID)).approvals};
  }

  lemma CommitProves(s: State, i: nat)
    requires Inv(s) && Enabled(s, Commit) && i < |s.history| && Open(s, s.history[i])
    ensures Proven(After(s, Commit).specs, s.history[i])
  {
    var a := s.history[i];
    assert Proven(s.specs, a);
    if a.use.slug == s.pc.use.slug {
      AdvanceProves(s.specs[a.use.slug], s.pc.grantID, a);
    }
  }

  lemma CommitStep(s: State)
    requires Inv(s) && Enabled(s, Commit)
    ensures Inv(After(s, Commit)) <==> Guard(s, Commit)
  {
    CommitKeepsBooks(s);
    CommitProvesItself(s);
    FiledStep(s, Commit);
    var t, n := After(s, Commit), |s.history|;
    assert t.history[n] == Approval(s.pc.grantID, s.pc.use) && Open(t, t.history[n]);
    if Guard(s, Commit) {
      CommitKeepsRecords(s);
      GuardedCommitRecovers(s);
    }
  }

  lemma GuardedCommitRecovers(s: State)
    requires Inv(s) && Enabled(s, Commit) && Guard(s, Commit)
    ensures Recoverable(After(s, Commit))
  {
    var t, n := After(s, Commit), |s.history|;
    CommitProvesItself(s);
    forall i | 0 <= i < |t.history| && Open(t, t.history[i]) ensures Proven(t.specs, t.history[i]) {
      if i < n {
        assert Open(s, s.history[i]);
        CommitProves(s, i);
      }
    }
  }

  /** One action keeps the invariant if and only if it is guarded. */
  lemma GuardIsExact(s: State, l: Label)
    requires Inv(s) && Enabled(s, l)
    ensures Inv(After(s, l)) <==> Guard(s, l)
  {
    if MovesPc(l) {
      PcStep(s, l);
    } else if l.IssueGrant? || l.RevokeGrant? {
      OperatorStep(s, l);
    } else if l.ReleaseUse? || l.ConsumeUse? {
      SettleStep(s, l);
    } else {
      match l {
        case NewSpec(slug) => CreateStep(s, slug);
        case ChangeSpec(slug, change) => ChangeStep(s, slug, change);
        case Archive(slug) => ArchiveStep(s, slug);
        case Misread(_) => MisreadStep(s, l);
        case CloseReservation => CloseStep(s);
        case ReserveUse(_, _, _) => ReserveStep(s, l);
        case Commit => CommitStep(s);
        case _ =>
      }
    }
  }

  lemma {:induction false} GuardedRunsKeepInv(s: State, run: seq<Label>)
    requires Inv(s) && Possible(s, run) && Guarded(s, run)
    ensures Inv(Final(s, run))
    decreases |run|
  {
    if run != [] {
      GuardIsExact(s, run[0]);
      GuardedRunsKeepInv(After(s, run[0]), run[1..]);
    }
  }
}
