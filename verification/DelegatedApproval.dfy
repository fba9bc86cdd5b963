/** Delegated approval as a crash-tolerant protocol over the grant ledger and the specs' state files.

    Each label is one durable or volatile atomic action. At most one delegated transaction is in
    flight, because it holds the authority lock; a crash drops its program counter between any two
    actions. Interactive approvals, workflow events and other state writes interleave freely. */
module DelegatedApproval {
  import opened Common
  import opened RequestIds
  import G = Grants

  // ----- lifecycle -----

  datatype Status = Requirements | Design | Tasks | Executing | Verifying | Complete

  function Index(s: Status): nat {
    match s
    case Requirements => 0
    case Design => 1
    case Tasks => 2
    case Executing => 3
    case Verifying => 4
    case Complete => 5
  }

  function NextStatus(s: Status): Option<Status> {
    match s
    case Requirements => Some(Design)
    case Design => Some(Tasks)
    case Tasks => Some(Executing)
    case Executing => Some(Verifying)
    case Verifying => Some(Complete)
    case Complete => None
  }

  /** The approval gates; the gate of the last transition is named after its target. */
  datatype Gate = RequirementsGate | DesignGate | TasksGate | ExecutingGate | CompleteGate

  function ApprovalGateFor(s: Status): Gate {
    if NextStatus(s) == Some(Complete) then CompleteGate
    else
      match s
      case Requirements => RequirementsGate
      case Design => DesignGate
      case Tasks => TasksGate
      case Executing => ExecutingGate
      case _ => CompleteGate
  }

  function GateName(g: Gate): string {
    match g
    case RequirementsGate => "requirements"
    case DesignGate => "design"
    case TasksGate => "tasks"
    case ExecutingGate => "executing"
    case CompleteGate => "complete"
  }

  /** The transition a grant must list for a gate to be approved under it. */
  function ApproveTransition(g: Gate): string {
    "approve." + GateName(g)
  }

  function GateNamed(name: string): Option<Gate> {
    if name == GateName(RequirementsGate) then Some(RequirementsGate)
    else if name == GateName(DesignGate) then Some(DesignGate)
    else if name == GateName(TasksGate) then Some(TasksGate)
    else if name == GateName(ExecutingGate) then Some(ExecutingGate)
    else if name == GateName(CompleteGate) then Some(CompleteGate)
    else None
  }

  /** The position in the lifecycle at which a gate is approved. */
  function GateIndex(g: Gate): nat {
    match g
    case RequirementsGate => 0
    case DesignGate => 1
    case TasksGate => 2
    case ExecutingGate => 3
    case CompleteGate => 4
  }

  // ----- state -----

  type Revision = r: int | 0 <= r <= INT64_MAX

  /** The companion record of a delegated approval: its grant and the revision it advanced from. */
  datatype Delegation = Delegation(grantID: string, revision: Revision)

  /** What the records of a state file say about approvals: the approval record of each gate, by the
      revision it pins; the companion records beside them; and the gates whose request chain of the
      current cycle is closed. */
  datatype Approvals = Approvals(records: map<Gate, Revision>, delegations: map<Gate, Delegation>, answered: set<Gate>)

  datatype Version = Version(status: Status, approvals: Approvals)

  /** How a state file stands to its workflow ledger: no events yet; at the last event, with the version
      an undo would bring back if that event can be undone; or behind, by a write outside the ledger,
      after which no event is accepted any more. */
  datatype Tip = NoEvents | AtEvent(before: Option<Version>) | Behind

  /** state.json. */
  datatype Spec = Spec(status: Status, revision: Revision, approvals: Approvals, tip: Tip)

  const Created := Spec(Requirements, 0, Approvals(map[], map[], {}), NoEvents)

  /** One transition of one spec at one revision. */
  datatype Use = Use(slug: string, gate: Gate, revision: Revision)

  function ID(u: Use): string {
    GrantRequestID(u.slug, GateName(u.gate), u.revision)
  }

  /** A delegated approval that reached state.json. */
  datatype Approval = Approval(grantID: string, use: Use)

  datatype Pc =
    | Idle
    | Reconciling(grantID: string, slug: string, todo: set<string>)
    | Adjudicated(grantID: string, slug: string, todo: set<string>, requestID: string, committed: bool)
    | Loaded(grantID: string, use: Use)
    | Prepared(grantID: string, use: Use)
    | Refused(grantID: string, use: Use)
    | Approved(grantID: string, use: Use)

  /** `history` records every delegated approval that was committed; no action reads it. */
  datatype State = State(ledger: seq<G.GrantEvent>, specs: map<string, Spec>, pc: Pc, history: seq<Approval>)

  const Init := State([], map[], Idle, [])

  function Reserved(s: State, grantID: string): set<string> { G.Project(s.ledger, grantID).reserved }

  function Consumed(s: State, grantID: string): set<string> { G.Project(s.ledger, grantID).consumed }

  /** Whether the approval record a request names is in place, as reconciliation reads it. */
  predicate ApprovalCommitted(specs: map<string, Spec>, requestID: string)
    requires ParseGrantRequestID(requestID).Some?
  {
    var key := ParseGrantRequestID(requestID).value;
    && key.slug in specs
    && GateNamed(key.gate).Some?
    && GateNamed(key.gate).value in specs[key.slug].approvals.records
    && specs[key.slug].approvals.records[GateNamed(key.gate).value] == key.revision
  }

  /** The next version of a state file, by a write outside the workflow ledger. */
  function Rewritten(spec: Spec, status: Status, approvals: Approvals): Spec
    requires spec.revision < INT64_MAX
  {
    Spec(status, spec.revision + 1, approvals, if spec.tip.NoEvents? then NoEvents else Behind)
  }

  /** The next version, by a workflow event. */
  function Recorded(spec: Spec, status: Status, approvals: Approvals, reversible: bool): Spec
    requires TakesEvents(spec)
  {
    var before := if spec.tip.AtEvent? && reversible then Some(Version(spec.status, spec.approvals)) else None;
    Spec(status, spec.revision + 1, approvals, AtEvent(before))
  }

  predicate TakesEvents(spec: Spec) {
    spec.revision < INT64_MAX && !spec.tip.Behind?
  }

  predicate Undoable(spec: Spec) {
    TakesEvents(spec) && spec.tip.AtEvent? && spec.tip.before.Some?
  }

  /** The one effect of approving a spec; a delegated approval also names its grant. */
  function Advance(spec: Spec, grantID: Option<string>): Spec
    requires Approvable(spec)
  {
    var gate, a := ApprovalGateFor(spec.status), spec.approvals;
    Rewritten(spec, NextStatus(spec.status).value,
              Approvals(a.records[gate := spec.revision],
                        if grantID.Some? then a.delegations[gate := Delegation(grantID.value, spec.revision)]
                        else a.delegations,
                        a.answered + {gate}))
  }

  /** There is a next status, and the request chain of its gate can still be answered in this cycle. */
  predicate Approvable(spec: Spec) {
    NextStatus(spec.status).Some? && spec.revision < INT64_MAX && ApprovalGateFor(spec.status) !in spec.approvals.answered
  }

  /** A new cycle: the approval records are moved away, and no request of the cycle exists. */
  function NewCycle(a: Approvals): Approvals {
    Approvals(map[], a.delegations, {})
  }

  /** What others do to a state file: an interactive approval, a write that leaves the approvals alone,
      and the workflow events. */
  datatype Change =
    | Approve
    | OtherWrite
    | TaskEvent(reversible: bool)
    | ReopenArtifact(artifact: Status)
    | ReopenSpec
    | Undo

  predicate Allows(spec: Spec, change: Change) {
    match change
    case Approve => Approvable(spec)
    case OtherWrite => spec.revision < INT64_MAX
    case TaskEvent(_) => TakesEvents(spec)
    case ReopenArtifact(artifact) => TakesEvents(spec) && artifact in {Requirements, Design, Tasks}
    case ReopenSpec => TakesEvents(spec)
    case Undo => Undoable(spec)
  }

  function Changed(spec: Spec, change: Change): Spec
    requires Allows(spec, change)
  {
    match change
    case Approve => Advance(spec, None)
    case OtherWrite => Rewritten(spec, spec.status, spec.approvals)
    case TaskEvent(reversible) => Recorded(spec, spec.status, spec.approvals, reversible)
    case ReopenArtifact(artifact) => Recorded(spec, artifact, spec.approvals, true)
    case ReopenSpec => Recorded(spec, Requirements, NewCycle(spec.approvals), true)
    case Undo => Recorded(spec, spec.tip.before.value.status, spec.tip.before.value.approvals, false)
  }

  // ----- actions -----

  datatype Label =
    // operators and other processes
    | IssueGrant(enabled: bool, grant: G.Grant, token: string)
    | RevokeGrant(grantID: string)
    | NewSpec(slug: string)
    | ChangeSpec(slug: string, change: Change)
    | Archive(slug: string)
    // the delegated transaction, in program order
    | Begin(grantID: string, slug: string)
    | SkipForeign(requestID: string)
    | Adjudicate(requestID: string)
    // the state file or its approval record cannot be read, which is taken for "not committed"
    | Misread(requestID: string)
    | CloseReservation
    | CloseFails
    | LoadSpec
    | GiveUp
    | ReserveUse(enabled: bool, request: G.Request, now: int)
    | RefuseApproval
    | Commit
    | ReleaseUse
    | ConsumeUse
    | Crash

  /** The approvals a state file holds, and those an undo would bring back. */
  function Versions(spec: Spec): set<Approvals> {
    {spec.approvals}
    + if spec.tip.AtEvent? && spec.tip.before.Some? then {spec.tip.before.value.approvals} else {}
  }

  predicate Enabled(s: State, l: Label) {
    match l
    // issuing and revoking take the authority lock, so no delegated transaction is in flight
    case IssueGrant(_, _, _) => s.pc.Idle?
    case RevokeGrant(_) => s.pc.Idle?
    case NewSpec(slug) => SlugForm(slug) && slug !in s.specs
    case ChangeSpec(slug, change) => slug in s.specs && Allows(s.specs[slug], change)
    case Archive(slug) => slug in s.specs && s.specs[slug].status == Complete
    case Begin(grantID, _) => s.pc.Idle? && G.Project(s.ledger, grantID).grant.Some?
    case SkipForeign(id) => s.pc.Reconciling? && id in s.pc.todo && ParseGrantRequestID(id).None?
    case Adjudicate(id) => s.pc.Reconciling? && id in s.pc.todo && ParseGrantRequestID(id).Some?
    case Misread(id) => s.pc.Reconciling? && id in s.pc.todo && ParseGrantRequestID(id).Some?
    case CloseReservation => s.pc.Adjudicated?
    case CloseFails => s.pc.Adjudicated?
    case LoadSpec => s.pc.Reconciling? && s.pc.todo == {} && s.pc.slug in s.specs
    case GiveUp => s.pc.Reconciling?
    case ReserveUse(_, request, _) =>
      && s.pc.Loaded?
      && request.requestID == ID(s.pc.use) && request.specID == s.pc.use.slug
      && request.transition == ApproveTransition(s.pc.use.gate)
    case RefuseApproval => s.pc.Prepared?
    case Commit =>
      && s.pc.Prepared? && s.pc.use.slug in s.specs
      && s.specs[s.pc.use.slug].revision == s.pc.use.revision && Approvable(s.specs[s.pc.use.slug])
    case ReleaseUse => s.pc.Refused?
    case ConsumeUse => s.pc.Approved?
    case Crash => true
  }

  function Write(s: State, slug: string, spec: Spec): State {
    s.(specs := s.specs[slug := spec])
  }

  function After(s: State, l: Label): State
    requires Enabled(s, l)
  {
    match l
    case IssueGrant(enabled, grant, token) => s.(ledger := G.Do(s.ledger, G.Issue(enabled, grant, token)))
    case RevokeGrant(id) => s.(ledger := G.Do(s.ledger, G.Revoke(id)))
    case NewSpec(slug) => Write(s, slug, Created)
    case ChangeSpec(slug, change) => Write(s, slug, Changed(s.specs[slug], change))
    case Archive(slug) => s.(specs := s.specs - {slug})
    case Begin(id, slug) => s.(pc := Reconciling(id, slug, Reserved(s, id)))
    case SkipForeign(id) => s.(pc := Reconciling(s.pc.grantID, s.pc.slug, s.pc.todo - {id}))
    case Adjudicate(id) =>
      s.(pc := Adjudicated(s.pc.grantID, s.pc.slug, s.pc.todo - {id}, id, ApprovalCommitted(s.specs, id)))
    case Misread(id) => s.(pc := Adjudicated(s.pc.grantID, s.pc.slug, s.pc.todo - {id}, id, false))
    case CloseReservation =>
      var close := if s.pc.committed then G.Consume(s.pc.grantID, s.pc.requestID) else G.Release(s.pc.grantID, s.pc.requestID);
      s.(ledger := G.Do(s.ledger, close), pc := Reconciling(s.pc.grantID, s.pc.slug, s.pc.todo))
    case CloseFails => s.(pc := Reconciling(s.pc.grantID, s.pc.slug, s.pc.todo))
    case LoadSpec =>
      var spec := s.specs[s.pc.slug];
      s.(pc := Loaded(s.pc.grantID, Use(s.pc.slug, ApprovalGateFor(spec.status), spec.revision)))
    case GiveUp => s.(pc := Idle)
    case ReserveUse(enabled, request, now) =>
      var reserve := G.Reserve(enabled, request, s.pc.grantID, now);
      s.(ledger := G.Do(s.ledger, reserve),
         pc := if G.Refuses(s.ledger, reserve).None? then Prepared(s.pc.grantID, s.pc.use) else Idle)
    case RefuseApproval => s.(pc := Refused(s.pc.grantID, s.pc.use))
    case Commit =>
      Write(s, s.pc.use.slug, Advance(s.specs[s.pc.use.slug], Some(s.pc.grantID)))
        .(pc := Approved(s.pc.grantID, s.pc.use), history := s.history + [Approval(s.pc.grantID, s.pc.use)])
    case ReleaseUse => s.(ledger := G.Do(s.ledger, G.Release(s.pc.grantID, ID(s.pc.use))), pc := Idle)
    case ConsumeUse => s.(ledger := G.Do(s.ledger, G.Consume(s.pc.grantID, ID(s.pc.use))), pc := Idle)
    case Crash => s.(pc := Idle)
  }

  // ----- request ids name uses uniquely -----

  lemma GateNamesAreFaithful(g: Gate)
    ensures ':' !in GateName(g) && GateNamed(GateName(g)) == Some(g)
    ensures forall name :: GateNamed(name) == Some(g) ==> name == GateName(g)
  {
  }

  lemma IDReadsBack(u: Use)
    requires SlugForm(u.slug)
    ensures ParseGrantRequestID(ID(u)) == Some(RequestKey(u.slug, GateName(u.gate), u.revision))
    ensures GateNamed(GateName(u.gate)) == Some(u.gate)
  {
    GateNamesAreFaithful(u.gate);
    ParseInvertsMint(u.slug, GateName(u.gate), u.revision);
  }

  lemma IDsDiffer(u: Use, v: Use)
    requires SlugForm(u.slug) && SlugForm(v.slug) && ID(u) == ID(v)
    ensures u == v
  {
    IDReadsBack(u);
    IDReadsBack(v);
  }

  // ----- the invariant -----

  predicate Open(s: State, a: Approval) { ID(a.use) in Reserved(s, a.grantID) }

  predicate Spent(s: State, a: Approval) { ID(a.use) in Consumed(s, a.grantID) }

  /** The approval record of a use is still the one its commit wrote. */
  predicate Pinned(specs: map<string, Spec>, u: Use) {
    u.slug in specs && PinnedIn(specs[u.slug].approvals, u)
  }

  predicate PinnedIn(a: Approvals, u: Use) {
    u.gate in a.records && a.records[u.gate] == u.revision
  }

  predicate IsUse(a: Approval, grantID: string, requestID: string) {
    a.grantID == grantID && ID(a.use) == requestID
  }

  /** A delegated approval was committed under this grant for this request. */
  predicate WasCommitted(s: State, grantID: string, requestID: string) {
    exists i :: 0 <= i < |s.history| && IsUse(s.history[i], grantID, requestID)
  }

  /** What a transaction in flight knows. */
  predicate PcKnows(s: State) {
    match s.pc
    case Idle => true
    case Reconciling(id, _, todo) => todo <= Reserved(s, id)
    case Adjudicated(id, _, todo, requestID, committed) =>
      && todo <= Reserved(s, id) && requestID in Reserved(s, id) && requestID !in todo
      && (!committed ==> !WasCommitted(s, id, requestID))
    case Loaded(_, use) => SlugForm(use.slug)
    case Prepared(id, use) => SlugForm(use.slug) && ID(use) in Reserved(s, id) && !WasCommitted(s, id, ID(use))
    case Refused(id, use) => ID(use) in Reserved(s, id) && !WasCommitted(s, id, ID(use))
    case Approved(id, use) => ID(use) in Reserved(s, id)
  }

  /** Every committed approval holds a use of its grant, and a use of its own. */
  predicate Accounted(s: State) {
    && (forall i :: 0 <= i < |s.history| ==>
          SlugForm(s.history[i].use.slug) && (Open(s, s.history[i]) || Spent(s, s.history[i])))
    && (forall i, j :: 0 <= i < j < |s.history| ==> s.history[i] != s.history[j])
  }

  /** No record is dated at or after the revision of its state file, every recorded gate is answered,
      and an undo only adds records. */
  predicate WellFiled(spec: Spec) {
    && (forall a :: a in Versions(spec) ==> DatedBefore(a, spec.revision) && a.records.Keys <= a.answered)
    && (spec.tip.AtEvent? && spec.tip.before.Some? ==> KeepsRecords(spec.approvals, spec.tip.before.value.approvals))
  }

  predicate DatedBefore(a: Approvals, revision: int) {
    && (forall g :: g in a.records ==> a.records[g] < revision)
    && (forall g :: g in a.delegations ==> a.delegations[g].revision < revision)
  }

  predicate KeepsRecords(a: Approvals, b: Approvals) {
    forall g :: g in a.records ==> g in b.records && b.records[g] == a.records[g]
  }

  predicate Filed(specs: map<string, Spec>) {
    forall slug :: slug in specs ==> SlugForm(slug) && WellFiled(specs[slug])
  }

  /** Every companion record was written by a delegated approval. */
  predicate Attributed(s: State) {
    forall slug, a :: slug in s.specs && a in Versions(s.specs[slug]) ==> AttributedTo(a, slug, s.history)
  }

  predicate AttributedTo(a: Approvals, slug: string, history: seq<Approval>) {
    forall g :: g in a.delegations ==>
      Approval(a.delegations[g].grantID, Use(slug, g, a.delegations[g].revision)) in history
  }

  /** Where the record of a use is in place, so is its companion. */
  predicate Companioned(spec: Spec, a: Approval) {
    forall v :: v in Versions(spec) && PinnedIn(v, a.use) ==> CompanionIn(v, a)
  }

  predicate CompanionIn(v: Approvals, a: Approval) {
    a.use.gate in v.delegations && v.delegations[a.use.gate] == Delegation(a.grantID, a.use.revision)
  }

  predicate Proven(specs: map<string, Spec>, a: Approval) {
    Pinned(specs, a.use) && Companioned(specs[a.use.slug], a)
  }

  /** A use left open by a dead process after its approval committed is still provable from state.json. */
  predicate Recoverable(s: State) {
    forall i :: 0 <= i < |s.history| && Open(s, s.history[i]) ==> Proven(s.specs, s.history[i])
  }

  ghost predicate Inv(s: State) {
    && G.SoundLedger(s.ledger) && Filed(s.specs)
    && Accounted(s) && PcKnows(s) && Attributed(s)
    && Recoverable(s)
  }

  // ----- what a caller can see -----

  /** The delegated approval of a gate whose use is still open, as the state file and the ledger show it:
      the approval record and its companion agree, and the grant holds the reservation. */
  function HeldUse(s: State, slug: string, gate: Gate): Option<Approval> {
    if slug !in s.specs then None
    else
      var a := s.specs[slug].approvals;
      if gate !in a.records || gate !in a.delegations || a.delegations[gate].revision != a.records[gate] then None
      else
        var held := Approval(a.delegations[gate].grantID, Use(slug, gate, a.records[gate]));
        if Open(s, held) then Some(held) else None
  }

  /** What keeps an open committed use provable: no new cycle drops its record, no archive takes it away,
      it is not misread, and no approval commits for a gate that was not asked for. All of it is read off
      the ledger, the state files and the transaction itself. */
  predicate Guard(s: State, l: Label) {
    match l
    case Commit =>
      s.pc.Prepared? && s.pc.use.slug in s.specs ==> s.pc.use.gate == ApprovalGateFor(s.specs[s.pc.use.slug].status)
    case ChangeSpec(slug, change) => change.ReopenSpec? ==> NothingHeld(s, slug)
    case Archive(slug) => NothingHeld(s, slug)
    case Misread(id) => s.pc.Reconciling? ==> !HeldAs(s, s.pc.grantID, id)
    case _ => true
  }

  predicate NothingHeld(s: State, slug: string) {
    forall g :: HeldUse(s, slug, g).None?
  }

  /** Some state file shows the request as an open delegated approval of the grant. */
  predicate HeldAs(s: State, grantID: string, requestID: string) {
    ParseGrantRequestID(requestID).Some? &&
    var slug := ParseGrantRequestID(requestID).value.slug;
    exists g :: HeldUse(s, slug, g).Some? && IsUse(HeldUse(s, slug, g).value, grantID, requestID)
  }

  /** What the files show is what happened: the visible open uses are the committed approvals whose use is
      open, neither more nor fewer. */
  lemma HeldIsOpenCommitted(s: State, a: Approval)
    requires Inv(s)
    ensures HeldUse(s, a.use.slug, a.use.gate) == Some(a) <==> a in s.history && Open(s, a)
  {
    var slug := a.use.slug;
    if HeldUse(s, slug, a.use.gate) == Some(a) {
      assert AttributedTo(s.specs[slug].approvals, slug, s.history);
    }
    if a in s.history && Open(s, a) {
      var i :| 0 <= i < |s.history| && s.history[i] == a;
      assert CompanionIn(s.specs[slug].approvals, a);
    }
  }

  // ----- whole runs -----

  predicate Possible(s: State, run: seq<Label>)
    decreases |run|
  {
    run == [] || (Enabled(s, run[0]) && Possible(After(s, run[0]), run[1..]))
  }

  function Final(s: State, run: seq<Label>): State
    requires Possible(s, run)
    decreases |run|
  {
    if run == [] then s else Final(After(s, run[0]), run[1..])
  }

  /** No step of the run destroys the proof of a use that is committed but not yet settled. */
  predicate Guarded(s: State, run: seq<Label>)
    requires Possible(s, run)
    decreases |run|
  {
    run == [] || (Guard(s, run[0]) && Guarded(After(s, run[0]), run[1..]))
  }
}
