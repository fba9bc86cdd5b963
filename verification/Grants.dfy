/** Scoped delegation grants: an append-only ledger, its replay, and the checks every use passes. */
module Grants {
  import opened Common
  import opened RequestIds

  /** SHA-256 over the bearer token, as an injective function. */
  datatype TokenDigest = Sha256(token: string)

  /** The transitions no grant may delegate. */
  const FORBIDDEN: seq<string> := ["archive", "complete-task", "deploy", "exception", "release", "submit", "verify"]

  datatype Assurance = Advisory | Gated | Sandboxed | OtherAssurance(text: string)

  datatype Grant = Grant(
    id: string,
    project: string,
    issuer: string,
    assurance: Assurance,
    specIDs: seq<string>,
    transitions: seq<string>,
    maxUses: int,
    issuedAt: Option<int>,
    expiresAt: Option<int>,
    configDigest: string,
    policyDigest: string,
    productionAllowed: bool,
    reasonRequired: bool,
    prohibitions: seq<string>,
    tokenDigest: TokenDigest)

  datatype EventKind = GrantIssued | GrantRevoked | UsePrepared | UseConsumed | UseReleased | UnknownKind

  datatype GrantEvent = GrantEvent(kind: EventKind, grantID: string, grant: Option<Grant>, requestID: string)

  /** The replayed state of one grant; `grant` is None until an issue event is replayed. */
  datatype Projection = Projection(grant: Option<Grant>, revoked: bool, reserved: set<string>, consumed: set<string>)
  {
    function Uses(): int { |reserved| + |consumed| }

    function Remaining(): int
      requires grant.Some?
    {
      grant.value.maxUses - Uses()
    }
  }

  datatype Request = Request(
    project: string,
    specID: string,
    transition: string,
    requestID: string,
    reason: string,
    configDigest: string,
    policyDigest: string,
    production: bool,
    token: string)

  datatype Refusal =
    | SecretInvalid | Revoked | Expired | Scope | Prohibited | PolicyStale | ReasonRequired | Replay | Exhausted
    | Disabled | UnknownGrant | AlreadyExists | InvalidGrant | Unreserved

  // ----- replay -----

  const NoGrant := Projection(None, false, {}, {})

  function Apply(p: Projection, e: GrantEvent): Projection {
    match e.kind
    case GrantIssued => if e.grant.Some? then p.(grant := e.grant) else p
    case GrantRevoked => p.(revoked := true)
    case UsePrepared => p.(reserved := p.reserved + {e.requestID})
    case UseConsumed => p.(reserved := p.reserved - {e.requestID}, consumed := p.consumed + {e.requestID})
    case UseReleased => p.(reserved := p.reserved - {e.requestID})
    case UnknownKind => p
  }

  /** The projection of one grant after a ledger. */
  function Project(events: seq<GrantEvent>, id: string): Projection {
    if events == [] then NoGrant
    else
      var before := Project(events[..|events| - 1], id);
      var e := events[|events| - 1];
      if e.grantID == id then Apply(before, e) else before
  }

  lemma ProjectAppend(events: seq<GrantEvent>, e: GrantEvent, id: string)
    ensures Project(events + [e], id) == if e.grantID == id then Apply(Project(events, id), e) else Project(events, id)
  {
  }

  /** The replay loop. */
  method ProjectGrant(events: seq<GrantEvent>, grantID: string) returns (projection: Projection, found: bool)
    ensures projection == Project(events, grantID)
    ensures found <==> projection.grant.Some?
  {
    projection, found := NoGrant, false;
    for i := 0 to |events|
      invariant projection == Project(events[..i], grantID)
      invariant found <==> projection.grant.Some?
    {
      var event := events[i];
      ProjectAppend(events[..i], event, grantID);
      assert events[..i + 1] == events[..i] + [event];
      if event.grantID != grantID {
        continue;
      }
      match event.kind {
        case GrantIssued =>
          if event.grant.Some? {
            projection, found := projection.(grant := event.grant), true;
          }
        case GrantRevoked =>
          projection := projection.(revoked := true);
        case UsePrepared =>
          projection := projection.(reserved := projection.reserved + {event.requestID});
        case UseConsumed =>
          projection := projection.(reserved := projection.reserved - {event.requestID});
          projection := projection.(consumed := projection.consumed + {event.requestID});
        case UseReleased =>
          projection := projection.(reserved := projection.reserved - {event.requestID});
        case UnknownKind =>
      }
    }
    assert events[..|events|] == events;
  }

  // ----- checks -----

  predicate IdentifierStart(c: char) {
    'A' <= c <= 'Z' || 'a' <= c <= 'z' || '0' <= c <= '9'
  }

  predicate IdentifierChar(c: char) {
    IdentifierStart(c) || c == '.' || c == '_' || c == '/' || c == '-'
  }

  predicate BoundedIdentifier(s: string) {
    1 <= |s| <= 64 && IdentifierStart(s[0]) && forall i :: 0 <= i < |s| ==> IdentifierChar(s[i])
  }

  predicate HexDigit(c: char) {
    '0' <= c <= '9' || 'a' <= c <= 'f' || 'A' <= c <= 'F'
  }

  /** Thirty-two bytes in hexadecimal. */
  predicate ValidDigest(s: string) {
    |s| == 64 && forall i :: 0 <= i < |s| ==> HexDigit(s[i])
  }

  /** What a grant must satisfy when it is issued; the digest of its token always has the right form. */
  predicate Bounded(g: Grant) {
    BoundedFields(g) && forall i :: 0 <= i < |FORBIDDEN| ==> FORBIDDEN[i] in g.prohibitions
  }

  /** Who issued the grant, for what, and under which policy. */
  predicate Identified(g: Grant) {
    && BoundedIdentifier(g.id) && !Blank(g.project) && !Blank(g.issuer) && !g.assurance.OtherAssurance?
    && ValidDigest(g.configDigest) && ValidDigest(g.policyDigest)
  }

  /** What an operator's own fields must meet. */
  predicate BoundedFields(g: Grant) {
    && Identified(g)
    && g.specIDs != [] && (forall i :: 0 <= i < |g.specIDs| ==> SlugForm(g.specIDs[i]))
    && g.transitions != [] && (forall i :: 0 <= i < |g.transitions| ==> g.transitions[i] !in FORBIDDEN)
    && g.maxUses >= 1
    && g.issuedAt.Some? && g.expiresAt.Some? && g.issuedAt.value < g.expiresAt.value
  }

  /** The refusals of a use, in the order they are tested. */
  function Authorize(p: Projection, req: Request, now: int): Option<Refusal>
    requires p.grant.Some?
  {
    var g := p.grant.value;
    if Sha256(req.token) != g.tokenDigest then Some(SecretInvalid)
    else if p.revoked then Some(Revoked)
    else if g.expiresAt.None? || !(now < g.expiresAt.value) then Some(Expired)
    else if req.project != g.project then Some(Scope)
    else if req.specID !in g.specIDs then Some(Scope)
    else if req.transition in g.prohibitions then Some(Prohibited)
    else if req.transition !in g.transitions then Some(Scope)
    else if req.production && !g.productionAllowed then Some(Scope)
    else if g.configDigest != req.configDigest || g.policyDigest != req.policyDigest then Some(PolicyStale)
    else if g.reasonRequired && Blank(req.reason) then Some(ReasonRequired)
    else if Blank(req.requestID) then Some(Scope)
    else if req.requestID in p.reserved || req.requestID in p.consumed then Some(Replay)
    else if p.Remaining() < 1 then Some(Exhausted)
    else None
  }

  // ----- ledger operations -----

  /** The grant as it is sealed: forbidden transitions stamped in, digest of the minted token. */
  function Sealed(g: Grant, token: string): Grant {
    g.(prohibitions := Stamp(g.prohibitions, FORBIDDEN), tokenDigest := Sha256(token))
  }

  function Stamp(prohibitions: seq<string>, forbidden: seq<string>): seq<string>
    decreases |forbidden|
  {
    if forbidden == [] then prohibitions
    else Stamp(if forbidden[0] in prohibitions then prohibitions else prohibitions + [forbidden[0]], forbidden[1..])
  }

  /** Stamping only adds denials, and leaves every forbidden transition denied. */
  lemma {:induction false} StampDenies(prohibitions: seq<string>, forbidden: seq<string>, t: string)
    ensures t in Stamp(prohibitions, forbidden) <==> t in prohibitions || t in forbidden
    decreases |forbidden|
  {
    if forbidden != [] {
      var added := if forbidden[0] in prohibitions then prohibitions else prohibitions + [forbidden[0]];
      StampDenies(added, forbidden[1..], t);
      assert forbidden == [forbidden[0]] + forbidden[1..];
    }
  }

  /** A sealed grant is never refused for its prohibitions. */
  lemma StampingSuffices(g: Grant, token: string)
    ensures Bounded(Sealed(g, token)) <==> BoundedFields(g)
  {
    StampCovers(g.prohibitions, FORBIDDEN);
  }

  /** Sealing denies nothing else. */
  lemma SealingDenies(g: Grant, token: string, t: string)
    ensures t in Sealed(g, token).prohibitions <==> t in g.prohibitions || t in FORBIDDEN
  {
    StampDenies(g.prohibitions, FORBIDDEN, t);
  }

  lemma StampCovers(prohibitions: seq<string>, forbidden: seq<string>)
    ensures forall i :: 0 <= i < |forbidden| ==> forbidden[i] in Stamp(prohibitions, forbidden)
  {
    forall i | 0 <= i < |forbidden| ensures forbidden[i] in Stamp(prohibitions, forbidden) {
      StampDenies(prohibitions, forbidden, forbidden[i]);
    }
  }

  method StampProhibitions(written: seq<string>, forbidden: seq<string>) returns (prohibitions: seq<string>)
    ensures prohibitions == Stamp(written, forbidden)
  {
    prohibitions := written;
    for i := 0 to |forbidden|
      invariant Stamp(prohibitions, forbidden[i..]) == Stamp(written, forbidden)
    {
      assert forbidden[i..][1..] == forbidden[i + 1..];
      if forbidden[i] !in prohibitions {
        prohibitions := prohibitions + [forbidden[i]];
      }
    }
  }

  datatype Operation =
    | Issue(enabled: bool, grant: Grant, token: string)
    | Revoke(grantID: string)
    | Reserve(enabled: bool, request: Request, grantID: string, now: int)
    | Consume(grantID: string, requestID: string)
    | Release(grantID: string, requestID: string)

  /** Which refusal an operation meets on a ledger, if any. */
  function Refuses(events: seq<GrantEvent>, op: Operation): Option<Refusal> {
    match op
    case Issue(enabled, grant, token) =>
      if !enabled then Some(Disabled)
      else if !Bounded(Sealed(grant, token)) then Some(InvalidGrant)
      else if Project(events, grant.id).grant.Some? then Some(AlreadyExists)
      else None
    case Revoke(id) =>
      if Project(events, id).grant.None? then Some(UnknownGrant) else None
    case Reserve(enabled, request, id, now) =>
      if !enabled then Some(Disabled)
      else if Project(events, id).grant.None? then Some(UnknownGrant)
      else Authorize(Project(events, id), request, now)
    case Consume(id, requestID) => RefusesClose(events, id, requestID)
    case Release(id, requestID) => RefusesClose(events, id, requestID)
  }

  function RefusesClose(events: seq<GrantEvent>, id: string, requestID: string): Option<Refusal> {
    var p := Project(events, id);
    if p.grant.None? then Some(UnknownGrant)
    else if requestID !in p.reserved then Some(Unreserved)
    else None
  }

  /** The one line an accepted operation appends. */
  function LineOf(op: Operation): GrantEvent {
    match op
    case Issue(_, grant, token) => GrantEvent(GrantIssued, grant.id, Some(Sealed(grant, token)), "")
    case Revoke(id) => GrantEvent(GrantRevoked, id, None, "")
    case Reserve(_, request, id, _) => GrantEvent(UsePrepared, id, None, request.requestID)
    case Consume(id, requestID) => GrantEvent(UseConsumed, id, None, requestID)
    case Release(id, requestID) => GrantEvent(UseReleased, id, None, requestID)
  }

  /** The ledger after an operation: one more line, or untouched when it is refused. */
  function Do(events: seq<GrantEvent>, op: Operation): seq<GrantEvent> {
    if Refuses(events, op).None? then events + [LineOf(op)] else events
  }

  /** The ledger file and the operations that append to it, each under the authority lock. */
  class GrantLedger {
    var events: seq<GrantEvent>

    constructor ()
      ensures events == []
    {
      events := [];
    }

    method IssueDelegationGrant(enabled: bool, grant: Grant, token: string) returns (r: Result<Grant, Refusal>)
      modifies this
      ensures events == Do(old(events), Issue(enabled, grant, token))
      ensures r == match Refuses(old(events), Issue(enabled, grant, token))
                   case None => Ok(Sealed(grant, token))
                   case Some(why) => Err(why)
    {
      if !enabled {
        return Err(Disabled);
      }
      var prohibitions := StampProhibitions(grant.prohibitions, FORBIDDEN);
      var minted := grant.(prohibitions := prohibitions, tokenDigest := Sha256(token));
      if !Bounded(minted) {
        return Err(InvalidGrant);
      }
      var _, found := ProjectGrant(events, minted.id);
      if found {
        return Err(AlreadyExists);
      }
      events := events + [GrantEvent(GrantIssued, minted.id, Some(minted), "")];
      return Ok(minted);
    }

    method RevokeDelegationGrant(grantID: string) returns (refusal: Option<Refusal>)
      modifies this
      ensures events == Do(old(events), Revoke(grantID))
      ensures refusal == Refuses(old(events), Revoke(grantID))
    {
      var _, found := ProjectGrant(events, grantID);
      if !found {
        return Some(UnknownGrant);
      }
      events := events + [GrantEvent(GrantRevoked, grantID, None, "")];
      return None;
    }

    method ReserveGrantUse(enabled: bool, req: Request, grantID: string, now: int) returns (refusal: Option<Refusal>)
      modifies this
      ensures events == Do(old(events), Reserve(enabled, req, grantID, now))
      ensures refusal == Refuses(old(events), Reserve(enabled, req, grantID, now))
    {
      if !enabled {
        return Some(Disabled);
      }
      var projection, found := ProjectGrant(events, grantID);
      if !found {
        return Some(UnknownGrant);
      }
      refusal := Authorize(projection, req, now);
      if refusal.None? {
        events := events + [GrantEvent(UsePrepared, grantID, None, req.requestID)];
      }
    }

    method CloseGrantUse(grantID: string, requestID: string, committed: bool) returns (refusal: Option<Refusal>)
      modifies this
      ensures events == Do(old(events), if committed then Consume(grantID, requestID) else Release(grantID, requestID))
      ensures refusal == RefusesClose(old(events), grantID, requestID)
    {
      var projection, found := ProjectGrant(events, grantID);
      if !found {
        return Some(UnknownGrant);
      }
      if requestID !in projection.reserved {
        return Some(Unreserved);
      }
      events := events + [GrantEvent(if committed then UseConsumed else UseReleased, grantID, None, requestID)];
      return None;
    }
  }

  // ----- what every reachable ledger satisfies -----

  function Run(ops: seq<Operation>): seq<GrantEvent> {
    if ops == [] then [] else Do(Run(ops[..|ops| - 1]), ops[|ops| - 1])
  }

  /** A projection that cannot overdraw its grant. */
  predicate Sound(p: Projection, id: string) {
    && p.reserved !! p.consumed
    && (p.grant.None? ==> !p.revoked && p.reserved == {} && p.consumed == {})
    && (p.grant.Some? ==> p.grant.value.id == id && Bounded(p.grant.value) && p.Uses() <= p.grant.value.maxUses)
  }

  ghost predicate SoundLedger(events: seq<GrantEvent>) {
    forall id :: Sound(Project(events, id), id)
  }

  /** What the checks of an accepted operation say about the line it appends. */
  predicate Admitted(p: Projection, e: GrantEvent) {
    match e.kind
    case GrantIssued => p.grant.None? && e.grant.Some? && e.grant.value.id == e.grantID && Bounded(e.grant.value)
    case GrantRevoked => p.grant.Some?
    case UsePrepared =>
      p.grant.Some? && !p.revoked && e.requestID !in p.reserved && e.requestID !in p.consumed && p.Remaining() >= 1
    case UseConsumed => p.grant.Some? && e.requestID in p.reserved
    case UseReleased => p.grant.Some? && e.requestID in p.reserved
    case UnknownKind => false
  }

  lemma AcceptedIsAdmitted(events: seq<GrantEvent>, op: Operation)
    requires Refuses(events, op).None?
    ensures Admitted(Project(events, LineOf(op).grantID), LineOf(op))
  {
    match op {
      case Issue(_, grant, token) =>
        assert Bounded(Sealed(grant, token));
      case Revoke(_) =>
      case Reserve(_, request, id, now) =>
        assert Authorize(Project(events, id), request, now).None?;
      case Consume(_, _) =>
      case Release(_, _) =>
    }
  }

  lemma AdmittedKeepsSound(p: Projection, e: GrantEvent)
    requires Sound(p, e.grantID) && Admitted(p, e)
    ensures Sound(Apply(p, e), e.grantID)
  {
  }

  lemma DoKeepsSound(events: seq<GrantEvent>, op: Operation)
    requires SoundLedger(events)
    ensures SoundLedger(Do(events, op))
  {
    if Refuses(events, op).None? {
      var line := LineOf(op);
      AcceptedIsAdmitted(events, op);
      forall id ensures Sound(Project(events + [line], id), id) {
        ProjectAppend(events, line, id);
        assert Sound(Project(events, id), id);
        if line.grantID == id {
          AdmittedKeepsSound(Project(events, id), line);
        }
      }
    }
  }

  /** No sequence of operations, refused or accepted, can overdraw any grant. */
  lemma {:induction false} EveryLedgerIsSound(ops: seq<Operation>)
    ensures SoundLedger(Run(ops))
  {
    if ops != [] {
      EveryLedgerIsSound(ops[..|ops| - 1]);
      DoKeepsSound(Run(ops[..|ops| - 1]), ops[|ops| - 1]);
    }
  }

  /** How many lines of one kind a ledger holds for one use of one grant. */
  function Count(events: seq<GrantEvent>, kind: EventKind, id: string, requestID: string): nat {
    if events == [] then 0
    else
      var e := events[|events| - 1];
      Count(events[..|events| - 1], kind, id, requestID)
      + if e.kind == kind && e.grantID == id && e.requestID == requestID then 1 else 0
  }

  /** The books of one request under one grant. */
  predicate Balanced(events: seq<GrantEvent>, id: string, requestID: string) {
    var p := Project(events, id);
    && Count(events, UseConsumed, id, requestID) == (if requestID in p.consumed then 1 else 0)
    && Count(events, UsePrepared, id, requestID)
       == Count(events, UseConsumed, id, requestID) + Count(events, UseReleased, id, requestID)
          + (if requestID in p.reserved then 1 else 0)
  }

  lemma DoKeepsBalance(events: seq<GrantEvent>, op: Operation, id: string, requestID: string)
    requires SoundLedger(events) && Balanced(events, id, requestID)
    ensures Balanced(Do(events, op), id, requestID)
  {
    if Refuses(events, op).None? {
      AcceptedIsAdmitted(events, op);
      assert Sound(Project(events, id), id);
      AdmittedKeepsBalance(events, LineOf(op), id, requestID);
    }
  }

  lemma AdmittedKeepsBalance(events: seq<GrantEvent>, line: GrantEvent, id: string, requestID: string)
    requires Sound(Project(events, id), id) && Balanced(events, id, requestID)
    requires Admitted(Project(events, line.grantID), line)
    ensures Balanced(events + [line], id, requestID)
  {
  }

  /** One request is consumed at most once, and every preparation is accounted for:
      it is still open, or it was consumed, or it was released. */
  lemma {:induction false} UsesAreConserved(ops: seq<Operation>, id: string, requestID: string)
    ensures Balanced(Run(ops), id, requestID)
  {
    if ops != [] {
      var before := ops[..|ops| - 1];
      UsesAreConserved(before, id, requestID);
      EveryLedgerIsSound(before);
      DoKeepsBalance(Run(before), ops[|ops| - 1], id, requestID);
    }
  }

  /** `q` follows a revoked `p`: the grant is the same and no use was added. */
  predicate Frozen(p: Projection, q: Projection) {
    && q.revoked && q.grant == p.grant
    && q.reserved + q.consumed <= p.reserved + p.consumed
    && p.consumed <= q.consumed
  }

  /** On a revoked grant the ledger accepts only closes of open uses and further revocations. */
  lemma RevokedAcceptsOnlyCloses(events: seq<GrantEvent>, op: Operation, line: GrantEvent, q: Projection)
    requires Refuses(events, op).None? && line == LineOf(op)
    requires q == Project(events, line.grantID) && q.grant.Some? && q.revoked
    ensures line.kind == GrantRevoked
         || ((line.kind == UseConsumed || line.kind == UseReleased) && line.requestID in q.reserved)
  {
  }

  lemma DoAfterRevocation(events: seq<GrantEvent>, op: Operation, p: Projection, id: string)
    requires p.grant.Some? && Frozen(p, Project(events, id))
    ensures Frozen(p, Project(Do(events, op), id))
  {
    if Refuses(events, op).None? {
      var line := LineOf(op);
      ProjectAppend(events, line, id);
      if line.grantID == id {
        RevokedAcceptsOnlyCloses(events, op, line, Project(events, id));
      }
    }
  }

  /** Revocation is final: whatever happens afterwards, the uses spent or open never grow,
      the grant itself never changes, and nothing already consumed is taken back. */
  lemma {:induction false} RevocationFreezesUses(ops: seq<Operation>, later: seq<Operation>, id: string)
    requires Project(Run(ops), id).revoked
    ensures Frozen(Project(Run(ops), id), Project(Run(ops + later), id))
    decreases |later|
  {
    if later == [] {
      assert ops + later == ops;
    } else {
      var prefix, op := later[..|later| - 1], later[|later| - 1];
      RevocationFreezesUses(ops, prefix, id);
      RevokedWasIssued(ops, id);
      SplitLast(ops, later);
      StaysFrozen(ops + prefix, op, Project(Run(ops), id), id);
    }
  }

  lemma SplitLast(ops: seq<Operation>, later: seq<Operation>)
    requires later != []
    ensures ops + later == ops + later[..|later| - 1] + [later[|later| - 1]]
  {
  }

  lemma StaysFrozen(ops: seq<Operation>, op: Operation, p: Projection, id: string)
    requires p.grant.Some? && Frozen(p, Project(Run(ops), id))
    ensures Frozen(p, Project(Run(ops + [op]), id))
  {
    RunOneMore(ops, op);
    DoAfterRevocation(Run(ops), op, p, id);
  }

  lemma {:induction false} RevokedWasIssued(ops: seq<Operation>, id: string)
    requires Project(Run(ops), id).revoked
    ensures Project(Run(ops), id).grant.Some?
  {
    EveryLedgerIsSound(ops);
    assert Sound(Project(Run(ops), id), id);
  }

  lemma RunOneMore(ops: seq<Operation>, op: Operation)
    ensures Run(ops + [op]) == Do(Run(ops), op)
  {
  }

  /** What a bounded grant names is a slug and delegable. */
  lemma NamesAreBounded(g: Grant, specID: string, transition: string)
    requires BoundedFields(g) && specID in g.specIDs && transition in g.transitions
    ensures SlugForm(specID) && transition !in FORBIDDEN
  {
    var i :| 0 <= i < |g.transitions| && g.transitions[i] == transition;
    var j :| 0 <= j < |g.specIDs| && g.specIDs[j] == specID;
  }

  lemma IssuedIsBounded(ops: seq<Operation>, id: string)
    requires Project(Run(ops), id).grant.Some?
    ensures BoundedFields(Project(Run(ops), id).grant.value)
  {
    EveryLedgerIsSound(ops);
    assert Sound(Project(Run(ops), id), id);
  }

  /** Whatever an operator writes into a grant, no reachable ledger authorizes a forbidden transition,
      and an accepted use stays inside the scope its grant was issued with. */
  lemma AcceptedUsesStayInScope(ops: seq<Operation>, id: string, req: Request, now: int)
    requires Project(Run(ops), id).grant.Some?
    requires Authorize(Project(Run(ops), id), req, now).None?
    ensures var g := Project(Run(ops), id).grant.value;
            && req.transition !in FORBIDDEN && req.transition in g.transitions
            && req.specID in g.specIDs && SlugForm(req.specID) && req.project == g.project
            && g.expiresAt.Some? && now < g.expiresAt.value
  {
    IssuedIsBounded(ops, id);
    NamesAreBounded(Project(Run(ops), id).grant.value, req.specID, req.transition);
  }
}
