/** When the grant ledger accepts an operation, said of what the operator wrote, what the caller asks and
    the lines of the ledger, without the checks themselves. */
module GrantChecks {
  import opened Common
  import opened RequestIds
  import opened Grants

  // ----- reading a ledger -----

  /** Of the events of a grant from `i` on, none is of these kinds for this request. */
  predicate NoneFrom(events: seq<GrantEvent>, i: nat, id: string, requestID: string, kinds: set<EventKind>) {
    forall j :: i <= j < |events| ==> !(events[j].grantID == id && events[j].requestID == requestID && events[j].kind in kinds)
  }

  predicate Issues(e: GrantEvent, id: string) {
    e.kind == GrantIssued && e.grantID == id && e.grant.Some?
  }

  predicate NoIssueFrom(events: seq<GrantEvent>, i: nat, id: string) {
    forall j :: i <= j < |events| ==> !Issues(events[j], id)
  }

  const CLOSING := {UseConsumed, UseReleased}

  /** What any ledger says of a grant, whether or not operations could have written it: it is the one last
      issued. */
  lemma {:induction false} LastIssueTells(events: seq<GrantEvent>, id: string, i: nat)
    requires i < |events| && Issues(events[i], id) && NoIssueFrom(events, i + 1, id)
    ensures Project(events, id).grant == events[i].grant
  {
    var front, n := events[..|events| - 1], |events| - 1;
    if i < n {
      LastIssueTells(front, id, i);
    }
  }

  lemma {:induction false} NoIssueTells(events: seq<GrantEvent>, id: string)
    requires NoIssueFrom(events, 0, id)
    ensures Project(events, id).grant.None?
  {
    if events != [] {
      NoIssueTells(events[..|events| - 1], id);
    }
  }

  /** It is revoked if it ever was. */
  lemma {:induction false} RevocationTells(events: seq<GrantEvent>, id: string)
    ensures Project(events, id).revoked <==> exists e :: e in events && e.kind == GrantRevoked && e.grantID == id
  {
    if events != [] {
      var front, last := events[..|events| - 1], events[|events| - 1];
      assert events == front + [last];
      RevocationTells(front, id);
    }
  }

  /** And a use is reserved if nothing closed it since it was last prepared, and consumed if it ever
      was. */
  lemma {:induction false} UseTells(events: seq<GrantEvent>, id: string, requestID: string)
    ensures var p := Project(events, id);
            && (requestID in p.consumed <==> !NoneFrom(events, 0, id, requestID, {UseConsumed}))
            && (requestID in p.reserved <==>
                  exists i :: 0 <= i < |events| && events[i].kind == UsePrepared && events[i].grantID == id
                              && events[i].requestID == requestID && NoneFrom(events, i, id, requestID, CLOSING))
  {
    if events != [] {
      var front, last := events[..|events| - 1], events[|events| - 1];
      assert events == front + [last];
      UseTells(front, id, requestID);
    }
  }

  // ----- issuing -----

  predicate Alphanumeric(c: char) {
    'A' <= c <= 'Z' || 'a' <= c <= 'z' || '0' <= c <= '9'
  }

  predicate Hexadecimal(c: char) {
    '0' <= c <= '9' || 'a' <= c <= 'f' || 'A' <= c <= 'F'
  }

  /** What an operator may write into a grant, field by field. */
  predicate MayBeIssued(w: Grant) {
    && 1 <= |w.id| <= 64
    && (forall i :: 0 <= i < |w.id| ==> Alphanumeric(w.id[i]) || (i > 0 && w.id[i] in {'.', '_', '/', '-'}))
    && !Blank(w.project) && !Blank(w.issuer) && w.assurance in {Advisory, Gated, Sandboxed}
    && |w.configDigest| == 64 && (forall i :: 0 <= i < 64 ==> Hexadecimal(w.configDigest[i]))
    && |w.policyDigest| == 64 && (forall i :: 0 <= i < 64 ==> Hexadecimal(w.policyDigest[i]))
    && w.specIDs != [] && (forall slug :: slug in w.specIDs ==> SlugForm(slug))
    && w.transitions != [] && (forall t :: t in w.transitions ==> t !in ["archive", "complete-task", "deploy",
                                                                       "exception", "release", "submit", "verify"])
    && w.maxUses > 0
    && w.issuedAt.Some? && w.expiresAt.Some? && w.issuedAt.value < w.expiresAt.value
  }

  lemma BoundedExactlyWhen(w: Grant)
    ensures BoundedFields(w) <==> MayBeIssued(w)
  {
    assert BoundedIdentifier(w.id) ==> forall i :: 0 <= i < |w.id| ==> IdentifierChar(w.id[i]);
    assert ValidDigest(w.configDigest) && ValidDigest(w.policyDigest) ==>
        forall i :: 0 <= i < 64 ==> HexDigit(w.configDigest[i]) && HexDigit(w.policyDigest[i]);
  }

  /** A grant is issued if and only if the feature is on, its fields are in form, and its id is new; what
      is written is what the operator wrote, sealed under the token. */
  lemma IssuedExactlyWhen(ledger: seq<GrantEvent>, enabled: bool, w: Grant, token: string)
    ensures Do(ledger, Issue(enabled, w, token)) ==
            if enabled && MayBeIssued(w) && Project(ledger, w.id).grant.None?
            then ledger + [GrantEvent(GrantIssued, w.id, Some(Sealed(w, token)), "")]
            else ledger
  {
    BoundedExactlyWhen(w);
    StampingSuffices(w, token);
  }

  // ----- what a history of operations says of one grant -----

  predicate Issuable(op: Operation, id: string) {
    op.Issue? && op.grant.id == id && op.enabled && MayBeIssued(op.grant)
  }

  function CanIssue(id: string): Operation -> bool {
    op => Issuable(op, id)
  }

  /** The grant an operation writes when it issues one. */
  function Writes(): Operation -> Option<Grant> {
    (op: Operation) => if op.Issue? then Some(Sealed(op.grant, op.token)) else None
  }

  /** The operation that issued a grant: the first issue of its id that was in form while the feature was
      on. */
  ghost predicate IssuedBy(ops: seq<Operation>, k: nat, id: string) {
    IsFirst(CanIssue(id), ops, k)
  }

  predicate IsFirst(can: Operation -> bool, ops: seq<Operation>, k: nat) {
    k < |ops| && can(ops[k]) && forall j :: 0 <= j < k ==> !can(ops[j])
  }

  predicate RevokedAfter(ops: seq<Operation>, k: nat, id: string) {
    exists j :: k < j < |ops| && ops[j] == Revoke(id)
  }

  /** How one operation moves a grant on the ledger, given which operations can issue it and as what. */
  predicate Moves(can: Operation -> bool, write: Operation -> Option<Grant>, p: Projection, q: Projection,
                  op: Operation, id: string) {
    if p.grant.Some? then q.grant == p.grant && (q.revoked <==> p.revoked || op == Revoke(id))
    else q.grant == (if can(op) then write(op) else None) && q.revoked == p.revoked
  }

  lemma GrantOneMore(ledger: seq<GrantEvent>, op: Operation, id: string)
    ensures Moves(CanIssue(id), Writes(), Project(ledger, id), Project(Do(ledger, op), id), op, id)
  {
    if op.Issue? {
      IssuedExactlyWhen(ledger, op.enabled, op.grant, op.token);
      ProjectAppend(ledger, GrantEvent(GrantIssued, op.grant.id, Some(Sealed(op.grant, op.token)), ""), id);
    } else {
      OthersKeepGrant(ledger, op, id);
    }
  }

  lemma OthersKeepGrant(ledger: seq<GrantEvent>, op: Operation, id: string)
    requires !op.Issue?
    ensures var p, q := Project(ledger, id), Project(Do(ledger, op), id);
            q.grant == p.grant && (q.revoked <==> p.revoked || (p.grant.Some? && op == Revoke(id)))
  {
    if Refuses(ledger, op).None? {
      ProjectAppend(ledger, LineOf(op), id);
    }
  }

  /** What a history says of one grant: nothing before it is issued, and from then on the grant as written,
      revoked if and only if an operator revoked it since. */
  ghost predicate Told(can: Operation -> bool, write: Operation -> Option<Grant>, ops: seq<Operation>, p: Projection,
                       id: string) {
    && (forall k: nat :: IsFirst(can, ops, k) ==> p.grant == write(ops[k]) && (p.revoked <==> RevokedAfter(ops, k, id)))
    && ((forall k: nat :: !IsFirst(can, ops, k)) ==> p.grant == None && !p.revoked)
  }

  /** Whatever moves like that from nothing is told by its history. */
  lemma {:induction false} MovesTell(can: Operation -> bool, write: Operation -> Option<Grant>,
                                     replay: seq<Operation> -> Projection, ops: seq<Operation>, id: string)
    requires forall op :: can(op) ==> write(op).Some?
    requires replay([]) == NoGrant
    requires forall front, last :: Moves(can, write, replay(front), replay(front + [last]), last, id)
    ensures Told(can, write, ops, replay(ops), id)
  {
    if ops != [] {
      var front, last := ops[..|ops| - 1], ops[|ops| - 1];
      MovesTell(can, write, replay, front, id);
      assert ops == front + [last];
      ToldOneMore(can, write, front, last, replay(front), replay(front + [last]), id);
    }
  }

  function Replayed(id: string): seq<Operation> -> Projection {
    ops => Project(Run(ops), id)
  }

  lemma HistoryMoves(id: string)
    ensures forall front, last ::
        Moves(CanIssue(id), Writes(), Replayed(id)(front), Replayed(id)(front + [last]), last, id)
  {
    forall front, last ensures Moves(CanIssue(id), Writes(), Replayed(id)(front), Replayed(id)(front + [last]), last, id) {
      RunOneMore(front, last);
      GrantOneMore(Run(front), last, id);
    }
  }

  lemma HistoryTells(ops: seq<Operation>, id: string)
    ensures Told(CanIssue(id), Writes(), ops, Replayed(id)(ops), id)
  {
    HistoryMoves(id);
    CanWrite(id);
    MovesTell(CanIssue(id), Writes(), Replayed(id), ops, id);
  }

  lemma CanWrite(id: string)
    ensures forall op :: CanIssue(id)(op) ==> Writes()(op).Some?
    ensures Replayed(id)([]) == NoGrant
  {
  }

  lemma ToldOneMore(can: Operation -> bool, write: Operation -> Option<Grant>, front: seq<Operation>, last: Operation,
                    p: Projection, q: Projection, id: string)
    requires Told(can, write, front, p, id) && Moves(can, write, p, q, last, id)
    requires forall op :: can(op) ==> write(op).Some?
    ensures Told(can, write, front + [last], q, id)
  {
    var ops := front + [last];
    forall k: nat | k < |front| ensures IsFirst(can, ops, k) <==> IsFirst(can, front, k) {
      assert ops[k] == front[k];
      assert forall j :: 0 <= j < k ==> ops[j] == front[j];
    }
    forall k: nat | k < |front| ensures RevokedAfter(ops, k, id) <==> RevokedAfter(front, k, id) || last == Revoke(id) {
      RevokedOneMore(front, last, k, id);
    }
    LastIsFirst(can, front, last);
    assert !RevokedAfter(ops, |front|, id);
  }

  /** The last of a list is the first that can exactly if it can and none before it is. */
  lemma LastIsFirst(can: Operation -> bool, front: seq<Operation>, last: Operation)
    ensures IsFirst(can, front + [last], |front|) <==> can(last) && forall k: nat :: !IsFirst(can, front, k)
  {
    var ops := front + [last];
    assert forall j :: 0 <= j < |front| ==> ops[j] == front[j];
    assert ops[|front|] == last;
    if j: nat :| j < |front| && can(front[j]) {
      var k := FirstOf(can, front, j);
    }
  }

  lemma {:induction false} FirstOf(can: Operation -> bool, ops: seq<Operation>, j: nat) returns (k: nat)
    requires j < |ops| && can(ops[j])
    ensures IsFirst(can, ops, k)
    decreases j
  {
    if i: nat :| i < j && can(ops[i]) {
      k := FirstOf(can, ops, i);
    } else {
      k := j;
    }
  }

  lemma RevokedOneMore(front: seq<Operation>, last: Operation, k: nat, id: string)
    requires k < |front|
    ensures RevokedAfter(front + [last], k, id) <==> RevokedAfter(front, k, id) || last == Revoke(id)
  {
    var ops := front + [last];
    if RevokedAfter(front, k, id) {
      var j :| k < j < |front| && front[j] == Revoke(id);
      assert ops[j] == Revoke(id);
    }
    assert ops[|front|] == last;
  }

  // ----- uses, counted on the ledger -----

  /** A request holds a use while it was prepared more often than released. */
  predicate Holds(ledger: seq<GrantEvent>, id: string, requestID: string) {
    Count(ledger, UsePrepared, id, requestID) > Count(ledger, UseReleased, id, requestID)
  }

  function Holders(ledger: seq<GrantEvent>, id: string): set<string> {
    set e | e in ledger && e.grantID == id && Holds(ledger, id, e.requestID) :: e.requestID
  }

  lemma {:induction false} CountedIsThere(ledger: seq<GrantEvent>, kind: EventKind, id: string, requestID: string)
    requires Count(ledger, kind, id, requestID) > 0
    ensures exists e :: e in ledger && e.grantID == id && e.requestID == requestID
  {
    var last := ledger[|ledger| - 1];
    if last.kind == kind && last.grantID == id && last.requestID == requestID {
      assert last in ledger;
    } else {
      CountedIsThere(ledger[..|ledger| - 1], kind, id, requestID);
    }
  }

  lemma HoldsMeans(ops: seq<Operation>, id: string, requestID: string)
    ensures var p := Project(Run(ops), id);
            Holds(Run(ops), id, requestID) <==> requestID in p.reserved || requestID in p.consumed
  {
    UsesAreConserved(ops, id, requestID);
  }

  lemma HoldersAre(ops: seq<Operation>, id: string)
    ensures var p := Project(Run(ops), id);
            Holders(Run(ops), id) == p.reserved + p.consumed && |Holders(Run(ops), id)| == p.Uses()
  {
    var ledger, p := Run(ops), Project(Run(ops), id);
    forall r ensures r in Holders(ledger, id) <==> r in p.reserved + p.consumed {
      HoldsMeans(ops, id, r);
      if Holds(ledger, id, r) {
        CountedIsThere(ledger, UsePrepared, id, r);
      }
    }
    EveryLedgerIsSound(ops);
    assert Sound(p, id);
    DisjointSum(p.reserved, p.consumed);
  }

  lemma DisjointSum(a: set<string>, b: set<string>)
    requires a !! b
    ensures |a + b| == |a| + |b|
  {
  }

  // ----- reserving -----

  /** What a grant, as written or as sealed, lets a caller ask for at a time. */
  predicate Permits(g: Grant, req: Request, now: int) {
    && g.expiresAt.Some? && now < g.expiresAt.value
    && req.project == g.project && req.specID in g.specIDs
    && req.transition in g.transitions && req.transition !in g.prohibitions
    && (req.production ==> g.productionAllowed)
    && req.configDigest == g.configDigest && req.policyDigest == g.policyDigest
    && (g.reasonRequired ==> !Blank(req.reason))
    && !Blank(req.requestID)
  }

  /** What has to hold of a replayed grant for a use of it to be reserved. */
  predicate Reservable(p: Projection, enabled: bool, req: Request, now: int) {
    && enabled && p.grant.Some? && Sha256(req.token) == p.grant.value.tokenDigest && !p.revoked
    && Permits(p.grant.value, req, now)
    && req.requestID !in p.reserved + p.consumed
    && |p.reserved| + |p.consumed| < p.grant.value.maxUses
  }

  /** What a refusal to reserve tells. */
  predicate RefusedAs(p: Projection, enabled: bool, req: Request, now: int, r: Option<Refusal>) {
    && (r == Some(Disabled) <==> !enabled)
    && (r == Some(UnknownGrant) <==> enabled && p.grant.None?)
    && (enabled && p.grant.Some? ==> InOrder(p, req, now, r))
  }

  /** On a ledger read as `p`, a use is reserved if and only if all of that holds, and a refusal tells what
      failed first. */
  lemma ReservesExactlyWhen(ledger: seq<GrantEvent>, enabled: bool, req: Request, id: string, now: int)
    ensures var p, r := Project(ledger, id), Refuses(ledger, Reserve(enabled, req, id, now));
            && (r.None? <==> Reservable(p, enabled, req, now))
            && RefusedAs(p, enabled, req, now, r)
  {
    FirstOfAll(ledger, enabled, req, id, now);
    if Project(ledger, id).grant.Some? {
      AuthorizedExactlyWhen(Project(ledger, id), req, now);
      ChecksComeInOrder(Project(ledger, id), req, now);
    }
  }

  /** Acceptance on a replayed grant. */
  lemma AuthorizedExactlyWhen(p: Projection, req: Request, now: int)
    requires p.grant.Some?
    ensures Authorize(p, req, now).None? <==>
            && Sha256(req.token) == p.grant.value.tokenDigest && !p.revoked
            && Permits(p.grant.value, req, now)
            && req.requestID !in p.reserved + p.consumed
            && |p.reserved| + |p.consumed| < p.grant.value.maxUses
  {
  }

  /** Main result: on any ledger there can be, a use is reserved if and only if the feature is on, the
      caller holds the very token the grant was issued with, nobody revoked the grant since, what is asked
      is what the operator wrote, the request holds no use, and fewer requests do than the operator
      allowed. */
  lemma ReservedExactlyWhen(ops: seq<Operation>, k: nat, enabled: bool, req: Request, id: string, now: int)
    requires IssuedBy(ops, k, id)
    ensures var ledger, w := Run(ops), ops[k].grant;
            Do(ledger, Reserve(enabled, req, id, now)) ==
            if && enabled && req.token == ops[k].token && !RevokedAfter(ops, k, id) && Permits(w, req, now)
               && !Holds(ledger, id, req.requestID) && |Holders(ledger, id)| < w.maxUses
            then ledger + [GrantEvent(UsePrepared, id, None, req.requestID)]
            else ledger
  {
    var p := Project(Run(ops), id);
    IssuedReads(ops, k, id);
    HoldsMeans(ops, id, req.requestID);
    HoldersAre(ops, id);
    IssuedIsBounded(ops, id);
    AuthorizedAsWritten(p, ops[k].grant, ops[k].token, req, now);
    TakenWhenAuthorized(Run(ops), enabled, req, id, now);
  }

  /** The grant a reachable ledger holds is the one its issue wrote. */
  lemma IssuedReads(ops: seq<Operation>, k: nat, id: string)
    requires IssuedBy(ops, k, id)
    ensures var p := Project(Run(ops), id);
            p.grant == Some(Sealed(ops[k].grant, ops[k].token)) && (p.revoked <==> RevokedAfter(ops, k, id))
  {
    HistoryTells(ops, id);
  }

  lemma TakenWhenAuthorized(ledger: seq<GrantEvent>, enabled: bool, req: Request, id: string, now: int)
    requires Project(ledger, id).grant.Some?
    ensures Do(ledger, Reserve(enabled, req, id, now)) ==
            if enabled && Authorize(Project(ledger, id), req, now).None?
            then ledger + [GrantEvent(UsePrepared, id, None, req.requestID)] else ledger
  {
  }

  lemma AuthorizedAsWritten(p: Projection, w: Grant, token: string, req: Request, now: int)
    requires p.grant == Some(Sealed(w, token)) && BoundedFields(Sealed(w, token))
    ensures Authorize(p, req, now).None? <==>
            && req.token == token && !p.revoked && Permits(w, req, now)
            && req.requestID !in p.reserved + p.consumed && p.Uses() < w.maxUses
  {
    AuthorizedExactlyWhen(p, req, now);
    SealingPermits(w, token, req, now);
  }

  /** The transitions a grant lists are none of the forbidden ones, so stamping those takes nothing away. */
  lemma SealingPermits(w: Grant, token: string, req: Request, now: int)
    requires BoundedFields(Sealed(w, token))
    ensures Permits(Sealed(w, token), req, now) <==> Permits(w, req, now)
  {
    SealingDenies(w, token, req.transition);
    if req.transition in w.transitions {
      var i :| 0 <= i < |w.transitions| && w.transitions[i] == req.transition;
      assert Sealed(w, token).transitions[i] !in FORBIDDEN;
    }
  }

  /** No operation of a history issued the grant. */
  predicate Nobody(can: Operation -> bool, ops: seq<Operation>) {
    forall op :: op in ops ==> !can(op)
  }

  /** On an id nobody issued nothing is reserved. */
  lemma UnissuedReservesNothing(ops: seq<Operation>, enabled: bool, req: Request, id: string, now: int)
    requires Nobody(CanIssue(id), ops)
    ensures Do(Run(ops), Reserve(enabled, req, id, now)) == Run(ops)
  {
    UnissuedIsUnknown(ops, id);
    UnknownTakesNothing(Run(ops), Reserve(enabled, req, id, now), id);
  }

  lemma UnissuedIsUnknown(ops: seq<Operation>, id: string)
    ensures Project(Run(ops), id).grant.None? <==> Nobody(CanIssue(id), ops)
  {
    HistoryMoves(id);
    CanWrite(id);
    NobodyMovesNothing(CanIssue(id), Writes(), Replayed(id), ops, id);
  }

  lemma {:induction false} NobodyMovesNothing(can: Operation -> bool, write: Operation -> Option<Grant>,
                                              replay: seq<Operation> -> Projection, ops: seq<Operation>, id: string)
    requires forall op :: can(op) ==> write(op).Some?
    requires replay([]) == NoGrant
    requires forall front, last :: Moves(can, write, replay(front), replay(front + [last]), last, id)
    ensures replay(ops).grant.None? <==> Nobody(can, ops)
  {
    if ops != [] {
      var front, last := ops[..|ops| - 1], ops[|ops| - 1];
      NobodyMovesNothing(can, write, replay, front, id);
      assert ops == front + [last];
    }
  }

  lemma UnknownTakesNothing(ledger: seq<GrantEvent>, op: Operation, id: string)
    requires op == Revoke(id) || (op.Reserve? && op.grantID == id)
    requires Project(ledger, id).grant.None?
    ensures Do(ledger, op) == ledger
  {
  }

  // ----- which refusal comes first -----

  /** What is asked lies in the scope of the grant, its prohibitions aside. */
  predicate Listed(g: Grant, req: Request) {
    req.project == g.project && req.specID in g.specIDs
  }

  /** Every refusal, with all that had to hold before it was reached: a caller without the token learns
      nothing else about a grant, and a spent or stale one is told so only in scope. */
  predicate InOrder(p: Projection, req: Request, now: int, r: Option<Refusal>)
    requires p.grant.Some?
  {
    var g := p.grant.value;
    var known := Sha256(req.token) == g.tokenDigest;
    var live := known && !p.revoked && g.expiresAt.Some? && now < g.expiresAt.value;
    var listed := live && Listed(g, req) && req.transition !in g.prohibitions;
    var covered := listed && req.transition in g.transitions && (req.production ==> g.productionAllowed);
    var current := covered && g.configDigest == req.configDigest && g.policyDigest == req.policyDigest;
    var reasoned := current && (g.reasonRequired ==> !Blank(req.reason));
    var unused := reasoned && !Blank(req.requestID) && req.requestID !in p.reserved + p.consumed;
    && (r == Some(SecretInvalid) <==> !known)
    && (r == Some(Revoked) <==> known && p.revoked)
    && (r == Some(Expired) <==> known && !p.revoked && !live)
    && (r == Some(Prohibited) <==> live && Listed(g, req) && req.transition in g.prohibitions)
    && (r == Some(PolicyStale) <==> covered && !current)
    && (r == Some(ReasonRequired) <==> current && !reasoned)
    && (r == Some(Replay) <==> reasoned && !Blank(req.requestID) && !unused)
    && (r == Some(Exhausted) <==> unused && |p.reserved| + |p.consumed| >= g.maxUses)
    && (r == Some(Scope) <==>
          || (live && !Listed(g, req)) || (listed && !covered) || (reasoned && Blank(req.requestID)))
    && (r == None <==> unused && |p.reserved| + |p.consumed| < g.maxUses)
  }

  lemma ChecksComeInOrder(p: Projection, req: Request, now: int)
    requires p.grant.Some?
    ensures InOrder(p, req, now, Authorize(p, req, now))
  {
  }

  /** A feature that is off is told first, a grant nobody issued next, and then the checks in their order. */
  lemma RefusalsComeInOrder(ops: seq<Operation>, enabled: bool, req: Request, id: string, now: int)
    ensures var p, r := Project(Run(ops), id), Refuses(Run(ops), Reserve(enabled, req, id, now));
            && (r == Some(Disabled) <==> !enabled)
            && (r == Some(UnknownGrant) <==> enabled && Nobody(CanIssue(id), ops))
            && (enabled && !Nobody(CanIssue(id), ops) ==> p.grant.Some? && InOrder(p, req, now, r))
  {
    UnissuedIsUnknown(ops, id);
    ReservesExactlyWhen(Run(ops), enabled, req, id, now);
  }

  lemma FirstOfAll(ledger: seq<GrantEvent>, enabled: bool, req: Request, id: string, now: int)
    ensures var p, r := Project(ledger, id), Refuses(ledger, Reserve(enabled, req, id, now));
            && (r == Some(Disabled) <==> !enabled)
            && (r == Some(UnknownGrant) <==> enabled && p.grant.None?)
            && (enabled && p.grant.Some? ==> r == Authorize(p, req, now))
  {
  }

  // ----- closing -----

  /** A use is consumed or released if and only if its request was prepared more often than it was
      consumed and released together. */
  lemma ClosedExactlyWhen(ops: seq<Operation>, id: string, requestID: string, consume: bool)
    ensures var ledger := Run(ops);
            var op := if consume then Consume(id, requestID) else Release(id, requestID);
            var open := Count(ledger, UsePrepared, id, requestID)
                        > Count(ledger, UseConsumed, id, requestID) + Count(ledger, UseReleased, id, requestID);
            Do(ledger, op) == if open
                              then ledger + [GrantEvent(if consume then UseConsumed else UseReleased, id, None, requestID)]
                              else ledger
  {
    UsesAreConserved(ops, id, requestID);
    EveryLedgerIsSound(ops);
    assert Sound(Project(Run(ops), id), id);
    OpenMeansReserved(Run(ops), id, requestID);
  }

  lemma OpenMeansReserved(ledger: seq<GrantEvent>, id: string, requestID: string)
    requires Balanced(ledger, id, requestID) && Sound(Project(ledger, id), id)
    ensures var p := Project(ledger, id);
            requestID in p.reserved <==>
            Count(ledger, UsePrepared, id, requestID)
            > Count(ledger, UseConsumed, id, requestID) + Count(ledger, UseReleased, id, requestID)
    ensures RefusesClose(ledger, id, requestID).None? <==> requestID in Project(ledger, id).reserved
  {
  }

  /** A revocation is taken exactly for a grant that was issued. */
  lemma RevokedExactlyWhen(ops: seq<Operation>, id: string)
    ensures Do(Run(ops), Revoke(id)) != Run(ops) <==> !Nobody(CanIssue(id), ops)
  {
    UnissuedIsUnknown(ops, id);
    RevokeIsTaken(Run(ops), id);
  }

  lemma RevokeIsTaken(ledger: seq<GrantEvent>, id: string)
    ensures Do(ledger, Revoke(id)) != ledger <==> Project(ledger, id).grant.Some?
  {
  }
}
