/** Tasks made stale by a reopen of a task they depend on, replayed from the workflow ledger, and the
    resolutions that clear them. */
module Descendants {
  import opened Common
  import opened StringOrder
  import opened Criteria

  datatype Entity = TaskEntity(id: string) | CriterionEntity(criterion: string, to: string) | OtherEntity(text: string)

  /** What the replay reads off an event's entity kind and transition. */
  datatype Act = ReopenTask | Resolve(resolution: string) | OtherAct

  datatype Event = Event(act: Act, entityID: string, before: int, after: int, expected: int, resulting: int,
                         impacted: seq<Entity>)

  datatype Stale = Stale(taskID: string, parent: string, since: int, resolution: string, resolvedRevision: int,
                         successor: string, resolutions: nat, choices: bool)
  {
    predicate Unresolved() { resolution == "" }
  }

  type Index = map<string, Stale>

  // ----- replay -----

  function Descendants(event: Event): seq<string> {
    Listed(event.impacted, event.entityID)
  }

  function Listed(impacted: seq<Entity>, self: string): (r: seq<string>)
    ensures forall id :: id in r <==> TaskEntity(id) in impacted && id != self
  {
    if impacted == [] then []
    else
      var n := |impacted| - 1;
      assert impacted == impacted[..n] + [impacted[n]];
      Listed(impacted[..n], self)
      + (if impacted[n].TaskEntity? && impacted[n].id != self then [impacted[n].id] else [])
  }

  function CountOf(index: Index, id: string): nat {
    if id in index then index[id].resolutions else 0
  }

  function MarkStale(index: Index, ids: seq<string>, parent: string, revision: int): Index {
    if ids == [] then index
    else
      var n := |ids| - 1;
      var rest := MarkStale(index, ids[..n], parent, revision);
      rest[ids[n] := Stale(ids[n], parent, revision, "", 0, "", CountOf(rest, ids[n]), true)]
  }

  function SelfReopened(index: Index, id: string, revision: int): Index {
    if id in index && index[id].Unresolved()
    then index[id := index[id].(resolution := "reopen", resolvedRevision := revision,
                                resolutions := index[id].resolutions + 1, choices := false)]
    else index
  }

  function LastTask(impacted: seq<Entity>, otherwise: string): string {
    if impacted == [] then otherwise
    else if impacted[|impacted| - 1].TaskEntity? then impacted[|impacted| - 1].id
    else LastTask(impacted[..|impacted| - 1], otherwise)
  }

  function Resolved(index: Index, event: Event): Index
    requires event.act.Resolve?
  {
    if event.entityID !in index then index
    else
      var entry := index[event.entityID];
      index[event.entityID := entry.(resolution := event.act.resolution, resolvedRevision := event.resulting,
                                     resolutions := entry.resolutions + 1, choices := false,
                                     successor := LastTask(event.impacted, entry.successor))]
  }

  function Step(index: Index, event: Event): Index {
    match event.act
    case ReopenTask =>
      MarkStale(SelfReopened(index, event.entityID, event.resulting), Descendants(event), event.entityID, event.resulting)
    case Resolve(_) => Resolved(index, event)
    case OtherAct => index
  }

  function Replay(events: seq<Event>): Index {
    if events == [] then map[] else Step(Replay(events[..|events| - 1]), events[|events| - 1])
  }

  lemma {:induction false} MarkStaleAt(index: Index, ids: seq<string>, parent: string, revision: int, id: string)
    ensures var after := MarkStale(index, ids, parent, revision);
            && (id in ids ==> id in after && after[id] == Stale(id, parent, revision, "", 0, "", CountOf(index, id), true))
            && (id !in ids ==> (id in after <==> id in index) && (id in index ==> after[id] == index[id]))
  {
    if ids != [] {
      var n := |ids| - 1;
      assert ids == ids[..n] + [ids[n]];
      MarkStaleAt(index, ids[..n], parent, revision, id);
      MarkStaleAt(index, ids[..n], parent, revision, ids[n]);
    }
  }

  /** Marks each listed task stale, carrying its resolution count. */
  method MarkDescendants(was: Index, ids: seq<string>, parent: string, revision: int) returns (index: Index)
    ensures index == MarkStale(was, ids, parent, revision)
  {
    index := was;
    for i := 0 to |ids|
      invariant index == MarkStale(was, ids[..i], parent, revision)
    {
      assert ids[..i + 1][..i] == ids[..i];
      var id := ids[i];
      var resolutions := if id in index then index[id].resolutions else 0;
      index := index[id := Stale(id, parent, revision, "", 0, "", resolutions, true)];
    }
    assert ids[..|ids|] == ids;
  }

  method SuccessorNamed(impacted: seq<Entity>, otherwise: string) returns (successor: string)
    ensures successor == LastTask(impacted, otherwise)
  {
    successor := otherwise;
    for i := 0 to |impacted|
      invariant successor == LastTask(impacted[..i], otherwise)
    {
      assert impacted[..i + 1][..i] == impacted[..i];
      if impacted[i].TaskEntity? {
        successor := impacted[i].id;
      }
    }
    assert impacted[..|impacted|] == impacted;
  }

  /** The loop of the replay, over the index map, and the listing sorted by task. */
  method StaleDescendants(events: seq<Event>) returns (stale: seq<Stale>)
    ensures IsListing(stale, Replay(events))
  {
    var index: Index := map[];
    for k := 0 to |events|
      invariant index == Replay(events[..k])
    {
      var event := events[k];
      assert events[..k + 1][..k] == events[..k];
      match event.act {
        case ReopenTask =>
          if event.entityID in index && index[event.entityID].Unresolved() {
            var entry := index[event.entityID];
            index := index[event.entityID := entry.(resolution := "reopen", resolvedRevision := event.resulting,
                                                    resolutions := entry.resolutions + 1, choices := false)];
          }
          index := MarkDescendants(index, Descendants(event), event.entityID, event.resulting);
        case Resolve(resolution) =>
          if event.entityID in index {
            var entry := index[event.entityID];
            var successor := SuccessorNamed(event.impacted, entry.successor);
            index := index[event.entityID := entry.(resolution := resolution, resolvedRevision := event.resulting,
                                                    resolutions := entry.resolutions + 1, choices := false,
                                                    successor := successor)];
          }
        case OtherAct =>
      }
    }
    assert events[..|events|] == events;
    EntriesAreNamed(events);
    stale := ListIndex(index);
  }

  predicate Named(index: Index) {
    forall id :: id in index ==> index[id].taskID == id
  }

  lemma {:induction false} EntriesAreNamed(events: seq<Event>)
    ensures Named(Replay(events))
  {
    if events != [] {
      var n := |events| - 1;
      EntriesAreNamed(events[..n]);
      var event := events[n];
      forall id | id in Replay(events) ensures Replay(events)[id].taskID == id {
        if event.act.ReopenTask? {
          MarkStaleAt(SelfReopened(Replay(events[..n]), event.entityID, event.resulting), Descendants(event),
                      event.entityID, event.resulting, id);
        }
      }
    }
  }

  /** The entries of an index, one a task, in task order. */
  ghost predicate IsListing(stale: seq<Stale>, index: Index) {
    && (forall i, j :: 0 <= i < j < |stale| ==> Less(stale[i].taskID, stale[j].taskID))
    && (forall i :: 0 <= i < |stale| ==> stale[i].taskID in index && index[stale[i].taskID] == stale[i])
    && (forall id :: id in index ==> index[id] in stale)
  }

  method ListIndex(index: Index) returns (stale: seq<Stale>)
    requires Named(index)
    ensures IsListing(stale, index)
  {
    var ids := SortedKeys(index.Keys);
    assert forall i :: 0 <= i < |ids| ==> ids[i] in ids;
    stale := seq(|ids|, i requires 0 <= i < |ids| => index[ids[i]]);
    forall id | id in index ensures index[id] in stale {
      var i :| 0 <= i < |ids| && ids[i] == id;
      assert stale[i] == index[id];
    }
  }

  // ----- what the replay means -----

  predicate Lists(event: Event, id: string) {
    event.act.ReopenTask? && id in Descendants(event)
  }

  /** A resolution that names one, or a reopen of the task itself. */
  predicate Closes(event: Event, id: string) {
    event.entityID == id && (event.act.ReopenTask? || (event.act.Resolve? && event.act.resolution != ""))
  }

  /** A reopen lists the task; or a resolution naming none reopens one listed before. */
  predicate OpensAt(events: seq<Event>, i: nat, id: string)
    requires i < |events|
  {
    || Lists(events[i], id)
    || (events[i].act == Resolve("") && events[i].entityID == id && EverListed(events[..i], id))
  }

  predicate OpenIn(events: seq<Event>, id: string) {
    exists i :: 0 <= i < |events| && OpensAt(events, i, id) && ClosedByNone(events[i + 1..], id)
  }

  predicate ClosedByNone(events: seq<Event>, id: string) {
    forall j :: 0 <= j < |events| ==> !Closes(events[j], id)
  }

  predicate EverListed(events: seq<Event>, id: string) {
    exists k :: 0 <= k < |events| && Lists(events[k], id)
  }

  lemma EverListedAppend(events: seq<Event>, event: Event, id: string)
    ensures EverListed(events + [event], id) <==> EverListed(events, id) || Lists(event, id)
  {
    var more := events + [event];
    if EverListed(events, id) {
      var k :| 0 <= k < |events| && Lists(events[k], id);
      assert more[k] == events[k];
    }
    if Lists(event, id) {
      assert more[|events|] == event;
    }
  }

  lemma ClosedAppend(events: seq<Event>, event: Event, id: string)
    ensures ClosedByNone(events + [event], id) <==> ClosedByNone(events, id) && !Closes(event, id)
  {
    var more := events + [event];
    assert more[|events|] == event;
    assert forall j :: 0 <= j < |events| ==> more[j] == events[j];
  }

  lemma OpenInAppend(events: seq<Event>, event: Event, id: string)
    ensures OpenIn(events + [event], id) <==>
            || Lists(event, id)
            || (event.act == Resolve("") && event.entityID == id && EverListed(events, id))
            || (OpenIn(events, id) && !Closes(event, id))
  {
    if OpenIn(events + [event], id) {
      OpenBefore(events, event, id);
    }
    if OpenIn(events, id) && !Closes(event, id) {
      StaysOpen(events, event, id);
    }
    if Lists(event, id) || (event.act == Resolve("") && event.entityID == id && EverListed(events, id)) {
      OpenedLast(events, event, id);
    }
  }

  lemma OpenBefore(events: seq<Event>, event: Event, id: string)
    requires OpenIn(events + [event], id)
    ensures || Lists(event, id)
            || (event.act == Resolve("") && event.entityID == id && EverListed(events, id))
            || (OpenIn(events, id) && !Closes(event, id))
  {
    var more := events + [event];
    var i :| 0 <= i < |more| && OpensAt(more, i, id) && ClosedByNone(more[i + 1..], id);
    if i < |events| {
      assert more[i + 1..] == events[i + 1..] + [event] && more[..i] == events[..i];
      assert OpensAt(events, i, id);
      ClosedAppend(events[i + 1..], event, id);
    } else {
      assert more[..i] == events;
    }
  }

  lemma StaysOpen(events: seq<Event>, event: Event, id: string)
    requires OpenIn(events, id) && !Closes(event, id)
    ensures OpenIn(events + [event], id)
  {
    var more := events + [event];
    var i :| 0 <= i < |events| && OpensAt(events, i, id) && ClosedByNone(events[i + 1..], id);
    assert more[i + 1..] == events[i + 1..] + [event] && more[..i] == events[..i];
    ClosedAppend(events[i + 1..], event, id);
    assert OpensAt(more, i, id);
  }

  lemma OpenedLast(events: seq<Event>, event: Event, id: string)
    requires Lists(event, id) || (event.act == Resolve("") && event.entityID == id && EverListed(events, id))
    ensures OpenIn(events + [event], id)
  {
    var more := events + [event];
    var n := |events|;
    assert more[n] == event && more[n + 1..] == [] && more[..n] == events;
    assert OpensAt(more, n, id);
  }

  /** A task is tracked exactly when a reopen listed it, and unresolved exactly when nothing after the
      last time it was opened closed it. */
  lemma {:induction false} UnresolvedExactlyWhen(events: seq<Event>, id: string)
    ensures id in Replay(events) <==> EverListed(events, id)
    ensures id in Replay(events) && Replay(events)[id].Unresolved() <==> OpenIn(events, id)
  {
    if events != [] {
      var n := |events| - 1;
      var event := events[n];
      assert events == events[..n] + [event];
      UnresolvedExactlyWhen(events[..n], id);
      EverListedAppend(events[..n], event, id);
      OpenInAppend(events[..n], event, id);
      if event.act.ReopenTask? {
        MarkStaleAt(SelfReopened(Replay(events[..n]), event.entityID, event.resulting), Descendants(event),
                    event.entityID, event.resulting, id);
      }
    }
  }

  /** The resolution count of a task never falls, so event versions on its chain never repeat. */
  lemma CountsNeverFall(events: seq<Event>, event: Event, id: string)
    ensures CountOf(Replay(events), id) <= CountOf(Replay(events + [event]), id)
  {
    assert (events + [event])[..|events|] == events;
    if event.act.ReopenTask? {
      MarkStaleAt(SelfReopened(Replay(events), event.entityID, event.resulting), Descendants(event),
                  event.entityID, event.resulting, id);
    }
  }

  // ----- resolving -----

  datatype Request = Request(taskID: string, resolution: string, reason: string, actor: string, expectedRevision: int,
                             evidenceProves: bool, digestUnchanged: bool, approvalRef: string, successor: string,
                             criteria: seq<string>, reassignments: seq<Reassignment>)

  datatype Blocker = ReasonRequired | ActorRequired | RevisionStale | NotStale | AlreadyResolved | RetainUnapproved
                   | ReopenRoute | SuccessorRequired | CoverageUnassigned | ResolutionInvalid | DigestOnly | EvidenceStale

  datatype Plan = Plan(eligible: bool, taskID: string, resolution: string, parent: string, sequence: nat,
                       currentRevision: int, successor: string, reassignments: seq<Reassignment>, blockers: set<Blocker>)

  function Find(stale: seq<Stale>, id: string): Option<Stale> {
    if stale == [] then None
    else if stale[|stale| - 1].taskID == id then Some(stale[|stale| - 1])
    else Find(stale[..|stale| - 1], id)
  }

  function At(index: Index, id: string): Option<Stale> {
    if id in index then Some(index[id]) else None
  }

  lemma {:induction false} FindMember(stale: seq<Stale>, id: string)
    ensures Find(stale, id).Some? ==> Find(stale, id).value in stale && Find(stale, id).value.taskID == id
    ensures Find(stale, id).None? ==> forall i :: 0 <= i < |stale| ==> stale[i].taskID != id
  {
    if stale != [] {
      var n := |stale| - 1;
      assert stale == stale[..n] + [stale[n]];
      FindMember(stale[..n], id);
    }
  }

  lemma FindIsAt(stale: seq<Stale>, index: Index, id: string)
    requires IsListing(stale, index) && Named(index)
    ensures Find(stale, id) == At(index, id)
  {
    FindMember(stale, id);
  }

  function EvidenceBlockers(req: Request): set<Blocker> {
    if req.evidenceProves then {} else if req.digestUnchanged then {DigestOnly} else {EvidenceStale}
  }

  function CoverageBlockers(req: Request): set<Blocker> {
    if Uncovered(req.criteria, req.taskID, req.reassignments) == [] then {} else {CoverageUnassigned}
  }

  function RequestBlockers(req: Request, current: int): set<Blocker> {
    (if Blank(req.reason) then {ReasonRequired} else {})
    + (if Blank(req.actor) then {ActorRequired} else {})
    + (if req.expectedRevision != current then {RevisionStale} else {})
  }

  function ResolutionBlockers(req: Request): set<Blocker> {
    if req.resolution == "revalidate" then EvidenceBlockers(req)
    else if req.resolution == "retain" then
      (if Blank(req.approvalRef) then {RetainUnapproved} else {}) + EvidenceBlockers(req)
    else if req.resolution == "reopen" then {ReopenRoute}
    else if req.resolution == "supersede" then
      (if Blank(req.successor) then {SuccessorRequired} else {}) + CoverageBlockers(req)
    else if req.resolution == "cancel" then CoverageBlockers(req)
    else {ResolutionInvalid}
  }

  function PlanFor(req: Request, entry: Option<Stale>, current: int): Plan {
    match entry
    case None =>
      Plan(false, req.taskID, req.resolution, "", 0, current, req.successor, req.reassignments,
           RequestBlockers(req, current) + {NotStale})
    case Some(e) =>
      var blockers := RequestBlockers(req, current) + (if e.Unresolved() then {} else {AlreadyResolved})
                      + ResolutionBlockers(req);
      Plan(blockers == {}, req.taskID, req.resolution, e.parent, e.resolutions, current, req.successor,
           req.reassignments, blockers)
  }

  /** Collects every blocker, in the order of the checks. */
  method PlanDescendantResolution(req: Request, stale: seq<Stale>, current: int) returns (plan: Plan)
    ensures plan == PlanFor(req, Find(stale, req.taskID), current)
  {
    var blockers := RequestBlockers(req, current);
    var entry: Option<Stale> := None;
    for i := 0 to |stale|
      invariant entry == Find(stale[..i], req.taskID)
    {
      assert stale[..i + 1][..i] == stale[..i];
      if stale[i].taskID == req.taskID {
        entry := Some(stale[i]);
      }
    }
    assert stale[..|stale|] == stale;
    if entry.None? {
      return Plan(false, req.taskID, req.resolution, "", 0, current, req.successor, req.reassignments, blockers + {NotStale});
    }
    if !entry.value.Unresolved() {
      blockers := blockers + {AlreadyResolved};
    }
    blockers := blockers + ResolutionBlockers(req);
    return Plan(blockers == {}, req.taskID, req.resolution, entry.value.parent, entry.value.resolutions, current,
                req.successor, req.reassignments, blockers);
  }

  /** A resolution goes through exactly for an open task at the expected revision, with an account of who
      and why, and with the proof its kind needs: fresh evidence to revalidate, an approval as well to
      retain, and every criterion handed to another task to supersede or cancel. */
  lemma EligibleExactlyWhen(req: Request, entry: Option<Stale>, current: int)
    ensures PlanFor(req, entry, current).eligible <==>
            && entry.Some? && entry.value.Unresolved()
            && !Blank(req.reason) && !Blank(req.actor) && req.expectedRevision == current
            && ((req.resolution == "revalidate" && req.evidenceProves)
               || (req.resolution == "retain" && req.evidenceProves && !Blank(req.approvalRef))
               || (req.resolution == "supersede" && !Blank(req.successor) && AllHandedOn(req))
               || (req.resolution == "cancel" && AllHandedOn(req)))
  {
    var uncovered := Uncovered(req.criteria, req.taskID, req.reassignments);
    assert uncovered != [] ==> uncovered[0] in uncovered;
  }

  predicate AllHandedOn(req: Request) {
    forall i :: 0 <= i < |req.criteria| ==> HandedOn(req.reassignments, req.criteria[i], req.taskID)
  }

  /** When the kind of a resolution raises a blocker. */
  predicate KindBlocks(req: Request, b: Blocker) {
    match b
    case RetainUnapproved => req.resolution == "retain" && Blank(req.approvalRef)
    case ReopenRoute => req.resolution == "reopen"
    case SuccessorRequired => req.resolution == "supersede" && Blank(req.successor)
    case CoverageUnassigned => req.resolution in ["supersede", "cancel"] && !AllHandedOn(req)
    case ResolutionInvalid => req.resolution !in ["cancel", "reopen", "retain", "revalidate", "supersede"]
    case DigestOnly => req.resolution in ["revalidate", "retain"] && !req.evidenceProves && req.digestUnchanged
    case EvidenceStale => req.resolution in ["revalidate", "retain"] && !req.evidenceProves && !req.digestUnchanged
    case _ => false
  }

  lemma CoverageIs(req: Request)
    ensures CoverageBlockers(req) == if AllHandedOn(req) then {} else {CoverageUnassigned}
  {
    var uncovered := Uncovered(req.criteria, req.taskID, req.reassignments);
    assert uncovered != [] ==> uncovered[0] in uncovered;
  }

  lemma KindBlocksExactly(req: Request, b: Blocker)
    ensures b in ResolutionBlockers(req) <==> KindBlocks(req, b)
  {
    CoverageIs(req);
  }

  /** Every blocker and when it is raised: what is asked of any resolution, and, once the task is found, what
      its state and the kind of the resolution ask. */
  lemma BlockedExactlyWhen(req: Request, entry: Option<Stale>, current: int, b: Blocker)
    ensures b in PlanFor(req, entry, current).blockers <==>
            || (b == ReasonRequired && Blank(req.reason)) || (b == ActorRequired && Blank(req.actor))
            || (b == RevisionStale && req.expectedRevision != current)
            || (b == NotStale && entry.None?)
            || (b == AlreadyResolved && entry.Some? && !entry.value.Unresolved())
            || (entry.Some? && KindBlocks(req, b))
  {
    KindBlocksExactly(req, b);
  }

  function CriterionEntities(rs: seq<Reassignment>): (r: seq<Entity>)
    ensures |r| == |rs| && forall i :: 0 <= i < |r| ==> r[i] == CriterionEntity(rs[i].criterion, rs[i].to)
  {
    seq(|rs|, i requires 0 <= i < |rs| => CriterionEntity(rs[i].criterion, rs[i].to))
  }

  function BuildDescendantResolutionEvent(plan: Plan): Event {
    Event(Resolve(plan.resolution), plan.taskID, plan.sequence, plan.sequence + 1,
          plan.currentRevision, plan.currentRevision + 1,
          CriterionEntities(plan.reassignments) + [TaskEntity(if plan.successor != "" then plan.successor else plan.parent)])
  }

  lemma HandedOnIsRecorded(rs: seq<Reassignment>)
    ensures forall r :: r in rs ==> CriterionEntity(r.criterion, r.to) in CriterionEntities(rs)
  {
    forall r | r in rs ensures CriterionEntity(r.criterion, r.to) in CriterionEntities(rs) {
      var i :| 0 <= i < |rs| && rs[i] == r;
      assert CriterionEntities(rs)[i] == CriterionEntity(r.criterion, r.to);
    }
  }

  lemma EligibleIsOpen(req: Request, entry: Option<Stale>, current: int)
    requires PlanFor(req, entry, current).eligible
    ensures entry.Some? && entry.value.Unresolved() && req.resolution != ""
    ensures PlanFor(req, entry, current).parent == entry.value.parent
    ensures PlanFor(req, entry, current).sequence == entry.value.resolutions
  {
  }

  function Flipped(entry: Stale, req: Request, current: int): Stale {
    entry.(resolution := req.resolution, resolvedRevision := current + 1, resolutions := entry.resolutions + 1,
           choices := false, successor := if req.successor != "" then req.successor else entry.parent)
  }

  /** The event an eligible plan appends. */
  function EventOf(events: seq<Event>, req: Request, current: int): Event {
    BuildDescendantResolutionEvent(PlanFor(req, At(Replay(events), req.taskID), current))
  }

  /** Committing an eligible plan changes one entry and advances its version by one. A task
      resolved without a successor is replayed with its parent in that place. */
  lemma CommitFlipsOneEntry(events: seq<Event>, req: Request, current: int)
    requires PlanFor(req, At(Replay(events), req.taskID), current).eligible
    ensures req.taskID in Replay(events)
    ensures var entry := Replay(events)[req.taskID];
            && EventOf(events, req, current).before == entry.resolutions
            && EventOf(events, req, current).after == entry.resolutions + 1
            && EventOf(events, req, current).expected == current && EventOf(events, req, current).resulting == current + 1
            && (forall r :: r in req.reassignments ==>
                  CriterionEntity(r.criterion, r.to) in EventOf(events, req, current).impacted)
            && Replay(events + [EventOf(events, req, current)]) ==
               Replay(events)[req.taskID := Flipped(entry, req, current)]
  {
    EligibleIsOpen(req, At(Replay(events), req.taskID), current);
    HandedOnIsRecorded(req.reassignments);
    ReplayAppend(events, EventOf(events, req, current));
    ResolvingFlips(Replay(events), req, current);
  }

  lemma ReplayAppend(events: seq<Event>, event: Event)
    ensures Replay(events + [event]) == Step(Replay(events), event)
  {
  }

  lemma ResolvingFlips(index: Index, req: Request, current: int)
    requires PlanFor(req, At(index, req.taskID), current).eligible
    ensures req.taskID in index
    ensures Step(index, BuildDescendantResolutionEvent(PlanFor(req, At(index, req.taskID), current))) ==
            index[req.taskID := Flipped(index[req.taskID], req, current)]
  {
    EligibleIsOpen(req, At(index, req.taskID), current);
  }

  /** After a commit the same request is blocked, whatever revision it expects, until a reopen lists the
      task again. */
  lemma CommittedIsBlocked(events: seq<Event>, req: Request, current: int, expected: int, later: int)
    requires PlanFor(req, At(Replay(events), req.taskID), current).eligible
    ensures var more := events + [EventOf(events, req, current)];
            && !OpenIn(more, req.taskID)
            && AlreadyResolved in PlanFor(req.(expectedRevision := expected), At(Replay(more), req.taskID), later).blockers
  {
    EligibleIsOpen(req, At(Replay(events), req.taskID), current);
    CommitFlipsOneEntry(events, req, current);
    UnresolvedExactlyWhen(events + [EventOf(events, req, current)], req.taskID);
  }

  /** The parent waits exactly while some descendant it made stale is still open. */
  method StaleDescendantBlockers(stale: seq<Stale>) returns (parents: seq<string>)
    ensures forall parent :: parent in parents <==>
              exists i :: 0 <= i < |stale| && stale[i].Unresolved() && stale[i].parent == parent
  {
    parents := [];
    for k := 0 to |stale|
      invariant forall parent :: parent in parents <==>
                  exists i :: 0 <= i < k && stale[i].Unresolved() && stale[i].parent == parent
    {
      if stale[k].Unresolved() {
        parents := parents + [stale[k].parent];
      }
    }
  }

  datatype CommitError = Blocked(blockers: set<Blocker>) | RevisionChain

  /** The workflow ledger of a spec and the revision of its state. */
  class Workflow {
    var events: seq<Event>
    var revision: int

    constructor ()
      ensures events == [] && revision == 0
    {
      events, revision := [], 0;
    }

    predicate InStep()
      reads this
    {
      events == [] || events[|events| - 1].resulting == revision
    }

    /** Plans again from the ledger and appends the resolution; a refusal changes nothing. */
    method CommitDescendantResolution(req: Request) returns (r: Result<Plan, CommitError>)
      modifies this
      ensures var plan := PlanFor(req, At(Replay(old(events)), req.taskID), old(revision));
              && (r.Ok? <==> plan.eligible && old(InStep()))
              && (r.Ok? ==> r.value == plan && events == old(events) + [BuildDescendantResolutionEvent(plan)]
                            && revision == old(revision) + 1 && InStep())
              && (r.Err? ==> events == old(events) && revision == old(revision))
              && (!plan.eligible ==> r == Err(Blocked(plan.blockers)))
    {
      var stale := StaleDescendants(events);
      EntriesAreNamed(events);
      FindIsAt(stale, Replay(events), req.taskID);
      var plan := PlanDescendantResolution(req, stale, revision);
      if !plan.eligible {
        return Err(Blocked(plan.blockers));
      }
      var event := BuildDescendantResolutionEvent(plan);
      if !InStep() {
        return Err(RevisionChain);
      }
      events := events + [event];
      revision := event.resulting;
      return Ok(plan);
    }
  }
}
