/** Approval requests: append-only chains of transitions kept in the record map of a spec's state. */
module ApprovalRequests {
  import opened Common
  import opened StringOrder
  import opened RequestIds

  const PREFIX := "approval_request:"

  /** `Unset` is the empty transition of a request that does not exist. */
  datatype Transition = Unset | Draft | Requested | Approved | Rejected | Withdrawn | Expired | Revoked | Superseded
                      | Unlisted(text: string)

  datatype EntityKind = SpecEntity | TaskEntity | ArtifactEntity | OtherKind(text: string)

  datatype Pins = Pins(artifactDigest: string, stateRevision: int, planDigest: string, configDigest: string)

  /** `expiresAt` is the instant the expiry text denotes, if it denotes one. */
  datatype Rec = Rec(id: string, transition: Transition, entityKind: EntityKind, entityID: string,
                     entityVersion: string, pins: Pins, requester: string, expiresAt: Option<int>,
                     supersededBy: string, reason: string)

  datatype Entry = Request(rec: Rec) | Garbled

  type Records = map<string, Entry>

  datatype CreateFault = UnknownKind | NoEntity | NoArtifactDigest | NoPlanDigest | NoConfigDigest | NoRequester
                       | NoExpiry | BadRevision

  datatype Pin = ArtifactPin | RevisionPin | PlanPin | ConfigPin

  datatype Refusal = IdRequired | Illegal(from: Transition, to: Transition) | BadCreate(fault: CreateFault)
                   | RequestExpired | Stale(drift: seq<Pin>) | NoSuccessorNamed | UnknownSuccessor | Undecodable

  // ----- the transition table -----

  predicate Allowed(from: Transition, to: Transition) {
    match from
    case Unset => to in {Draft, Requested}
    case Draft => to in {Requested, Withdrawn, Expired, Superseded}
    case Requested => to in {Approved, Rejected, Withdrawn, Expired, Superseded}
    case Approved => to in {Revoked, Superseded}
    case _ => false
  }

  /** How far along its life a request is: every legal transition goes further, and none past four. */
  function Level(t: Transition): nat {
    match t
    case Unset => 0
    case Draft => 1
    case Requested => 2
    case Approved => 3
    case _ => 4
  }

  // ----- planning -----

  /** The transitions recorded for one id, in the order given. */
  function OfId(existing: seq<Rec>, id: string): seq<Rec> {
    if existing == [] then []
    else
      var last := existing[|existing| - 1];
      OfId(existing[..|existing| - 1], id) + (if last.id == id then [last] else [])
  }

  function NoRequest(): Rec {
    Rec("", Unset, OtherKind(""), "", "", Pins("", 0, "", ""), "", None, "", "")
  }

  function LastOf(chain: seq<Rec>): Rec {
    if chain == [] then NoRequest() else chain[|chain| - 1]
  }

  method LatestApprovalRequest(existing: seq<Rec>, id: string) returns (latest: Rec, count: nat)
    ensures latest == LastOf(OfId(existing, id)) && count == |OfId(existing, id)|
  {
    latest, count := NoRequest(), 0;
    for i := 0 to |existing|
      invariant latest == LastOf(OfId(existing[..i], id)) && count == |OfId(existing[..i], id)|
    {
      assert existing[..i + 1][..i] == existing[..i];
      if existing[i].id == id {
        latest, count := existing[i], count + 1;
      }
    }
    assert existing[..|existing|] == existing;
  }

  function CreateProblem(rec: Rec): Option<CreateFault> {
    if rec.entityKind.OtherKind? then Some(UnknownKind)
    else if Blank(rec.entityID) then Some(NoEntity)
    else if Blank(rec.pins.artifactDigest) then Some(NoArtifactDigest)
    else if Blank(rec.pins.planDigest) then Some(NoPlanDigest)
    else if Blank(rec.pins.configDigest) then Some(NoConfigDigest)
    else if Blank(rec.requester) then Some(NoRequester)
    else if rec.expiresAt.None? then Some(NoExpiry)
    else if rec.pins.stateRevision < 0 then Some(BadRevision)
    else None
  }

  function ApprovalDrift(pinned: Pins, current: Pins): (drift: seq<Pin>)
    ensures drift == [] <==> pinned == current
  {
    (if pinned.artifactDigest != current.artifactDigest then [ArtifactPin] else [])
    + (if pinned.stateRevision != current.stateRevision then [RevisionPin] else [])
    + (if pinned.planDigest != current.planDigest then [PlanPin] else [])
    + (if pinned.configDigest != current.configDigest then [ConfigPin] else [])
  }

  predicate Overdue(request: Rec, now: int) {
    request.expiresAt.Some? && now > request.expiresAt.value
  }

  function Key(id: string, n: nat): string {
    PREFIX + id + ":" + Numeral(n)
  }

  /** A transition keeps the identity its request was created with. */
  function Inheriting(rec: Rec, latest: Rec): Rec {
    rec.(entityKind := latest.entityKind, entityID := latest.entityID, entityVersion := latest.entityVersion,
         pins := latest.pins, requester := latest.requester, expiresAt := latest.expiresAt)
  }

  /** The next record of one chain, given whether the named successor exists. */
  function NextOf(chain: seq<Rec>, successorKnown: bool, rec: Rec, now: int): Result<Rec, Refusal> {
    var latest := LastOf(chain);
    if Blank(rec.id) then Err(IdRequired)
    else if !Allowed(latest.transition, rec.transition) then Err(Illegal(latest.transition, rec.transition))
    else if chain == [] then
      match CreateProblem(rec)
      case Some(fault) => Err(BadCreate(fault))
      case None => Ok(rec)
    else if rec.transition == Approved && Overdue(latest, now) then Err(RequestExpired)
    else if rec.transition == Approved && latest.pins != rec.pins then Err(Stale(ApprovalDrift(latest.pins, rec.pins)))
    else if rec.transition == Superseded && Blank(rec.supersededBy) then Err(NoSuccessorNamed)
    else if rec.transition == Superseded && !successorKnown then Err(UnknownSuccessor)
    else Ok(Inheriting(rec, latest))
  }

  method PlanApprovalRequest(existing: seq<Rec>, rec: Rec, now: int) returns (key: string, planned: Result<Rec, Refusal>)
    ensures planned == NextOf(OfId(existing, rec.id), OfId(existing, rec.supersededBy) != [], rec, now)
    ensures planned.Ok? ==> key == Key(rec.id, |OfId(existing, rec.id)|)
  {
    key := "";
    if Blank(rec.id) {
      return key, Err(IdRequired);
    }
    var latest, count := LatestApprovalRequest(existing, rec.id);
    if !Allowed(latest.transition, rec.transition) {
      return key, Err(Illegal(latest.transition, rec.transition));
    }
    key := Key(rec.id, count);
    if count == 0 {
      var fault := CreateProblem(rec);
      return key, if fault.Some? then Err(BadCreate(fault.value)) else Ok(rec);
    }
    if rec.transition == Approved {
      if Overdue(latest, now) {
        return key, Err(RequestExpired);
      }
      var drift := ApprovalDrift(latest.pins, rec.pins);
      if |drift| != 0 {
        return key, Err(Stale(drift));
      }
    }
    if rec.transition == Superseded {
      if Blank(rec.supersededBy) {
        return key, Err(NoSuccessorNamed);
      }
      var _, found := LatestApprovalRequest(existing, rec.supersededBy);
      if found == 0 {
        return key, Err(UnknownSuccessor);
      }
    }
    return key, Ok(Inheriting(rec, latest));
  }

  // ----- chains in the record map -----

  predicate HasPrefix(key: string) {
    PREFIX <= key
  }

  const MAX_DEPTH: nat := 4

  function DepthFrom(records: Records, id: string, n: nat): (d: nat)
    requires n <= MAX_DEPTH
    ensures n <= d <= MAX_DEPTH
    ensures forall k :: n <= k < d ==> Key(id, k) in records
    ensures d < MAX_DEPTH ==> Key(id, d) !in records
    decreases MAX_DEPTH - n
  {
    if n < MAX_DEPTH && Key(id, n) in records then DepthFrom(records, id, n + 1) else n
  }

  function Depth(records: Records, id: string): nat {
    DepthFrom(records, id, 0)
  }

  function RecAt(records: Records, key: string): Rec {
    if key in records && records[key].Request? then records[key].rec else NoRequest()
  }

  /** The chain of an id, read off its keys. */
  function Chain(records: Records, id: string): (chain: seq<Rec>)
    ensures |chain| == Depth(records, id)
    ensures forall n :: 0 <= n < |chain| ==> chain[n] == RecAt(records, Key(id, n))
  {
    seq(Depth(records, id), n requires 0 <= n < Depth(records, id) => RecAt(records, Key(id, n)))
  }

  /** What a request is about, which inputs govern it, who asked and until when. */
  predicate SharesIdentity(a: Rec, b: Rec) {
    && a.entityKind == b.entityKind && a.entityID == b.entityID && a.entityVersion == b.entityVersion
    && a.pins == b.pins && a.requester == b.requester && a.expiresAt == b.expiresAt
  }

  /** What a request has to name when it is created. */
  predicate WellFormed(rec: Rec) {
    && rec.entityKind in {SpecEntity, TaskEntity, ArtifactEntity} && !Blank(rec.entityID)
    && !Blank(rec.pins.artifactDigest) && !Blank(rec.pins.planDigest) && !Blank(rec.pins.configDigest)
    && rec.pins.stateRevision >= 0 && !Blank(rec.requester) && rec.expiresAt.Some?
  }

  /** A legal path from creation, each record with the identity its create record pinned. */
  predicate LegalChain(chain: seq<Rec>, id: string) {
    forall n {:trigger LegalAt(chain, id, n)} :: 0 <= n < |chain| ==> LegalAt(chain, id, n)
  }

  predicate LegalAt(chain: seq<Rec>, id: string, n: nat)
    requires n < |chain|
  {
    && chain[n].id == id
    && Allowed(if n == 0 then Unset else chain[n - 1].transition, chain[n].transition)
    && SharesIdentity(chain[n], chain[0])
    && WellFormed(chain[0])
  }

  /** The states a transition is recorded from. */
  function Predecessors(to: Transition): set<Transition> {
    match to
    case Draft => {Unset}
    case Requested => {Unset, Draft}
    case Approved => {Requested}
    case Rejected => {Requested}
    case Withdrawn => {Draft, Requested}
    case Expired => {Draft, Requested}
    case Revoked => {Approved}
    case Superseded => {Draft, Requested, Approved}
    case _ => {}
  }

  lemma AllowedExactlyWhen(from: Transition, to: Transition)
    ensures Allowed(from, to) <==> from in Predecessors(to)
  {
  }

  /** A transition is recorded if and only if the chain stands where it can be recorded from, a first record
      is well formed, an approval is in time and pins what the request pinned, and a supersession names a
      request there is. What is recorded is what was given under the identity of the request. */
  lemma PlannedExactlyWhen(chain: seq<Rec>, known: bool, rec: Rec, now: int)
    requires LegalChain(chain, rec.id)
    ensures NextOf(chain, known, rec, now).Ok? <==>
            && !Blank(rec.id)
            && (if chain == [] then rec.transition in {Draft, Requested} && WellFormed(rec)
                else LastOf(chain).transition in Predecessors(rec.transition))
            && (rec.transition == Approved ==> chain != [] && rec.pins == chain[0].pins && InTime(chain[0], now))
            && (rec.transition == Superseded ==> !Blank(rec.supersededBy) && known)
    ensures NextOf(chain, known, rec, now).Ok? ==>
              var next, first := NextOf(chain, known, rec, now).value, if chain == [] then rec else chain[0];
              next == Rec(rec.id, rec.transition, first.entityKind, first.entityID, first.entityVersion, first.pins,
                          first.requester, first.expiresAt, rec.supersededBy, rec.reason)
  {
    if chain != [] {
      assert LegalAt(chain, rec.id, 0) && LegalAt(chain, rec.id, |chain| - 1);
    }
  }

  /** Which refusal is told: the state of the chain first, then what the transition itself needs. */
  lemma RefusalsComeInOrder(chain: seq<Rec>, known: bool, rec: Rec, now: int)
    requires LegalChain(chain, rec.id) && !Blank(rec.id)
    ensures var r, from := NextOf(chain, known, rec, now), if chain == [] then Unset else LastOf(chain).transition;
            if from !in Predecessors(rec.transition) then r == Err(Illegal(from, rec.transition))
            else if chain == [] then r == if WellFormed(rec) then Ok(rec) else Err(BadCreate(FirstMissing(rec)))
            else if rec.transition == Approved && !InTime(chain[0], now) then r == Err(RequestExpired)
            else if rec.transition == Approved && rec.pins != chain[0].pins
            then && r.Err? && r.error.Stale?
                 && (forall pin :: pin in r.error.drift <==> Drifted(pin, chain[0].pins, rec.pins))
            else if rec.transition == Superseded && (Blank(rec.supersededBy) || !known)
            then r == Err(if Blank(rec.supersededBy) then NoSuccessorNamed else UnknownSuccessor)
            else r.Ok?
  {
    AllowedExactlyWhen(LastOf(chain).transition, rec.transition);
    if chain != [] {
      assert LegalAt(chain, rec.id, 0) && LegalAt(chain, rec.id, |chain| - 1);
    }
  }

  predicate InTime(request: Rec, now: int) {
    request.expiresAt.Some? && now <= request.expiresAt.value
  }

  predicate Drifted(pin: Pin, a: Pins, b: Pins) {
    match pin
    case ArtifactPin => a.artifactDigest != b.artifactDigest
    case RevisionPin => a.stateRevision != b.stateRevision
    case PlanPin => a.planDigest != b.planDigest
    case ConfigPin => a.configDigest != b.configDigest
  }

  /** What a create record that is not well formed is told to name. */
  function FirstMissing(rec: Rec): CreateFault
    requires !WellFormed(rec)
  {
    var named := !rec.entityKind.OtherKind? && !Blank(rec.entityID);
    var pinned := named && !Blank(rec.pins.artifactDigest) && !Blank(rec.pins.planDigest) && !Blank(rec.pins.configDigest);
    if pinned then
      if !Blank(rec.requester) && rec.expiresAt.Some? then BadRevision
      else if Blank(rec.requester) then NoRequester else NoExpiry
    else if named then
      if Blank(rec.pins.artifactDigest) then NoArtifactDigest
      else if Blank(rec.pins.planDigest) then NoPlanDigest else NoConfigDigest
    else if rec.entityKind.OtherKind? then UnknownKind else NoEntity
  }

  predicate OwnKey(key: string, id: string) {
    exists n :: 0 <= n < MAX_DEPTH && key == Key(id, n)
  }

  /** Every request record sits in the chain its key names; chains have no holes and are legal. */
  ghost predicate Chained(records: Records) {
    && (forall key :: key in records && HasPrefix(key) ==>
          records[key].Request? && OwnKey(key, records[key].rec.id))
    && (forall id {:trigger Chain(records, id)} :: LegalChain(Chain(records, id), id))
    && (forall id, n :: Depth(records, id) <= n < MAX_DEPTH ==> Key(id, n) !in records)
  }

  lemma {:induction false} LevelsRise(chain: seq<Rec>, id: string, n: nat)
    requires LegalChain(chain, id) && n < |chain|
    ensures n < Level(chain[n].transition) <= MAX_DEPTH
  {
    assert LegalAt(chain, id, n);
    if n > 0 {
      LevelsRise(chain, id, n - 1);
    }
  }

  lemma KeyParts(id: string, n: nat)
    requires n < MAX_DEPTH
    ensures Numeral(n) == [DigitChar(n)] && HasPrefix(Key(id, n))
    ensures |Key(id, n)| == |PREFIX| + |id| + 2 && Key(id, n)[..|Key(id, n)| - 2] == PREFIX + id
    ensures Key(id, n)[|Key(id, n)| - 1] == DigitChar(n)
  {
  }

  lemma KeysDiffer(id1: string, n1: nat, id2: string, n2: nat)
    requires n1 < MAX_DEPTH && n2 < MAX_DEPTH && Key(id1, n1) == Key(id2, n2)
    ensures id1 == id2 && n1 == n2
  {
    KeyParts(id1, n1);
    KeyParts(id2, n2);
    assert (PREFIX + id1)[|PREFIX|..] == id1 && (PREFIX + id2)[|PREFIX|..] == id2;
  }

  lemma {:induction false} LessAfter(p: string, a: char, b: char)
    requires a < b
    ensures Less(p + [a], p + [b])
  {
    if p != "" {
      assert (p + [a])[1..] == p[1..] + [a] && (p + [b])[1..] == p[1..] + [b];
      LessAfter(p[1..], a, b);
    }
  }

  /** Within one chain, key order is append order. */
  lemma KeysAscend(id: string, m: nat, n: nat)
    requires m < n < MAX_DEPTH
    ensures Less(Key(id, m), Key(id, n))
  {
    KeyParts(id, m);
    KeyParts(id, n);
    LessAfter(PREFIX + id + ":", DigitChar(m), DigitChar(n));
  }

  // ----- reading the record map -----

  /** The sorted request keys of the map. */
  ghost predicate RequestKeys(records: Records, keys: seq<string>) {
    Ascending(keys) && forall key :: key in keys <==> key in records && HasPrefix(key)
  }

  function RecsAt(records: Records, keys: seq<string>): (r: seq<Rec>)
    ensures |r| == |keys| && forall i :: 0 <= i < |keys| ==> r[i] == RecAt(records, keys[i])
  {
    seq(|keys|, i requires 0 <= i < |keys| => RecAt(records, keys[i]))
  }

  /** The keys whose record belongs to an id. */
  function KeysOf(records: Records, keys: seq<string>, id: string): seq<string> {
    if keys == [] then []
    else
      KeysOf(records, keys[..|keys| - 1], id)
      + (if RecAt(records, keys[|keys| - 1]).id == id then [keys[|keys| - 1]] else [])
  }

  lemma {:induction false} KeysOfMember(records: Records, keys: seq<string>, id: string, key: string)
    ensures key in KeysOf(records, keys, id) <==> key in keys && RecAt(records, key).id == id
  {
    if keys != [] {
      var n := |keys| - 1;
      assert keys == keys[..n] + [keys[n]];
      KeysOfMember(records, keys[..n], id, key);
    }
  }

  lemma {:induction false} KeysOfAscend(records: Records, keys: seq<string>, id: string)
    requires Ascending(keys)
    ensures Ascending(KeysOf(records, keys, id))
  {
    if keys != [] {
      var n := |keys| - 1;
      var sub := KeysOf(records, keys[..n], id);
      KeysOfAscend(records, keys[..n], id);
      forall i | 0 <= i < |sub| ensures Less(sub[i], keys[n]) {
        KeysOfMember(records, keys[..n], id, sub[i]);
        var j :| 0 <= j < n && keys[..n][j] == sub[i];
      }
    }
  }

  lemma {:induction false} OfIdByKeys(records: Records, keys: seq<string>, id: string)
    ensures OfId(RecsAt(records, keys), id) == RecsAt(records, KeysOf(records, keys, id))
  {
    if keys != [] {
      var rest := keys[..|keys| - 1];
      OfIdByKeys(records, rest, id);
      assert RecsAt(records, keys)[..|keys| - 1] == RecsAt(records, rest);
    }
  }

  function ChainKeys(records: Records, id: string): (r: seq<string>)
    ensures |r| == Depth(records, id) && forall n :: 0 <= n < |r| ==> r[n] == Key(id, n)
  {
    seq(Depth(records, id), n requires 0 <= n < Depth(records, id) => Key(id, n))
  }

  /** The keys of a chain are those under which a record of its id is found. */
  lemma ChainKeyIsOwn(records: Records, id: string, key: string)
    requires Chained(records)
    ensures key in ChainKeys(records, id) <==> key in records && HasPrefix(key) && RecAt(records, key).id == id
  {
    var b := ChainKeys(records, id);
    if key in records && HasPrefix(key) && RecAt(records, key).id == id {
      var n :| 0 <= n < MAX_DEPTH && key == Key(id, n);
      assert key == b[n];
    }
    if key in b {
      var n :| 0 <= n < |b| && b[n] == key;
      KeyParts(id, n);
      assert LegalAt(Chain(records, id), id, n);
    }
  }

  lemma ChainKeysAre(records: Records, keys: seq<string>, id: string)
    requires Chained(records) && RequestKeys(records, keys)
    ensures KeysOf(records, keys, id) == ChainKeys(records, id)
  {
    var a, b := KeysOf(records, keys, id), ChainKeys(records, id);
    forall m, n | 0 <= m < n < |b| ensures Less(b[m], b[n]) {
      KeysAscend(id, m, n);
    }
    KeysOfAscend(records, keys, id);
    forall key ensures key in a <==> key in b {
      KeysOfMember(records, keys, id, key);
      ChainKeyIsOwn(records, id, key);
    }
    AscendingIsUnique(a, b);
  }

  /** Sorting the keys reads every chain back in append order. */
  lemma ReadingGivesChains(records: Records, keys: seq<string>, id: string)
    requires Chained(records) && RequestKeys(records, keys)
    ensures OfId(RecsAt(records, keys), id) == Chain(records, id)
  {
    OfIdByKeys(records, keys, id);
    ChainKeysAre(records, keys, id);
    assert RecsAt(records, ChainKeys(records, id)) == Chain(records, id);
  }

  // ----- appending -----

  /** The map after an append, or why it is refused. */
  function Append(records: Records, rec: Rec, now: int): Result<Records, Refusal> {
    var next := NextOf(Chain(records, rec.id), Depth(records, rec.supersededBy) > 0, rec, now);
    if next.Err? then Err(next.error)
    else Ok(records[Key(rec.id, Depth(records, rec.id)) := Request(next.value)])
  }

  lemma NextIsLegal(chain: seq<Rec>, known: bool, rec: Rec, now: int)
    requires LegalChain(chain, rec.id) && NextOf(chain, known, rec, now).Ok?
    ensures LegalChain(chain + [NextOf(chain, known, rec, now).value], rec.id)
    ensures |chain| < MAX_DEPTH
  {
    var next := NextOf(chain, known, rec, now).value;
    var more := chain + [next];
    forall n | 0 <= n < |more| ensures LegalAt(more, rec.id, n) {
      if n < |chain| {
        assert LegalAt(chain, rec.id, n);
      } else if chain != [] {
        assert LegalAt(chain, rec.id, |chain| - 1);
      }
    }
    if chain != [] {
      LevelsRise(chain, rec.id, |chain| - 1);
    }
  }

  lemma {:induction false} DepthElsewhere(records: Records, key: string, entry: Entry, id: string, n: nat)
    requires n <= MAX_DEPTH && forall k :: 0 <= k < MAX_DEPTH ==> key != Key(id, k)
    ensures DepthFrom(records[key := entry], id, n) == DepthFrom(records, id, n)
    decreases MAX_DEPTH - n
  {
  }

  lemma {:induction false} DepthHere(records: Records, id: string, entry: Entry, n: nat)
    requires n <= MAX_DEPTH && n <= DepthFrom(records, id, n) == Depth(records, id) < MAX_DEPTH
    requires forall k :: Depth(records, id) <= k < MAX_DEPTH ==> Key(id, k) !in records
    ensures DepthFrom(records[Key(id, Depth(records, id)) := entry], id, n) == Depth(records, id) + 1
    decreases MAX_DEPTH - n
  {
    var d := Depth(records, id);
    var more := records[Key(id, d) := entry];
    if n < d {
      DepthHere(records, id, entry, n + 1);
    } else if d + 1 < MAX_DEPTH {
      if Key(id, d + 1) == Key(id, d) {
        KeysDiffer(id, d, id, d + 1);
      }
      assert DepthFrom(more, id, d + 1) == d + 1;
    }
  }

  /** An append adds one record at the end of its own chain, under a key not used before, and leaves
      every other chain alone. */
  lemma AppendExtendsOneChain(records: Records, rec: Rec, now: int, id: string)
    requires Chained(records) && Append(records, rec, now).Ok?
    ensures Key(rec.id, Depth(records, rec.id)) !in records && Depth(records, rec.id) < MAX_DEPTH
    ensures var next := NextOf(Chain(records, rec.id), Depth(records, rec.supersededBy) > 0, rec, now).value;
            Chain(Append(records, rec, now).value, id) ==
            if id == rec.id then Chain(records, id) + [next] else Chain(records, id)
  {
    var known := Depth(records, rec.supersededBy) > 0;
    NextIsLegal(Chain(records, rec.id), known, rec, now);
    var entry := Request(NextOf(Chain(records, rec.id), known, rec, now).value);
    if id == rec.id {
      GrowHere(records, id, entry.rec);
    } else {
      GrowElsewhere(records, rec.id, entry, id);
    }
  }

  lemma GrowHere(records: Records, id: string, next: Rec)
    requires Chained(records) && Depth(records, id) < MAX_DEPTH
    ensures Chain(records[Key(id, Depth(records, id)) := Request(next)], id) == Chain(records, id) + [next]
  {
    var d := Depth(records, id);
    DepthHere(records, id, Request(next), 0);
    forall k | 0 <= k < d ensures Key(id, k) != Key(id, d) {
      KeysAscend(id, k, d);
      LessTotal(Key(id, d), Key(id, d));
    }
  }

  lemma GrowElsewhere(records: Records, here: string, entry: Entry, id: string)
    requires Depth(records, here) < MAX_DEPTH && id != here
    ensures Chain(records[Key(here, Depth(records, here)) := entry], id) == Chain(records, id)
  {
    var d := Depth(records, here);
    forall k | 0 <= k < MAX_DEPTH ensures Key(here, d) != Key(id, k) {
      if Key(here, d) == Key(id, k) {
        KeysDiffer(here, d, id, k);
      }
    }
    DepthElsewhere(records, Key(here, d), entry, id, 0);
  }

  lemma NoHoles(records: Records, rec: Rec, now: int)
    requires Chained(records) && Append(records, rec, now).Ok?
    ensures var more := Append(records, rec, now).value;
            forall id, n :: Depth(more, id) <= n < MAX_DEPTH ==> Key(id, n) !in more
  {
    var more := Append(records, rec, now).value;
    var d := Depth(records, rec.id);
    AppendExtendsOneChain(records, rec, now, rec.id);
    forall id, n | Depth(more, id) <= n < MAX_DEPTH ensures Key(id, n) !in more {
      AppendExtendsOneChain(records, rec, now, id);
      if Key(id, n) == Key(rec.id, d) {
        KeysDiffer(id, n, rec.id, d);
      }
    }
  }

  lemma AppendKeepsChained(records: Records, rec: Rec, now: int)
    requires Chained(records) && Append(records, rec, now).Ok?
    ensures Chained(Append(records, rec, now).value)
  {
    var known := Depth(records, rec.supersededBy) > 0;
    var next := NextOf(Chain(records, rec.id), known, rec, now).value;
    var more := Append(records, rec, now).value;
    var d := Depth(records, rec.id);
    NoHoles(records, rec, now);
    NextIsLegal(Chain(records, rec.id), known, rec, now);
    forall key | key in more && HasPrefix(key) ensures more[key].Request? && OwnKey(key, more[key].rec.id) {
      if key == Key(rec.id, d) {
        assert next.id == rec.id;
      }
    }
    forall id ensures LegalChain(Chain(more, id), id) {
      AppendExtendsOneChain(records, rec, now, id);
    }
  }

  /** The records of a spec's state, appended to by the approval command. */
  class SpecState {
    var records: Records

    constructor (records: Records)
      ensures this.records == records
    {
      this.records := records;
    }

    /** The request keys, out of a map in no particular order, sorted. */
    method SortedRequestKeys() returns (keys: seq<string>)
      ensures RequestKeys(records, keys)
    {
      keys := SortedKeys(set key | key in records && HasPrefix(key));
    }

    /** Decodes the record under each request key, in key order. */
    method ReadApprovalRequests() returns (r: Result<seq<Rec>, Refusal>, ghost keys: seq<string>)
      ensures RequestKeys(records, keys)
      ensures r.Ok? <==> forall key :: key in keys ==> records[key].Request?
      ensures r.Ok? ==> r.value == RecsAt(records, keys)
      ensures r.Err? ==> r.error == Undecodable
    {
      var sorted := SortedRequestKeys();
      keys := sorted;
      var out: seq<Rec> := [];
      for i := 0 to |sorted|
        invariant out == RecsAt(records, sorted[..i])
        invariant forall j :: 0 <= j < i ==> records[sorted[j]].Request?
      {
        assert sorted[i] in sorted;
        var entry := records[sorted[i]];
        if entry.Garbled? {
          return Err(Undecodable), keys;
        }
        out := out + [entry.rec];
      }
      assert sorted[..|sorted|] == sorted;
      return Ok(out), keys;
    }

    /** Refuses without effect when a request record cannot be decoded; otherwise appends as `Append`
        says, or refuses without effect. */
    method AppendApprovalRequest(rec: Rec, now: int) returns (refused: Option<Refusal>)
      modifies this
      ensures refused.Some? ==> records == old(records)
      ensures AnyGarbled(old(records)) ==> refused == Some(Undecodable)
      ensures Chained(old(records)) ==>
                && Chained(records)
                && Append(old(records), rec, now) == if refused.Some? then Err(refused.value) else Ok(records)
    {
      var existing, keys := ReadApprovalRequests();
      if existing.Err? {
        return Some(existing.error);
      }
      var key, planned := PlanApprovalRequest(existing.value, rec, now);
      if Chained(records) {
        ReadingGivesChains(records, keys, rec.id);
        ReadingGivesChains(records, keys, rec.supersededBy);
        if planned.Ok? {
          AppendKeepsChained(records, rec, now);
        }
      }
      if planned.Err? {
        return Some(planned.error);
      }
      records := records[key := Request(planned.value)];
      return None;
    }

    /** Reuses a request still open for the gate, otherwise opens one, and approves it. */
    method RecordCompatibilityApproval(gate: string, cycle: int, slug: string, actor: string, pins: Pins,
                                       now: int, later: int)
      returns (refused: Option<Refusal>)
      modifies this
      ensures Chained(old(records)) && refused.None? ==>
                Ok(records) == Recorded(old(records), gate, cycle, slug, actor, pins, now, later)
      ensures Chained(old(records)) && refused.Some? ==>
                Err(refused.value) == Recorded(old(records), gate, cycle, slug, actor, pins, now, later)
      ensures Chained(old(records)) ==> Chained(records)
    {
      var id := ApprovalRequestID(gate, cycle);
      var existing, keys := ReadApprovalRequests();
      if existing.Err? {
        return Some(existing.error);
      }
      if Chained(records) {
        ReadingGivesChains(records, keys, id);
      }
      var latest, count := LatestApprovalRequest(existing.value, id);
      if !(count > 0 && latest.transition in {Draft, Requested}) {
        refused := AppendApprovalRequest(CreateRec(id, gate, slug, actor, pins, now), now);
        if refused.Some? {
          return;
        }
      }
      refused := AppendApprovalRequest(ApproveRec(id, actor, pins), later);
    }
  }

  predicate AnyGarbled(records: Records) {
    exists key :: key in records && HasPrefix(key) && records[key].Garbled?
  }

  // ----- answering a gate -----

  const TTL := 3600

  /** The first cycle keeps the plain id; every later one has its own. */
  function ApprovalRequestID(gate: string, cycle: int): string {
    if cycle > 1 then "approve" + ":" + gate + ":" + "cycle" + ":" + Numeral(cycle) else "approve" + ":" + gate
  }

  function CreateRec(id: string, gate: string, slug: string, actor: string, pins: Pins, now: int): Rec {
    Rec(id, Requested, SpecEntity, slug, gate, pins, actor, Some(now + TTL), "", "")
  }

  function ApproveRec(id: string, actor: string, pins: Pins): Rec {
    Rec(id, Approved, OtherKind(""), "", "", pins, actor, None, "", "")
  }

  predicate Pending(chain: seq<Rec>) {
    chain != [] && LastOf(chain).transition in {Draft, Requested}
  }

  function Recorded(records: Records, gate: string, cycle: int, slug: string, actor: string, pins: Pins,
                    now: int, later: int): Result<Records, Refusal> {
    var id := ApprovalRequestID(gate, cycle);
    var asked := if Pending(Chain(records, id)) then Ok(records)
                  else Append(records, CreateRec(id, gate, slug, actor, pins, now), now);
    if asked.Err? then asked else Append(asked.value, ApproveRec(id, actor, pins), later)
  }

  /** A gate can be answered exactly when it was never asked in this cycle (and the request that is
      asked is well formed and still fresh), or its open request pins today's identities and has not
      expired. */
  ghost predicate Answerable(chain: seq<Rec>, slug: string, actor: string, pins: Pins, now: int, later: int) {
    if chain == [] then
      && !Blank(slug) && !Blank(actor) && pins.stateRevision >= 0 && later <= now + TTL
      && !Blank(pins.artifactDigest) && !Blank(pins.planDigest) && !Blank(pins.configDigest)
    else LastOf(chain).transition == Requested && LastOf(chain).pins == pins && !Overdue(LastOf(chain), later)
  }

  lemma GateIdNotBlank(gate: string, cycle: int)
    ensures !Blank(ApprovalRequestID(gate, cycle))
  {
    assert ApprovalRequestID(gate, cycle)[0] == 'a';
  }

  lemma AnsweredExactlyWhen(records: Records, gate: string, cycle: int, slug: string, actor: string, pins: Pins,
                            now: int, later: int)
    requires Chained(records)
    ensures Recorded(records, gate, cycle, slug, actor, pins, now, later).Ok? <==>
            Answerable(Chain(records, ApprovalRequestID(gate, cycle)), slug, actor, pins, now, later)
  {
    var id := ApprovalRequestID(gate, cycle);
    var chain := Chain(records, id);
    GateIdNotBlank(gate, cycle);
    var create := CreateRec(id, gate, slug, actor, pins, now);
    if chain == [] && Append(records, create, now).Ok? {
      AppendExtendsOneChain(records, create, now, id);
    }
    if chain != [] && !Pending(chain) {
      NeverReopened(records, create, now);
    }
  }

  lemma NeverReopened(records: Records, create: Rec, now: int)
    requires Chained(records) && Chain(records, create.id) != [] && !Pending(Chain(records, create.id))
    requires create.transition == Requested
    ensures Append(records, create, now).Err?
  {
    ClosedChainRefuses(Chain(records, create.id), Depth(records, create.supersededBy) > 0, create, now);
  }

  lemma ClosedChainRefuses(chain: seq<Rec>, known: bool, create: Rec, now: int)
    requires LegalChain(chain, create.id) && chain != [] && !Pending(chain) && create.transition == Requested
    ensures NextOf(chain, known, create, now).Err?
  {
    assert LegalAt(chain, create.id, |chain| - 1);
    assert !Allowed(LastOf(chain).transition, Requested);
  }

  /** A spec that was never asked answers any gate, given complete pins and a named actor. */
  lemma FirstAnswer(gate: string, cycle: int, slug: string, actor: string, pins: Pins, now: int)
    requires !Blank(slug) && !Blank(actor) && pins.stateRevision >= 0
    requires !Blank(pins.artifactDigest) && !Blank(pins.planDigest) && !Blank(pins.configDigest)
    ensures Chained(map[]) && Recorded(map[], gate, cycle, slug, actor, pins, now, now).Ok?
  {
    EveryRunIsChained([], ApprovalRequestID(gate, cycle));
    AnsweredExactlyWhen(map[], gate, cycle, slug, actor, pins, now, now);
  }

  /** What an answer leaves behind: the chain ends approved, with today's pins, before its expiry. */
  lemma AnswerIsCurrent(records: Records, gate: string, cycle: int, slug: string, actor: string, pins: Pins,
                        now: int, later: int)
    requires Chained(records) && Recorded(records, gate, cycle, slug, actor, pins, now, later).Ok?
    ensures var id := ApprovalRequestID(gate, cycle);
            var after := Recorded(records, gate, cycle, slug, actor, pins, now, later).value;
            && Chained(after) && Chain(after, id) != []
            && LastOf(Chain(after, id)).transition == Approved
            && LastOf(Chain(after, id)).pins == pins && Chain(after, id)[0].pins == pins
            && !Overdue(LastOf(Chain(after, id)), later)
  {
    var id := ApprovalRequestID(gate, cycle);
    AnsweredExactlyWhen(records, gate, cycle, slug, actor, pins, now, later);
    if Chain(records, id) == [] {
      var create := CreateRec(id, gate, slug, actor, pins, now);
      AppendExtendsOneChain(records, create, now, id);
      AppendKeepsChained(records, create, now);
      ApprovedNext(Append(records, create, now).value, id, actor, pins, later);
    } else {
      ApprovedNext(records, id, actor, pins, later);
    }
  }

  /** What an answer records: the request first, unless one is open, and the approval, which names the spec,
      the gate and the requester the request was opened with; nothing else. */
  lemma AnswerAdds(records: Records, gate: string, cycle: int, slug: string, actor: string, pins: Pins,
                   now: int, later: int, other: string)
    requires Chained(records) && Recorded(records, gate, cycle, slug, actor, pins, now, later).Ok?
    ensures var id := ApprovalRequestID(gate, cycle);
            var after := Recorded(records, gate, cycle, slug, actor, pins, now, later).value;
            var open := Chain(records, id);
            var asked := if open == [] then [Rec(id, Requested, SpecEntity, slug, gate, pins, actor, Some(now + TTL), "", "")]
                         else open;
            Chain(after, other) ==
            if other != id then Chain(records, other)
            else asked + [Rec(id, Approved, asked[0].entityKind, asked[0].entityID, asked[0].entityVersion, pins,
                              asked[0].requester, asked[0].expiresAt, "", "")]
  {
    var id := ApprovalRequestID(gate, cycle);
    AnsweredExactlyWhen(records, gate, cycle, slug, actor, pins, now, later);
    var create := CreateRec(id, gate, slug, actor, pins, now);
    if Chain(records, id) == [] {
      AppendExtendsOneChain(records, create, now, id);
      AppendExtendsOneChain(records, create, now, other);
      AppendKeepsChained(records, create, now);
      ApprovalAdds(Append(records, create, now).value, id, actor, pins, later, other);
    } else {
      ApprovalAdds(records, id, actor, pins, later, other);
    }
  }

  lemma ApprovalAdds(records: Records, id: string, actor: string, pins: Pins, later: int, other: string)
    requires Chained(records) && Chain(records, id) != [] && Append(records, ApproveRec(id, actor, pins), later).Ok?
    ensures var after, chain := Append(records, ApproveRec(id, actor, pins), later).value, Chain(records, id);
            Chain(after, other) ==
            if other != id then Chain(records, other)
            else chain + [Rec(id, Approved, chain[0].entityKind, chain[0].entityID, chain[0].entityVersion, pins,
                              chain[0].requester, chain[0].expiresAt, "", "")]
  {
    var approve := ApproveRec(id, actor, pins);
    AppendExtendsOneChain(records, approve, later, other);
    PlannedExactlyWhen(Chain(records, id), Depth(records, "") > 0, approve, later);
  }

  lemma ApprovedNext(records: Records, id: string, actor: string, pins: Pins, later: int)
    requires Chained(records) && Chain(records, id) != []
    requires LastOf(Chain(records, id)).pins == pins && !Overdue(LastOf(Chain(records, id)), later)
    requires Append(records, ApproveRec(id, actor, pins), later).Ok?
    ensures var after := Append(records, ApproveRec(id, actor, pins), later).value;
            && Chained(after) && Chain(after, id) != []
            && LastOf(Chain(after, id)).transition == Approved
            && LastOf(Chain(after, id)).pins == pins && Chain(after, id)[0].pins == pins
            && !Overdue(LastOf(Chain(after, id)), later)
  {
    var approve := ApproveRec(id, actor, pins);
    AppendExtendsOneChain(records, approve, later, id);
    AppendKeepsChained(records, approve, later);
    var chain := Chain(Append(records, approve, later).value, id);
    assert LegalAt(chain, id, |chain| - 1);
  }

  /** An answered gate is never answered again in its cycle. */
  lemma AnsweredOnce(records: Records, gate: string, cycle: int, slug: string, actor: string, pins: Pins,
                     now: int, later: int, again: Pins, now2: int, later2: int)
    requires Chained(records) && Recorded(records, gate, cycle, slug, actor, pins, now, later).Ok?
    ensures Recorded(Recorded(records, gate, cycle, slug, actor, pins, now, later).value,
                     gate, cycle, slug, actor, again, now2, later2).Err?
  {
    AnswerIsCurrent(records, gate, cycle, slug, actor, pins, now, later);
    AnsweredExactlyWhen(Recorded(records, gate, cycle, slug, actor, pins, now, later).value,
                        gate, cycle, slug, actor, again, now2, later2);
  }

  /** A new cycle asks its gates anew: no two cycles share a chain. */
  lemma CyclesHaveOwnChains(gate1: string, cycle1: nat, gate2: string, cycle2: nat)
    requires ':' !in gate1 && ':' !in gate2 && cycle1 >= 1 && cycle2 >= 1
    requires ApprovalRequestID(gate1, cycle1) == ApprovalRequestID(gate2, cycle2)
    ensures gate1 == gate2 && cycle1 == cycle2
  {
    SplitId(gate1, cycle1);
    SplitId(gate2, cycle2);
    NumeralReadsBack(cycle1);
    NumeralReadsBack(cycle2);
  }

  lemma SplitFour(a: string, b: string, c: string, d: string)
    requires ':' !in a && ':' !in b && ':' !in c && ':' !in d
    ensures Split(a + ":" + b + ":" + c + ":" + d, ':') == [a, b, c, d]
  {
    assert a + ":" + b + ":" + c + ":" + d == a + ":" + (b + ":" + c + ":" + d);
    SplitAtFirst(a, b + ":" + c + ":" + d, ':');
    SplitThree(b, c, d);
  }

  lemma SplitId(gate: string, cycle: nat)
    requires ':' !in gate && cycle >= 1
    ensures Split(ApprovalRequestID(gate, cycle), ':') ==
            if cycle > 1 then ["approve", gate, "cycle", Numeral(cycle)] else ["approve", gate]
  {
    if cycle > 1 {
      SplitFour("approve", gate, "cycle", Numeral(cycle));
    } else {
      SplitAtFirst("approve", gate, ':');
      SplitOne(gate, ':');
    }
  }

  // ----- every run -----

  /** A write to the record map: a request transition, or some other record under its own key. */
  datatype Write = Transitioned(rec: Rec, now: int) | Unrelated(key: string, entry: Entry)

  function After(records: Records, w: Write): Records {
    match w
    case Transitioned(rec, now) =>
      var r := Append(records, rec, now);
      if r.Ok? then r.value else records
    case Unrelated(key, entry) => if HasPrefix(key) then records else records[key := entry]
  }

  function Run(records: Records, writes: seq<Write>): Records {
    if writes == [] then records else After(Run(records, writes[..|writes| - 1]), writes[|writes| - 1])
  }

  lemma UnrelatedKeepsChains(records: Records, key: string, entry: Entry)
    requires Chained(records) && !HasPrefix(key)
    ensures Chained(records[key := entry])
    ensures forall id {:trigger Chain(records, id)} :: Chain(records[key := entry], id) == Chain(records, id)
  {
    var more := records[key := entry];
    forall id ensures Depth(more, id) == Depth(records, id) && Chain(more, id) == Chain(records, id) {
      forall k | 0 <= k < MAX_DEPTH ensures key != Key(id, k) {
        KeyParts(id, k);
      }
      DepthElsewhere(records, key, entry, id, 0);
    }
    forall id, n | Depth(more, id) <= n < MAX_DEPTH ensures Key(id, n) !in more {
      KeyParts(id, n);
      assert Depth(more, id) == Depth(records, id);
    }
  }

  /** In every run every chain is a legal path of at most four records sharing the identity pinned at
      creation, and what was recorded stays. */
  lemma {:induction false} EveryRunIsChained(writes: seq<Write>, id: string)
    ensures Chained(Run(map[], writes))
    ensures var chain := Chain(Run(map[], writes), id);
            && LegalChain(chain, id) && |chain| <= MAX_DEPTH
            && (writes != [] ==> Chain(Run(map[], writes[..|writes| - 1]), id) <= chain)
    decreases |writes|
  {
    if writes == [] {
      assert forall id :: Depth(map[], id) == 0;
    } else {
      var n := |writes| - 1;
      EveryRunIsChained(writes[..n], id);
      StepKeepsChains(Run(map[], writes[..n]), writes[n], id);
    }
  }

  lemma StepKeepsChains(records: Records, w: Write, id: string)
    requires Chained(records)
    ensures Chained(After(records, w)) && Chain(records, id) <= Chain(After(records, w), id)
  {
    if w.Transitioned? && Append(records, w.rec, w.now).Ok? {
      AppendKeepsChained(records, w.rec, w.now);
      AppendExtendsOneChain(records, w.rec, w.now, id);
    } else if w.Unrelated? && !HasPrefix(w.key) {
      UnrelatedKeepsChains(records, w.key, w.entry);
      assert Chain(records, id) == Chain(After(records, w), id);
    }
  }
}
