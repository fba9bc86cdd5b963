/** Deployment attempts and frozen release candidates: ledgers appended to under the spec lock, by the
    operator and by adapter envelopes. Digests of records are taken to be the records themselves. */
module Deployments {
  import opened Common

  datatype Trust = AttestedCI | SignedRuntime | OperatorFile | Untrusted(text: string)

  /** The fields the ledgers look at; `rest` stands for the others. */
  datatype Deployment = Deployment(deploymentID: string, attempt: int, idempotencyKey: string, attestationRef: string,
                                   actor: string, startedAt: string, trust: Option<Trust>, message: string,
                                   rest: string)

  datatype Envelope = Envelope(wellFormed: bool, idempotencyKey: string, trust: Trust, attestationRef: string,
                               deployment: Deployment, message: string)

  datatype Conflict = Conflict(idempotencyKey: string, existing: Deployment, incoming: Deployment, trust: Trust)

  datatype Outcome = Created(record: Deployment) | Noop(record: Deployment) | Conflicting | Refused

  /** Record validation and message redaction. */
  datatype Rules = Rules(valid: Deployment -> bool, sanitize: string -> string)

  type Ledger = seq<Deployment>

  // ----- attempts -----

  function CountOf(ledger: Ledger, id: string): nat {
    if ledger == [] then 0
    else CountOf(ledger[..|ledger| - 1], id) + (if ledger[|ledger| - 1].deploymentID == id then 1 else 0)
  }

  /** The attempts of each deployment are 1, 2, 3, ... in the order they were appended. */
  predicate Numbered(ledger: Ledger) {
    forall i :: 0 <= i < |ledger| ==> ledger[i].attempt == CountOf(ledger[..i], ledger[i].deploymentID) + 1
  }

  function HighestAttempt(ledger: Ledger, id: string): nat {
    if ledger == [] then 0
    else
      var last := ledger[|ledger| - 1];
      var rest := HighestAttempt(ledger[..|ledger| - 1], id);
      if last.deploymentID == id && last.attempt > rest then last.attempt else rest
  }

  lemma {:induction false} HighestIsCount(ledger: Ledger, id: string)
    requires Numbered(ledger)
    ensures HighestAttempt(ledger, id) == CountOf(ledger, id)
  {
    if ledger != [] {
      var n := |ledger| - 1;
      forall i | 0 <= i < n ensures ledger[..n][i].attempt == CountOf(ledger[..n][..i], ledger[..n][i].deploymentID) + 1 {
        assert ledger[..n][..i] == ledger[..i];
      }
      HighestIsCount(ledger[..n], id);
    }
  }

  /** In a numbered ledger no two records share deployment and attempt, and every number up to the last
      one is there. */
  lemma {:induction false} AttemptsAreAllThere(ledger: Ledger, id: string, k: nat)
    requires Numbered(ledger) && 1 <= k <= CountOf(ledger, id)
    ensures exists i :: 0 <= i < |ledger| && ledger[i].deploymentID == id && ledger[i].attempt == k
  {
    if ledger != [] {
      var n := |ledger| - 1;
      forall i | 0 <= i < n ensures ledger[..n][i].attempt == CountOf(ledger[..n][..i], ledger[..n][i].deploymentID) + 1 {
        assert ledger[..n][..i] == ledger[..i];
      }
      if k <= CountOf(ledger[..n], id) {
        AttemptsAreAllThere(ledger[..n], id, k);
        var i :| 0 <= i < n && ledger[..n][i].deploymentID == id && ledger[..n][i].attempt == k;
        assert ledger[i].attempt == k;
      } else {
        assert ledger[n].attempt == k;
      }
    }
  }

  lemma {:induction false} CountRises(ledger: Ledger, id: string, i: nat, j: nat)
    requires i <= j <= |ledger|
    ensures CountOf(ledger[..i], id) <= CountOf(ledger[..j], id)
    decreases j - i
  {
    if i < j {
      CountRises(ledger, id, i, j - 1);
      assert ledger[..j][..j - 1] == ledger[..j - 1];
    }
  }

  lemma AttemptsAreDistinct(ledger: Ledger, i: nat, j: nat)
    requires Numbered(ledger) && i < j < |ledger| && ledger[i].deploymentID == ledger[j].deploymentID
    ensures ledger[i].attempt < ledger[j].attempt
  {
    var id := ledger[i].deploymentID;
    assert ledger[..i + 1][..i] == ledger[..i];
    CountRises(ledger, id, i + 1, j);
  }

  lemma AppendNumbered(ledger: Ledger, d: Deployment)
    requires Numbered(ledger) && d.attempt == HighestAttempt(ledger, d.deploymentID) + 1
    ensures Numbered(ledger + [d])
  {
    var more := ledger + [d];
    HighestIsCount(ledger, d.deploymentID);
    forall i | 0 <= i < |more| ensures more[i].attempt == CountOf(more[..i], more[i].deploymentID) + 1 {
      assert i < |ledger| ==> more[..i] == ledger[..i];
      assert more[..|ledger|] == ledger;
    }
  }

  // ----- the two writers, as functions of the ledger -----

  function Defaulted(d: Deployment, attempt: int, actor: string, now: string): Deployment {
    d.(attempt := attempt, actor := if d.actor == "" then actor else d.actor,
       startedAt := if d.startedAt == "" then now else d.startedAt)
  }

  /** The attempt that an operator's deployment is recorded as. */
  function Attempted(rules: Rules, ledger: Ledger, d: Deployment, actor: string, now: string): Option<Deployment> {
    var next := Defaulted(d, HighestAttempt(ledger, d.deploymentID) + 1, actor, now);
    if rules.valid(next) then Some(next) else None
  }

  predicate EnvelopeValid(rules: Rules, e: Envelope) {
    && e.wellFormed && !Blank(e.idempotencyKey) && !e.trust.Untrusted?
    && (e.trust == OperatorFile || !Blank(e.attestationRef))
    && e.deployment.idempotencyKey == e.idempotencyKey && e.deployment.attestationRef == e.attestationRef
    && rules.valid(e.deployment)
  }

  function Incoming(rules: Rules, e: Envelope, attempt: int): Deployment {
    e.deployment.(trust := Some(e.trust), message := rules.sanitize(e.message), attempt := attempt)
  }

  /** The first record with an idempotency key. */
  function FirstWithKey(ledger: Ledger, key: string): (r: Option<nat>)
    ensures r.Some? ==> r.value < |ledger| && ledger[r.value].idempotencyKey == key
    ensures r.Some? ==> forall i :: 0 <= i < r.value ==> ledger[i].idempotencyKey != key
    ensures r.None? ==> forall i :: 0 <= i < |ledger| ==> ledger[i].idempotencyKey != key
  {
    if ledger == [] then None
    else
      var n := |ledger| - 1;
      var before := FirstWithKey(ledger[..n], key);
      if before.Some? then before
      else if ledger[n].idempotencyKey == key then Some(n)
      else None
  }

  function Applied(rules: Rules, ledger: Ledger, e: Envelope): Outcome {
    if !EnvelopeValid(rules, e) then Refused
    else
      match FirstWithKey(ledger, e.idempotencyKey)
      case Some(i) =>
        if ledger[i] == Incoming(rules, e, ledger[i].attempt) then Noop(ledger[i]) else Conflicting
      case None =>
        var next := Incoming(rules, e, HighestAttempt(ledger, e.deployment.deploymentID) + 1);
        if rules.valid(next) then Created(next) else Refused
  }

  lemma FoundFirst(ds: seq<Deployment>, i: nat, key: string)
    requires i < |ds| && FirstWithKey(ds[..i], key).None? && ds[i].idempotencyKey == key
    ensures FirstWithKey(ds, key) == Some(i)
  {
    assert ds[..i + 1][..i] == ds[..i];
    FirstWithKeyStays(ds[..i + 1], ds[i + 1..], key);
    assert ds[..i + 1] + ds[i + 1..] == ds;
  }

  /** What an envelope says, as a record. */
  function Said(rules: Rules, e: Envelope, attempt: int): Deployment {
    Deployment(e.deployment.deploymentID, attempt, e.deployment.idempotencyKey, e.deployment.attestationRef,
               e.deployment.actor, e.deployment.startedAt, Some(e.trust), rules.sanitize(e.message), e.deployment.rest)
  }

  predicate FirstUnder(ds: seq<Deployment>, i: nat, key: string) {
    i < |ds| && ds[i].idempotencyKey == key && forall j :: 0 <= j < i ==> ds[j].idempotencyKey != key
  }

  /** A conflict that sets the first record under the key of an envelope against what the envelope says. */
  ghost predicate Reports(rules: Rules, ds: seq<Deployment>, e: Envelope, c: Conflict) {
    && c.idempotencyKey == e.idempotencyKey && c.trust == e.trust
    && c.existing != c.incoming && c.incoming == Said(rules, e, c.existing.attempt)
    && exists i: nat :: FirstUnder(ds, i, e.idempotencyKey) && ds[i] == c.existing
  }

  class DeliveryRecords {
    const rules: Rules
    var deployments: Ledger
    var conflicts: seq<Conflict>

    constructor (rules: Rules)
      ensures this.rules == rules && deployments == [] && conflicts == []
    {
      this.rules, deployments, conflicts := rules, [], [];
    }

    method AppendDeploymentAttempt(d: Deployment, actor: string, now: string) returns (r: Option<Deployment>)
      modifies this`deployments
      ensures r == Attempted(rules, old(deployments), d, actor, now)
      ensures deployments == if r.Some? then old(deployments) + [r.value] else old(deployments)
      ensures Numbered(old(deployments)) ==> Numbered(deployments)
    {
      var attempt := 0;
      for i := 0 to |deployments|
        invariant attempt == HighestAttempt(deployments[..i], d.deploymentID)
      {
        assert deployments[..i + 1][..i] == deployments[..i];
        if deployments[i].deploymentID == d.deploymentID && deployments[i].attempt > attempt {
          attempt := deployments[i].attempt;
        }
      }
      assert deployments[..|deployments|] == deployments;
      var next := Defaulted(d, attempt + 1, actor, now);
      if !rules.valid(next) {
        return None;
      }
      if Numbered(deployments) {
        AppendNumbered(deployments, next);
      }
      deployments := deployments + [next];
      return Some(next);
    }

    /** The first record under an idempotency key. */
    method FindKey(key: string) returns (found: Option<nat>)
      ensures found == FirstWithKey(deployments, key)
    {
      for i := 0 to |deployments|
        invariant FirstWithKey(deployments[..i], key).None?
      {
        assert deployments[..i + 1][..i] == deployments[..i];
        if deployments[i].idempotencyKey == key {
          FoundFirst(deployments, i, key);
          return Some(i);
        }
      }
      assert deployments[..|deployments|] == deployments;
      return None;
    }

    /** The attempt number after the highest one of a deployment. */
    method NextAttempt(deploymentID: string) returns (attempt: int)
      ensures attempt == HighestAttempt(deployments, deploymentID) + 1
    {
      attempt := 1;
      for i := 0 to |deployments|
        invariant attempt == HighestAttempt(deployments[..i], deploymentID) + 1
      {
        assert deployments[..i + 1][..i] == deployments[..i];
        if deployments[i].deploymentID == deploymentID && deployments[i].attempt >= attempt {
          attempt := deployments[i].attempt + 1;
        }
      }
      assert deployments[..|deployments|] == deployments;
    }

    method ApplyDeploymentAdapterEnvelope(e: Envelope) returns (outcome: Outcome)
      modifies this
      ensures outcome == Applied(rules, old(deployments), e)
      ensures deployments == if outcome.Created? then old(deployments) + [outcome.record] else old(deployments)
      ensures outcome != Conflicting ==> conflicts == old(conflicts)
      ensures outcome == Conflicting ==>
                exists c :: conflicts == old(conflicts) + [c] && Reports(rules, old(deployments), e, c)
      ensures Numbered(old(deployments)) ==> Numbered(deployments)
    {
      if !EnvelopeValid(rules, e) {
        return Refused;
      }
      var found := FindKey(e.idempotencyKey);
      if found.Some? {
        var record := deployments[found.value];
        var incoming := Incoming(rules, e, record.attempt);
        if record == incoming {
          return Noop(record);
        }
        assert FirstUnder(deployments, found.value, e.idempotencyKey);
        conflicts := conflicts + [Conflict(e.idempotencyKey, record, incoming, e.trust)];
        return Conflicting;
      }
      var attempt := NextAttempt(e.deployment.deploymentID);
      var next := Incoming(rules, e, attempt);
      if !rules.valid(next) {
        return Refused;
      }
      if Numbered(deployments) {
        AppendNumbered(deployments, next);
      }
      deployments := deployments + [next];
      return Created(next);
    }
  }

  lemma {:induction false} FirstWithKeyStays(ledger: Ledger, more: Ledger, key: string)
    requires FirstWithKey(ledger, key).Some?
    ensures FirstWithKey(ledger + more, key) == FirstWithKey(ledger, key)
  {
    if more == [] {
      assert ledger + more == ledger;
    } else {
      var n := |more| - 1;
      FirstWithKeyStays(ledger, more[..n], key);
      assert (ledger + more)[..|ledger + more| - 1] == ledger + more[..n];
    }
  }

  // ----- every interleaving -----

  datatype Op = Attempt(d: Deployment, actor: string, now: string) | Apply(e: Envelope)

  function After(rules: Rules, ledger: Ledger, op: Op): Ledger {
    match op
    case Attempt(d, actor, now) =>
      (match Attempted(rules, ledger, d, actor, now)
       case Some(next) => ledger + [next]
       case None => ledger)
    case Apply(e) =>
      var outcome := Applied(rules, ledger, e);
      if outcome.Created? then ledger + [outcome.record] else ledger
  }

  function Run(rules: Rules, ledger: Ledger, ops: seq<Op>): Ledger {
    if ops == [] then ledger else After(rules, Run(rules, ledger, ops[..|ops| - 1]), ops[|ops| - 1])
  }

  /** However operator attempts and envelopes interleave, attempts stay numbered from one on, and every
      record once appended stays where it is. */
  lemma {:induction false} EveryLedgerIsNumbered(rules: Rules, ledger: Ledger, ops: seq<Op>)
    requires Numbered(ledger)
    ensures Numbered(Run(rules, ledger, ops)) && ledger <= Run(rules, ledger, ops)
  {
    if ops != [] {
      var n := |ops| - 1;
      EveryLedgerIsNumbered(rules, ledger, ops[..n]);
      var before := Run(rules, ledger, ops[..n]);
      var after := After(rules, before, ops[n]);
      if after != before {
        AppendNumbered(before, after[|before|]);
        assert after == before + [after[|before|]];
      }
    }
  }

  /** Applying an envelope again, whatever happened since, is a no-op that returns the record it made. */
  lemma ReapplyIsNoop(rules: Rules, ledger: Ledger, e: Envelope, ops: seq<Op>)
    requires Numbered(ledger) && Applied(rules, ledger, e).Created?
    ensures Applied(rules, Run(rules, After(rules, ledger, Apply(e)), ops), e) == Noop(Applied(rules, ledger, e).record)
    ensures After(rules, Run(rules, After(rules, ledger, Apply(e)), ops), Apply(e)) ==
            Run(rules, After(rules, ledger, Apply(e)), ops)
  {
    var made := After(rules, ledger, Apply(e));
    var record := Applied(rules, ledger, e).record;
    assert Numbered(made) by {
      AppendNumbered(ledger, record);
    }
    EveryLedgerIsNumbered(rules, made, ops);
    var later := Run(rules, made, ops);
    assert later == made + later[|made|..];
    assert made[..|ledger|] == ledger;
    FirstWithKeyStays(made, later[|made|..], e.idempotencyKey);
    assert later[|ledger|] == record;
  }

  /** An operator's deployment is appended as its next attempt, if that is a valid record, with the actor and
      the time it names or else those of the call; nothing else of it changes. */
  lemma AttemptedExactly(rules: Rules, ledger: Ledger, d: Deployment, actor: string, now: string)
    requires Numbered(ledger)
    ensures var next := Deployment(d.deploymentID, CountOf(ledger, d.deploymentID) + 1, d.idempotencyKey, d.attestationRef,
                                   if d.actor != "" then d.actor else actor,
                                   if d.startedAt != "" then d.startedAt else now, d.trust, d.message, d.rest);
            After(rules, ledger, Attempt(d, actor, now)) == if rules.valid(next) then ledger + [next] else ledger
  {
    HighestIsCount(ledger, d.deploymentID);
  }

  /** An envelope in form: from an allowed source, attested unless the operator wrote it, and agreeing with
      the deployment it carries. */
  predicate Proper(rules: Rules, e: Envelope) {
    && e.wellFormed && !Blank(e.idempotencyKey)
    && (e.trust == OperatorFile || ((e.trust == AttestedCI || e.trust == SignedRuntime) && !Blank(e.attestationRef)))
    && e.deployment.idempotencyKey == e.idempotencyKey && e.deployment.attestationRef == e.attestationRef
    && rules.valid(e.deployment)
  }

  lemma ProperExactly(rules: Rules, ledger: Ledger, e: Envelope)
    ensures EnvelopeValid(rules, e) <==> Proper(rules, e)
    ensures !Proper(rules, e) ==> Applied(rules, ledger, e) == Refused
  {
  }

  lemma SaidIs(rules: Rules, e: Envelope, attempt: int)
    ensures Incoming(rules, e, attempt) == Said(rules, e, attempt)
  {
  }

  /** An envelope in form whose key is new is appended as the next attempt of its deployment, if that is a
      valid record. */
  lemma NewKeyIsApplied(rules: Rules, ledger: Ledger, e: Envelope)
    requires Numbered(ledger) && Proper(rules, e)
    requires forall d :: d in ledger ==> d.idempotencyKey != e.idempotencyKey
    ensures var next := Said(rules, e, CountOf(ledger, e.deployment.deploymentID) + 1);
            Applied(rules, ledger, e) == if rules.valid(next) then Created(next) else Refused
  {
    HighestIsCount(ledger, e.deployment.deploymentID);
    ProperExactly(rules, ledger, e);
    NothingUnder(ledger, e.idempotencyKey);
    TakenAsNew(rules, ledger, e, CountOf(ledger, e.deployment.deploymentID));
  }

  lemma NothingUnder(ledger: Ledger, key: string)
    requires forall d :: d in ledger ==> d.idempotencyKey != key
    ensures FirstWithKey(ledger, key).None?
  {
  }

  lemma TakenAsNew(rules: Rules, ledger: Ledger, e: Envelope, n: nat)
    requires EnvelopeValid(rules, e) && FirstWithKey(ledger, e.idempotencyKey).None?
    requires HighestAttempt(ledger, e.deployment.deploymentID) == n
    ensures Applied(rules, ledger, e) ==
            if rules.valid(Said(rules, e, n + 1)) then Created(Said(rules, e, n + 1)) else Refused
  {
    SaidIs(rules, e, n + 1);
  }

  /** One whose key is known is compared with the first record under it, and nothing is appended. */
  lemma KnownKeyIsCompared(rules: Rules, ledger: Ledger, e: Envelope, i: nat)
    requires Proper(rules, e) && FirstUnder(ledger, i, e.idempotencyKey)
    ensures Applied(rules, ledger, e) ==
            if ledger[i] == Said(rules, e, ledger[i].attempt) then Noop(ledger[i]) else Conflicting
    ensures After(rules, ledger, Apply(e)) == ledger
  {
    ProperExactly(rules, ledger, e);
    SaidIs(rules, e, ledger[i].attempt);
    assert FirstWithKey(ledger, e.idempotencyKey) == Some(i);
  }

  /** An envelope that reuses a key conflicts exactly when it says something else than the first record
      with that key, its attempt number aside. */
  lemma ConflictsExactlyWhen(rules: Rules, ledger: Ledger, e: Envelope)
    requires EnvelopeValid(rules, e)
    ensures Applied(rules, ledger, e) == Conflicting <==>
            exists i :: 0 <= i < |ledger| && ledger[i].idempotencyKey == e.idempotencyKey
                        && (forall j :: 0 <= j < i ==> ledger[j].idempotencyKey != e.idempotencyKey)
                        && ledger[i].(attempt := 0) != Incoming(rules, e, 0)
  {
  }

  // ----- release candidates -----

  datatype Release = Release(releaseID: string, content: string)

  predicate OneEach(releases: seq<Release>) {
    forall i, j :: 0 <= i < j < |releases| ==> releases[i].releaseID != releases[j].releaseID
  }

  class Releases {
    const valid: Release -> bool
    var frozen: seq<Release>

    constructor (valid: Release -> bool)
      ensures this.valid == valid && frozen == []
    {
      this.valid, frozen := valid, [];
    }

    /** Freezes a candidate once: a second one under its id gives back the first, unchanged. */
    method FreezeReleaseCandidate(r: Release) returns (kept: Option<Release>)
      modifies this
      ensures kept.None? <==> !valid(r)
      ensures kept.Some? ==> kept.value.releaseID == r.releaseID && kept.value in frozen
      ensures frozen == if kept.Some? && kept.value !in old(frozen) then old(frozen) + [r] else old(frozen)
      ensures kept.Some? && kept.value != r ==> kept.value in old(frozen)
      ensures OneEach(old(frozen)) ==> OneEach(frozen)
    {
      if !valid(r) {
        return None;
      }
      for i := 0 to |frozen|
        invariant forall j :: 0 <= j < i ==> frozen[j].releaseID != r.releaseID
        invariant frozen == old(frozen)
      {
        if frozen[i].releaseID == r.releaseID {
          return Some(frozen[i]);
        }
      }
      frozen := frozen + [r];
      return Some(r);
    }
  }
}
