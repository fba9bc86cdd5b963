/** Which acceptance criteria are currently passing, and which a disposed task would leave uncovered. */
module Criteria {
  import opened Common
  import opened StringOrder

  /** `at` is the instant the timestamp denotes, if it denotes one. */
  datatype CriterionRecord = CriterionRecord(criterion: string, passes: bool, at: Option<int>)

  datatype Stamped = Stamped(passes: bool, at: int)

  /** A record that counts from an anchor on. */
  predicate Counts(rec: CriterionRecord, id: string, since: int) {
    rec.criterion == id && rec.at.Some? && rec.at.value >= since
  }

  /** The newest counting record of a criterion; of equally old ones the one appended last. */
  predicate Newest(records: seq<CriterionRecord>, id: string, since: int, i: nat) {
    && i < |records| && Counts(records[i], id, since)
    && forall j :: 0 <= j < |records| && Counts(records[j], id, since) ==>
         records[j].at.value < records[i].at.value || (records[j].at == records[i].at && j <= i)
  }

  predicate Passing(records: seq<CriterionRecord>, id: string, since: int) {
    exists i :: 0 <= i < |records| && Newest(records, id, since, i) && records[i].passes
  }

  method CurrentPassing(records: seq<CriterionRecord>, since: int) returns (passing: set<string>)
    ensures forall id :: id in passing <==> Passing(records, id, since)
  {
    var latest: map<string, Stamped> := map[];
    for k := 0 to |records|
      invariant forall id :: id in latest ==>
                  exists i :: 0 <= i < k && Newest(records[..k], id, since, i)
                              && latest[id] == Stamped(records[i].passes, records[i].at.value)
      invariant forall id, i :: 0 <= i < k && Counts(records[i], id, since) ==> id in latest
    {
      var rec := records[k];
      ghost var before := latest;
      if rec.at.Some? && rec.at.value >= since
         && !(rec.criterion in latest && rec.at.value < latest[rec.criterion].at) {
        latest := latest[rec.criterion := Stamped(rec.passes, rec.at.value)];
      }
      forall id | id in latest
        ensures exists i :: 0 <= i < k + 1 && Newest(records[..k + 1], id, since, i)
                            && latest[id] == Stamped(records[i].passes, records[i].at.value)
      {
        if id in before {
          var i :| 0 <= i < k && Newest(records[..k], id, since, i)
                   && before[id] == Stamped(records[i].passes, records[i].at.value);
          NewestExtends(records, id, since, k, i);
        } else {
          assert Newest(records[..k + 1], id, since, k);
        }
      }
    }
    assert records[..|records|] == records;
    forall id | id in latest ensures latest[id].passes <==> Passing(records, id, since) {
      var i :| 0 <= i < |records| && Newest(records, id, since, i)
               && latest[id] == Stamped(records[i].passes, records[i].at.value);
      OneNewest(records, id, since, i);
    }
    passing := set id | id in latest && latest[id].passes;
  }

  lemma NewestExtends(records: seq<CriterionRecord>, id: string, since: int, k: nat, i: nat)
    requires k < |records| && Newest(records[..k], id, since, i)
    ensures Newest(records[..k + 1], id, since,
                   if Counts(records[k], id, since) && records[k].at.value >= records[i].at.value then k else i)
  {
  }

  lemma OneNewest(records: seq<CriterionRecord>, id: string, since: int, i: nat)
    requires Newest(records, id, since, i)
    ensures Passing(records, id, since) <==> records[i].passes
  {
  }

  /** A criterion passes if and only if some record of it passes, dated at or after the anchor, and every other
      record of it is older, or as old and appended before. */
  lemma PassingExactlyWhen(records: seq<CriterionRecord>, id: string, since: int)
    ensures Passing(records, id, since) <==>
            exists i :: 0 <= i < |records| && records[i].passes && records[i].criterion == id
                        && records[i].at.Some? && since <= records[i].at.value && NoneNewer(records, id, i)
  {
    if i :| 0 <= i < |records| && Newest(records, id, since, i) && records[i].passes {
      assert NoneNewer(records, id, i);
    }
    if i :| 0 <= i < |records| && records[i].passes && records[i].criterion == id
            && records[i].at.Some? && since <= records[i].at.value && NoneNewer(records, id, i) {
      assert Newest(records, id, since, i);
    }
  }

  predicate NoneNewer(records: seq<CriterionRecord>, id: string, i: nat)
    requires i < |records| && records[i].at.Some?
  {
    forall j :: 0 <= j < |records| && j != i && records[j].criterion == id && records[j].at.Some? ==>
      records[j].at.value < records[i].at.value || (records[j].at == records[i].at && j < i)
  }

  /** Moving the anchor later only removes criteria. */
  lemma LaterAnchorOnlyRemoves(records: seq<CriterionRecord>, id: string, since: int, later: int)
    requires since <= later && Passing(records, id, later)
    ensures Passing(records, id, since)
  {
  }

  /** A new record decides its criterion alone, unless it is dated before the anchor or before the
      record in force; the other criteria keep their verdict. */
  lemma AppendedRecordDecides(records: seq<CriterionRecord>, rec: CriterionRecord, id: string, since: int)
    ensures Passing(records + [rec], id, since) <==>
            if Counts(rec, id, since) && forall i :: 0 <= i < |records| && Counts(records[i], id, since) ==>
                 records[i].at.value <= rec.at.value
            then rec.passes
            else Passing(records, id, since)
  {
    var more := records + [rec];
    if Counts(rec, id, since) && forall i :: 0 <= i < |records| && Counts(records[i], id, since) ==>
         records[i].at.value <= rec.at.value {
      assert Newest(more, id, since, |records|);
      OneNewest(more, id, since, |records|);
    } else {
      assert more[..|records|] == records && more[..|more|] == more;
      forall i | 0 <= i < |records| && Newest(records, id, since, i) ensures Newest(more, id, since, i) {
        NewestExtends(more, id, since, |records|, i);
      }
      forall i | 0 <= i < |more| && Newest(more, id, since, i) ensures i < |records| && Newest(records, id, since, i) {
        if i == |records| {
          StillNewest(records, rec, id, since);
        }
        forall j | 0 <= j < |records| && Counts(records[j], id, since)
          ensures records[j].at.value < more[i].at.value || (records[j].at == more[i].at && j <= i)
        {
          assert more[j] == records[j];
        }
      }
    }
  }

  lemma StillNewest(records: seq<CriterionRecord>, rec: CriterionRecord, id: string, since: int)
    requires Newest(records + [rec], id, since, |records|)
    ensures forall i :: 0 <= i < |records| && Counts(records[i], id, since) ==> records[i].at.value <= rec.at.value
  {
    forall i | 0 <= i < |records| && Counts(records[i], id, since) ensures records[i].at.value <= rec.at.value {
      assert (records + [rec])[i] == records[i];
    }
  }

  // ----- coverage -----

  datatype Reassignment = Reassignment(criterion: string, from: string, to: string)

  /** Some reassignment hands the criterion to another task. */
  predicate HandedOn(reassignments: seq<Reassignment>, criterion: string, from: string) {
    exists i :: 0 <= i < |reassignments| && reassignments[i].criterion == criterion
                && reassignments[i].to != "" && reassignments[i].to != from
  }

  function Uncovered(criteria: seq<string>, from: string, reassignments: seq<Reassignment>): (r: seq<string>)
    ensures forall id :: id in r <==> id in criteria && !HandedOn(reassignments, id, from)
  {
    if criteria == [] then []
    else
      var n := |criteria| - 1;
      assert criteria == criteria[..n] + [criteria[n]];
      Uncovered(criteria[..n], from, reassignments)
      + (if HandedOn(reassignments, criteria[n], from) then [] else [criteria[n]])
  }

  method UncoveredCriteria(criteria: seq<string>, from: string, reassignments: seq<Reassignment>)
    returns (uncovered: seq<string>)
    ensures uncovered == Sorted(Uncovered(criteria, from, reassignments))
  {
    var covered: set<string> := {};
    for i := 0 to |reassignments|
      invariant forall id :: id in covered <==> HandedOn(reassignments[..i], id, from)
    {
      var r := reassignments[i];
      assert reassignments[..i + 1] == reassignments[..i] + [r];
      forall id ensures HandedOn(reassignments[..i + 1], id, from) <==>
                        HandedOn(reassignments[..i], id, from) || (id == r.criterion && r.to != "" && r.to != from)
      {
        HandedOnAppend(reassignments[..i], r, id, from);
      }
      if r.to != "" && r.to != from {
        covered := covered + {r.criterion};
      }
    }
    assert reassignments[..|reassignments|] == reassignments;
    uncovered := [];
    for i := 0 to |criteria|
      invariant uncovered == Uncovered(criteria[..i], from, reassignments)
    {
      assert criteria[..i + 1][..i] == criteria[..i];
      if criteria[i] !in covered {
        uncovered := uncovered + [criteria[i]];
      }
    }
    assert criteria[..|criteria|] == criteria;
    uncovered := Sorted(uncovered);
  }

  lemma HandedOnAppend(rs: seq<Reassignment>, r: Reassignment, id: string, from: string)
    ensures HandedOn(rs + [r], id, from) <==>
            HandedOn(rs, id, from) || (id == r.criterion && r.to != "" && r.to != from)
  {
    var more := rs + [r];
    if HandedOn(rs, id, from) {
      var i :| 0 <= i < |rs| && rs[i].criterion == id && rs[i].to != "" && rs[i].to != from;
      assert more[i] == rs[i];
    }
    if id == r.criterion && r.to != "" && r.to != from {
      assert more[|rs|] == r;
    }
  }
}
