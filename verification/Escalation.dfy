/** The verify-failure ratchet: how many failures of a task stand since its last pass or clearance. */
module Escalation {
  import opened StringOrder

  datatype Evidence = Evidence(taskID: string, timestamp: string, exitCode: int)

  datatype Override = Override(taskID: string, timestamp: string)

  // ----- what counts -----

  predicate Fails(evidence: seq<Evidence>, id: string, i: nat) {
    i < |evidence| && evidence[i].taskID == id && evidence[i].exitCode != 0
  }

  predicate Passes(evidence: seq<Evidence>, id: string, i: nat) {
    i < |evidence| && evidence[i].taskID == id && evidence[i].exitCode == 0
  }

  /** Verify records are ordered by timestamp, then by when they were appended. */
  predicate After(evidence: seq<Evidence>, j: nat, i: nat)
    requires i < |evidence| && j < |evidence|
  {
    Less(evidence[i].timestamp, evidence[j].timestamp) || (evidence[i].timestamp == evidence[j].timestamp && i < j)
  }

  /** A failure stands when no pass follows it and no override is dated as late or later. */
  predicate Stands(evidence: seq<Evidence>, overrides: seq<Override>, id: string, i: nat) {
    && Fails(evidence, id, i)
    && (forall j :: 0 <= j < |evidence| && Passes(evidence, id, j) ==> !After(evidence, j, i))
    && (forall k :: 0 <= k < |overrides| && overrides[k].taskID == id ==>
          Less(overrides[k].timestamp, evidence[i].timestamp))
  }

  function Standing(evidence: seq<Evidence>, overrides: seq<Override>, id: string): set<nat> {
    set i: nat | i < |evidence| && Stands(evidence, overrides, id, i)
  }

  // ----- the merged timeline -----

  datatype Event = Event(ts: string, sub: nat, index: nat, reset: bool)

  /** Timestamp, then verify records before overrides. */
  predicate Before(a: Event, b: Event) {
    if a.ts != b.ts then Less(a.ts, b.ts) else a.sub < b.sub
  }

  /** The same with append order last: the order a stable sort leaves. */
  predicate Earlier(a: Event, b: Event) {
    Before(a, b) || (a.ts == b.ts && a.sub == b.sub && a.index < b.index)
  }

  predicate Chronological(events: seq<Event>) {
    forall i, j :: 0 <= i < j < |events| ==> Earlier(events[i], events[j])
  }

  lemma EarlierOrder(a: Event, b: Event, c: Event)
    ensures !(Earlier(a, b) && Earlier(b, a))
    ensures Earlier(a, b) && Earlier(b, c) ==> Earlier(a, c)
  {
    LessTotal(a.ts, b.ts);
    LessTotal(b.ts, c.ts);
    LessTotal(a.ts, c.ts);
    if Less(a.ts, b.ts) && Less(b.ts, c.ts) {
      LessTransitive(a.ts, b.ts, c.ts);
    }
  }

  /** Places an event after every one it does not come before. */
  function Insert(x: Event, s: seq<Event>): (r: seq<Event>)
    ensures forall y :: y in r <==> y == x || y in s
  {
    if s == [] then [x]
    else
      assert s == [s[0]] + s[1..];
      if Before(x, s[0]) then [x] + s else [s[0]] + Insert(x, s[1..])
  }

  /** `sort.SliceStable`. */
  function StableSort(s: seq<Event>): (r: seq<Event>)
    ensures forall y :: y in r <==> y in s
  {
    if s == [] then []
    else
      assert s == s[..|s| - 1] + [s[|s| - 1]];
      Insert(s[|s| - 1], StableSort(s[..|s| - 1]))
  }

  /** Events of one kind are listed in append order. */
  predicate ByKind(s: seq<Event>) {
    forall i, j :: 0 <= i < j < |s| && s[i].sub == s[j].sub ==> s[i].index < s[j].index
  }

  lemma {:induction false} InsertKeepsOrder(x: Event, s: seq<Event>)
    requires Chronological(s) && forall i :: 0 <= i < |s| && s[i].sub == x.sub ==> s[i].index < x.index
    ensures Chronological(Insert(x, s))
  {
    if s != [] {
      LessTotal(x.ts, s[0].ts);
      if Before(x, s[0]) {
        forall j | 0 < j < |s| ensures Earlier(x, s[j]) {
          EarlierOrder(x, s[0], s[j]);
        }
      } else {
        InsertKeepsOrder(x, s[1..]);
        var t := Insert(x, s[1..]);
        forall j | 0 <= j < |t| ensures Earlier(s[0], t[j]) {
          assert t[j] in t;
          if t[j] != x {
            var k :| 0 <= k < |s[1..]| && s[1..][k] == t[j];
            assert s[k + 1] == t[j];
          }
        }
      }
    }
  }

  lemma {:induction false} StableSortIsChronological(s: seq<Event>)
    requires ByKind(s)
    ensures Chronological(StableSort(s))
  {
    if s != [] {
      var n := |s| - 1;
      StableSortIsChronological(s[..n]);
      var t := StableSort(s[..n]);
      forall i | 0 <= i < |t| && t[i].sub == s[n].sub ensures t[i].index < s[n].index {
        assert t[i] in t;
        var k :| 0 <= k < |s[..n]| && s[..n][k] == t[i];
      }
      InsertKeepsOrder(s[n], t);
    }
  }

  // ----- counting -----

  /** Failures in a prefix of the timeline with no reset after them. */
  function Trailing(events: seq<Event>): set<nat> {
    if events == [] then {}
    else if events[|events| - 1].reset then {}
    else Trailing(events[..|events| - 1]) + {events[|events| - 1].index}
  }

  lemma {:induction false} TrailingMembers(events: seq<Event>, i: nat)
    ensures i in Trailing(events) <==>
            exists p :: 0 <= p < |events| && events[p].index == i && NoResetFrom(events, p)
  {
    if events != [] {
      var n := |events| - 1;
      var last := events[n];
      TrailingMembers(events[..n], i);
      if last.reset {
        forall p | 0 <= p < |events| ensures !NoResetFrom(events, p) {
          assert events[n].reset;
        }
      } else {
        forall p | 0 <= p < n ensures NoResetFrom(events, p) <==> NoResetFrom(events[..n], p) {
          assert forall q :: p <= q < n ==> events[..n][q] == events[q];
        }
        assert NoResetFrom(events, n);
        if i in Trailing(events[..n]) {
          var p :| 0 <= p < n && events[..n][p].index == i && NoResetFrom(events[..n], p);
          assert events[p].index == i && NoResetFrom(events, p);
        }
        if exists p :: 0 <= p < n && events[p].index == i && NoResetFrom(events, p) {
          var p :| 0 <= p < n && events[p].index == i && NoResetFrom(events, p);
          assert events[..n][p].index == i && NoResetFrom(events[..n], p);
        }
      }
    }
  }

  predicate NoResetFrom(events: seq<Event>, p: nat) {
    forall q :: p <= q < |events| ==> !events[q].reset
  }

  function VerifyEvent(evidence: seq<Evidence>, i: nat): Event
    requires i < |evidence|
  {
    Event(evidence[i].timestamp, 0, i, evidence[i].exitCode == 0)
  }

  function OverrideEvent(overrides: seq<Override>, k: nat): Event
    requires k < |overrides|
  {
    Event(overrides[k].timestamp, 1, k, true)
  }

  /** The list holds the task's verify records and overrides, and nothing else. */
  ghost predicate Merges(events: seq<Event>, evidence: seq<Evidence>, overrides: seq<Override>, id: string) {
    forall e :: e in events <==>
      || (e.index < |evidence| && evidence[e.index].taskID == id && e == VerifyEvent(evidence, e.index))
      || (e.index < |overrides| && overrides[e.index].taskID == id && e == OverrideEvent(overrides, e.index))
  }

  lemma StandingIsTrailing(events: seq<Event>, evidence: seq<Evidence>, overrides: seq<Override>, id: string)
    requires Chronological(events) && Merges(events, evidence, overrides, id)
    ensures Trailing(events) == Standing(evidence, overrides, id)
  {
    forall i: nat ensures i in Trailing(events) <==> i in Standing(evidence, overrides, id) {
      TrailingMembers(events, i);
      if i in Trailing(events) {
        TrailingStands(events, evidence, overrides, id, i);
      }
      if i in Standing(evidence, overrides, id) {
        StandsTrails(events, evidence, overrides, id, i);
      }
    }
  }

  lemma TrailingStands(events: seq<Event>, evidence: seq<Evidence>, overrides: seq<Override>, id: string, i: nat)
    requires Chronological(events) && Merges(events, evidence, overrides, id)
    requires exists p :: 0 <= p < |events| && events[p].index == i && NoResetFrom(events, p)
    ensures Stands(evidence, overrides, id, i)
  {
    var p :| 0 <= p < |events| && events[p].index == i && NoResetFrom(events, p);
    assert events[p] in events;
    assert events[p] == VerifyEvent(evidence, i);
    forall j | 0 <= j < |evidence| && Passes(evidence, id, j) ensures !After(evidence, j, i) {
      var e := VerifyEvent(evidence, j);
      assert e in events;
      var q :| 0 <= q < |events| && events[q] == e;
      assert q < p;
      EarlierOrder(events[q], events[p], events[p]);
      LessTotal(evidence[i].timestamp, evidence[j].timestamp);
    }
    forall k | 0 <= k < |overrides| && overrides[k].taskID == id
      ensures Less(overrides[k].timestamp, evidence[i].timestamp)
    {
      var e := OverrideEvent(overrides, k);
      assert e in events;
      var q :| 0 <= q < |events| && events[q] == e;
    }
  }

  lemma StandsTrails(events: seq<Event>, evidence: seq<Evidence>, overrides: seq<Override>, id: string, i: nat)
    requires Chronological(events) && Merges(events, evidence, overrides, id)
    requires Stands(evidence, overrides, id, i)
    ensures exists p :: 0 <= p < |events| && events[p].index == i && NoResetFrom(events, p)
  {
    var e := VerifyEvent(evidence, i);
    assert e in events;
    var p :| 0 <= p < |events| && events[p] == e;
    forall q | p <= q < |events| ensures !events[q].reset {
      assert events[q] in events;
      if q > p {
        LessTotal(events[q].ts, e.ts);
        assert Earlier(e, events[q]);
        if events[q].sub == 0 && events[q].reset {
          assert Passes(evidence, id, events[q].index);
          assert false;
        }
      }
    }
    assert events[p].index == i && NoResetFrom(events, p);
  }

  /** The task's events, verify records first, each kind in append order. */
  method Timeline(evidence: seq<Evidence>, overrides: seq<Override>, id: string) returns (events: seq<Event>)
    ensures ByKind(events) && Merges(events, evidence, overrides, id)
  {
    events := [];
    for i := 0 to |evidence|
      invariant ByKind(events) && forall p :: 0 <= p < |events| ==> events[p].sub == 0 && events[p].index < i
      invariant forall e :: e in events <==>
                  e.index < i && evidence[e.index].taskID == id && e == VerifyEvent(evidence, e.index)
    {
      if evidence[i].taskID == id {
        events := events + [VerifyEvent(evidence, i)];
      }
    }
    ghost var verifies := events;
    for k := 0 to |overrides|
      invariant ByKind(events) && forall p :: 0 <= p < |events| && events[p].sub != 0 ==> events[p].index < k
      invariant forall p :: 0 <= p < |events| ==> events[p].sub <= 1
      invariant forall e :: e in events <==>
                  e in verifies || (e.index < k && overrides[e.index].taskID == id && e == OverrideEvent(overrides, e.index))
    {
      if overrides[k].taskID == id {
        events := events + [OverrideEvent(overrides, k)];
      }
    }
  }

  lemma FreshIndex(events: seq<Event>, evidence: seq<Evidence>, overrides: seq<Override>, id: string, n: nat)
    requires Chronological(events) && Merges(events, evidence, overrides, id) && n < |events| && !events[n].reset
    ensures events[n].index !in Trailing(events[..n])
  {
    var i := events[n].index;
    TrailingMembers(events[..n], i);
    forall p | 0 <= p < n && events[..n][p].index == i ensures !NoResetFrom(events[..n], p) {
      assert events[n] in events && events[p] in events;
      EarlierOrder(events[p], events[n], events[n]);
      assert events[..n][p].reset;
    }
  }

  /** Walks the timeline, starting over at every pass and override. */
  method CountTrailing(events: seq<Event>, ghost evidence: seq<Evidence>, ghost overrides: seq<Override>, ghost id: string)
    returns (count: nat)
    requires Chronological(events) && Merges(events, evidence, overrides, id)
    ensures count == |Trailing(events)|
  {
    count := 0;
    for n := 0 to |events|
      invariant count == |Trailing(events[..n])|
    {
      assert events[..n + 1][..n] == events[..n];
      if events[n].reset {
        count := 0;
      } else {
        FreshIndex(events, evidence, overrides, id, n);
        count := count + 1;
      }
    }
    assert events[..|events|] == events;
  }

  lemma SortedTimeline(timeline: seq<Event>, evidence: seq<Evidence>, overrides: seq<Override>, id: string)
    requires ByKind(timeline) && Merges(timeline, evidence, overrides, id)
    ensures Chronological(StableSort(timeline)) && Merges(StableSort(timeline), evidence, overrides, id)
  {
    StableSortIsChronological(timeline);
  }

  /** The number of standing failures. */
  method ConsecutiveVerifyFails(evidence: seq<Evidence>, overrides: seq<Override>, id: string) returns (count: nat)
    ensures count == |Standing(evidence, overrides, id)|
  {
    var timeline := Timeline(evidence, overrides, id);
    SortedTimeline(timeline, evidence, overrides, id);
    StandingIsTrailing(StableSort(timeline), evidence, overrides, id);
    count := CountTrailing(StableSort(timeline), evidence, overrides, id);
  }

  // ----- what moves the count -----

  /** A pass dated no earlier than any failure clears the count. */
  lemma LatestPassClears(evidence: seq<Evidence>, overrides: seq<Override>, id: string, pass: Evidence)
    requires pass.taskID == id && pass.exitCode == 0
    requires forall i :: 0 <= i < |evidence| && Fails(evidence, id, i) ==> !Less(pass.timestamp, evidence[i].timestamp)
    ensures Standing(evidence + [pass], overrides, id) == {}
  {
    var more := evidence + [pass];
    forall i: nat | i < |more| ensures !Stands(more, overrides, id, i) {
      if Fails(more, id, i) {
        assert more[i] == evidence[i] && Fails(evidence, id, i);
        LessTotal(evidence[i].timestamp, pass.timestamp);
        assert Passes(more, id, |evidence|) && After(more, |evidence|, i);
      }
    }
  }

  /** So does an override dated no earlier than any failure, for it counts as the later of two with the
      same date. */
  lemma LatestOverrideClears(evidence: seq<Evidence>, overrides: seq<Override>, id: string, clear: Override)
    requires clear.taskID == id
    requires forall i :: 0 <= i < |evidence| && Fails(evidence, id, i) ==> !Less(clear.timestamp, evidence[i].timestamp)
    ensures Standing(evidence, overrides + [clear], id) == {}
  {
    forall i: nat | i < |evidence| ensures !Stands(evidence, overrides + [clear], id, i) {
      assert (overrides + [clear])[|overrides|] == clear;
    }
  }

  /** A failure after every verify record and every override of the task adds one, and no other. */
  lemma LaterFailureAddsOne(evidence: seq<Evidence>, overrides: seq<Override>, id: string, fail: Evidence)
    requires fail.taskID == id && fail.exitCode != 0
    requires forall i :: 0 <= i < |evidence| && evidence[i].taskID == id ==> !Less(fail.timestamp, evidence[i].timestamp)
    requires forall k :: 0 <= k < |overrides| && overrides[k].taskID == id ==>
               Less(overrides[k].timestamp, fail.timestamp)
    ensures Standing(evidence + [fail], overrides, id) == Standing(evidence, overrides, id) + {|evidence|}
    ensures |Standing(evidence + [fail], overrides, id)| == |Standing(evidence, overrides, id)| + 1
  {
    var more := evidence + [fail];
    forall j | 0 <= j < |more| && Passes(more, id, j) ensures !After(more, j, |evidence|) {
      assert more[j] == evidence[j];
    }
    assert Stands(more, overrides, id, |evidence|);
    forall i: nat | i < |evidence| ensures Stands(more, overrides, id, i) <==> Stands(evidence, overrides, id, i) {
      KeepsStanding(evidence, overrides, id, fail, i);
    }
  }

  lemma KeepsStanding(evidence: seq<Evidence>, overrides: seq<Override>, id: string, rec: Evidence, i: nat)
    requires i < |evidence| && (rec.taskID != id || rec.exitCode != 0)
    ensures Stands(evidence + [rec], overrides, id, i) <==> Stands(evidence, overrides, id, i)
  {
    var more := evidence + [rec];
    assert more[i] == evidence[i];
    forall j | 0 <= j < |more| ensures Passes(more, id, j) <==> j < |evidence| && Passes(evidence, id, j) {
      assert j < |evidence| ==> more[j] == evidence[j];
    }
    forall j | 0 <= j < |evidence| ensures After(more, j, i) <==> After(evidence, j, i) {
      assert more[j] == evidence[j];
    }
    assert forall j :: 0 <= j < |evidence| && Passes(evidence, id, j) ==> Passes(more, id, j);
  }

  // ----- the ratchet -----

  predicate IsEscalated(fails: int, maxFails: int) {
    maxFails > 0 && fails >= maxFails
  }

  /** The escalated tasks among those given, each with its count. */
  method EscalatedCounts(evidence: seq<Evidence>, overrides: seq<Override>, tasks: seq<string>, maxFails: int)
    returns (out: map<string, nat>)
    ensures forall id :: id in out <==> id in tasks && IsEscalated(|Standing(evidence, overrides, id)|, maxFails)
    ensures forall id :: id in out ==> out[id] == |Standing(evidence, overrides, id)|
    ensures maxFails <= 0 ==> out == map[]
  {
    out := map[];
    for i := 0 to |tasks|
      invariant forall id :: id in out <==>
                  id in tasks[..i] && IsEscalated(|Standing(evidence, overrides, id)|, maxFails)
      invariant forall id :: id in out ==> out[id] == |Standing(evidence, overrides, id)|
    {
      assert tasks[..i + 1] == tasks[..i] + [tasks[i]];
      var count := ConsecutiveVerifyFails(evidence, overrides, tasks[i]);
      if IsEscalated(count, maxFails) {
        out := out[tasks[i] := count];
      }
    }
    assert tasks[..|tasks|] == tasks;
  }
}
