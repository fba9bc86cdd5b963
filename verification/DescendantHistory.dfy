/** What the listing of stale descendants says, told from the ledger: who made a task stale and when, what
    settled it, who takes over, and how often that happened. */
module DescendantHistory {
  import opened Descendants

  /** The last event that listed the task. */
  ghost predicate LastListing(events: seq<Event>, id: string, k: nat) {
    k < |events| && Lists(events[k], id) && forall j :: k < j < |events| ==> !Lists(events[j], id)
  }

  /** The event settles the task: a resolution once it was listed, or its own reopen while it is open. */
  predicate Settles(events: seq<Event>, j: nat, id: string)
    requires j < |events|
  {
    && events[j].entityID == id
    && ((events[j].act.Resolve? && EverListed(events[..j], id)) || (events[j].act.ReopenTask? && OpenIn(events[..j], id)))
  }

  ghost predicate LastSettling(events: seq<Event>, id: string, j: nat) {
    j < |events| && Settles(events, j, id) && forall i :: j < i < |events| ==> !Settles(events, i, id)
  }

  /** Nothing settled the task since it was listed. */
  ghost predicate UnsettledSince(events: seq<Event>, id: string, k: nat) {
    k < |events| && forall j :: k < j < |events| ==> !Settles(events, j, id)
  }

  /** The last task a resolution names takes over. */
  ghost predicate NamesSuccessor(event: Event, id: string, task: string) {
    event.entityID == id && event.act.Resolve? && LastNamed(event.impacted, task)
  }

  ghost predicate LastNamed(impacted: seq<Entity>, task: string) {
    exists i :: 0 <= i < |impacted| && impacted[i] == TaskEntity(task) && NoTaskFrom(impacted, i + 1)
  }

  predicate NoTaskFrom(impacted: seq<Entity>, i: nat) {
    forall j :: i <= j < |impacted| ==> !impacted[j].TaskEntity?
  }

  /** The resolution that named the successor in force. */
  ghost predicate LastNaming(events: seq<Event>, id: string, j: nat, task: string) {
    && j < |events| && NamesSuccessor(events[j], id, task)
    && forall i, t :: j < i < |events| ==> !NamesSuccessor(events[i], id, t)
  }

  function SettledAt(events: seq<Event>, id: string): set<int> {
    set j | 0 <= j < |events| && Settles(events, j, id)
  }

  // ----- one event -----

  /** The name a settling event gives. */
  function How(event: Event): string {
    if event.act.Resolve? then event.act.resolution else "reopen"
  }

  /** What one event does to the entry of one task. */
  predicate Moves(was: Index, now: Index, event: Event, settles: bool, id: string) {
    if Lists(event, id) then
      && id in now
      && now[id] == Stale(id, event.entityID, event.resulting, "", 0, "", CountOf(was, id), true)
    else
      && (id in now <==> id in was)
      && (id in was ==>
            now[id] == if settles
                       then Stale(was[id].taskID, was[id].parent, was[id].since, How(event), event.resulting,
                                  if event.act.Resolve? then LastTask(event.impacted, was[id].successor) else was[id].successor,
                                  was[id].resolutions + 1, false)
                       else was[id])
  }

  lemma EventMoves(events: seq<Event>, event: Event, id: string)
    ensures Moves(Replay(events), Replay(events + [event]), event, Settles(events + [event], |events|, id), id)
    ensures Settles(events + [event], |events|, id) ==> id in Replay(events) && !Lists(event, id)
  {
    ReplayAppend(events, event);
    SettlesIs(events, event, id);
    StepMoves(Replay(events), event, id);
  }

  /** Whether an event settles a task is seen from its entry. */
  predicate SettlesAt(index: Index, event: Event, id: string) {
    event.entityID == id && id in index && (event.act.Resolve? || (event.act.ReopenTask? && index[id].Unresolved()))
  }

  lemma SettlesIs(events: seq<Event>, event: Event, id: string)
    ensures Settles(events + [event], |events|, id) <==> SettlesAt(Replay(events), event, id)
  {
    assert (events + [event])[..|events|] == events;
    UnresolvedExactlyWhen(events, id);
  }

  lemma StepMoves(index: Index, event: Event, id: string)
    ensures Moves(index, Step(index, event), event, SettlesAt(index, event, id), id)
    ensures SettlesAt(index, event, id) ==> !Lists(event, id)
  {
    if event.act.ReopenTask? {
      MarkStaleAt(SelfReopened(index, event.entityID, event.resulting), Descendants.Descendants(event),
                  event.entityID, event.resulting, id);
    }
  }

  /** Earlier events settle what they settled. */
  lemma SettlesAppend(events: seq<Event>, event: Event, j: nat, id: string)
    requires j < |events|
    ensures Settles(events + [event], j, id) <==> Settles(events, j, id)
  {
    assert (events + [event])[..j] == events[..j] && (events + [event])[j] == events[j];
  }

  lemma ListingOneLess(events: seq<Event>, event: Event, id: string, k: nat)
    requires LastListing(events + [event], id, k)
    ensures if Lists(event, id) then k == |events| else LastListing(events, id, k)
  {
    var more := events + [event];
    assert more[|events|] == event;
    if !Lists(event, id) {
      assert more[k] == events[k];
      forall j | k < j < |events| ensures !Lists(events[j], id) {
        assert more[j] == events[j];
      }
    }
  }

  lemma UnsettledOneLess(events: seq<Event>, event: Event, id: string, k: nat)
    requires UnsettledSince(events + [event], id, k) && k < |events|
    ensures UnsettledSince(events, id, k) && !Settles(events + [event], |events|, id)
  {
    forall j | k < j < |events| ensures !Settles(events, j, id) {
      SettlesAppend(events, event, j, id);
      assert !Settles(events + [event], j, id);
    }
  }

  lemma SettlingOneLess(events: seq<Event>, event: Event, id: string, j: nat)
    requires LastSettling(events + [event], id, j)
    ensures if Settles(events + [event], |events|, id) then j == |events| else j < |events| && LastSettling(events, id, j)
  {
    var more := events + [event];
    if j < |events| {
      SettlesAppend(events, event, j, id);
      forall i | j < i < |events| ensures !Settles(events, i, id) {
        SettlesAppend(events, event, i, id);
        assert !Settles(more, i, id);
      }
    }
  }

  // ----- what an entry tells -----

  lemma {:induction false} ListedFrom(events: seq<Event>, id: string, i: nat) returns (k: nat)
    requires i < |events| && Lists(events[i], id)
    ensures LastListing(events, id, k)
    decreases |events| - i
  {
    if j: nat :| i < j < |events| && Lists(events[j], id) {
      k := ListedFrom(events, id, j);
    } else {
      k := i;
    }
  }

  /** A task is stale because of the entity of the last event that listed it, since the revision that event
      resulted in. */
  lemma {:induction false} ParentTells(events: seq<Event>, id: string, k: nat)
    requires LastListing(events, id, k)
    ensures id in Replay(events)
    ensures var e := Replay(events)[id]; e.taskID == id && e.parent == events[k].entityID && e.since == events[k].resulting
  {
    var front, event := events[..|events| - 1], events[|events| - 1];
    assert events == front + [event];
    EventMoves(front, event, id);
    ListingOneLess(front, event, id, k);
    if !Lists(event, id) {
      ParentTells(front, id, k);
      assert events[k] == front[k];
    }
  }

  /** Until something settles it, its entry is open and names nothing. */
  lemma {:induction false} UnsettledTells(events: seq<Event>, id: string, k: nat)
    requires LastListing(events, id, k) && UnsettledSince(events, id, k)
    ensures id in Replay(events)
    ensures var e := Replay(events)[id]; e.resolution == "" && e.resolvedRevision == 0 && e.successor == "" && e.choices
  {
    var front, event := events[..|events| - 1], events[|events| - 1];
    assert events == front + [event];
    EventMoves(front, event, id);
    ListingOneLess(front, event, id, k);
    if !Lists(event, id) {
      UnsettledOneLess(front, event, id, k);
      UnsettledTells(front, id, k);
    }
  }

  /** Afterwards it names the resolution and the revision of the last event that settled it. */
  lemma {:induction false} SettledTells(events: seq<Event>, id: string, k: nat, j: nat)
    requires LastListing(events, id, k) && LastSettling(events, id, j) && k < j
    ensures id in Replay(events)
    ensures var e := Replay(events)[id];
            && e.resolution == (if events[j].act.Resolve? then events[j].act.resolution else "reopen")
            && e.resolvedRevision == events[j].resulting && !e.choices
  {
    var front, event := events[..|events| - 1], events[|events| - 1];
    assert events == front + [event];
    EventMoves(front, event, id);
    ListingOneLess(front, event, id, k);
    SettlingOneLess(front, event, id, j);
    if j < |front| {
      assert events[j] == front[j];
      SettledTells(front, id, k, j);
    }
  }

  lemma {:induction false} LastTaskIs(impacted: seq<Entity>, otherwise: string)
    ensures NoTaskFrom(impacted, 0) ==> LastTask(impacted, otherwise) == otherwise
    ensures !NoTaskFrom(impacted, 0) ==> LastNamed(impacted, LastTask(impacted, otherwise))
  {
    if impacted != [] {
      var n := |impacted| - 1;
      if impacted[n].TaskEntity? {
        assert impacted[n] == TaskEntity(LastTask(impacted, otherwise)) && NoTaskFrom(impacted, n + 1);
      } else {
        LastTaskIs(impacted[..n], otherwise);
        if !NoTaskFrom(impacted, 0) {
          var j :| 0 <= j < |impacted| && impacted[j].TaskEntity?;
          assert impacted[..n][j] == impacted[j];
          var t := LastTask(impacted, otherwise);
          var i :| 0 <= i < n && impacted[..n][i] == TaskEntity(t) && NoTaskFrom(impacted[..n], i + 1);
          assert impacted[i] == TaskEntity(t);
          forall m | i + 1 <= m < |impacted| ensures !impacted[m].TaskEntity? {
            assert m < n ==> impacted[..n][m] == impacted[m];
          }
          assert NoTaskFrom(impacted, i + 1);
        }
      }
    }
  }

  lemma OneIsLast(impacted: seq<Entity>, a: string, b: string)
    requires LastNamed(impacted, a) && LastNamed(impacted, b)
    ensures a == b && !NoTaskFrom(impacted, 0)
  {
    var i :| 0 <= i < |impacted| && impacted[i] == TaskEntity(a) && NoTaskFrom(impacted, i + 1);
    var j :| 0 <= j < |impacted| && impacted[j] == TaskEntity(b) && NoTaskFrom(impacted, j + 1);
  }

  /** Who takes over: the task the last resolution naming one names. */
  lemma {:induction false} SuccessorTells(events: seq<Event>, id: string, k: nat, j: nat, task: string)
    requires LastListing(events, id, k) && k < j && LastNaming(events, id, j, task)
    ensures id in Replay(events) && Replay(events)[id].successor == task
  {
    var front, event := events[..|events| - 1], events[|events| - 1];
    assert events == front + [event];
    EventMoves(front, event, id);
    ListingOneLess(front, event, id, k);
    assert front[k] == events[k];
    assert EverListed(front, id);
    if j == |front| {
      ResolutionNames(event, id, CountedSuccessor(front, id), task);
    } else {
      forall t ensures !NamesSuccessor(event, id, t) {
        assert event == events[|front|];
      }
      assert LastNaming(front, id, j, task) by {
        assert front[j] == events[j];
        forall i, t | j < i < |front| ensures !NamesSuccessor(front[i], id, t) {
          assert front[i] == events[i];
        }
      }
      SuccessorTells(front, id, k, j, task);
      ResolutionNamesNone(event, id, task);
    }
  }

  function CountedSuccessor(events: seq<Event>, id: string): string {
    if id in Replay(events) then Replay(events)[id].successor else ""
  }

  lemma ResolutionNames(event: Event, id: string, otherwise: string, task: string)
    requires NamesSuccessor(event, id, task)
    ensures LastTask(event.impacted, otherwise) == task
  {
    LastTaskIs(event.impacted, otherwise);
    OneIsLast(event.impacted, task, task);
    OneIsLast(event.impacted, task, LastTask(event.impacted, otherwise));
  }

  lemma ResolutionNamesNone(event: Event, id: string, otherwise: string)
    requires forall t :: !NamesSuccessor(event, id, t)
    ensures event.entityID == id && event.act.Resolve? ==> LastTask(event.impacted, otherwise) == otherwise
  {
    LastTaskIs(event.impacted, otherwise);
    assert !NamesSuccessor(event, id, LastTask(event.impacted, otherwise));
  }

  /** Or nobody, when none did since the task was listed. */
  lemma {:induction false} NobodyTakesOver(events: seq<Event>, id: string, k: nat)
    requires LastListing(events, id, k) && forall j, t :: k < j < |events| ==> !NamesSuccessor(events[j], id, t)
    ensures id in Replay(events) && Replay(events)[id].successor == ""
  {
    var front, event := events[..|events| - 1], events[|events| - 1];
    assert events == front + [event];
    EventMoves(front, event, id);
    ListingOneLess(front, event, id, k);
    if !Lists(event, id) {
      forall j, t | k < j < |front| ensures !NamesSuccessor(front[j], id, t) {
        assert front[j] == events[j];
      }
      forall t ensures !NamesSuccessor(event, id, t) {
        assert event == events[|front|];
      }
      NobodyTakesOver(front, id, k);
      ResolutionNamesNone(event, id, "");
    }
  }

  /** How often it was settled, in all. */
  lemma {:induction false} CountTells(events: seq<Event>, id: string)
    ensures CountOf(Replay(events), id) == |SettledAt(events, id)|
  {
    if events == [] {
      assert SettledAt(events, id) == {};
    } else {
      var front, event := events[..|events| - 1], events[|events| - 1];
      assert events == front + [event];
      EventMoves(front, event, id);
      CountTells(front, id);
      SettledOneMore(front, event, id);
    }
  }

  lemma SettledOneMore(events: seq<Event>, event: Event, id: string)
    ensures |SettledAt(events + [event], id)| ==
            |SettledAt(events, id)| + if Settles(events + [event], |events|, id) then 1 else 0
  {
    var more, n := events + [event], |events|;
    forall j: nat | j < n ensures Settles(more, j, id) <==> Settles(events, j, id) {
      SettlesAppend(events, event, j, id);
    }
    if Settles(more, n, id) {
      assert SettledAt(more, id) == SettledAt(events, id) + {n};
    } else {
      assert SettledAt(more, id) == SettledAt(events, id);
    }
  }

  // ----- who waits -----

  /** A parent waits exactly while a task is open that a reopen of it was the last to list. */
  lemma WaitsExactlyWhen(events: seq<Event>, stale: seq<Stale>, parent: string)
    requires IsListing(stale, Replay(events))
    ensures (exists i :: 0 <= i < |stale| && stale[i].Unresolved() && stale[i].parent == parent) <==>
            exists id, k: nat :: LastListing(events, id, k) && OpenIn(events, id) && events[k].entityID == parent
  {
    if i :| 0 <= i < |stale| && stale[i].Unresolved() && stale[i].parent == parent {
      var id := stale[i].taskID;
      UnresolvedExactlyWhen(events, id);
      var first: nat :| first < |events| && Lists(events[first], id);
      var k := ListedFrom(events, id, first);
      ParentTells(events, id, k);
    }
    if id, k: nat :| LastListing(events, id, k) && OpenIn(events, id) && events[k].entityID == parent {
      UnresolvedExactlyWhen(events, id);
      ParentTells(events, id, k);
      assert Replay(events)[id] in stale;
    }
  }
}
