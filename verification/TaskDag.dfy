/** The task graph: construction with depth-first cycle detection, and layering by waves. Two
    independent algorithms, shown to agree on which graphs have a cycle. */
module TaskDag {
  import opened Common
  import opened StringOrder

  datatype Task = Task(id: string, dependsOn: seq<string>)

  datatype Dag = Dag(tasks: seq<Task>, byID: map<string, Task>)

  datatype DagError = IdRequired | DuplicateId(id: string) | UnknownDependency(id: string, dep: string) | HasCycle

  // ----- graphs and cycles -----

  predicate UniqueIds(tasks: seq<Task>) {
    forall i, j :: 0 <= i < j < |tasks| ==> tasks[i].id != tasks[j].id
  }

  function IndexOf(tasks: seq<Task>): map<string, Task> {
    if tasks == [] then map[] else IndexOf(tasks[..|tasks| - 1])[tasks[|tasks| - 1].id := tasks[|tasks| - 1]]
  }

  /** Tasks and index agree, ids are unique and every dependency is a task. */
  predicate Indexed(dag: Dag) {
    && UniqueIds(dag.tasks)
    && (forall i :: 0 <= i < |dag.tasks| ==> dag.tasks[i].id in dag.byID && dag.byID[dag.tasks[i].id] == dag.tasks[i])
    && (forall id :: id in dag.byID ==> dag.byID[id].id == id && dag.byID[id] in dag.tasks)
    && Closed(dag)
  }

  predicate Closed(dag: Dag) {
    forall id, dep :: id in dag.byID && dep in dag.byID[id].dependsOn ==> dep in dag.byID
  }

  predicate Edge(dag: Dag, a: string, b: string) {
    a in dag.byID && b in dag.byID[a].dependsOn
  }

  predicate Path(dag: Dag, p: seq<string>) {
    forall i :: 0 <= i < |p| - 1 ==> Edge(dag, p[i], p[i + 1])
  }

  ghost predicate Cyclic(dag: Dag) {
    exists p :: |p| >= 2 && Path(dag, p) && p[0] == p[|p| - 1]
  }

  /** A rank that every dependency lowers. */
  predicate Ranked(dag: Dag, rank: map<string, nat>) {
    && (forall id :: id in dag.byID ==> id in rank)
    && (forall id, dep :: id in dag.byID && dep in dag.byID[id].dependsOn ==> dep in rank && rank[dep] < rank[id])
  }

  lemma {:induction false} RankFallsAlong(dag: Dag, rank: map<string, nat>, p: seq<string>)
    requires Ranked(dag, rank) && Path(dag, p) && |p| >= 2
    ensures p[0] in rank && p[|p| - 1] in rank && rank[p[|p| - 1]] < rank[p[0]]
  {
    assert Edge(dag, p[0], p[1]);
    if |p| > 2 {
      forall i | 0 <= i < |p[1..]| - 1 ensures Edge(dag, p[1..][i], p[1..][i + 1]) {
        assert Edge(dag, p[i + 1], p[i + 1 + 1]);
      }
      RankFallsAlong(dag, rank, p[1..]);
    }
  }

  lemma RankedIsAcyclic(dag: Dag, rank: map<string, nat>)
    requires Ranked(dag, rank)
    ensures !Cyclic(dag)
  {
    forall p | |p| >= 2 && Path(dag, p) ensures p[0] != p[|p| - 1] {
      RankFallsAlong(dag, rank, p);
    }
  }

  lemma ClosedWalkIsCycle(dag: Dag, p: seq<string>, i: nat)
    requires Path(dag, p) && i < |p| && Edge(dag, p[|p| - 1], p[i])
    ensures Cyclic(dag)
  {
    var c := p[i..] + [p[i]];
    forall k | 0 <= k < |c| - 1 ensures Edge(dag, c[k], c[k + 1]) {
      if k < |c| - 2 {
        assert Edge(dag, p[i + k], p[i + k + 1]);
      }
    }
    assert c[0] == c[|c| - 1];
  }

  // ----- depth-first search -----

  /** Finishing order: each task after all its dependencies. */
  predicate Finished(dag: Dag, order: seq<string>) {
    forall i :: 0 <= i < |order| ==>
      order[i] in dag.byID && forall dep :: dep in dag.byID[order[i]].dependsOn ==> dep in order[..i]
  }

  function FirstIndex(order: seq<string>, id: string): (i: nat)
    requires id in order
    ensures i < |order| && order[i] == id
    ensures forall j :: 0 <= j < |order| && order[j] == id ==> i <= j
  {
    if order[0] == id then 0
    else
      assert order == [order[0]] + order[1..];
      FirstIndex(order[1..], id) + 1
  }

  lemma FinishedIsAcyclic(dag: Dag, order: seq<string>)
    requires Finished(dag, order) && forall id :: id in dag.byID ==> id in order
    ensures !Cyclic(dag)
  {
    var rank := map id | id in order :: FirstIndex(order, id);
    forall id, dep | id in dag.byID && dep in dag.byID[id].dependsOn
      ensures dep in rank && rank[dep] < rank[id]
    {
      var i := rank[id];
      assert dep in order[..i];
      var j :| 0 <= j < i && order[j] == dep;
    }
    RankedIsAcyclic(dag, rank);
  }

  /** The search's two maps, as the sets of ids they hold true. */
  class CycleSearch {
    const dag: Dag
    var visiting: set<string>
    var visited: set<string>
    ghost var order: seq<string>

    constructor (dag: Dag)
      ensures this.dag == dag && visiting == {} && visited == {} && order == []
    {
      this.dag := dag;
      visiting, visited, order := {}, {}, [];
    }

    ghost predicate Valid()
      reads this
    {
      && Indexed(dag) && Finished(dag, order) && (forall id :: id in visited <==> id in order)
      // no task is explored twice
      && visiting !! visited && (forall i, j :: 0 <= i < j < |order| ==> order[i] != order[j])
    }

    /** Explores one task below the tasks on `stack`. */
    method Visit(id: string, ghost stack: seq<string>) returns (cycle: bool)
      requires Valid() && id in dag.byID && Path(dag, stack + [id])
      requires forall x :: x in visiting <==> x in stack
      requires visiting <= dag.byID.Keys
      modifies this
      ensures cycle ==> Cyclic(dag)
      ensures !cycle ==> Valid() && visiting == old(visiting) && id in visited && old(visited) <= visited
      decreases dag.byID.Keys - visiting
    {
      if id in visiting {
        ghost var i :| 0 <= i < |stack| && stack[i] == id;
        assert Edge(dag, (stack + [id])[|stack| - 1], (stack + [id])[|stack|]);
        PathPrefix(dag, stack, id);
        ClosedWalkIsCycle(dag, stack, i);
        return true;
      }
      if id in visited {
        return false;
      }
      visiting := visiting + {id};
      var deps := dag.byID[id].dependsOn;
      for k := 0 to |deps|
        invariant Valid() && visiting == old(visiting) + {id} && old(visited) <= visited
        invariant forall j :: 0 <= j < k ==> deps[j] in visited
      {
        PathExtends(dag, stack, id, deps[k]);
        var below := Visit(deps[k], stack + [id]);
        if below {
          return true;
        }
      }
      visiting := visiting - {id};
      visited := visited + {id};
      FinishOne(dag, order, id);
      order := order + [id];
      return false;
    }

    /** Accepts exactly the acyclic graphs. */
    method DetectCycle() returns (cycle: bool)
      requires Valid() && visiting == {} && visited == {}
      modifies this
      ensures cycle <==> Cyclic(dag)
    {
      for k := 0 to |dag.tasks|
        invariant Valid() && visiting == {}
        invariant forall j :: 0 <= j < k ==> dag.tasks[j].id in visited
      {
        var found := Visit(dag.tasks[k].id, []);
        if found {
          return true;
        }
      }
      forall id | id in dag.byID ensures id in order {
        var j :| 0 <= j < |dag.tasks| && dag.tasks[j] == dag.byID[id];
      }
      FinishedIsAcyclic(dag, order);
      return false;
    }
  }

  lemma PathPrefix(dag: Dag, stack: seq<string>, id: string)
    requires Path(dag, stack + [id])
    ensures Path(dag, stack)
  {
    forall i | 0 <= i < |stack| - 1 ensures Edge(dag, stack[i], stack[i + 1]) {
      assert Edge(dag, (stack + [id])[i], (stack + [id])[i + 1]);
    }
  }

  lemma PathExtends(dag: Dag, stack: seq<string>, id: string, dep: string)
    requires Path(dag, stack + [id]) && Edge(dag, id, dep)
    ensures Path(dag, stack + [id] + [dep])
  {
  }

  lemma FinishOne(dag: Dag, order: seq<string>, id: string)
    requires Finished(dag, order) && id in dag.byID
    requires forall dep :: dep in dag.byID[id].dependsOn ==> dep in order
    ensures Finished(dag, order + [id])
  {
    forall i | 0 <= i < |order| + 1
      ensures forall dep :: dep in dag.byID[(order + [id])[i]].dependsOn ==> dep in (order + [id])[..i]
    {
      assert i < |order| ==> (order + [id])[..i] == order[..i];
      assert (order + [id])[..|order|] == order;
    }
  }

  // ----- construction -----

  predicate KnownDeps(tasks: seq<Task>) {
    forall i, dep :: 0 <= i < |tasks| && dep in tasks[i].dependsOn ==> IsTask(tasks, dep)
  }

  predicate IsTask(tasks: seq<Task>, id: string) {
    exists j :: 0 <= j < |tasks| && tasks[j].id == id
  }

  predicate NamedTasks(tasks: seq<Task>) {
    (forall i :: 0 <= i < |tasks| ==> tasks[i].id != "") && UniqueIds(tasks)
  }

  lemma {:induction false} IndexOfHolds(tasks: seq<Task>)
    requires UniqueIds(tasks)
    ensures forall i :: 0 <= i < |tasks| ==> tasks[i].id in IndexOf(tasks) && IndexOf(tasks)[tasks[i].id] == tasks[i]
    ensures forall id :: id in IndexOf(tasks) ==> IndexOf(tasks)[id].id == id && IndexOf(tasks)[id] in tasks
  {
    if tasks != [] {
      var n := |tasks| - 1;
      IndexOfHolds(tasks[..n]);
      forall i | 0 <= i < |tasks| ensures tasks[i].id in IndexOf(tasks) && IndexOf(tasks)[tasks[i].id] == tasks[i] {
        assert i < n ==> tasks[..n][i] == tasks[i];
      }
    }
  }

  /** The indexing pass: an id is missing, or repeated, or the index is complete. */
  method BuildIndex(tasks: seq<Task>) returns (r: Result<map<string, Task>, DagError>)
    ensures r.Ok? <==> NamedTasks(tasks)
    ensures r.Ok? ==> r.value == IndexOf(tasks)
    ensures r.Err? ==> r.error == IdRequired || r.error.DuplicateId?
  {
    var byID: map<string, Task> := map[];
    for i := 0 to |tasks|
      invariant byID == IndexOf(tasks[..i])
      invariant NamedTasks(tasks[..i])
    {
      var task := tasks[i];
      assert tasks[..i + 1] == tasks[..i] + [task];
      if task.id == "" {
        return Err(IdRequired);
      }
      if task.id in byID {
        RepeatedId(tasks, i);
        return Err(DuplicateId(task.id));
      }
      byID := byID[task.id := task];
      NamedExtends(tasks[..i], task);
    }
    assert tasks[..|tasks|] == tasks;
    return Ok(byID);
  }

  lemma RepeatedId(tasks: seq<Task>, i: nat)
    requires i < |tasks| && UniqueIds(tasks[..i]) && tasks[i].id in IndexOf(tasks[..i])
    ensures !UniqueIds(tasks)
  {
    IndexOfHolds(tasks[..i]);
    var j :| 0 <= j < i && tasks[..i][j] == IndexOf(tasks[..i])[tasks[i].id];
    assert tasks[j].id == tasks[i].id;
  }

  lemma NamedExtends(tasks: seq<Task>, task: Task)
    requires NamedTasks(tasks) && task.id != "" && task.id !in IndexOf(tasks)
    ensures NamedTasks(tasks + [task]) && IndexOf(tasks + [task]) == IndexOf(tasks)[task.id := task]
  {
    IndexOfHolds(tasks);
    assert (tasks + [task])[..|tasks|] == tasks;
  }

  method UnknownDep(tasks: seq<Task>, byID: map<string, Task>) returns (missing: Option<DagError>)
    ensures missing.None? <==> DepsIndexed(tasks, byID)
    ensures missing.Some? ==> missing.value.UnknownDependency? && missing.value.dep !in byID
  {
    for i := 0 to |tasks|
      invariant forall k, dep :: 0 <= k < i && dep in tasks[k].dependsOn ==> dep in byID
    {
      for j := 0 to |tasks[i].dependsOn|
        invariant forall k :: 0 <= k < j ==> tasks[i].dependsOn[k] in byID
      {
        var dep := tasks[i].dependsOn[j];
        if dep !in byID {
          assert dep in tasks[i].dependsOn;
          return Some(UnknownDependency(tasks[i].id, dep));
        }
      }
    }
    return None;
  }

  lemma IndexedIds(tasks: seq<Task>, dep: string)
    requires UniqueIds(tasks)
    ensures dep in IndexOf(tasks) <==> IsTask(tasks, dep)
  {
  }

  /** Every dependency found in the index. */
  predicate DepsIndexed(tasks: seq<Task>, byID: map<string, Task>) {
    forall i, dep :: 0 <= i < |tasks| && dep in tasks[i].dependsOn ==> dep in byID
  }

  lemma IndexedWhenKnown(tasks: seq<Task>)
    requires UniqueIds(tasks)
    ensures KnownDeps(tasks) <==> DepsIndexed(tasks, IndexOf(tasks))
  {
    var byID := IndexOf(tasks);
    if KnownDeps(tasks) {
      forall i, dep | 0 <= i < |tasks| && dep in tasks[i].dependsOn ensures dep in byID {
        IndexedIds(tasks, dep);
      }
    }
    if DepsIndexed(tasks, byID) {
      forall i, dep | 0 <= i < |tasks| && dep in tasks[i].dependsOn ensures IsTask(tasks, dep) {
        IndexedIds(tasks, dep);
      }
    }
  }

  lemma IndexIsSound(tasks: seq<Task>)
    requires NamedTasks(tasks) && KnownDeps(tasks)
    ensures Indexed(Dag(tasks, IndexOf(tasks)))
  {
    IndexOfHolds(tasks);
    forall id, dep | id in IndexOf(tasks) && dep in IndexOf(tasks)[id].dependsOn
      ensures dep in IndexOf(tasks)
    {
      var i :| 0 <= i < |tasks| && tasks[i] == IndexOf(tasks)[id];
      IndexedIds(tasks, dep);
    }
  }

  /** A graph is accepted exactly when its ids are present and unique, its dependencies are tasks,
      and it has no cycle; each refusal says which of these failed. */
  method NewTaskDAG(tasks: seq<Task>) returns (r: Result<Dag, DagError>)
    ensures r.Ok? <==> NamedTasks(tasks) && KnownDeps(tasks) && !Cyclic(Dag(tasks, IndexOf(tasks)))
    ensures r.Ok? ==> r.value == Dag(tasks, IndexOf(tasks)) && Indexed(r.value)
    ensures r == Err(HasCycle) ==> NamedTasks(tasks) && KnownDeps(tasks)
    ensures r.Err? && r.error.UnknownDependency? ==>
              NamedTasks(tasks) && !IsTask(tasks, r.error.dep)
    ensures r.Err? && (r.error.IdRequired? || r.error.DuplicateId?) ==> !NamedTasks(tasks)
  {
    var index := BuildIndex(tasks);
    if index.Err? {
      return Err(index.error);
    }
    IndexedWhenKnown(tasks);
    var missing := UnknownDep(tasks, index.value);
    if missing.Some? {
      IndexedIds(tasks, missing.value.dep);
      return Err(missing.value);
    }
    var dag := Dag(tasks, index.value);
    IndexIsSound(tasks);
    var search := new CycleSearch(dag);
    var cycle := search.DetectCycle();
    return if cycle then Err(HasCycle) else Ok(dag);
  }

  // ----- waves -----

  /** The ids listed in a list of waves. */
  function Placed(waves: seq<seq<string>>): set<string> {
    if waves == [] then {} else Placed(waves[..|waves| - 1]) + Ids(waves[|waves| - 1])
  }

  function Ids(wave: seq<string>): set<string> {
    set id | id in wave
  }

  /** Some dependency of the task lies in the set. */
  predicate DependsInto(dag: Dag, id: string, ids: set<string>)
    requires id in dag.byID
  {
    exists dep :: dep in dag.byID[id].dependsOn && dep in ids
  }

  /** Some dependency of the task lies outside the set. */
  predicate DependsBeyond(dag: Dag, id: string, ids: set<string>)
    requires id in dag.byID
  {
    exists dep :: dep in dag.byID[id].dependsOn && dep !in ids
  }

  /** Each wave is sorted and non-empty and places tasks not placed before; a task's dependencies
      lie in earlier waves, and one of them in the wave just before. */
  predicate Layered(dag: Dag, waves: seq<seq<string>>) {
    forall k {:trigger WaveFits(dag, waves, k)} :: 0 <= k < |waves| ==> WaveFits(dag, waves, k)
  }

  predicate WaveFits(dag: Dag, waves: seq<seq<string>>, k: nat)
    requires k < |waves|
  {
    && waves[k] != [] && Ascending(waves[k])
    && forall id :: id in waves[k] ==> id in dag.byID && id !in Placed(waves[..k]) && Fits(dag, waves[..k], id)
  }

  /** A task belongs in the next wave, and in none before it. */
  predicate Fits(dag: Dag, before: seq<seq<string>>, id: string)
    requires id in dag.byID
  {
    && (forall dep :: dep in dag.byID[id].dependsOn ==> dep in Placed(before))
    && (before != [] ==> DependsInto(dag, id, Ids(before[|before| - 1])))
  }

  predicate DepsSatisfied(task: Task, done: set<string>) {
    forall i :: 0 <= i < |task.dependsOn| ==> task.dependsOn[i] in done
  }

  lemma {:induction false} NoSourceMakesCycle(dag: Dag, rest: set<string>, walk: seq<string>)
    requires rest <= dag.byID.Keys && walk != [] && Path(dag, walk)
    requires forall i :: 0 <= i < |walk| ==> walk[i] in rest
    requires forall i, j :: 0 <= i < j < |walk| ==> walk[i] != walk[j]
    requires forall id {:trigger DependsInto(dag, id, rest)} :: id in rest ==> DependsInto(dag, id, rest)
    ensures Cyclic(dag)
    decreases rest - (set id | id in walk)
  {
    var last := walk[|walk| - 1];
    assert DependsInto(dag, last, rest);
    var dep :| dep in dag.byID[last].dependsOn && dep in rest;
    assert Edge(dag, last, dep);
    if dep in walk {
      var i :| 0 <= i < |walk| && walk[i] == dep;
      ClosedWalkIsCycle(dag, walk, i);
    } else {
      assert walk == walk[..|walk| - 1] + [last];
      PathExtends(dag, walk[..|walk| - 1], last, dep);
      assert dep in rest - (set id | id in walk);
      NoSourceMakesCycle(dag, rest, walk + [dep]);
    }
  }

  /** The wave lists exactly the remaining tasks whose dependencies are done. */
  ghost predicate IsReady(dag: Dag, wave: seq<string>, rest: set<string>, done: set<string>)
    requires rest <= dag.byID.Keys
  {
    forall id {:trigger id in wave} {:trigger DepsSatisfied(dag.byID[id], done)} ::
      id in wave <==> id in rest && DepsSatisfied(dag.byID[id], done)
  }

  /** One pass over the tasks: those still remaining whose dependencies are done. */
  method NextWave(dag: Dag, remaining: map<string, Task>, done: set<string>) returns (wave: seq<string>)
    requires Indexed(dag) && remaining.Keys <= dag.byID.Keys
    ensures Ascending(wave)
    ensures IsReady(dag, wave, remaining.Keys, done)
  {
    wave := [];
    for i := 0 to |dag.tasks|
      invariant forall id :: id in wave <==>
                  id in remaining && DepsSatisfied(dag.byID[id], done) && exists k :: 0 <= k < i && dag.tasks[k].id == id
      invariant forall a, b :: 0 <= a < b < |wave| ==> wave[a] != wave[b]
    {
      var task := dag.tasks[i];
      if task.id in remaining {
        if DepsSatisfied(task, done) {
          assert task.id !in wave;
          wave := wave + [task.id];
        }
      }
    }
    forall id | id in remaining ensures exists k :: 0 <= k < |dag.tasks| && dag.tasks[k].id == id {
      var k :| 0 <= k < |dag.tasks| && dag.tasks[k] == dag.byID[id];
    }
    SortedAscends(wave);
    wave := Sorted(wave);
  }

  /** Fails exactly on a cycle; otherwise every task is placed once, as early as it can be. */
  method TopologicalWaves(dag: Dag) returns (waves: Option<seq<seq<string>>>)
    requires Indexed(dag)
    ensures waves.None? <==> Cyclic(dag)
    ensures waves.Some? ==> Complete(dag, waves.value)
  {
    var remaining := dag.byID;
    var found: seq<seq<string>> := [];
    var done: set<string> := {};
    while |remaining| > 0
      invariant remaining.Keys <= dag.byID.Keys && Partial(dag, found, remaining.Keys, done)
      decreases |remaining|
    {
      var wave := NextWave(dag, remaining, done);
      if |wave| == 0 {
        assert wave == [];
        NobodyReady(dag, remaining.Keys, done);
        return None;
      }
      PlaceWave(dag, found, wave, remaining.Keys, done);
      FewerRemain(remaining, Ids(wave), wave[0]);
      remaining := remaining - Ids(wave);
      done := done + Ids(wave);
      found := found + [wave];
    }
    assert remaining.Keys == {};
    assert dag.byID.Keys <= done;
    PlacedAreTasks(dag, found);
    LayeredIsAcyclic(dag, found);
    return Some(found);
  }

  /** What holds between two waves. */
  predicate Partial(dag: Dag, found: seq<seq<string>>, rest: set<string>, done: set<string>)
    requires rest <= dag.byID.Keys
  {
    rest == dag.byID.Keys - done && done == Placed(found) && Layered(dag, found) && Held(dag, found, rest)
  }

  lemma FewerRemain(m: map<string, Task>, gone: set<string>, id: string)
    requires id in m && id in gone
    ensures |m - gone| < |m| && (m - gone).Keys == m.Keys - gone
  {
    assert |m.Keys| == |m|;
    assert (m - gone).Keys == m.Keys - gone;
    SubsetCardinality(m.Keys - gone, m.Keys - {id});
  }

  /** A task not yet placed waits for something in the last wave or not yet placed at all. */
  predicate Held(dag: Dag, waves: seq<seq<string>>, rest: set<string>)
    requires rest <= dag.byID.Keys
  {
    waves != [] ==>
      forall id {:trigger DependsBeyond(dag, id, Placed(waves[..|waves| - 1]))} :: id in rest ==>
        DependsBeyond(dag, id, Placed(waves[..|waves| - 1]))
  }

  lemma NobodyReady(dag: Dag, rest: set<string>, done: set<string>)
    requires Closed(dag) && rest <= dag.byID.Keys && rest != {}
    requires rest == dag.byID.Keys - done
    requires IsReady(dag, [], rest, done)
    ensures Cyclic(dag)
  {
    forall id | id in rest ensures DependsInto(dag, id, rest) {
      assert !DepsSatisfied(dag.byID[id], done);
      var i :| 0 <= i < |dag.byID[id].dependsOn| && dag.byID[id].dependsOn[i] !in done;
      assert dag.byID[id].dependsOn[i] in dag.byID[id].dependsOn;
    }
    var first :| first in rest;
    NoSourceMakesCycle(dag, rest, [first]);
  }

  lemma PlaceWave(dag: Dag, found: seq<seq<string>>, wave: seq<string>, rest: set<string>, done: set<string>)
    requires Closed(dag) && rest <= dag.byID.Keys && Partial(dag, found, rest, done)
    requires wave != [] && Ascending(wave) && IsReady(dag, wave, rest, done)
    ensures wave[0] in rest && Partial(dag, found + [wave], rest - Ids(wave), done + Ids(wave))
  {
    var more := found + [wave];
    assert more[..|found|] == found;
    assert wave[0] in wave;
    assert Placed(more) == done + Ids(wave);
    forall k | 0 <= k < |more| ensures WaveFits(dag, more, k) {
      assert more[..k] == found[..k];
      if k < |found| {
        assert WaveFits(dag, found, k);
      } else {
        assert found[..k] == found;
        forall id | id in wave ensures Fits(dag, found, id) {
          if found != [] {
            assert DependsBeyond(dag, id, Placed(found[..|found| - 1]));
            var dep :| dep in dag.byID[id].dependsOn && dep !in Placed(found[..|found| - 1]);
            assert dep in Placed(found);
          }
        }
      }
    }
    forall id | id in rest && id !in wave
      ensures DependsBeyond(dag, id, Placed(found))
    {
      assert !DepsSatisfied(dag.byID[id], Placed(found));
      var i :| 0 <= i < |dag.byID[id].dependsOn| && dag.byID[id].dependsOn[i] !in Placed(found);
      assert dag.byID[id].dependsOn[i] in dag.byID[id].dependsOn;
    }
  }

  /** The wave a placed task is in. */
  function WaveOf(waves: seq<seq<string>>, id: string): (k: nat)
    requires id in Placed(waves)
    ensures k < |waves| && id in waves[k]
  {
    if id in waves[|waves| - 1] then |waves| - 1
    else
      var k := WaveOf(waves[..|waves| - 1], id);
      assert waves[..|waves| - 1][k] == waves[k];
      k
  }

  lemma {:induction false} ListedIsPlaced(waves: seq<seq<string>>, k: nat, id: string)
    requires k < |waves| && id in waves[k]
    ensures id in Placed(waves)
  {
    if k < |waves| - 1 {
      ListedIsPlaced(waves[..|waves| - 1], k, id);
    }
  }

  lemma PlacedAreTasks(dag: Dag, waves: seq<seq<string>>)
    requires Layered(dag, waves)
    ensures Placed(waves) <= dag.byID.Keys
  {
    forall id | id in Placed(waves) ensures id in dag.byID {
      assert WaveFits(dag, waves, WaveOf(waves, id));
    }
  }

  /** No task is listed in two waves. */
  lemma OneWaveEach(dag: Dag, waves: seq<seq<string>>, k: nat, id: string)
    requires Layered(dag, waves) && k < |waves| && id in waves[k]
    ensures id in Placed(waves) && WaveOf(waves, id) == k
  {
    ListedIsPlaced(waves, k, id);
    var w := WaveOf(waves, id);
    assert WaveFits(dag, waves, w) && WaveFits(dag, waves, k);
    if k < w {
      ListedIsPlaced(waves[..w], k, id);
    } else if w < k {
      ListedIsPlaced(waves[..k], w, id);
    }
  }

  /** All waves together list exactly the tasks. */
  predicate Complete(dag: Dag, waves: seq<seq<string>>) {
    Layered(dag, waves) && Placed(waves) == dag.byID.Keys
  }

  /** A dependency lies in a strictly earlier wave; a task is in the first wave exactly when it has
      no dependency, and otherwise right after the latest of its dependencies. */
  lemma WaveRule(dag: Dag, waves: seq<seq<string>>, id: string)
    requires Closed(dag) && Complete(dag, waves) && id in dag.byID
    ensures forall dep :: dep in dag.byID[id].dependsOn ==> WaveOf(waves, dep) < WaveOf(waves, id)
    ensures WaveOf(waves, id) == 0 <==> dag.byID[id].dependsOn == []
    ensures WaveOf(waves, id) > 0 ==> DependsInto(dag, id, Ids(waves[WaveOf(waves, id) - 1]))
  {
    var k := WaveOf(waves, id);
    assert WaveFits(dag, waves, k);
    assert Fits(dag, waves[..k], id);
    forall dep | dep in dag.byID[id].dependsOn ensures WaveOf(waves, dep) < k {
      OneWaveEach(dag, waves, WaveOf(waves[..k], dep), dep);
    }
    if k > 0 {
      var dep :| dep in dag.byID[id].dependsOn && dep in Ids(waves[..k][k - 1]);
      assert dep in Ids(waves[k - 1]);
    } else if dag.byID[id].dependsOn != [] {
      assert dag.byID[id].dependsOn[0] in Placed(waves[..0]);
    }
  }

  /** The wave numbers rank the graph, and below every other rank. */
  lemma WavesAreEarliest(dag: Dag, waves: seq<seq<string>>, rank: map<string, nat>)
    requires Closed(dag) && Complete(dag, waves) && Ranked(dag, rank)
    ensures forall id :: id in dag.byID ==> WaveOf(waves, id) <= rank[id]
  {
    forall id | id in dag.byID ensures WaveOf(waves, id) <= rank[id] {
      NoEarlierWave(dag, waves, rank, id);
    }
  }

  lemma {:induction false} NoEarlierWave(dag: Dag, waves: seq<seq<string>>, rank: map<string, nat>, id: string)
    requires Closed(dag) && Complete(dag, waves) && Ranked(dag, rank) && id in dag.byID
    ensures WaveOf(waves, id) <= rank[id]
    decreases WaveOf(waves, id)
  {
    WaveRule(dag, waves, id);
    if WaveOf(waves, id) > 0 {
      var dep :| dep in dag.byID[id].dependsOn && dep in Ids(waves[WaveOf(waves, id) - 1]);
      OneWaveEach(dag, waves, WaveOf(waves, id) - 1, dep);
      NoEarlierWave(dag, waves, rank, dep);
    }
  }

  function WaveRank(dag: Dag, waves: seq<seq<string>>): map<string, nat>
    requires Complete(dag, waves)
  {
    map id | id in dag.byID :: WaveOf(waves, id)
  }

  lemma WavesRank(dag: Dag, waves: seq<seq<string>>)
    requires Closed(dag) && Complete(dag, waves)
    ensures Ranked(dag, WaveRank(dag, waves))
  {
    forall id, dep | id in dag.byID && dep in dag.byID[id].dependsOn
      ensures WaveOf(waves, dep) < WaveOf(waves, id)
    {
      WaveRule(dag, waves, id);
    }
  }

  lemma LayeredIsAcyclic(dag: Dag, waves: seq<seq<string>>)
    requires Closed(dag) && Complete(dag, waves)
    ensures !Cyclic(dag)
  {
    WavesRank(dag, waves);
    RankedIsAcyclic(dag, WaveRank(dag, waves));
  }

  /** The layering is determined by the graph: any two complete layerings are the same list. */
  lemma LayeringIsUnique(dag: Dag, a: seq<seq<string>>, b: seq<seq<string>>)
    requires Closed(dag) && Complete(dag, a) && Complete(dag, b)
    ensures a == b
  {
    SameNumbers(dag, a, b);
    SameNumbers(dag, b, a);
    forall k | 0 <= k < |a| ensures k < |b| && a[k] == b[k] {
      SameWave(dag, a, b, k);
    }
    if |a| < |b| {
      SameWave(dag, b, a, |a|);
    }
  }

  lemma SameNumbers(dag: Dag, a: seq<seq<string>>, b: seq<seq<string>>)
    requires Closed(dag) && Complete(dag, a) && Complete(dag, b)
    ensures forall id :: id in dag.byID ==> WaveOf(a, id) <= WaveOf(b, id)
  {
    WavesRank(dag, b);
    WavesAreEarliest(dag, a, WaveRank(dag, b));
  }

  lemma SameWave(dag: Dag, a: seq<seq<string>>, b: seq<seq<string>>, k: nat)
    requires Closed(dag) && Complete(dag, a) && Complete(dag, b) && k < |a|
    requires forall id :: id in dag.byID ==> WaveOf(a, id) == WaveOf(b, id)
    ensures k < |b| && a[k] == b[k]
  {
    assert WaveFits(dag, a, k);
    OneWaveEach(dag, a, k, a[k][0]);
    assert WaveOf(b, a[k][0]) == k;
    forall id ensures id in a[k] <==> id in b[k] {
      if id in a[k] {
        OneWaveEach(dag, a, k, id);
      }
      if id in b[k] {
        OneWaveEach(dag, b, k, id);
      }
    }
    assert WaveFits(dag, b, k);
    AscendingIsUnique(a[k], b[k]);
  }
}
