/** Dependencies of tasks: the guarded graph writes, and readiness, which the service computes from
    the store, the service computes from a snapshot, and the spawner computes from the task list it
    fetched (src/panopticon/taskservice/service.py and `spawnable_tasks` in
    src/panopticon/sessionservice/spawner.py). */
module Readiness {
  import opened Models
  import Sequences
  import opened Workflows
  import opened DependencyGraph

  function DependenciesOf(tasks: Tasks): DependencyGraph.Graph {
    map u | u in tasks :: tasks[u].dependsOn
  }

  ghost predicate NothingDangles(tasks: Tasks) {
    forall u, d :: u in tasks && d in tasks[u].dependsOn ==> d in tasks
  }

  /** What every stored task set keeps. */
  ghost predicate DependenciesOk(tasks: Tasks) {
    Acyclic(DependenciesOf(tasks)) && NothingDangles(tasks)
  }

  // ---- guarded writes -------------------------------------------------------------------------

  datatype Error = DependencyNotFound | DependencyCycleDetected

  ghost predicate WriteAllowed(tasks: Tasks, id: Id, deps: seq<Id>) {
    && (forall d :: d in deps ==> d in tasks)
    && !CycleReachable(DependenciesOf(tasks)[id := deps], id)
  }

  /** What a refused write reports: a missing task before a cycle. */
  predicate SomeMissing(tasks: Tasks, deps: seq<Id>) {
    exists d :: d in deps && d !in tasks
  }

  function WriteError(tasks: Tasks, deps: seq<Id>): Error {
    if SomeMissing(tasks, deps) then DependencyNotFound else DependencyCycleDetected
  }

  /** `_validate_dependencies`: existence first, then one search from the edited task. */
  method ValidateDependencies(tasks: Tasks, id: Id, deps: seq<Id>) returns (error: Option<Error>)
    ensures error.None? <==> WriteAllowed(tasks, id, deps)
    ensures error.Some? ==> error.value == WriteError(tasks, deps)
  {
    for i := 0 to |deps|
      invariant forall j :: 0 <= j < i ==> deps[j] in tasks
    {
      if deps[i] !in tasks {
        assert deps[i] in deps;
        assert SomeMissing(tasks, deps);
        return Some(DependencyNotFound);
      }
    }
    var graph := DependenciesOf(tasks)[id := deps];
    var cycle := DependencyCycle(graph, id);
    return if cycle.Some? then Some(DependencyCycleDetected) else None;
  }

  /** Walks that avoid the edited node do not notice the edit. */
  lemma TrailAvoidingEdit(g: DependencyGraph.Graph, id: Id, deps: seq<Id>, p: seq<Id>)
    requires IsTrail(g[id := deps], p) && id !in p
    ensures IsTrail(g, p)
  {
    forall i | 0 <= i < |p| - 1
      ensures Follows(g, p, i)
    {
      assert Follows(g[id := deps], p, i);
    }
  }

  /** Searching from the edited task alone is enough: over an acyclic graph, the edited graph is
      acyclic exactly when no cycle can be reached from the edited task. */
  lemma SearchFromEditSuffices(g: DependencyGraph.Graph, id: Id, deps: seq<Id>)
    requires Acyclic(g)
    ensures Acyclic(g[id := deps]) <==> !CycleReachable(g[id := deps], id)
  {
    var g' := g[id := deps];
    forall c | IsCycle(g', c)
      ensures CycleReachable(g', id)
    {
      if id in c {
        var i :| 0 <= i < |c| && c[i] == id;
        TrailSlice(g', c, i, |c|);
        assert c[i..] == c[i..|c|];
        assert IsWalk(g', c[i..], id, c[0]);
      } else {
        TrailAvoidingEdit(g, id, deps, c);
        assert IsCycle(g, c);
      }
    }
  }

  /** An allowed write, to an existing task or to a new one, keeps the stored graph acyclic and
      complete. */
  lemma WriteKeepsDependenciesOk(tasks: Tasks, id: Id, t: Task)
    requires DependenciesOk(tasks) && WriteAllowed(tasks, id, t.dependsOn)
    ensures DependenciesOk(tasks[id := t])
  {
    SearchFromEditSuffices(DependenciesOf(tasks), id, t.dependsOn);
    assert DependenciesOf(tasks[id := t]) == DependenciesOf(tasks)[id := t.dependsOn];
  }

  /** A refused write would have broken the stored graph: the guard turns nothing valid away. */
  lemma RefusedWriteWouldBreak(tasks: Tasks, id: Id, t: Task)
    requires DependenciesOk(tasks) && !WriteAllowed(tasks, id, t.dependsOn)
    ensures !DependenciesOk(tasks[id := t])
  {
    var tasks' := tasks[id := t];
    SearchFromEditSuffices(DependenciesOf(tasks), id, t.dependsOn);
    assert DependenciesOf(tasks') == DependenciesOf(tasks)[id := t.dependsOn];
    if id in t.dependsOn {
      SelfDependencyIsACycle(DependenciesOf(tasks'), id);
    } else if d :| d in t.dependsOn && d !in tasks {
      assert tasks'[id].dependsOn == t.dependsOn && d !in tasks';
    }
  }

  lemma SelfDependencyIsACycle(g: DependencyGraph.Graph, id: Id)
    requires id in g && id in g[id]
    ensures !Acyclic(g)
  {
    var c := [id, id];
    assert DependencyGraph.Follows(g, c, 0);
    assert DependencyGraph.IsCycle(g, c);
  }

  // ---- readiness ------------------------------------------------------------------------------

  predicate DependencyBlocks(wfs: WorkflowTable, t: Task) {
    t.state == DROPPED || !IsTerminal(wfs, t)
  }

  /** `dependencies_blocking_in_snapshot`. */
  predicate BlockedInSnapshot(wfs: WorkflowTable, t: Task, tasks: Tasks) {
    exists i :: 0 <= i < |t.dependsOn| && BlocksAt(wfs, t, tasks, i)
  }

  predicate BlocksAt(wfs: WorkflowTable, t: Task, tasks: Tasks, i: nat)
    requires i < |t.dependsOn|
  {
    t.dependsOn[i] !in tasks || DependencyBlocks(wfs, tasks[t.dependsOn[i]])
  }

  /** `dependency_tasks`: the rows that exist, in recorded order. */
  method DependencyTasks(t: Task, tasks: Tasks) returns (found: seq<Task>)
    ensures found == Found(t.dependsOn, tasks)
  {
    found := [];
    for i := 0 to |t.dependsOn|
      invariant found == Found(t.dependsOn[..i], tasks)
    {
      assert t.dependsOn[..i + 1] == t.dependsOn[..i] + [t.dependsOn[i]];
      FoundAppends(t.dependsOn[..i], t.dependsOn[i], tasks);
      if t.dependsOn[i] in tasks {
        found := found + [tasks[t.dependsOn[i]]];
      }
    }
    assert t.dependsOn[..|t.dependsOn|] == t.dependsOn;
  }

  function Found(deps: seq<Id>, tasks: Tasks): seq<Task> {
    if deps == [] then []
    else FoundOne(deps[0], tasks) + Found(deps[1..], tasks)
  }

  function FoundOne(d: Id, tasks: Tasks): seq<Task> {
    if d in tasks then [tasks[d]] else []
  }

  lemma {:induction false} FoundAppends(deps: seq<Id>, d: Id, tasks: Tasks)
    ensures Found(deps + [d], tasks) == Found(deps, tasks) + FoundOne(d, tasks)
  {
    if deps == [] {
      assert deps + [d] == [d] && [d][1..] == [];
      assert Found([d], tasks) == FoundOne(d, tasks) + [];
    } else {
      assert (deps + [d])[1..] == deps[1..] + [d] && (deps + [d])[0] == deps[0];
      FoundAppends(deps[1..], d, tasks);
      Sequences.Regroup(FoundOne(deps[0], tasks), Found(deps[1..], tasks), FoundOne(d, tasks));
    }
  }

  /** The store-backed check compares lengths instead of looking for missing rows; that comes to the
      same thing. */
  lemma {:induction false} FoundIsShortIffDangling(wfs: WorkflowTable, deps: seq<Id>, tasks: Tasks)
    ensures |Found(deps, tasks)| <= |deps|
    ensures |Found(deps, tasks)| == |deps| <==> forall i :: 0 <= i < |deps| ==> deps[i] in tasks
    ensures |Found(deps, tasks)| == |deps| ==>
              forall i :: 0 <= i < |deps| ==> Found(deps, tasks)[i] == tasks[deps[i]]
  {
    if deps == [] {
    } else {
      var rest := Found(deps[1..], tasks);
      FoundIsShortIffDangling(wfs, deps[1..], tasks);
      assert (forall i :: 0 <= i < |deps| ==> deps[i] in tasks) <==>
             deps[0] in tasks && forall i :: 0 <= i < |deps[1..]| ==> deps[1..][i] in tasks by {
        if forall i :: 0 <= i < |deps| ==> deps[i] in tasks {
          assert forall i :: 0 <= i < |deps[1..]| ==> deps[1..][i] == deps[i + 1];
        }
      }
    }
  }

  /** `dependencies_blocking`, and its agreement with the snapshot form. */
  method DependenciesBlocking(wfs: WorkflowTable, t: Task, tasks: Tasks) returns (blocking: bool)
    ensures blocking <==> BlockedInSnapshot(wfs, t, tasks)
  {
    var dependencies := DependencyTasks(t, tasks);
    FoundIsShortIffDangling(wfs, t.dependsOn, tasks);
    if |dependencies| != |t.dependsOn| {
      var i :| 0 <= i < |t.dependsOn| && t.dependsOn[i] !in tasks;
      assert BlocksAt(wfs, t, tasks, i);
      return true;
    }
    for i := 0 to |dependencies|
      invariant forall j :: 0 <= j < i ==> !BlocksAt(wfs, t, tasks, j)
    {
      if DependencyBlocks(wfs, dependencies[i]) {
        assert BlocksAt(wfs, t, tasks, i);
        return true;
      }
    }
    return false;
  }

  // ---- the spawner's view ---------------------------------------------------------------------

  /** A task as the runner receives it. `terminal` is the service's projection; older services omit
      it, and the runner then falls back to the built-in labels. */
  datatype TaskJson = TaskJson(
    state: string, claimedBy: Option<string>, launchPaused: bool, dependsOn: seq<Id>, terminal: Option<bool>)

  function Project(wfs: WorkflowTable, t: Task): TaskJson {
    TaskJson(t.state, t.claimedBy, t.launchPaused, t.dependsOn, Some(IsTerminal(wfs, t)))
  }

  predicate JsonTerminal(t: TaskJson) {
    if t.terminal.Some? then t.terminal.value else t.state in TERMINAL_LABELS
  }

  predicate JsonBlocks(rows: map<Id, TaskJson>, d: Id) {
    d !in rows || rows[d].state == DROPPED || !JsonTerminal(rows[d])
  }

  predicate IsSpawnable(rows: map<Id, TaskJson>, u: Id)
    requires u in rows
  {
    && !Truthy(rows[u].claimedBy) && !rows[u].launchPaused && !JsonTerminal(rows[u])
    && forall d :: d in rows[u].dependsOn ==> !JsonBlocks(rows, d)
  }

  /** `spawnable_tasks`: the ready candidates, in list order. */
  function Spawnable(ids: seq<Id>, rows: map<Id, TaskJson>): (r: seq<Id>)
    requires forall u :: u in ids ==> u in rows
    ensures forall u :: u in r <==> u in ids && IsSpawnable(rows, u)
  {
    if ids == [] then []
    else (if IsSpawnable(rows, ids[0]) then [ids[0]] else []) + Spawnable(ids[1..], rows)
  }

  /** On one snapshot the runner's candidates are exactly the unclaimed, unpaused, non-terminal tasks
      that the service does not consider blocked. */
  lemma SpawnerAgreesWithService(wfs: WorkflowTable, ids: seq<Id>, tasks: Tasks, u: Id)
    requires (forall v :: v in ids <==> v in tasks) && u in tasks
    ensures var rows := map v | v in tasks :: Project(wfs, tasks[v]);
            u in Spawnable(ids, rows) <==>
              && !Truthy(tasks[u].claimedBy) && !tasks[u].launchPaused && !IsTerminal(wfs, tasks[u])
              && !BlockedInSnapshot(wfs, tasks[u], tasks)
  {
    var rows := map v | v in tasks :: Project(wfs, tasks[v]);
    var t := tasks[u];
    if BlockedInSnapshot(wfs, t, tasks) {
      var i :| 0 <= i < |t.dependsOn| && BlocksAt(wfs, t, tasks, i);
      assert t.dependsOn[i] in rows[u].dependsOn && JsonBlocks(rows, t.dependsOn[i]);
    } else {
      forall d | d in rows[u].dependsOn
        ensures !JsonBlocks(rows, d)
      {
        var i :| 0 <= i < |t.dependsOn| && t.dependsOn[i] == d;
        assert !BlocksAt(wfs, t, tasks, i);
      }
    }
  }

  /** Of rows without the service's projection, the runner takes the unclaimed, open ones that are in
      neither built-in final state and whose dependencies are all complete. */
  lemma OlderServiceRows(ids: seq<Id>, rows: map<Id, TaskJson>, u: Id)
    requires (forall v :: v in ids <==> v in rows) && forall v :: v in rows ==> rows[v].terminal.None?
    ensures u in Spawnable(ids, rows) <==>
              && u in rows && (rows[u].claimedBy.None? || rows[u].claimedBy == Some(""))
              && !rows[u].launchPaused && rows[u].state != "COMPLETE" && rows[u].state != "DROPPED"
              && forall d :: d in rows[u].dependsOn ==> d in rows && rows[d].state == "COMPLETE"
  {
    if u in rows {
      forall d | d in rows[u].dependsOn
        ensures JsonBlocks(rows, d) <==> !(d in rows && rows[d].state == "COMPLETE")
      {
      }
    }
  }

  // ---- progress -------------------------------------------------------------------------------

  ghost predicate BlockedOnlyByDropped(wfs: WorkflowTable, t: Task, tasks: Tasks) {
    forall d :: d in t.dependsOn ==> d in tasks && (IsTerminal(wfs, tasks[d]) || tasks[d].state == DROPPED)
  }

  /** Below every unfinished task of an acyclic, complete graph there is an unfinished task whose
      dependencies are all finished or dropped. `p` is the walk followed so far. */
  lemma {:induction false} UnfinishedTaskBelow(wfs: WorkflowTable, tasks: Tasks, p: seq<Id>) returns (u: Id)
    requires DependenciesOk(tasks)
    requires p != [] && IsTrail(DependenciesOf(tasks), p) && Distinct(p)
    requires forall i :: 0 <= i < |p| ==> p[i] in tasks && !IsTerminal(wfs, tasks[p[i]])
    ensures u in tasks && !IsTerminal(wfs, tasks[u]) && BlockedOnlyByDropped(wfs, tasks[u], tasks)
    ensures Reaches(DependenciesOf(tasks), p[0], u)
    decreases tasks.Keys - (set v | v in p)
  {
    var g := DependenciesOf(tasks);
    u := p[|p| - 1];
    assert IsWalk(g, p, p[0], u);
    if !BlockedOnlyByDropped(wfs, tasks[u], tasks) {
      var d :| d in tasks[u].dependsOn && !IsTerminal(wfs, tasks[d]);
      assert Edge(g, u, d);
      if d in p {
        var i :| 0 <= i < |p| && p[i] == d;
        CloseCycle(g, p, i, d);
        assert false;
      }
      WalkFollowedByEdge(g, p, d);
      assert d in tasks.Keys - (set v | v in p);
      u := UnfinishedTaskBelow(wfs, tasks, p + [d]);
    }
  }

  /** Progress: work that no dropped task holds up always has a ready task. */
  lemma SomeTaskIsReady(wfs: WorkflowTable, tasks: Tasks, t: Id) returns (u: Id)
    requires DependenciesOk(tasks) && t in tasks && !IsTerminal(wfs, tasks[t])
    requires forall v, d :: v in tasks && d in tasks[v].dependsOn ==> tasks[d].state != DROPPED
    ensures u in tasks && !IsTerminal(wfs, tasks[u]) && !BlockedInSnapshot(wfs, tasks[u], tasks)
    ensures Reaches(DependenciesOf(tasks), t, u)
  {
    u := UnfinishedTaskBelow(wfs, tasks, [t]);
  }
}
