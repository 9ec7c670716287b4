/** What every run of the task service keeps: known states, well-formed logs, and a dependency graph
    without cycles or dangling ids. */
module ServiceRuns {
  import opened Models
  import opened Workflows
  import opened ServiceSpec
  import Lifecycle
  import Ownership
  import Readiness
  import DependencyGraph

  // ---- the stored state -----------------------------------------------------------------------

  ghost predicate LogOk(wfs: WorkflowTable, t: Task)
    requires ValidTable(wfs)
  {
    t.workflow in wfs && Lifecycle.HistoryOk(wfs[t.workflow], t)
  }

  ghost predicate LogsOk(wfs: WorkflowTable, tasks: Tasks)
    requires ValidTable(wfs)
  {
    forall u {:trigger LogOk(wfs, tasks[u])} :: u in tasks ==> LogOk(wfs, tasks[u])
  }

  /** Known workflows and states, well-formed logs, and an acyclic and complete dependency graph. */
  ghost predicate WorldOk(wfs: WorkflowTable, w: World)
    requires ValidTable(wfs)
  {
    AllKnown(wfs, w) && LogsOk(wfs, w.tasks) && Readiness.DependenciesOk(w.tasks)
  }

  lemma SameDependencies(tasks: Tasks, tasks': Tasks)
    requires Readiness.DependenciesOk(tasks) && tasks'.Keys == tasks.Keys
    requires forall u :: u in tasks' ==> tasks'[u].dependsOn == tasks[u].dependsOn
    ensures Readiness.DependenciesOk(tasks')
  {
    assert Readiness.DependenciesOf(tasks') == Readiness.DependenciesOf(tasks);
    assert Readiness.NothingDangles(tasks');
  }

  /** Nothing that the invariant speaks about differs, except possibly the log. */
  ghost predicate SameFrame(t: Task, t': Task) {
    t'.repo == t.repo && t'.workflow == t.workflow && t'.dependsOn == t.dependsOn
  }

  /** Rewriting tasks one by one, without touching dependencies, keeps the world well formed. */
  lemma PointwiseKeepsOk(wfs: WorkflowTable, w: World, w': World)
    requires ValidTable(wfs) && WorldOk(wfs, w)
    requires w'.tasks.Keys == w.tasks.Keys && w'.repos.Keys == w.repos.Keys
    requires LogsOk(wfs, w'.tasks)
    requires forall u :: u in w'.tasks ==> SameFrame(w.tasks[u], w'.tasks[u])
    ensures WorldOk(wfs, w')
  {
    SameDependencies(w.tasks, w'.tasks);
    forall u | u in w'.tasks
      ensures Known(wfs, w'.repos, w'.tasks[u])
    {
      assert Known(wfs, w.repos, w.tasks[u]) && LogOk(wfs, w'.tasks[u]);
    }
  }

  lemma OneTaskKeepsOk(wfs: WorkflowTable, w: World, id: Id, t: Task)
    requires ValidTable(wfs) && WorldOk(wfs, w) && id in w.tasks
    requires LogOk(wfs, t) && SameFrame(w.tasks[id], t)
    ensures WorldOk(wfs, w.(tasks := w.tasks[id := t]))
  {
    var tasks' := w.tasks[id := t];
    forall u {:trigger LogOk(wfs, tasks'[u])} | u in tasks'
      ensures LogOk(wfs, tasks'[u])
    {
      assert u != id ==> LogOk(wfs, w.tasks[u]);
    }
    PointwiseKeepsOk(wfs, w, w.(tasks := tasks'));
  }

  /** The log's well-formedness depends on the log and the state only. */
  lemma SameLog(wfs: WorkflowTable, t: Task, t': Task)
    requires ValidTable(wfs) && LogOk(wfs, t)
    requires t'.history == t.history && t'.state == t.state && t'.workflow == t.workflow
    ensures LogOk(wfs, t')
  {
  }

  lemma DroppedTaskOk(wfs: WorkflowTable, t: Task, note: Option<string>, now: string)
    requires ValidTable(wfs) && LogOk(wfs, t) && !IsTerminal(wfs, t)
    ensures LogOk(wfs, DropTask(wfs, t, note, now))
    ensures SameFrame(t, DropTask(wfs, t, note, now))
  {
    var g := wfs[t.workflow];
    Lifecycle.DropIsNeverRefused(g, t, now, Some(Lifecycle.CASCADE_DROP), note);
    Lifecycle.ApplyKeepsHistory(g, t, DROPPED, now, Some(Lifecycle.CASCADE_DROP), note);
  }

  lemma DropSetIsUnfinished(wfs: WorkflowTable, tasks: Tasks, root: Id)
    ensures forall u :: u in DropSet(wfs, tasks, root) ==>
              u in tasks && !IsTerminal(wfs, tasks[u])
  {
    var s := set u | u in tasks && !IsTerminal(wfs, tasks[u]);
    assert DropClosed(wfs, tasks, root, s);
  }

  lemma SaveMovedKeepsOk(wfs: WorkflowTable, w: World, id: Id, t: Task, note: Option<string>, now: string)
    requires ValidTable(wfs) && WorldOk(wfs, w) && id in w.tasks
    requires LogOk(wfs, t) && SameFrame(w.tasks[id], t)
    ensures WorldOk(wfs, SaveMoved(wfs, w, id, t, note, now))
  {
    OneTaskKeepsOk(wfs, w, id, t);
    if t.state == DROPPED {
      CascadeKeepsOk(wfs, w.(tasks := w.tasks[id := t]), id, note, now);
    }
  }

  lemma CascadedTaskOk(wfs: WorkflowTable, tasks: Tasks, root: Id, note: Option<string>, now: string, u: Id)
    requires ValidTable(wfs) && u in tasks && LogOk(wfs, tasks[u])
    ensures var t := Cascade(wfs, tasks, root, note, now)[u];
            LogOk(wfs, t) && SameFrame(tasks[u], t)
  {
    DropSetIsUnfinished(wfs, tasks, root);
    if u in DropSet(wfs, tasks, root) {
      DroppedTaskOk(wfs, tasks[u], note, now);
    }
  }

  lemma CascadeKeepsOk(wfs: WorkflowTable, w: World, root: Id, note: Option<string>, now: string)
    requires ValidTable(wfs) && WorldOk(wfs, w)
    ensures WorldOk(wfs, w.(tasks := Cascade(wfs, w.tasks, root, note, now)))
  {
    var tasks' := Cascade(wfs, w.tasks, root, note, now);
    assert tasks'.Keys == w.tasks.Keys;
    forall u {:trigger LogOk(wfs, tasks'[u])} | u in tasks'
      ensures LogOk(wfs, tasks'[u]) && SameFrame(w.tasks[u], tasks'[u])
    {
      assert LogOk(wfs, w.tasks[u]);
      CascadedTaskOk(wfs, w.tasks, root, note, now, u);
    }
    forall u | u in tasks'
      ensures SameFrame(w.tasks[u], tasks'[u])
    {
      assert LogOk(wfs, tasks'[u]);
    }
    PointwiseKeepsOk(wfs, w, w.(tasks := tasks'));
  }

  lemma CreateKeepsOk(wfs: WorkflowTable, w: World, c: Command)
    requires ValidTable(wfs) && WorldOk(wfs, w) && c.CreateTask? && CreateStep(wfs, w, c).Ok?
    ensures WorldOk(wfs, CreateStep(wfs, w, c).value)
  {
    var t0 := Lifecycle.StartTask(wfs[c.workflow], c.repo, c.workflow, c.now);
    Lifecycle.StartIsOk(wfs[c.workflow], c.repo, c.workflow, c.now);
    var w' := CreateStep(wfs, w, c).value;
    SameLog(wfs, t0, w'.tasks[c.id]);
    NewTaskKeepsOk(wfs, w, c.id, w'.tasks[c.id]);
  }

  lemma NewTaskKeepsOk(wfs: WorkflowTable, w: World, id: Id, t: Task)
    requires ValidTable(wfs) && WorldOk(wfs, w)
    requires LogOk(wfs, t) && t.repo in w.repos
    requires t.dependsOn == [] || Readiness.WriteAllowed(w.tasks, id, t.dependsOn)
    ensures WorldOk(wfs, w.(tasks := w.tasks[id := t]))
  {
    var tasks' := w.tasks[id := t];
    if t.dependsOn == [] {
      NoDependenciesIsAllowed(w.tasks, id);
    }
    Readiness.WriteKeepsDependenciesOk(w.tasks, id, t);
    forall u | u in tasks'
      ensures LogOk(wfs, tasks'[u]) && Known(wfs, w.repos, tasks'[u])
    {
      if u != id {
        assert LogOk(wfs, w.tasks[u]) && Known(wfs, w.repos, w.tasks[u]);
      }
    }
  }

  /** The service skips the check for an empty list; it would have passed. */
  lemma NoDependenciesIsAllowed(tasks: Tasks, id: Id)
    requires Readiness.DependenciesOk(tasks)
    ensures Readiness.WriteAllowed(tasks, id, [])
  {
    var g := Readiness.DependenciesOf(tasks)[id := []];
    forall c | DependencyGraph.IsCycle(g, c)
      ensures c[0] != id
    {
      assert DependencyGraph.Follows(g, c, 0);
    }
    DependencyGraph.ClosedCycleFreeIsSafe(g, {id}, id);
  }

  lemma TransitionKeepsOk(wfs: WorkflowTable, w: World, id: Id, to: string,
                          trigger: Option<string>, note: Option<string>, now: string)
    requires ValidTable(wfs) && WorldOk(wfs, w) && id in w.tasks && LogOk(wfs, w.tasks[id])
    ensures var g := wfs[w.tasks[id].workflow];
            var r := Move(wfs, w, id, Lifecycle.ApplyTransition(g, w.tasks[id], to, now, trigger, note), note, now);
            r.Ok? ==> WorldOk(wfs, r.value)
  {
    var t, g := w.tasks[id], wfs[w.tasks[id].workflow];
    var moved := Lifecycle.ApplyTransition(g, t, to, now, trigger, note);
    if moved.Ok? {
      Lifecycle.ApplyKeepsHistory(g, t, to, now, trigger, note);
      SaveMovedKeepsOk(wfs, w, id, moved.value, note, now);
    }
  }

  lemma FreeMoveKeepsOk(wfs: WorkflowTable, w: World, id: Id, to: string, note: Option<string>, now: string)
    requires ValidTable(wfs) && WorldOk(wfs, w) && id in w.tasks && LogOk(wfs, w.tasks[id])
    ensures var g := wfs[w.tasks[id].workflow];
            var r := Move(wfs, w, id, Lifecycle.ForceTransition(g, w.tasks[id], to, now, note), note, now);
            r.Ok? ==> WorldOk(wfs, r.value)
  {
    var t, g := w.tasks[id], wfs[w.tasks[id].workflow];
    var moved := Lifecycle.ForceTransition(g, t, to, now, note);
    if moved.Ok? {
      Lifecycle.ForceKeepsHistory(g, t, to, now, note);
      SaveMovedKeepsOk(wfs, w, id, moved.value, note, now);
    }
  }

  lemma ResolveKeepsRecord(g: Graph, t: Task, key: string, status: Status, comment: Option<string>, now: string)
    requires g.Valid() && t.history != []
    ensures var r := Lifecycle.ResolveAndAdvance(g, t, key, status, comment, now);
            r.Ok? ==> SameFrame(t, r.value)
  {
  }

  lemma ResolveKeepsOk(wfs: WorkflowTable, w: World, c: Command)
    requires ValidTable(wfs) && WorldOk(wfs, w) && c.ResolveResponsibility?
    requires c.id in w.tasks && LogOk(wfs, w.tasks[c.id]) && Known(wfs, w.repos, w.tasks[c.id])
    requires MoveStep(wfs, w, c).Ok?
    ensures WorldOk(wfs, MoveStep(wfs, w, c).value)
  {
    var t, g := w.tasks[c.id], wfs[w.tasks[c.id].workflow];
    var r := Lifecycle.ResolveAndAdvance(g, t, c.key, c.status, c.comment, c.now);
    Lifecycle.ResolveAndAdvanceSpec(g, t, c.key, c.status, c.comment, c.now);
    ResolveKeepsRecord(g, t, c.key, c.status, c.comment, c.now);
    assert LogOk(wfs, r.value);
    if |r.value.history| > |t.history| {
      SaveMovedKeepsOk(wfs, w, c.id, r.value, None, c.now);
    } else {
      OneTaskKeepsOk(wfs, w, c.id, r.value);
    }
  }

  lemma MoveKeepsOk(wfs: WorkflowTable, w: World, c: Command)
    requires ValidTable(wfs) && WorldOk(wfs, w) && Moves(c)
    requires c.id in w.tasks && LogOk(wfs, w.tasks[c.id]) && Known(wfs, w.repos, w.tasks[c.id])
    requires MoveStep(wfs, w, c).Ok?
    ensures WorldOk(wfs, MoveStep(wfs, w, c).value)
  {
    var t, g := w.tasks[c.id], wfs[w.tasks[c.id].workflow];
    match c
    case RequestTransition(id, to, trigger, note, now) =>
      TransitionKeepsOk(wfs, w, id, to, trigger, note, now);
    case ApplyOperation(id, operation, note, now) =>
      TransitionKeepsOk(wfs, w, id, g.operations[t.state][operation], Some(operation), note, now);
    case SetState(id, to, note, now) =>
      FreeMoveKeepsOk(wfs, w, id, to, note, now);
    case ResolveResponsibility(_, _, _, _, _) =>
      ResolveKeepsOk(wfs, w, c);
  }

  lemma WakeKeepsOk(wfs: WorkflowTable, w: World, id: Id, index: int, wake: WakeStatus)
    requires ValidTable(wfs) && WorldOk(wfs, w) && id in w.tasks && LogOk(wfs, w.tasks[id])
    requires Lifecycle.RecordWake(w.tasks[id], index, wake).Ok?
    ensures WorldOk(wfs, w.(tasks := w.tasks[id := Lifecycle.RecordWake(w.tasks[id], index, wake).value]))
  {
    var t' := Lifecycle.RecordWake(w.tasks[id], index, wake).value;
    Lifecycle.WakeKeepsHistory(wfs[w.tasks[id].workflow], w.tasks[id], index, wake);
    assert LogOk(wfs, t');
    OneTaskKeepsOk(wfs, w, id, t');
  }

  lemma RecordKeepsOk(wfs: WorkflowTable, w: World, c: Command)
    requires ValidTable(wfs) && WorldOk(wfs, w) && Records(c)
    requires c.id in w.tasks && LogOk(wfs, w.tasks[c.id]) && Known(wfs, w.repos, w.tasks[c.id])
    requires RecordStep(w, c).Ok?
    ensures WorldOk(wfs, w.(tasks := w.tasks[c.id := RecordStep(w, c).value]))
  {
    var t, t' := w.tasks[c.id], RecordStep(w, c).value;
    if c.RecordWake? {
      WakeKeepsOk(wfs, w, c.id, c.index, c.wake);
    } else {
      assert t'.history == t.history && t'.state == t.state && t'.repo == t.repo && t'.workflow == t.workflow;
      SameLog(wfs, t, t');
      if c.SetDependencies? {
        NewTaskKeepsOk(wfs, w, c.id, t');
      } else {
        OneTaskKeepsOk(wfs, w, c.id, t');
      }
    }
  }

  /** Claims, workspaces and migrations leave the task's content alone. */
  ghost predicate SameContent(t: Task, t': Task) {
    t' == t.(claimedBy := t'.claimedBy, launchPaused := t'.launchPaused, branch := t'.branch,
             clone := t'.clone, provisionedBy := t'.provisionedBy,
             workspaceVerifiedBy := t'.workspaceVerifiedBy, migration := t'.migration)
  }

  lemma HandOffKeepsContent(wfs: WorkflowTable, w: World, c: Command)
    requires OnOneTask(c) && !Moves(c) && !Records(c)
    requires c.id in w.tasks && Known(wfs, w.repos, w.tasks[c.id]) && HandOffStep(wfs, w, c).Ok?
    ensures SameContent(w.tasks[c.id], HandOffStep(wfs, w, c).value)
  {
  }

  lemma HandOffKeepsOk(wfs: WorkflowTable, w: World, c: Command)
    requires ValidTable(wfs) && WorldOk(wfs, w) && OnOneTask(c) && !Moves(c) && !Records(c)
    requires c.id in w.tasks && LogOk(wfs, w.tasks[c.id]) && Known(wfs, w.repos, w.tasks[c.id])
    requires HandOffStep(wfs, w, c).Ok?
    ensures WorldOk(wfs, w.(tasks := w.tasks[c.id := HandOffStep(wfs, w, c).value]))
  {
    HandOffKeepsContent(wfs, w, c);
    SameLog(wfs, w.tasks[c.id], HandOffStep(wfs, w, c).value);
    OneTaskKeepsOk(wfs, w, c.id, HandOffStep(wfs, w, c).value);
  }

  lemma BulkKeepsOk(wfs: WorkflowTable, w: World, w': World)
    requires ValidTable(wfs) && WorldOk(wfs, w)
    requires w'.tasks.Keys == w.tasks.Keys && w'.repos.Keys == w.repos.Keys
    requires forall u :: u in w'.tasks ==> SameContent(w.tasks[u], w'.tasks[u])
    ensures WorldOk(wfs, w')
  {
    forall u {:trigger LogOk(wfs, w'.tasks[u])} | u in w'.tasks
      ensures LogOk(wfs, w'.tasks[u])
    {
      assert LogOk(wfs, w.tasks[u]) && SameContent(w.tasks[u], w'.tasks[u]);
      SameLog(wfs, w.tasks[u], w'.tasks[u]);
    }
    PointwiseKeepsOk(wfs, w, w');
  }

  lemma PauseKeepsOk(wfs: WorkflowTable, w: World, repo: Id, paused: bool, ids: set<Id>)
    requires ValidTable(wfs) && WorldOk(wfs, w) && PauseStep(w, repo, paused, ids).Ok?
    ensures WorldOk(wfs, PauseStep(w, repo, paused, ids).value)
  {
    BulkKeepsOk(wfs, w, PauseStep(w, repo, paused, ids).value);
  }

  lemma ReclaimKeepsOk(wfs: WorkflowTable, w: World, runner: string)
    requires ValidTable(wfs) && WorldOk(wfs, w)
    ensures WorldOk(wfs, ReclaimStep(wfs, w, runner))
  {
    BulkKeepsOk(wfs, w, ReclaimStep(wfs, w, runner));
  }

  lemma StepKeepsOk(wfs: WorkflowTable, w: World, c: Command)
    requires ValidTable(wfs) && WorldOk(wfs, w)
    ensures WorldOk(wfs, Next(wfs, w, c))
  {
    if Step(wfs, w, c).Ok? {
      assert OnOneTask(c) ==> LogOk(wfs, w.tasks[c.id]);
      if c.CreateTask? {
        CreateKeepsOk(wfs, w, c);
      } else if c.PauseLaunches? {
        PauseKeepsOk(wfs, w, c.repo, c.repoPaused, c.ids);
      } else if c.Reclaim? {
        ReclaimKeepsOk(wfs, w, c.runner);
      } else if Moves(c) {
        MoveKeepsOk(wfs, w, c);
      } else if Records(c) {
        RecordKeepsOk(wfs, w, c);
      } else {
        HandOffKeepsOk(wfs, w, c);
      }
    }
  }

  // ---- runs -----------------------------------------------------------------------------------

  /** A run: the worlds before, between and after the commands. It starts with no tasks. */
  ghost predicate IsRun(wfs: WorkflowTable, ws: seq<World>, cs: seq<Command>)
    requires ValidTable(wfs)
  {
    && |ws| == |cs| + 1
    && ws[0].tasks == map[]
    && (forall i :: 0 <= i < |cs| ==> ws[i + 1] == Next(wfs, ws[i], cs[i]))
  }

  lemma EmptyIsOk(wfs: WorkflowTable, w: World)
    requires ValidTable(wfs) && w.tasks == map[]
    ensures WorldOk(wfs, w)
  {
    assert DependencyGraph.Acyclic(Readiness.DependenciesOf(w.tasks)) by {
      forall c
        ensures !DependencyGraph.IsCycle(Readiness.DependenciesOf(w.tasks), c)
      {
        if |c| >= 2 {
          assert !DependencyGraph.Follows(Readiness.DependenciesOf(w.tasks), c, 0);
        }
      }
    }
  }

  /** Every world of every run is well formed. */
  lemma {:induction false} RunsKeepOk(wfs: WorkflowTable, ws: seq<World>, cs: seq<Command>, i: nat)
    requires ValidTable(wfs) && IsRun(wfs, ws, cs) && i < |ws|
    ensures WorldOk(wfs, ws[i])
  {
    if i == 0 {
      EmptyIsOk(wfs, ws[0]);
    } else {
      RunsKeepOk(wfs, ws, cs, i - 1);
      StepKeepsOk(wfs, ws[i - 1], cs[i - 1]);
      assert ws[i - 1 + 1] == Next(wfs, ws[i - 1], cs[i - 1]);
    }
  }

  /** At every point of every run, an unfinished task with no dropped dependency in sight means some
      unfinished task that it waits for, or itself, is ready. */
  lemma SomeTaskIsReadyInEveryRun(wfs: WorkflowTable, ws: seq<World>, cs: seq<Command>, i: nat, t: Id)
    returns (u: Id)
    requires ValidTable(wfs) && IsRun(wfs, ws, cs) && i < |ws|
    requires t in ws[i].tasks && !IsTerminal(wfs, ws[i].tasks[t])
    requires forall v, d :: v in ws[i].tasks && d in ws[i].tasks[v].dependsOn && d in ws[i].tasks ==>
               ws[i].tasks[d].state != DROPPED
    ensures u in ws[i].tasks && !IsTerminal(wfs, ws[i].tasks[u])
    ensures !Readiness.BlockedInSnapshot(wfs, ws[i].tasks[u], ws[i].tasks)
    ensures DependencyGraph.Reaches(Readiness.DependenciesOf(ws[i].tasks), t, u)
  {
    RunsKeepOk(wfs, ws, cs, i);
    forall v, d | v in ws[i].tasks && d in ws[i].tasks[v].dependsOn
      ensures d in ws[i].tasks
    {
      assert Readiness.NothingDangles(ws[i].tasks);
    }
    u := Readiness.SomeTaskIsReady(wfs, ws[i].tasks, t);
  }
}
