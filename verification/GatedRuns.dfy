/** The gate as a property of calls and of whole runs: a task's log grows by one entry at a time, and
    only the user's free move of that very task may write an entry that the gate did not let through
    (src/panopticon/taskservice/service.py, src/panopticon/core/workflow.py). */
module GatedRuns {
  import opened Models
  import opened Workflows
  import opened ServiceSpec
  import opened ServiceRuns
  import Lifecycle
  import StoreRefinement
  import Store

  /** What one call does to the log of a stored task, unless it is the task's own free move. */
  ghost predicate Gates(wfs: WorkflowTable, t: Task, t': Task) {
    t'.workflow == t.workflow && t.workflow in wfs && Lifecycle.GrowsGated(wfs[t.workflow], t.history, t'.history)
  }

  lemma SameLogGates(wfs: WorkflowTable, t: Task, t': Task)
    requires t.workflow in wfs && t'.workflow == t.workflow && |t'.history| == |t.history|
    ensures Gates(wfs, t, t')
  {
  }

  // ---- one call -------------------------------------------------------------------------------

  /** A task that falls in a cascade is dropped through the gate. */
  lemma DroppedTaskGates(wfs: WorkflowTable, t: Task, note: Option<string>, now: string)
    requires ValidTable(wfs) && LogOk(wfs, t) && !IsTerminal(wfs, t)
    ensures Gates(wfs, t, DropTask(wfs, t, note, now))
  {
    var g := wfs[t.workflow];
    Lifecycle.DropIsNeverRefused(g, t, now, Some(Lifecycle.CASCADE_DROP), note);
    Lifecycle.ApplyKeepsHistory(g, t, DROPPED, now, Some(Lifecycle.CASCADE_DROP), note);
  }

  lemma CascadedTaskGates(wfs: WorkflowTable, tasks: Tasks, root: Id, note: Option<string>, now: string, u: Id)
    requires ValidTable(wfs) && u in tasks && LogOk(wfs, tasks[u])
    ensures Gates(wfs, tasks[u], Cascade(wfs, tasks, root, note, now)[u])
  {
    DropSetIsUnfinished(wfs, tasks, root);
    if u in DropSet(wfs, tasks, root) {
      DroppedTaskGates(wfs, tasks[u], note, now);
    }
  }

  /** A finished task is left alone by the cascade, the moved task itself above all. */
  lemma FinishedStays(wfs: WorkflowTable, tasks: Tasks, root: Id, note: Option<string>, now: string, u: Id)
    requires u in tasks && IsTerminal(wfs, tasks[u])
    ensures Cascade(wfs, tasks, root, note, now)[u] == tasks[u]
  {
    DropSetIsUnfinished(wfs, tasks, root);
  }

  lemma MovedTaskIsSaved(wfs: WorkflowTable, w: World, id: Id, t: Task, note: Option<string>, now: string)
    requires ValidTable(wfs) && id in w.tasks && LogOk(wfs, t)
    ensures id in SaveMoved(wfs, w, id, t, note, now).tasks && SaveMoved(wfs, w, id, t, note, now).tasks[id] == t
  {
    if t.state == DROPPED {
      assert wfs[t.workflow].Valid();
      FinishedStays(wfs, w.tasks[id := t], id, note, now, id);
    }
  }

  lemma OtherTaskGates(wfs: WorkflowTable, w: World, id: Id, t: Task, note: Option<string>, now: string, u: Id)
    requires ValidTable(wfs) && WorldOk(wfs, w) && id in w.tasks && u in w.tasks && u != id
    ensures u in SaveMoved(wfs, w, id, t, note, now).tasks
    ensures Gates(wfs, w.tasks[u], SaveMoved(wfs, w, id, t, note, now).tasks[u])
  {
    assert LogOk(wfs, w.tasks[u]);
    if t.state == DROPPED {
      CascadedTaskGates(wfs, w.tasks[id := t], id, note, now, u);
    }
  }

  lemma GatedMoveGates(wfs: WorkflowTable, w: World, id: Id, to: string, trigger: Option<string>, note: Option<string>,
                       now: string, u: Id)
    requires ValidTable(wfs) && WorldOk(wfs, w) && id in w.tasks && u in w.tasks && Known(wfs, w.repos, w.tasks[id])
    requires Lifecycle.ApplyTransition(wfs[w.tasks[id].workflow], w.tasks[id], to, now, trigger, note).Ok?
    ensures var t := Lifecycle.ApplyTransition(wfs[w.tasks[id].workflow], w.tasks[id], to, now, trigger, note).value;
            var tasks' := SaveMoved(wfs, w, id, t, note, now).tasks;
            u in tasks' && Gates(wfs, w.tasks[u], tasks'[u])
  {
    var g := wfs[w.tasks[id].workflow];
    assert LogOk(wfs, w.tasks[id]);
    var t := Lifecycle.ApplyTransition(g, w.tasks[id], to, now, trigger, note).value;
    Lifecycle.ApplyKeepsHistory(g, w.tasks[id], to, now, trigger, note);
    if u == id {
      MovedTaskIsSaved(wfs, w, id, t, note, now);
    } else {
      OtherTaskGates(wfs, w, id, t, note, now, u);
    }
  }

  lemma ResolveGates(wfs: WorkflowTable, w: World, c: Command, u: Id)
    requires ValidTable(wfs) && WorldOk(wfs, w) && c.ResolveResponsibility? && c.id in w.tasks && u in w.tasks
    requires Known(wfs, w.repos, w.tasks[c.id]) && MoveStep(wfs, w, c).Ok?
    ensures var tasks' := MoveStep(wfs, w, c).value.tasks; u in tasks' && Gates(wfs, w.tasks[u], tasks'[u])
  {
    var t, g := w.tasks[c.id], wfs[w.tasks[c.id].workflow];
    assert LogOk(wfs, t) && LogOk(wfs, w.tasks[u]);
    var t' := Lifecycle.ResolveAndAdvance(g, t, c.key, c.status, c.comment, c.now).value;
    Lifecycle.ResolveAndAdvanceSpec(g, t, c.key, c.status, c.comment, c.now);
    ResolveKeepsRecord(g, t, c.key, c.status, c.comment, c.now);
    if |t'.history| <= |t.history| {
      SameLogGates(wfs, w.tasks[u], MoveStep(wfs, w, c).value.tasks[u]);
    } else if u == c.id {
      MovedTaskIsSaved(wfs, w, c.id, t', None, c.now);
    } else {
      OtherTaskGates(wfs, w, c.id, t', None, c.now, u);
    }
  }

  lemma MoveGates(wfs: WorkflowTable, w: World, c: Command, u: Id)
    requires ValidTable(wfs) && WorldOk(wfs, w) && Moves(c) && c.id in w.tasks && u in w.tasks
    requires Known(wfs, w.repos, w.tasks[c.id]) && MoveStep(wfs, w, c).Ok? && !(c.SetState? && c.id == u)
    ensures var tasks' := MoveStep(wfs, w, c).value.tasks; u in tasks' && Gates(wfs, w.tasks[u], tasks'[u])
  {
    var t, g := w.tasks[c.id], wfs[w.tasks[c.id].workflow];
    if c.RequestTransition? {
      GatedMoveGates(wfs, w, c.id, c.to, c.trigger, c.note, c.now, u);
    } else if c.ApplyOperation? {
      GatedMoveGates(wfs, w, c.id, g.operations[t.state][c.operation], Some(c.operation), c.note, c.now, u);
    } else if c.SetState? {
      OtherTaskGates(wfs, w, c.id, Lifecycle.ForceTransition(g, t, c.to, c.now, c.note).value, c.note, c.now, u);
    } else {
      ResolveGates(wfs, w, c, u);
    }
  }

  lemma RecordGates(wfs: WorkflowTable, w: World, c: Command)
    requires Records(c) && c.id in w.tasks && w.tasks[c.id].workflow in wfs && RecordStep(w, c).Ok?
    ensures Gates(wfs, w.tasks[c.id], RecordStep(w, c).value)
  {
  }

  /** Whatever the call, its trigger and what it sets off: the log of a stored task keeps its length,
      or grows by one gated entry, unless the call is the user's free move of that task. */
  lemma StepGates(wfs: WorkflowTable, w: World, c: Command, u: Id)
    requires ValidTable(wfs) && WorldOk(wfs, w) && u in w.tasks && !(c.SetState? && c.id == u)
    ensures u in Next(wfs, w, c).tasks && Gates(wfs, w.tasks[u], Next(wfs, w, c).tasks[u])
  {
    assert LogOk(wfs, w.tasks[u]);
    if Step(wfs, w, c).Ok? && OnOneTask(c) {
      if Moves(c) {
        MoveGates(wfs, w, c, u);
      } else if Records(c) {
        RecordGates(wfs, w, c);
      } else {
        HandOffKeepsContent(wfs, w, c);
      }
    }
  }

  lemma FreeMoveGrows(wfs: WorkflowTable, w: World, c: Command)
    requires ValidTable(wfs) && WorldOk(wfs, w) && c.SetState? && c.id in w.tasks
    ensures c.id in Next(wfs, w, c).tasks
    ensures var t, t' := w.tasks[c.id], Next(wfs, w, c).tasks[c.id];
            t'.workflow == t.workflow && (|t'.history| == |t.history| || |t'.history| == |t.history| + 1)
  {
    var t := w.tasks[c.id];
    assert LogOk(wfs, t) && Known(wfs, w.repos, t);
    var g := wfs[t.workflow];
    var moved := Lifecycle.ForceTransition(g, t, c.to, c.now, c.note);
    if moved.Ok? {
      Lifecycle.ForceKeepsHistory(g, t, c.to, c.now, c.note);
      MovedTaskIsSaved(wfs, w, c.id, moved.value, c.note, c.now);
    }
  }

  lemma MovesCreateNothing(wfs: WorkflowTable, w: World, c: Command)
    requires ValidTable(wfs) && Moves(c) && c.id in w.tasks && Known(wfs, w.repos, w.tasks[c.id])
             && MoveStep(wfs, w, c).Ok?
    ensures MoveStep(wfs, w, c).value.tasks.Keys == w.tasks.Keys
  {
  }

  lemma NewTaskHasOneEntry(wfs: WorkflowTable, w: World, c: Command, u: Id)
    requires ValidTable(wfs) && u !in w.tasks && u in Next(wfs, w, c).tasks
    ensures |Next(wfs, w, c).tasks[u].history| == 1
  {
    if Step(wfs, w, c).Ok? && OnOneTask(c) && Moves(c) {
      MovesCreateNothing(wfs, w, c);
    }
  }

  // ---- whole runs -----------------------------------------------------------------------------

  ghost predicate GatedAt(wfs: WorkflowTable, t: Task, j: nat)
    requires 0 < j < |t.history|
  {
    t.workflow in wfs && Lifecycle.Gated(wfs[t.workflow], t.history[j - 1], t.history[j])
  }

  /** Call `k` of the run is a free move of the task, and it wrote entry `j`. */
  ghost predicate FreeAt(ws: seq<World>, cs: seq<Command>, u: Id, j: nat, k: nat) {
    && |ws| == |cs| + 1 && k < |cs| && cs[k].SetState? && cs[k].id == u
    && u in ws[k].tasks && |ws[k].tasks[u].history| == j
    && u in ws[k + 1].tasks && |ws[k + 1].tasks[u].history| == j + 1
  }

  /** Entries that stay in the log stay gated: their facts and the promises before them are final. */
  lemma GatedStays(wfs: WorkflowTable, t: Task, t': Task, j: nat)
    requires 0 < j < |t.history| && GatedAt(wfs, t, j) && t'.workflow == t.workflow
    requires StoreRefinement.Saves(t.history, t'.history)
    ensures j < |t'.history| && GatedAt(wfs, t', j)
  {
    assert Store.Extends(t.history[j], t'.history[j], j == |t.history| - 1);
    assert Store.Extends(t.history[j - 1], t'.history[j - 1], false);
  }

  lemma StepKeepsWorkflow(wfs: WorkflowTable, w: World, c: Command, u: Id)
    requires ValidTable(wfs) && WorldOk(wfs, w) && u in w.tasks
    ensures u in Next(wfs, w, c).tasks
    ensures var t, t' := w.tasks[u], Next(wfs, w, c).tasks[u];
            t'.workflow == t.workflow && (|t'.history| == |t.history| || |t'.history| == |t.history| + 1)
  {
    if c.SetState? && c.id == u {
      FreeMoveGrows(wfs, w, c);
    } else {
      StepGates(wfs, w, c, u);
    }
  }

  /** In every run, every entry after the first of every log was gated, or one of the run's calls was
      a free move of that task and wrote that entry. */
  lemma {:induction false} EveryEntryIsGatedOrFree(wfs: WorkflowTable, ws: seq<World>, cs: seq<Command>,
                                                   i: nat, u: Id, j: nat)
    requires ValidTable(wfs) && IsRun(wfs, ws, cs) && i < |ws|
    requires u in ws[i].tasks && 0 < j < |ws[i].tasks[u].history|
    ensures GatedAt(wfs, ws[i].tasks[u], j) || exists k: nat :: k < i && FreeAt(ws, cs, u, j, k)
    decreases i
  {
    assert i > 0;
    var w, c := ws[i - 1], cs[i - 1];
    assert ws[i - 1 + 1] == Next(wfs, w, c);
    RunsKeepOk(wfs, ws, cs, i - 1);
    if u !in w.tasks {
      NewTaskHasOneEntry(wfs, w, c, u);
    } else {
      StepKeepsWorkflow(wfs, w, c, u);
      if j < |w.tasks[u].history| {
        EveryEntryIsGatedOrFree(wfs, ws, cs, i - 1, u, j);
        if GatedAt(wfs, w.tasks[u], j) {
          StoreRefinement.EveryStepSaves(wfs, w, c, u);
          GatedStays(wfs, w.tasks[u], ws[i].tasks[u], j);
        }
      } else if c.SetState? && c.id == u {
        assert FreeAt(ws, cs, u, j, i - 1);
      } else {
        StepGates(wfs, w, c, u);
      }
    }
  }

  /** A task that the user never moves freely walks through its workflow's graph: from the initial
      state along edges, out of unfinished states only, with every promise it leaves settled. */
  lemma UnforcedTaskWalks(wfs: WorkflowTable, ws: seq<World>, cs: seq<Command>, i: nat, u: Id, j: nat)
    requires ValidTable(wfs) && IsRun(wfs, ws, cs) && i < |ws|
    requires u in ws[i].tasks && 0 < j < |ws[i].tasks[u].history|
    requires forall k: nat :: k < i ==> !(cs[k].SetState? && cs[k].id == u)
    ensures ws[i].tasks[u].workflow in wfs
    ensures var g, h := wfs[ws[i].tasks[u].workflow], ws[i].tasks[u].history;
            && h[0].toState == g.initial && h[j].fromState == Some(h[j - 1].toState)
            && h[j - 1].toState in g.states && !g.states[h[j - 1].toState].terminal
            && h[j - 1].toState in g.transitions && h[j].toState in g.transitions[h[j - 1].toState]
            && forall r :: r in h[j - 1].responsibilities && h[j].toState != DROPPED ==>
                 r.status.Met? || (r.status.Failed? && Lifecycle.HasComment(r.comment))
  {
    EveryEntryIsGatedOrFree(wfs, ws, cs, i, u, j);
    RunsKeepOk(wfs, ws, cs, i);
    assert LogOk(wfs, ws[i].tasks[u]);
    Lifecycle.GatedStepIsSettled(wfs[ws[i].tasks[u].workflow], ws[i].tasks[u], j - 1);
  }
}
