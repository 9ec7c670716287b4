/** The service's steps meet the store's checks: whatever a call saves passes them, and the
    differential update then reads back exactly what was saved. This is what lets ServiceSpec.dfy treat
    the store as a plain map of tasks. */
module StoreRefinement {
  import opened Models
  import opened Workflows
  import opened ServiceSpec
  import opened ServiceRuns
  import Lifecycle
  import Store

  /** The log may be saved over the stored one and is read back as supplied. */
  ghost predicate Saves(stored: seq<HistoryEntry>, incoming: seq<HistoryEntry>) {
    Store.Storable(stored, incoming) && Store.DescriptionsKept(stored, incoming)
  }

  /** Entries differ in nothing but a wake that settles and in the status of promises. */
  ghost predicate LastMayBecome(e: HistoryEntry, e': HistoryEntry) {
    && Store.Extends(e, e', true) && Store.SameKeys(e.responsibilities, e'.responsibilities)
    && forall i :: 0 <= i < |e.responsibilities| ==>
         e'.responsibilities[i].description == e.responsibilities[i].description
  }

  /** `validate_task_consistency`: a log, whose last entry is the current state. */
  predicate Consistent(t: Task) {
    t.history != [] && t.state == t.history[|t.history| - 1].toState
  }

  lemma PatchLastSaves(h: seq<HistoryEntry>, e': HistoryEntry, more: seq<HistoryEntry>)
    requires h != [] && LastMayBecome(h[|h| - 1], e')
    ensures Saves(h, h[|h| - 1 := e'] + more)
  {
  }

  lemma AppendSaves(h: seq<HistoryEntry>, e: HistoryEntry)
    requires h != []
    ensures Saves(h, h + [e])
  {
    assert h[|h| - 1 := h[|h| - 1]] == h;
    PatchLastSaves(h, h[|h| - 1], [e]);
  }

  lemma SameSaves(h: seq<HistoryEntry>)
    ensures Saves(h, h)
  {
  }

  lemma ResolveSaves(t: Task, key: string, status: Status, comment: Option<string>)
    requires t.history != [] && Lifecycle.ResolvePromise(t, key, status, comment).Ok?
    ensures var t' := Lifecycle.ResolvePromise(t, key, status, comment).value;
            var last := |t.history| - 1;
            && t'.history == t.history[last := t'.history[last]]
            && LastMayBecome(t.history[last], t'.history[last])
  {
  }

  lemma ResolveAndAdvanceSaves(g: Graph, t: Task, key: string, status: Status, comment: Option<string>, now: string)
    requires g.Valid() && t.history != []
    ensures var r := Lifecycle.ResolveAndAdvance(g, t, key, status, comment, now);
            r.Ok? ==> Saves(t.history, r.value.history)
  {
    var r := Lifecycle.ResolveAndAdvance(g, t, key, status, comment, now);
    if r.Ok? {
      var t1 := Lifecycle.ResolvePromise(t, key, status, comment).value;
      ResolveSaves(t, key, status, comment);
      var e' := t1.history[|t.history| - 1];
      var more := r.value.history[|t.history|..];
      assert r.value.history == t.history[|t.history| - 1 := e'] + more;
      PatchLastSaves(t.history, e', more);
    }
  }

  lemma WakeSaves(t: Task, index: int, status: WakeStatus)
    requires Lifecycle.RecordWake(t, index, status).Ok?
    ensures Saves(t.history, Lifecycle.RecordWake(t, index, status).value.history)
  {
    if t.history[index].wakeStatus == status {
      SameSaves(t.history);
    }
  }

  lemma MovedSaves(wfs: WorkflowTable, w: World, id: Id, t: Task, note: Option<string>, now: string, u: Id)
    requires ValidTable(wfs) && AllKnown(wfs, w) && id in w.tasks && u in w.tasks
    requires Saves(w.tasks[id].history, t.history) && t.workflow == w.tasks[id].workflow
    requires t.workflow in wfs && t.state in wfs[t.workflow].states
    ensures Saves(w.tasks[u].history, SaveMoved(wfs, w, id, t, note, now).tasks[u].history)
  {
    var tasks1 := w.tasks[id := t];
    assert Known(wfs, w.repos, w.tasks[u]) && Known(wfs, w.repos, w.tasks[id]);
    DropSetIsUnfinished(wfs, tasks1, id);
    if u == id {
      if t.state == DROPPED {
        assert wfs[t.workflow].Valid();
        assert IsTerminal(wfs, tasks1[id]) && id !in DropSet(wfs, tasks1, id);
      }
    } else {
      SameSaves(w.tasks[u].history);
      if t.state == DROPPED && u in DropSet(wfs, tasks1, id) {
        assert wfs[w.tasks[u].workflow].Valid();
        AppendSaves(w.tasks[u].history,
          Lifecycle.EntryFor(wfs[w.tasks[u].workflow], w.tasks[u].state, DROPPED, now,
                             Some(Lifecycle.CASCADE_DROP), note));
      }
    }
  }

  lemma TransitionSaves(g: Graph, t: Task, to: string, now: string, trigger: Option<string>, note: Option<string>)
    requires g.Valid() && t.history != [] && Lifecycle.ApplyTransition(g, t, to, now, trigger, note).Ok?
    ensures var t' := Lifecycle.ApplyTransition(g, t, to, now, trigger, note).value;
            Saves(t.history, t'.history) && t'.workflow == t.workflow && t'.state in g.states
  {
    assert g.ValidState(t.state);
    AppendSaves(t.history, Lifecycle.EntryFor(g, t.state, to, now, trigger, note));
  }

  lemma MovedIsConsistent(wfs: WorkflowTable, w: World, c: Command, u: Id)
    requires ValidTable(wfs) && WorldOk(wfs, w) && Moves(c) && c.id in w.tasks
    requires Known(wfs, w.repos, w.tasks[c.id]) && MoveStep(wfs, w, c).Ok?
    ensures u in MoveStep(wfs, w, c).value.tasks ==> Consistent(MoveStep(wfs, w, c).value.tasks[u])
  {
    assert LogOk(wfs, w.tasks[c.id]);
    MoveKeepsOk(wfs, w, c);
    if u in MoveStep(wfs, w, c).value.tasks {
      StoredIsConsistent(wfs, MoveStep(wfs, w, c).value, u);
    }
  }

  lemma MoveStepSaves(wfs: WorkflowTable, w: World, c: Command, u: Id)
    requires ValidTable(wfs) && WorldOk(wfs, w) && Moves(c) && c.id in w.tasks && u in w.tasks
    requires Known(wfs, w.repos, w.tasks[c.id]) && MoveStep(wfs, w, c).Ok?
    ensures u in MoveStep(wfs, w, c).value.tasks
    ensures Saves(w.tasks[u].history, MoveStep(wfs, w, c).value.tasks[u].history)
    ensures Consistent(MoveStep(wfs, w, c).value.tasks[u])
  {
    var t, g := w.tasks[c.id], wfs[w.tasks[c.id].workflow];
    MovedIsConsistent(wfs, w, c, u);
    if c.RequestTransition? {
      TransitionSaves(g, t, c.to, c.now, c.trigger, c.note);
      MovedSaves(wfs, w, c.id, Lifecycle.ApplyTransition(g, t, c.to, c.now, c.trigger, c.note).value, c.note, c.now, u);
    } else if c.ApplyOperation? {
      var to := g.operations[t.state][c.operation];
      TransitionSaves(g, t, to, c.now, Some(c.operation), c.note);
      MovedSaves(wfs, w, c.id, Lifecycle.ApplyTransition(g, t, to, c.now, Some(c.operation), c.note).value,
                 c.note, c.now, u);
    } else if c.SetState? {
      AppendSaves(t.history, Lifecycle.EntryFor(g, t.state, c.to, c.now, Some(Lifecycle.SET_STATE), c.note));
      MovedSaves(wfs, w, c.id, Lifecycle.ForceTransition(g, t, c.to, c.now, c.note).value, c.note, c.now, u);
    } else {
      ResolveStepSaves(wfs, w, c, u);
    }
  }

  lemma ResolveStepSaves(wfs: WorkflowTable, w: World, c: Command, u: Id)
    requires ValidTable(wfs) && WorldOk(wfs, w) && c.ResolveResponsibility? && c.id in w.tasks && u in w.tasks
    requires Known(wfs, w.repos, w.tasks[c.id]) && MoveStep(wfs, w, c).Ok?
    ensures u in MoveStep(wfs, w, c).value.tasks
    ensures Saves(w.tasks[u].history, MoveStep(wfs, w, c).value.tasks[u].history)
  {
    var t, g := w.tasks[c.id], wfs[w.tasks[c.id].workflow];
    assert LogOk(wfs, t);
    var t' := Lifecycle.ResolveAndAdvance(g, t, c.key, c.status, c.comment, c.now).value;
    ResolveAndAdvanceSaves(g, t, c.key, c.status, c.comment, c.now);
    Lifecycle.ResolveAndAdvanceSpec(g, t, c.key, c.status, c.comment, c.now);
    ResolveKeepsRecord(g, t, c.key, c.status, c.comment, c.now);
    if |t'.history| > |t.history| {
      MovedSaves(wfs, w, c.id, t', None, c.now, u);
    } else {
      SameSaves(w.tasks[u].history);
    }
  }

  lemma RecordSaves(w: World, c: Command)
    requires Records(c) && c.id in w.tasks && RecordStep(w, c).Ok?
    ensures Saves(w.tasks[c.id].history, RecordStep(w, c).value.history)
  {
    SameSaves(w.tasks[c.id].history);
    if c.RecordWake? {
      WakeSaves(w.tasks[c.id], c.index, c.wake);
    }
  }

  lemma StoredIsConsistent(wfs: WorkflowTable, w: World, u: Id)
    requires ValidTable(wfs) && WorldOk(wfs, w) && u in w.tasks
    ensures Consistent(w.tasks[u])
  {
    assert LogOk(wfs, w.tasks[u]);
  }

  /** Every call leaves every stored task with a log that the store accepts over the old one and that
      the row update reproduces exactly. */
  lemma EveryStepSaves(wfs: WorkflowTable, w: World, c: Command, u: Id)
    requires ValidTable(wfs) && WorldOk(wfs, w) && u in w.tasks
    ensures u in Next(wfs, w, c).tasks
    ensures Saves(w.tasks[u].history, Next(wfs, w, c).tasks[u].history) && Consistent(Next(wfs, w, c).tasks[u])
  {
    EveryResultIsConsistent(wfs, w, c, u);
    SameSaves(w.tasks[u].history);
    if Step(wfs, w, c).Ok? && OnOneTask(c) {
      if Moves(c) {
        MoveStepSaves(wfs, w, c, u);
      } else if Records(c) {
        RecordSaves(w, c);
      } else {
        HandOffKeepsContent(wfs, w, c);
      }
    }
  }

  /** Every task there is after a call, a newly created one too, passes the consistency check. */
  lemma EveryResultIsConsistent(wfs: WorkflowTable, w: World, c: Command, u: Id)
    requires ValidTable(wfs) && WorldOk(wfs, w)
    ensures u in Next(wfs, w, c).tasks ==> Consistent(Next(wfs, w, c).tasks[u])
  {
    StepKeepsOk(wfs, w, c);
    if u in Next(wfs, w, c).tasks {
      StoredIsConsistent(wfs, Next(wfs, w, c), u);
    }
  }

  /** The later log keeps every entry's facts, lets wakes only settle, and keeps the promises of every
      entry but the last. */
  ghost predicate Grows(earlier: seq<HistoryEntry>, later: seq<HistoryEntry>) {
    && |earlier| <= |later|
    && (forall j {:trigger later[j]} :: 0 <= j < |earlier| ==>
          && Store.SameFacts(earlier[j], later[j])
          && Store.WakeMayBecome(earlier[j].wakeStatus, later[j].wakeStatus)
          && (j < |earlier| - 1 ==> earlier[j].responsibilities == later[j].responsibilities))
  }

  lemma SavedGrows(earlier: seq<HistoryEntry>, stored: seq<HistoryEntry>, saved: seq<HistoryEntry>)
    requires Grows(earlier, stored) && Saves(stored, saved)
    ensures Grows(earlier, saved)
  {
    forall j {:trigger saved[j]} | 0 <= j < |earlier|
      ensures Store.SameFacts(earlier[j], saved[j])
      ensures Store.WakeMayBecome(earlier[j].wakeStatus, saved[j].wakeStatus)
      ensures j < |earlier| - 1 ==> earlier[j].responsibilities == saved[j].responsibilities
    {
      assert Store.Extends(stored[j], saved[j], j == |stored| - 1);
    }
  }

  ghost predicate GrowsIn(earlier: seq<HistoryEntry>, w: World, u: Id) {
    u in w.tasks && Grows(earlier, w.tasks[u].history)
  }

  lemma StepGrows(wfs: WorkflowTable, ws: seq<World>, cs: seq<Command>, k: nat, u: Id, earlier: seq<HistoryEntry>)
    requires ValidTable(wfs) && IsRun(wfs, ws, cs) && k < |cs| && GrowsIn(earlier, ws[k], u)
    ensures GrowsIn(earlier, ws[k + 1], u)
  {
    RunsKeepOk(wfs, ws, cs, k);
    EveryStepSaves(wfs, ws[k], cs[k], u);
    SavedGrows(earlier, ws[k].tasks[u].history, Next(wfs, ws[k], cs[k]).tasks[u].history);
  }

  /** Over any number of calls: a task's log in an earlier world of a run is extended by its log in
      every later one. */
  lemma {:induction false} LogsOnlyGrow(wfs: WorkflowTable, ws: seq<World>, cs: seq<Command>, i: nat, k: nat, u: Id)
    requires ValidTable(wfs) && IsRun(wfs, ws, cs) && i <= k < |ws| && u in ws[i].tasks
    ensures GrowsIn(ws[i].tasks[u].history, ws[k], u)
    decreases k
  {
    if i >= k {
    } else {
      LogsOnlyGrow(wfs, ws, cs, i, k - 1, u);
      StepGrows(wfs, ws, cs, k - 1, u, ws[i].tasks[u].history);
    }
  }

  /** What is final in a log, in every run: each entry's time, states, trigger and note; each wake once it
      is delivered or skipped; and the promises of every entry but the current one. */
  lemma LogIsFinal(wfs: WorkflowTable, ws: seq<World>, cs: seq<Command>, i: nat, k: nat, u: Id, j: nat)
    requires ValidTable(wfs) && IsRun(wfs, ws, cs) && i <= k < |ws| && u in ws[i].tasks && j < |ws[i].tasks[u].history|
    ensures u in ws[k].tasks && j < |ws[k].tasks[u].history|
    ensures var e, e', current := ws[i].tasks[u].history[j], ws[k].tasks[u].history[j], |ws[i].tasks[u].history| - 1;
            && e'.at == e.at && e'.fromState == e.fromState && e'.toState == e.toState
            && e'.trigger == e.trigger && e'.note == e.note
            && (e.wakeStatus == Delivered || e.wakeStatus == Skipped ==> e'.wakeStatus == e.wakeStatus)
            && (j < current ==> e'.responsibilities == e.responsibilities)
  {
    LogsOnlyGrow(wfs, ws, cs, i, k, u);
  }
}
