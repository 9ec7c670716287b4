/** Where the recorded facts of a task come from, over whole runs of the task service: every settled
    promise was reported as it stands, and every dependency list and governor link was supplied by a call
    (src/panopticon/taskservice/service.py, src/panopticon/core/models.py). */
module Provenance {
  import opened Models
  import opened Workflows
  import opened ServiceSpec
  import opened ServiceRuns
  import opened CallEffects
  import Lifecycle

  // ---- one call, seen from one task -----------------------------------------------------------

  /** One entry more, which promises what its state declares. */
  ghost predicate LogGrew(g: Graph, h: seq<HistoryEntry>, h': seq<HistoryEntry>) {
    && |h'| == |h| + 1 && h'[..|h|] == h
    && h'[|h|].toState in g.states && h'[|h|].responsibilities == g.states[h'[|h|].toState].responsibilities
  }

  ghost predicate SamePromises(h: seq<HistoryEntry>, h': seq<HistoryEntry>) {
    |h'| == |h| && forall j :: 0 <= j < |h| ==> h'[j].responsibilities == h[j].responsibilities
  }

  /** The last entry has the report, and the log may have grown behind it. */
  ghost predicate LogResolved(g: Graph, h: seq<HistoryEntry>, h': seq<HistoryEntry>, c: Command)
    requires c.ResolveResponsibility?
  {
    && LogReported(h, h', c.key, c.status, c.comment)
    && (|h'| == |h| || LogGrew(g, h'[..|h|], h'))
  }

  /** All that one call can do to a stored task's log and links. */
  ghost predicate CallOn(wfs: WorkflowTable, c: Command, u: Id, t: Task, t': Task) {
    && t.workflow in wfs && t'.workflow == t.workflow
    && (|| SamePromises(t.history, t'.history)
        || LogGrew(wfs[t.workflow], t.history, t'.history)
        || (c.ResolveResponsibility? && c.id == u && LogResolved(wfs[t.workflow], t.history, t'.history, c)))
    && (t'.dependsOn == if c.SetDependencies? && c.id == u then c.deps else t.dependsOn)
    && (t'.governor == if c.SetGovernor? && c.id == u then c.governor else t.governor)
  }

  lemma EnteredIsCall(wfs: WorkflowTable, c: Command, u: Id, t: Task, t': Task, to: string, now: string,
                      trigger: Option<string>, note: Option<string>)
    requires t.workflow in wfs && Entered(wfs[t.workflow], t, t', to, now, trigger, note)
    requires !((c.SetDependencies? || c.SetGovernor?) && c.id == u)
    ensures CallOn(wfs, c, u, t, t')
  {
  }

  /** A call on another task reaches this one only by dropping it. */
  lemma SettledIsCall(wfs: WorkflowTable, w: World, w': World, c: Command, u: Id, note: Option<string>, now: string)
    requires ValidTable(wfs) && WorldOk(wfs, w) && OnOneTask(c) && c.id in w.tasks && u in w.tasks && u != c.id
    requires Settled(wfs, w, w', c.id, note, now)
    ensures u in w'.tasks && CallOn(wfs, c, u, w.tasks[u], w'.tasks[u])
  {
    assert LogOk(wfs, w.tasks[u]);
    var t' := w'.tasks[u];
    if t' != w.tasks[u] {
      EnteredIsCall(wfs, c, u, w.tasks[u], t', "DROPPED", now, Some("cascade-drop"), note);
    }
  }

  lemma TransitionIsCall(wfs: WorkflowTable, w: World, c: Command, u: Id)
    requires ValidTable(wfs) && WorldOk(wfs, w) && c.RequestTransition? && c.id in w.tasks && u in w.tasks
    requires Step(wfs, w, c).Ok?
    ensures u in Next(wfs, w, c).tasks && CallOn(wfs, c, u, w.tasks[u], Next(wfs, w, c).tasks[u])
  {
    RequestTransitionEffect(wfs, w, c);
    if u != c.id {
      SettledIsCall(wfs, w, Next(wfs, w, c), c, u, c.note, c.now);
    } else {
      EnteredIsCall(wfs, c, u, w.tasks[u], Next(wfs, w, c).tasks[u], c.to, c.now, c.trigger, c.note);
    }
  }

  lemma OperationIsCall(wfs: WorkflowTable, w: World, c: Command, u: Id)
    requires ValidTable(wfs) && WorldOk(wfs, w) && c.ApplyOperation? && c.id in w.tasks && u in w.tasks
    requires Step(wfs, w, c).Ok?
    ensures u in Next(wfs, w, c).tasks && CallOn(wfs, c, u, w.tasks[u], Next(wfs, w, c).tasks[u])
  {
    OperationIsTransition(wfs, w, c);
    var t := w.tasks[c.id];
    var to := wfs[t.workflow].operations[t.state][c.operation];
    TransitionIsCall(wfs, w, Command.RequestTransition(c.id, to, Some(c.operation), c.note, c.now), u);
  }

  lemma FreeMoveIsCall(wfs: WorkflowTable, w: World, c: Command, u: Id)
    requires ValidTable(wfs) && WorldOk(wfs, w) && c.SetState? && c.id in w.tasks && u in w.tasks
    requires Step(wfs, w, c).Ok?
    ensures u in Next(wfs, w, c).tasks && CallOn(wfs, c, u, w.tasks[u], Next(wfs, w, c).tasks[u])
  {
    SetStateEffect(wfs, w, c);
    if u != c.id {
      SettledIsCall(wfs, w, Next(wfs, w, c), c, u, c.note, c.now);
    } else {
      EnteredIsCall(wfs, c, u, w.tasks[u], Next(wfs, w, c).tasks[u], c.to, c.now, Some("set-state"), c.note);
    }
  }

  lemma ResolveIsCall(wfs: WorkflowTable, w: World, c: Command, u: Id)
    requires ValidTable(wfs) && WorldOk(wfs, w) && c.ResolveResponsibility? && c.id in w.tasks && u in w.tasks
    requires Step(wfs, w, c).Ok?
    ensures u in Next(wfs, w, c).tasks && CallOn(wfs, c, u, w.tasks[u], Next(wfs, w, c).tasks[u])
  {
    ResolveEffect(wfs, w, c);
    if u != c.id {
      SettledIsCall(wfs, w, Next(wfs, w, c), c, u, None, c.now);
    } else {
      ResolvedIsCall(wfs, c, u, w.tasks[u], Next(wfs, w, c).tasks[u]);
    }
  }

  lemma ResolvedIsCall(wfs: WorkflowTable, c: Command, u: Id, t: Task, t': Task)
    requires c.ResolveResponsibility? && c.id == u && t.workflow in wfs
    requires Resolved(wfs[t.workflow], t, t', c.key, c.status, c.comment, c.now)
    ensures CallOn(wfs, c, u, t, t')
  {
  }

  lemma WakeIsCall(wfs: WorkflowTable, w: World, c: Command)
    requires ValidTable(wfs) && WorldOk(wfs, w) && c.RecordWake? && c.id in w.tasks && Step(wfs, w, c).Ok?
    ensures c.id in Next(wfs, w, c).tasks && CallOn(wfs, c, c.id, w.tasks[c.id], Next(wfs, w, c).tasks[c.id])
  {
    RecordWakeEffect(wfs, w, c);
    assert LogOk(wfs, w.tasks[c.id]);
  }

  lemma RecordIsCall(wfs: WorkflowTable, w: World, c: Command)
    requires ValidTable(wfs) && WorldOk(wfs, w) && Records(c) && c.id in w.tasks && Step(wfs, w, c).Ok?
    ensures var w' := Next(wfs, w, c);
            && c.id in w'.tasks && w' == World(w.tasks[c.id := w'.tasks[c.id]], w.repos)
            && CallOn(wfs, c, c.id, w.tasks[c.id], w'.tasks[c.id])
  {
    assert LogOk(wfs, w.tasks[c.id]);
    if c.SetDependencies? {
      SetDependenciesEffect(wfs, w, c);
    } else if c.SetGovernor? {
      SetGovernorEffect(wfs, w, c);
    } else if c.RecordWake? {
      RecordWakeEffect(wfs, w, c);
      WakeIsCall(wfs, w, c);
    } else {
      SlugAndTurnEffect(wfs, w, c);
    }
  }

  lemma HandOffIsCall(wfs: WorkflowTable, w: World, c: Command)
    requires ValidTable(wfs) && WorldOk(wfs, w) && OnOneTask(c) && !Moves(c) && !Records(c)
    requires c.id in w.tasks && Step(wfs, w, c).Ok?
    ensures var w' := Next(wfs, w, c);
            && c.id in w'.tasks && w' == World(w.tasks[c.id := w'.tasks[c.id]], w.repos)
            && CallOn(wfs, c, c.id, w.tasks[c.id], w'.tasks[c.id])
  {
    assert LogOk(wfs, w.tasks[c.id]) && Known(wfs, w.repos, w.tasks[c.id]);
    HandOffKeepsContent(wfs, w, c);
  }

  lemma SameIsCall(wfs: WorkflowTable, c: Command, u: Id, t: Task)
    requires t.workflow in wfs && !((c.SetDependencies? || c.SetGovernor?) && c.id == u)
    ensures CallOn(wfs, c, u, t, t)
  {
  }

  lemma BulkIsCall(wfs: WorkflowTable, w: World, c: Command, u: Id)
    requires ValidTable(wfs) && WorldOk(wfs, w) && (c.Reclaim? || c.PauseLaunches?) && u in w.tasks
    requires Step(wfs, w, c).Ok?
    ensures u in Next(wfs, w, c).tasks && CallOn(wfs, c, u, w.tasks[u], Next(wfs, w, c).tasks[u])
  {
    BulkEffect(wfs, w, c);
    assert LogOk(wfs, w.tasks[u]);
  }

  /** Whatever the call, a stored task's promises, dependencies and governor change only as it says. */
  lemma EveryCallOn(wfs: WorkflowTable, w: World, c: Command, u: Id)
    requires ValidTable(wfs) && WorldOk(wfs, w) && u in w.tasks && Step(wfs, w, c).Ok?
    ensures u in Next(wfs, w, c).tasks && CallOn(wfs, c, u, w.tasks[u], Next(wfs, w, c).tasks[u])
  {
    assert LogOk(wfs, w.tasks[u]);
    if c.CreateTask? {
      CreateTaskEffect(wfs, w, c);
      SameIsCall(wfs, c, u, w.tasks[u]);
    } else if c.Reclaim? || c.PauseLaunches? {
      BulkIsCall(wfs, w, c, u);
    } else if c.RequestTransition? {
      TransitionIsCall(wfs, w, c, u);
    } else if c.ApplyOperation? {
      OperationIsCall(wfs, w, c, u);
    } else if c.SetState? {
      FreeMoveIsCall(wfs, w, c, u);
    } else if c.ResolveResponsibility? {
      ResolveIsCall(wfs, w, c, u);
    } else {
      if Records(c) {
        RecordIsCall(wfs, w, c);
      } else {
        HandOffIsCall(wfs, w, c);
      }
      if u != c.id {
        SameIsCall(wfs, c, u, w.tasks[u]);
      }
    }
  }

  /** A task that is new after a call was created by it. */
  lemma NewIsCreated(wfs: WorkflowTable, w: World, c: Command, u: Id)
    requires ValidTable(wfs) && WorldOk(wfs, w) && u !in w.tasks && u in Next(wfs, w, c).tasks
    ensures c.CreateTask? && c.id == u && Step(wfs, w, c).Ok? && c.workflow in wfs
    ensures wfs[c.workflow].initial in wfs[c.workflow].states && c.repo in w.repos
    ensures Created(wfs[c.workflow], Next(wfs, w, c).tasks[u], c.repo, c.workflow, c.governor, c.deps, c.now,
                    w.repos[c.repo])
  {
    if c.CreateTask? {
      CreateTaskEffect(wfs, w, c);
    } else if c.Reclaim? || c.PauseLaunches? {
      BulkEffect(wfs, w, c);
    } else if Step(wfs, w, c).Ok? {
      OneTaskCreatesNothing(wfs, w, c);
    }
  }

  lemma OneTaskCreatesNothing(wfs: WorkflowTable, w: World, c: Command)
    requires ValidTable(wfs) && WorldOk(wfs, w) && OnOneTask(c) && Step(wfs, w, c).Ok?
    ensures Next(wfs, w, c).tasks.Keys == w.tasks.Keys
  {
    if Records(c) {
      RecordIsCall(wfs, w, c);
    } else if !Moves(c) {
      HandOffIsCall(wfs, w, c);
    }
  }

  // ---- settled promises were reported ---------------------------------------------------------

  ghost predicate Promised(t: Task, j: nat, k: nat) {
    j < |t.history| && k < |t.history[j].responsibilities|
  }

  ghost predicate PromiseIs(ws: seq<World>, u: Id, i: nat, j: nat, k: nat, r: Responsibility) {
    i < |ws| && u in ws[i].tasks && Promised(ws[i].tasks[u], j, k) && ws[i].tasks[u].history[j].responsibilities[k] == r
  }

  /** Call `m` was an accepted report of exactly this on the task, while entry `j` was its current one. */
  ghost predicate ReportedBy(wfs: WorkflowTable, ws: seq<World>, cs: seq<Command>, u: Id, j: nat, r: Responsibility,
                             m: nat)
    requires ValidTable(wfs)
  {
    && m < |cs| && m < |ws| && cs[m].ResolveResponsibility? && cs[m].id == u && cs[m].key == r.key
    && cs[m].status == r.status && cs[m].comment == r.comment
    && Step(wfs, ws[m], cs[m]).Ok? && u in ws[m].tasks && |ws[m].tasks[u].history| == j + 1
  }

  lemma LogGrewPromise(g: Graph, h: seq<HistoryEntry>, h': seq<HistoryEntry>, j: nat, k: nat)
    requires g.Valid() && LogGrew(g, h, h') && j < |h'| && k < |h'[j].responsibilities|
    ensures (j < |h| && h'[j] == h[j]) || h'[j].responsibilities[k].status == Pending
  {
    if j < |h| {
      assert h'[..|h|][j] == h'[j];
    } else {
      assert g.ValidState(h'[j].toState);
      assert h'[j].responsibilities[k] in g.states[h'[j].toState].responsibilities;
    }
  }

  lemma LogReportedPromise(h: seq<HistoryEntry>, h': seq<HistoryEntry>, c: Command, j: nat, k: nat)
    requires c.ResolveResponsibility? && LogReported(h, h', c.key, c.status, c.comment)
    requires j < |h| && k < |h'[j].responsibilities|
    ensures var r := h'[j].responsibilities[k];
            || (k < |h[j].responsibilities| && h[j].responsibilities[k] == r)
            || (j == |h| - 1 && c.key == r.key && c.status == r.status && c.comment == r.comment)
  {
    if j < |h| - 1 {
      assert h'[..|h| - 1][j] == h'[j] && h[..|h| - 1][j] == h[j];
    }
  }

  /** One call: a promise of the next log stood there before, or is new and pending, or was reported by
      this call. */
  lemma PromiseStep(wfs: WorkflowTable, c: Command, u: Id, t: Task, t': Task, j: nat, k: nat)
    requires ValidTable(wfs) && CallOn(wfs, c, u, t, t') && Promised(t', j, k)
    ensures var r := t'.history[j].responsibilities[k];
            || (Promised(t, j, k) && t.history[j].responsibilities[k] == r)
            || r.status == Pending
            || (c.ResolveResponsibility? && c.id == u && |t.history| == j + 1
                && c.key == r.key && c.status == r.status && c.comment == r.comment)
  {
    var g, h, h' := wfs[t.workflow], t.history, t'.history;
    assert g.Valid();
    if LogGrew(g, h, h') {
      LogGrewPromise(g, h, h', j, k);
    } else if !SamePromises(h, h') {
      if j < |h| {
        LogReportedPromise(h, h', c, j, k);
      } else {
        LogGrewPromise(g, h'[..|h|], h', j, k);
      }
    }
  }

  /** In every run, every promise of every log that is met or failed was reported so, with this comment,
      by an accepted call on that task while the entry was its current one, and it has stood like that
      ever since. */
  lemma {:induction false} SettledWasReported(wfs: WorkflowTable, ws: seq<World>, cs: seq<Command>, i: nat, u: Id,
                                              j: nat, k: nat, r: Responsibility)
    returns (m: nat)
    requires ValidTable(wfs) && IsRun(wfs, ws, cs) && PromiseIs(ws, u, i, j, k, r) && r.status != Pending
    ensures m < i && ReportedBy(wfs, ws, cs, u, j, r, m)
    ensures forall n :: m < n <= i ==> PromiseIs(ws, u, n, j, k, r)
    decreases i
  {
    assert i > 0;
    var w, c := ws[i - 1], cs[i - 1];
    assert ws[i - 1 + 1] == Next(wfs, w, c);
    RunsKeepOk(wfs, ws, cs, i - 1);
    if u !in w.tasks {
      NewIsCreated(wfs, w, c, u);
      NewPromisesArePending(wfs, ws[i].tasks[u], j, k);
      assert false;
    }
    if Step(wfs, w, c).Ok? {
      EveryCallOn(wfs, w, c, u);
      PromiseStep(wfs, c, u, w.tasks[u], ws[i].tasks[u], j, k);
    }
    if PromiseIs(ws, u, i - 1, j, k, r) {
      m := SettledWasReported(wfs, ws, cs, i - 1, u, j, k, r);
    } else {
      m := i - 1;
    }
  }

  lemma NewPromisesArePending(wfs: WorkflowTable, t: Task, j: nat, k: nat)
    requires ValidTable(wfs) && t.workflow in wfs && wfs[t.workflow].initial in wfs[t.workflow].states
    requires |t.history| == 1 && Promised(t, j, k)
    requires t.history[0].responsibilities == wfs[t.workflow].states[wfs[t.workflow].initial].responsibilities
    ensures t.history[j].responsibilities[k].status == Pending
  {
    var g := wfs[t.workflow];
    assert g.Valid() && g.ValidState(g.initial);
    assert t.history[0].responsibilities[k] in g.states[g.initial].responsibilities;
  }

  // ---- links were supplied --------------------------------------------------------------------

  /** Call `m` of the run supplied this dependency list for the task, and no later one did. */
  ghost predicate SuppliedBy(wfs: WorkflowTable, ws: seq<World>, cs: seq<Command>, u: Id, i: nat, deps: seq<Id>, m: nat)
    requires ValidTable(wfs) && IsRun(wfs, ws, cs) && i < |ws|
  {
    && m < i && Step(wfs, ws[m], cs[m]).Ok?
    && (cs[m].CreateTask? || cs[m].SetDependencies?) && cs[m].id == u && cs[m].deps == deps
    && forall n :: m < n < i && cs[n].SetDependencies? && cs[n].id == u ==> Step(wfs, ws[n], cs[n]).Err?
  }

  /** In every run a task depends on exactly what the latest accepted call supplied for it. */
  lemma {:induction false} DependenciesWereSupplied(wfs: WorkflowTable, ws: seq<World>, cs: seq<Command>, i: nat, u: Id)
    returns (m: nat)
    requires ValidTable(wfs) && IsRun(wfs, ws, cs) && i < |ws| && u in ws[i].tasks
    ensures SuppliedBy(wfs, ws, cs, u, i, ws[i].tasks[u].dependsOn, m)
    decreases i
  {
    assert i > 0;
    var w, c := ws[i - 1], cs[i - 1];
    assert ws[i - 1 + 1] == Next(wfs, w, c);
    RunsKeepOk(wfs, ws, cs, i - 1);
    if u !in w.tasks {
      NewIsCreated(wfs, w, c, u);
      m := i - 1;
    } else if Step(wfs, w, c).Ok? && c.SetDependencies? && c.id == u {
      EveryCallOn(wfs, w, c, u);
      m := i - 1;
    } else {
      if Step(wfs, w, c).Ok? {
        EveryCallOn(wfs, w, c, u);
      }
      m := DependenciesWereSupplied(wfs, ws, cs, i - 1, u);
    }
  }

  ghost predicate GovernedBy(wfs: WorkflowTable, ws: seq<World>, cs: seq<Command>, u: Id, i: nat, governor: Option<Id>,
                             m: nat)
    requires ValidTable(wfs) && IsRun(wfs, ws, cs) && i < |ws|
  {
    && m < i && Step(wfs, ws[m], cs[m]).Ok?
    && (cs[m].CreateTask? || cs[m].SetGovernor?) && cs[m].id == u && cs[m].governor == governor
    && forall n :: m < n < i && cs[n].SetGovernor? && cs[n].id == u ==> Step(wfs, ws[n], cs[n]).Err?
  }

  /** And a task is governed by the one that the latest accepted call named, or by none when it named
      none. */
  lemma {:induction false} GovernorWasSupplied(wfs: WorkflowTable, ws: seq<World>, cs: seq<Command>, i: nat, u: Id)
    returns (m: nat)
    requires ValidTable(wfs) && IsRun(wfs, ws, cs) && i < |ws| && u in ws[i].tasks
    ensures GovernedBy(wfs, ws, cs, u, i, ws[i].tasks[u].governor, m)
    decreases i
  {
    assert i > 0;
    var w, c := ws[i - 1], cs[i - 1];
    assert ws[i - 1 + 1] == Next(wfs, w, c);
    RunsKeepOk(wfs, ws, cs, i - 1);
    if u !in w.tasks {
      NewIsCreated(wfs, w, c, u);
      m := i - 1;
    } else if Step(wfs, w, c).Ok? && c.SetGovernor? && c.id == u {
      EveryCallOn(wfs, w, c, u);
      m := i - 1;
    } else {
      if Step(wfs, w, c).Ok? {
        EveryCallOn(wfs, w, c, u);
      }
      m := GovernorWasSupplied(wfs, ws, cs, i - 1, u);
    }
  }
}
