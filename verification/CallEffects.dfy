/** What each call of the task service leaves behind and when it is accepted, said in plain terms: the
    fields that change, the entry that is written, the tasks that fall with a dropped one
    (src/panopticon/taskservice/service.py, src/panopticon/core/models.py,
    src/panopticon/core/workflow.py). Nothing here is stated through the helpers that
    ServiceSpec.dfy is built from. */
module CallEffects {
  import opened Models
  import opened Workflows
  import opened ServiceSpec
  import opened ServiceRuns
  import DependencyGraph
  import GatedRuns
  import Lifecycle
  import Ownership
  import Readiness

  // ---- the vocabulary -------------------------------------------------------------------------

  /** The workflow says that the task's state is final. */
  ghost predicate Finished(wfs: WorkflowTable, t: Task) {
    t.workflow in wfs && t.state in wfs[t.workflow].states && wfs[t.workflow].states[t.state].terminal
  }

  /** Terminality of any stored task: what the workflow says of the state it knows, and for a state that
      no loaded workflow knows, the two built-in labels. */
  lemma FinishedIff(wfs: WorkflowTable, t: Task)
    ensures IsTerminal(wfs, t) <==>
              || Finished(wfs, t)
              || ((t.workflow in wfs ==> t.state !in wfs[t.workflow].states)
                  && (t.state == "COMPLETE" || t.state == "DROPPED"))
  {
  }

  /** The task entered `to`: one entry more, the new state, its turn, and no waiting marker. */
  ghost predicate Entered(g: Graph, t: Task, t': Task, to: string, now: string,
                          trigger: Option<string>, note: Option<string>)
  {
    && to in g.states && |t'.history| == |t.history| + 1 && t'.history[..|t.history|] == t.history
    && t' == t.(state := to, turn := g.states[to].turnOnEnter, blocked := false, history := t'.history)
    && var e := t'.history[|t.history|];
       && e.at == now && e.fromState == Some(t.state) && e.toState == to
       && e.trigger == trigger && e.note == note && e.responsibilities == g.states[to].responsibilities
       && (e.wakeStatus == WakePending <==> !g.states[to].terminal && g.states[to].turnOnEnter == Agent)
       && e.wakeStatus != Delivered
  }

  /** A chain of unfinished tasks, each governed by the next and the last by `root`. */
  ghost predicate Chain(wfs: WorkflowTable, tasks: Tasks, root: Id, p: seq<Id>) {
    && p != []
    && forall i {:trigger p[i]} :: 0 <= i < |p| ==>
         && p[i] in tasks && p[i] != root && !IsTerminal(wfs, tasks[p[i]])
         && tasks[p[i]].governor == Some(if i + 1 < |p| then p[i + 1] else root)
  }

  ghost predicate HangsBelow(wfs: WorkflowTable, tasks: Tasks, root: Id, u: Id) {
    exists p :: Chain(wfs, tasks, root, p) && p[0] == u
  }

  /** The task is saved, and when it has just been dropped, exactly the unfinished tasks that hang below
      it are dropped with it. */
  ghost predicate Settled(wfs: WorkflowTable, w: World, w': World, id: Id, note: Option<string>, now: string) {
    && w'.repos == w.repos && w'.tasks.Keys == w.tasks.Keys && id in w'.tasks
    && var fell := |w'.tasks[id].history| > |w.tasks[id].history| && w'.tasks[id].state == "DROPPED";
       forall u {:trigger w'.tasks[u]} :: u in w.tasks && u != id ==>
         if fell && HangsBelow(wfs, w.tasks, id, u)
         then w.tasks[u].workflow in wfs
              && Entered(wfs[w.tasks[u].workflow], w.tasks[u], w'.tasks[u], "DROPPED", now, Some("cascade-drop"), note)
         else w'.tasks[u] == w.tasks[u]
  }

  // ---- what falls with a dropped task ---------------------------------------------------------

  lemma {:induction false} ChainFalls(wfs: WorkflowTable, tasks: Tasks, tasks': Tasks, root: Id, p: seq<Id>, s: set<Id>)
    requires Chain(wfs, tasks, root, p) && DropClosed(wfs, tasks', root, s)
    requires forall u :: u in tasks && u != root ==> u in tasks' && tasks'[u] == tasks[u]
    ensures p[0] in s
  {
    if |p| == 1 {
      assert Falls(wfs, tasks', root, s, p[0]);
    } else {
      assert p[1..][0] == p[1];
      ChainFalls(wfs, tasks, tasks', root, p[1..], s);
      assert Falls(wfs, tasks', root, s, p[0]);
    }
  }

  lemma ChainGrows(wfs: WorkflowTable, tasks: Tasks, root: Id, u: Id)
    requires u in tasks && u != root && !IsTerminal(wfs, tasks[u]) && tasks[u].governor.Some?
    requires tasks[u].governor.value == root || HangsBelow(wfs, tasks, root, tasks[u].governor.value)
    ensures HangsBelow(wfs, tasks, root, u)
  {
    if tasks[u].governor.value == root {
      assert Chain(wfs, tasks, root, [u]);
    } else {
      var p :| Chain(wfs, tasks, root, p) && p[0] == tasks[u].governor.value;
      assert Chain(wfs, tasks, root, [u] + p);
      assert ([u] + p)[0] == u;
    }
  }

  /** The least set that falls with a finished root is the set of tasks that hang below it by a chain of
      unfinished tasks. */
  lemma DropSetIsChained(wfs: WorkflowTable, tasks: Tasks, root: Id, t: Task, u: Id)
    requires IsTerminal(wfs, t)
    ensures u in DropSet(wfs, tasks[root := t], root) <==> HangsBelow(wfs, tasks, root, u)
  {
    var tasks' := tasks[root := t];
    if p :| Chain(wfs, tasks, root, p) && p[0] == u {
      forall s: set<Id> | DropClosed(wfs, tasks', root, s)
        ensures u in s
      {
        ChainFalls(wfs, tasks, tasks', root, p, s);
      }
    }
    var all := set v | v in tasks && HangsBelow(wfs, tasks, root, v);
    forall v {:trigger Falls(wfs, tasks', root, all, v)} | v in tasks' && Falls(wfs, tasks', root, all, v)
      ensures v in all
    {
      ChainGrows(wfs, tasks, root, v);
    }
    assert DropClosed(wfs, tasks', root, all);
  }

  lemma FallenTask(wfs: WorkflowTable, t: Task, note: Option<string>, now: string)
    requires ValidTable(wfs) && t.workflow in wfs
    ensures Entered(wfs[t.workflow], t, DropTask(wfs, t, note, now), "DROPPED", now, Some("cascade-drop"), note)
  {
    assert wfs[t.workflow].Valid();
  }

  lemma SavedIsSettled(wfs: WorkflowTable, w: World, id: Id, t: Task, note: Option<string>, now: string)
    requires ValidTable(wfs) && WorldOk(wfs, w) && id in w.tasks && LogOk(wfs, t)
    requires |t.history| > |w.tasks[id].history|
    ensures Settled(wfs, w, SaveMoved(wfs, w, id, t, note, now), id, note, now)
    ensures SaveMoved(wfs, w, id, t, note, now).tasks[id] == t
  {
    var w' := SaveMoved(wfs, w, id, t, note, now);
    GatedRuns.MovedTaskIsSaved(wfs, w, id, t, note, now);
    if t.state == DROPPED {
      assert wfs[t.workflow].Valid();
      forall u {:trigger w'.tasks[u]} | u in w.tasks && u != id
        ensures if HangsBelow(wfs, w.tasks, id, u)
                then w.tasks[u].workflow in wfs
                     && Entered(wfs[w.tasks[u].workflow], w.tasks[u], w'.tasks[u], "DROPPED", now,
                                Some("cascade-drop"), note)
                else w'.tasks[u] == w.tasks[u]
      {
        DropSetIsChained(wfs, w.tasks, id, t, u);
        assert LogOk(wfs, w.tasks[u]);
        FallenTask(wfs, w.tasks[u], note, now);
      }
    }
  }

  // ---- moves ----------------------------------------------------------------------------------

  /** The gate lets the task through: out of an unfinished state, along an edge, and, unless to DROPPED,
      with no promise of the current entry pending. */
  ghost predicate GateOpen(g: Graph, t: Task, to: string) {
    && t.state in g.states && !g.states[t.state].terminal && t.state in g.transitions && to in g.transitions[t.state]
    && t.history != []
    && (to == "DROPPED" || forall r :: r in t.history[|t.history| - 1].responsibilities ==> r.status != Pending)
  }

  lemma GateIsOpenIff(g: Graph, t: Task, to: string, now: string, trigger: Option<string>, note: Option<string>)
    requires g.Valid() && t.history != [] && t.state in g.states
    ensures match Lifecycle.ApplyTransition(g, t, to, now, trigger, note)
            case Ok(t') => GateOpen(g, t, to) && Entered(g, t, t', to, now, trigger, note)
            case Err(e) => !GateOpen(g, t, to)
  {
    assert g.ValidState(t.state);
    var rs := t.history[|t.history| - 1].responsibilities;
    if r :| r in rs && r.status == Pending {
      var i :| 0 <= i < |rs| && rs[i] == r;
      assert Lifecycle.IsOutstanding(rs[i]);
    }
  }

  /** The gated move is accepted exactly when the gate is open; then the task enters the target with the
      caller's trigger and note, and what hangs below a dropped task falls. */
  lemma RequestTransitionEffect(wfs: WorkflowTable, w: World, c: Command)
    requires ValidTable(wfs) && WorldOk(wfs, w) && c.RequestTransition? && c.id in w.tasks
    ensures w.tasks[c.id].workflow in wfs
    ensures var t, w' := w.tasks[c.id], Next(wfs, w, c);
            var g := wfs[t.workflow];
            && (Step(wfs, w, c).Ok? <==> GateOpen(g, t, c.to))
            && (Step(wfs, w, c).Ok? ==>
                  Settled(wfs, w, w', c.id, c.note, c.now)
                  && Entered(g, t, w'.tasks[c.id], c.to, c.now, c.trigger, c.note))
  {
    var t := w.tasks[c.id];
    assert LogOk(wfs, t) && Known(wfs, w.repos, t);
    var g := wfs[t.workflow];
    GateIsOpenIff(g, t, c.to, c.now, c.trigger, c.note);
    var moved := Lifecycle.ApplyTransition(g, t, c.to, c.now, c.trigger, c.note);
    if moved.Ok? {
      Lifecycle.ApplyKeepsHistory(g, t, c.to, c.now, c.trigger, c.note);
      SavedIsSettled(wfs, w, c.id, moved.value, c.note, c.now);
    }
  }

  /** A named operation is the gated move to the operation's target, with its name as the trigger. */
  lemma OperationIsTransition(wfs: WorkflowTable, w: World, c: Command)
    requires ValidTable(wfs) && WorldOk(wfs, w) && c.ApplyOperation? && c.id in w.tasks
    ensures w.tasks[c.id].workflow in wfs
    ensures var t := w.tasks[c.id];
            var verbs := wfs[t.workflow].operations;
            Step(wfs, w, c) ==
              if t.state in verbs && c.operation in verbs[t.state]
              then Step(wfs, w, Command.RequestTransition(c.id, verbs[t.state][c.operation], Some(c.operation),
                                                          c.note, c.now))
              else Err(NoSuchOperation)
  {
    assert LogOk(wfs, w.tasks[c.id]) && Known(wfs, w.repos, w.tasks[c.id]);
  }

  /** The free move is accepted exactly when the target is a state of the workflow. */
  lemma SetStateEffect(wfs: WorkflowTable, w: World, c: Command)
    requires ValidTable(wfs) && WorldOk(wfs, w) && c.SetState? && c.id in w.tasks
    ensures w.tasks[c.id].workflow in wfs
    ensures var t, w' := w.tasks[c.id], Next(wfs, w, c);
            var g := wfs[t.workflow];
            && (Step(wfs, w, c).Ok? <==> c.to in g.states)
            && (Step(wfs, w, c).Ok? ==>
                  Settled(wfs, w, w', c.id, c.note, c.now)
                  && Entered(g, t, w'.tasks[c.id], c.to, c.now, Some("set-state"), c.note))
  {
    var t := w.tasks[c.id];
    assert LogOk(wfs, t) && Known(wfs, w.repos, t);
    var g := wfs[t.workflow];
    var moved := Lifecycle.ForceTransition(g, t, c.to, c.now, c.note);
    if moved.Ok? {
      Lifecycle.ForceKeepsHistory(g, t, c.to, c.now, c.note);
      SavedIsSettled(wfs, w, c.id, moved.value, c.note, c.now);
    }
  }

  // ---- promises -------------------------------------------------------------------------------

  /** A status that may be reported: met, or failed with a comment that is not blank. */
  predicate Reportable(status: Status, comment: Option<string>) {
    status == Met ||
    (status == Failed && comment.Some? && exists i :: 0 <= i < |comment.value| && !Lifecycle.IsSpace(comment.value[i]))
  }

  /** The promise at `k`, the first with its key, has the reported status and comment; nothing else of
      the entry differs. */
  ghost predicate PromiseReported(e: HistoryEntry, e': HistoryEntry, k: nat, key: string, status: Status,
                                  comment: Option<string>)
  {
    && e' == e.(responsibilities := e'.responsibilities)
    && |e'.responsibilities| == |e.responsibilities| && k < |e.responsibilities|
    && e.responsibilities[k].key == key && (forall j :: 0 <= j < k ==> e.responsibilities[j].key != key)
    && e'.responsibilities[k] == Responsibility(key, e.responsibilities[k].description, status, comment)
    && forall j :: 0 <= j < |e.responsibilities| && j != k ==> e'.responsibilities[j] == e.responsibilities[j]
  }

  /** The log after a report: every entry but the last as it was, and the last with the report. */
  ghost predicate LogReported(h: seq<HistoryEntry>, h': seq<HistoryEntry>, key: string, status: Status,
                              comment: Option<string>)
  {
    && 0 < |h| <= |h'| && h'[..|h| - 1] == h[..|h| - 1]
    && exists k: nat {:trigger PromiseReported(h[|h| - 1], h'[|h| - 1], k, key, status, comment)} ::
         PromiseReported(h[|h| - 1], h'[|h| - 1], k, key, status, comment)
  }

  lemma PromiseIsReported(t: Task, key: string, status: Status, comment: Option<string>)
    requires t.history != []
    ensures var r, rs := Lifecycle.ResolvePromise(t, key, status, comment), t.history[|t.history| - 1].responsibilities;
            && (r.Ok? <==> Reportable(status, comment) && exists k :: 0 <= k < |rs| && rs[k].key == key)
            && (r.Ok? ==>
                  && r.value == t.(history := r.value.history) && |r.value.history| == |t.history|
                  && LogReported(t.history, r.value.history, key, status, comment))
  {
    var r := Lifecycle.ResolvePromise(t, key, status, comment);
    var last := |t.history| - 1;
    var k := Lifecycle.FirstWithKey(t.history[last].responsibilities, key);
    if r.Ok? {
      assert PromiseReported(t.history[last], r.value.history[last], k, key, status, comment);
    }
  }

  /** After the report nothing is pending, the agent advances the state, and there is a way to advance. */
  ghost predicate Advances(g: Graph, t: Task, reported: HistoryEntry) {
    && (forall r :: r in reported.responsibilities ==> r.status != Pending)
    && t.state in g.states && g.states[t.state].advancedBy == Agent
    && t.state in g.operations && "advance" in g.operations[t.state]
  }

  /** The same task with the reported promise, moved on when that was the last one. */
  ghost predicate Resolved(g: Graph, t: Task, t': Task, key: string, status: Status, comment: Option<string>,
                           now: string)
  {
    && LogReported(t.history, t'.history, key, status, comment)
    && var n := |t.history|;
       if Advances(g, t, t'.history[n - 1])
       then Entered(g, t.(history := t'.history[..n]), t', g.operations[t.state]["advance"], now, Some("advance"), None)
       else |t'.history| == n && t' == t.(history := t'.history)
  }

  lemma ResolvedTask(g: Graph, t: Task, key: string, status: Status, comment: Option<string>, now: string)
    requires g.Valid() && Lifecycle.HistoryOk(g, t)
    ensures var r, rs := Lifecycle.ResolveAndAdvance(g, t, key, status, comment, now),
                         t.history[|t.history| - 1].responsibilities;
            && (r.Ok? <==> Reportable(status, comment) && exists k :: 0 <= k < |rs| && rs[k].key == key)
            && (r.Ok? ==> Resolved(g, t, r.value, key, status, comment, now))
  {
    var p := Lifecycle.ResolvePromise(t, key, status, comment);
    PromiseIsReported(t, key, status, comment);
    Lifecycle.ResolveAndAdvanceSpec(g, t, key, status, comment, now);
    if p.Ok? {
      AdvancesIff(g, t, p.value, key, status, comment, now);
      if Advances(g, t, p.value.history[|t.history| - 1]) {
        var t' := Lifecycle.ResolveAndAdvance(g, t, key, status, comment, now).value;
        LogGoesOn(t.history, p.value.history, t'.history, key, status, comment);
      }
    }
  }

  /** Behind the report `t1`: the automatic move, or nothing. */
  lemma AdvancesIff(g: Graph, t: Task, t1: Task, key: string, status: Status, comment: Option<string>, now: string)
    requires g.Valid() && Lifecycle.HistoryOk(g, t) && Lifecycle.ResolvePromise(t, key, status, comment) == Ok(t1)
    requires t1 == t.(history := t1.history) && |t1.history| == |t.history|
    ensures var r := Lifecycle.ResolveAndAdvance(g, t, key, status, comment, now);
            if Advances(g, t, t1.history[|t.history| - 1]) then
              r.Ok? && Entered(g, t1, r.value, g.operations[t.state]["advance"], now, Some("advance"), None)
            else r == Ok(t1)
  {
    PendingIsOutstanding(t1.history[|t.history| - 1].responsibilities);
    assert g.ValidState(t.state);
    if Advances(g, t, t1.history[|t.history| - 1]) {
      GateIsOpenIff(g, t1, g.operations[t.state]["advance"], now, Some("advance"), None);
    }
  }

  lemma LogGoesOn(h: seq<HistoryEntry>, h1: seq<HistoryEntry>, h2: seq<HistoryEntry>, key: string, status: Status,
                  comment: Option<string>)
    requires LogReported(h, h1, key, status, comment) && |h1| == |h| <= |h2| && h2[..|h|] == h1
    ensures LogReported(h, h2, key, status, comment) && h2[|h| - 1] == h1[|h| - 1]
  {
    assert h2[..|h| - 1] == h1[..|h| - 1];
    assert h2[|h| - 1] == h2[..|h|][|h| - 1];
  }

  lemma PendingIsOutstanding(rs: seq<Responsibility>)
    ensures Lifecycle.HasOutstanding(rs) <==> exists r :: r in rs && r.status == Pending
  {
    if r :| r in rs && r.status == Pending {
      var i :| 0 <= i < |rs| && rs[i] == r;
      assert Lifecycle.IsOutstanding(rs[i]);
    }
  }

  /** Resolving a promise is accepted exactly for a reportable status and a key that the current entry
      promises. The first promise with the key then has exactly the reported status and comment, and
      nothing else of the log differs, except that the task may have advanced behind it. */
  lemma ResolveEffect(wfs: WorkflowTable, w: World, c: Command)
    requires ValidTable(wfs) && WorldOk(wfs, w) && c.ResolveResponsibility? && c.id in w.tasks
    ensures w.tasks[c.id].workflow in wfs && w.tasks[c.id].history != []
    ensures var t, w' := w.tasks[c.id], Next(wfs, w, c);
            var rs := t.history[|t.history| - 1].responsibilities;
            && (Step(wfs, w, c).Ok? <==>
                  Reportable(c.status, c.comment) && exists k :: 0 <= k < |rs| && rs[k].key == c.key)
            && (Step(wfs, w, c).Ok? ==>
                  Settled(wfs, w, w', c.id, None, c.now)
                  && Resolved(wfs[t.workflow], t, w'.tasks[c.id], c.key, c.status, c.comment, c.now))
  {
    var t := w.tasks[c.id];
    assert LogOk(wfs, t) && Known(wfs, w.repos, t);
    var g := wfs[t.workflow];
    ResolvedTask(g, t, c.key, c.status, c.comment, c.now);
    Lifecycle.ResolveAndAdvanceSpec(g, t, c.key, c.status, c.comment, c.now);
    var r := Lifecycle.ResolveAndAdvance(g, t, c.key, c.status, c.comment, c.now);
    if r.Ok? {
      ResolveKeepsRecord(g, t, c.key, c.status, c.comment, c.now);
      ResolvedIsSaved(wfs, w, c, r.value);
    }
  }

  lemma ResolvedIsSaved(wfs: WorkflowTable, w: World, c: Command, t': Task)
    requires ValidTable(wfs) && WorldOk(wfs, w) && c.ResolveResponsibility? && c.id in w.tasks
    requires Known(wfs, w.repos, w.tasks[c.id]) && LogOk(wfs, t') && LogOk(wfs, w.tasks[c.id])
    requires Lifecycle.ResolveAndAdvance(wfs[w.tasks[c.id].workflow], w.tasks[c.id], c.key, c.status, c.comment, c.now)
             == Ok(t')
    ensures Step(wfs, w, c).Ok? && Settled(wfs, w, Next(wfs, w, c), c.id, None, c.now)
    ensures Next(wfs, w, c).tasks[c.id] == t'
  {
    var t := w.tasks[c.id];
    if |t'.history| > |t.history| {
      SavedIsSettled(wfs, w, c.id, t', None, c.now);
    }
  }

  // ---- recorded facts -------------------------------------------------------------------------

  /** Only this task differs. */
  ghost predicate OnlyTask(w: World, w': World, id: Id, t': Task) {
    w' == World(w.tasks[id := t'], w.repos)
  }

  /** A dependency list is accepted exactly when the stored graph stays acyclic and complete with it; the
      task then depends on exactly the supplied ids. */
  lemma SetDependenciesEffect(wfs: WorkflowTable, w: World, c: Command)
    requires ValidTable(wfs) && WorldOk(wfs, w) && c.SetDependencies? && c.id in w.tasks
    ensures var t' := w.tasks[c.id].(dependsOn := c.deps);
            match Step(wfs, w, c)
            case Ok(w') => Readiness.DependenciesOk(w.tasks[c.id := t']) && OnlyTask(w, w', c.id, t')
            case Err(e) =>
              && !Readiness.DependenciesOk(w.tasks[c.id := t'])
              && e == InDependencies(if forall d :: d in c.deps ==> d in w.tasks
                                     then Readiness.DependencyCycleDetected else Readiness.DependencyNotFound)
  {
    var t' := w.tasks[c.id].(dependsOn := c.deps);
    assert Known(wfs, w.repos, w.tasks[c.id]);
    if Readiness.WriteAllowed(w.tasks, c.id, c.deps) {
      Readiness.WriteKeepsDependenciesOk(w.tasks, c.id, t');
    } else {
      Readiness.RefusedWriteWouldBreak(w.tasks, c.id, t');
    }
  }

  /** A new task: its first entry promises what the initial state declares, it has the supplied governor
      and dependencies, it is held back when its repository is, and nothing else is recorded yet. */
  ghost predicate Created(g: Graph, t: Task, repo: Id, workflow: string, governor: Option<Id>, deps: seq<Id>,
                          now: string, paused: bool)
    requires g.initial in g.states
  {
    && t.repo == repo && t.workflow == workflow && t.state == g.initial
    && t.turn == g.states[g.initial].turnOnEnter && !t.blocked && !t.attention
    && t.slug.None? && t.branch.None? && t.clone.None? && t.provisionedBy.None? && t.workspaceVerifiedBy.None?
    && t.migration.None? && t.claimedBy.None?
    && t.governor == governor && t.dependsOn == deps && t.launchPaused == paused
    && |t.history| == 1
    && t.history[0] == HistoryEntry(now, None, g.initial, Some("start"), None,
                                    g.states[g.initial].responsibilities, Skipped)
  }

  lemma CreateTaskEffect(wfs: WorkflowTable, w: World, c: Command)
    requires ValidTable(wfs) && WorldOk(wfs, w) && c.CreateTask?
    ensures Step(wfs, w, c).Ok? <==>
              && c.id !in w.tasks && c.repo in w.repos && c.workflow in wfs
              && (c.workflow == "review" ==> c.governor.Some?)
              && (c.governor.Some? ==> c.governor.value in w.tasks)
              && (forall d :: d in c.deps ==> d in w.tasks)
    ensures Step(wfs, w, c).Ok? ==>
              var w' := Next(wfs, w, c);
              && c.id in w'.tasks && wfs[c.workflow].initial in wfs[c.workflow].states
              && Created(wfs[c.workflow], w'.tasks[c.id], c.repo, c.workflow, c.governor, c.deps, c.now,
                         w.repos[c.repo])
              && OnlyTask(w, w', c.id, w'.tasks[c.id])
  {
    if c.workflow in wfs {
      assert wfs[c.workflow].Valid();
    }
    if c.id !in w.tasks && forall d :: d in c.deps ==> d in w.tasks {
      NewTaskClosesNoCycle(w.tasks, c.id, c.deps);
    }
  }

  /** Nothing stored depends on a task that is not there yet, so a new one closes no cycle. */
  lemma NewTaskClosesNoCycle(tasks: Tasks, id: Id, deps: seq<Id>)
    requires Readiness.DependenciesOk(tasks) && id !in tasks && forall d :: d in deps ==> d in tasks
    ensures Readiness.WriteAllowed(tasks, id, deps)
  {
    var g := Readiness.DependenciesOf(tasks);
    Readiness.SearchFromEditSuffices(g, id, deps);
    var g' := g[id := deps];
    if c :| DependencyGraph.IsCycle(g', c) {
      CycleIsOld(tasks, id, deps, c);
      assert false;
    }
  }

  lemma CycleIsOld(tasks: Tasks, id: Id, deps: seq<Id>, c: seq<Id>)
    requires Readiness.NothingDangles(tasks) && id !in tasks && forall d :: d in deps ==> d in tasks
    requires DependencyGraph.IsCycle(Readiness.DependenciesOf(tasks)[id := deps], c)
    ensures DependencyGraph.IsCycle(Readiness.DependenciesOf(tasks), c)
  {
    forall i | 0 <= i < |c|
      ensures c[i] != id
    {
      EdgesLeadToStored(tasks, id, deps, c, i);
    }
    Readiness.TrailAvoidingEdit(Readiness.DependenciesOf(tasks), id, deps, c);
  }

  lemma EdgesLeadToStored(tasks: Tasks, id: Id, deps: seq<Id>, c: seq<Id>, i: nat)
    requires Readiness.NothingDangles(tasks) && id !in tasks && forall d :: d in deps ==> d in tasks
    requires DependencyGraph.IsCycle(Readiness.DependenciesOf(tasks)[id := deps], c) && i < |c|
    ensures c[i] in tasks
  {
    var g' := Readiness.DependenciesOf(tasks)[id := deps];
    var k := if i == 0 then |c| - 2 else i - 1;
    assert DependencyGraph.Follows(g', c, k);
    assert c[k + 1] == c[i];
  }

  lemma SetGovernorEffect(wfs: WorkflowTable, w: World, c: Command)
    requires ValidTable(wfs) && WorldOk(wfs, w) && c.SetGovernor? && c.id in w.tasks
    ensures match Step(wfs, w, c)
            case Ok(w') =>
              && (c.governor.Some? ==> c.governor.value in w.tasks)
              && OnlyTask(w, w', c.id, w.tasks[c.id].(governor := c.governor))
            case Err(e) => e == NotFound && c.governor.Some? && c.governor.value !in w.tasks
  {
    assert Known(wfs, w.repos, w.tasks[c.id]);
  }

  /** A wake is settled at most once: accepted for a pending wake, or to say again what is recorded. */
  lemma RecordWakeEffect(wfs: WorkflowTable, w: World, c: Command)
    requires ValidTable(wfs) && WorldOk(wfs, w) && c.RecordWake? && c.id in w.tasks
    ensures var t := w.tasks[c.id];
            var h := t.history;
            && (Step(wfs, w, c).Ok? <==>
                  && c.wake != WakePending && 0 <= c.index < |h|
                  && (h[c.index].wakeStatus == WakePending || h[c.index].wakeStatus == c.wake))
            && (Step(wfs, w, c).Ok? ==>
                  OnlyTask(w, Next(wfs, w, c), c.id,
                           t.(history := h[..c.index] + [h[c.index].(wakeStatus := c.wake)] + h[c.index + 1..])))
  {
    var t := w.tasks[c.id];
    assert Known(wfs, w.repos, t);
    if 0 <= c.index < |t.history| {
      var h, e := t.history, t.history[c.index].(wakeStatus := c.wake);
      assert h[c.index := e] == h[..c.index] + [e] + h[c.index + 1..];
      if h[c.index].wakeStatus == c.wake {
        assert e == h[c.index] && h[c.index := e] == h;
      }
    }
  }

  lemma SlugAndTurnEffect(wfs: WorkflowTable, w: World, c: Command)
    requires ValidTable(wfs) && WorldOk(wfs, w) && (c.SetSlug? || c.SetTurn?) && c.id in w.tasks
    ensures var t := w.tasks[c.id];
            Step(wfs, w, c).Ok? &&
            OnlyTask(w, Next(wfs, w, c), c.id,
              if c.SetSlug? then t.(slug := Some(c.slug))
              else t.(turn := c.turn, blocked := t.blocked && c.turn == User,
                      attention := t.attention && c.turn == User))
  {
    assert Known(wfs, w.repos, w.tasks[c.id]);
  }

  // ---- claims ---------------------------------------------------------------------------------

  /** The workspace may go to this runner: there is none, it is the runner's own, or an installed or
      accepted migration hands it over. */
  ghost predicate WorkspaceMayGoTo(t: Task, runner: string) {
    || t.provisionedBy.None? || t.provisionedBy == Some(runner)
    || (t.migration.Some? && Some(t.migration.value.source) == t.provisionedBy
        && t.migration.value.destination == runner
        && (t.migration.value.workspace == "installed" || t.migration.value.workspace == "accepted"))
  }

  /** Every dependency ended with its work done. */
  ghost predicate DependenciesDone(wfs: WorkflowTable, tasks: Tasks, t: Task) {
    forall d :: d in t.dependsOn ==> d in tasks && Finished(wfs, tasks[d]) && tasks[d].state != "DROPPED"
  }

  lemma DoneMeansUnblocked(wfs: WorkflowTable, w: World, t: Task)
    requires ValidTable(wfs) && WorldOk(wfs, w)
    ensures Readiness.BlockedInSnapshot(wfs, t, w.tasks) <==> !DependenciesDone(wfs, w.tasks, t)
  {
    forall d | d in w.tasks
      ensures IsTerminal(wfs, w.tasks[d]) <==> Finished(wfs, w.tasks[d])
    {
      assert Known(wfs, w.repos, w.tasks[d]);
    }
    if Readiness.BlockedInSnapshot(wfs, t, w.tasks) {
      var i: nat :| i < |t.dependsOn| && Readiness.BlocksAt(wfs, t, w.tasks, i);
      assert t.dependsOn[i] in t.dependsOn;
    } else {
      forall d | d in t.dependsOn
        ensures d in w.tasks && Finished(wfs, w.tasks[d]) && w.tasks[d].state != "DROPPED"
      {
        var i: nat :| i < |t.dependsOn| && t.dependsOn[i] == d;
        assert !Readiness.BlocksAt(wfs, t, w.tasks, i);
      }
    }
  }

  /** A runner gets a claim exactly when it holds it already, or nobody does and the task is ready: its
      repository open, itself unfinished, its dependencies done and its workspace free to go there. A
      launch hold stops both. */
  lemma ClaimEffect(wfs: WorkflowTable, w: World, c: Command)
    requires ValidTable(wfs) && WorldOk(wfs, w) && c.Claim? && c.id in w.tasks
    ensures w.tasks[c.id].repo in w.repos
    ensures var t := w.tasks[c.id];
            && (Step(wfs, w, c).Ok? <==>
                  && !t.launchPaused
                  && (|| t.claimedBy == Some(c.runner)
                      || (t.claimedBy.None? && !w.repos[t.repo] && !Finished(wfs, t)
                          && DependenciesDone(wfs, w.tasks, t) && WorkspaceMayGoTo(t, c.runner))))
            && (Step(wfs, w, c).Ok? ==>
                  OnlyTask(w, Next(wfs, w, c), c.id, t.(claimedBy := Some(c.runner))))
            && (Step(wfs, w, c) == Err(InOwnership(Ownership.AlreadyClaimed)) <==>
                  t.claimedBy.Some? && t.claimedBy != Some(c.runner))
  {
    var t := w.tasks[c.id];
    assert Known(wfs, w.repos, t);
    DoneMeansUnblocked(wfs, w, t);
  }

  /** A release always succeeds. A retry does exactly when the repository is open, the task unfinished and
      without a live session, and no launch is under way. */
  lemma ReleaseAndRetryEffect(wfs: WorkflowTable, w: World, c: Command)
    requires ValidTable(wfs) && WorldOk(wfs, w) && (c.Release? || c.Retry?) && c.id in w.tasks
    ensures w.tasks[c.id].repo in w.repos
    ensures var t := w.tasks[c.id];
            && (Step(wfs, w, c).Ok? <==>
                  c.Retry? ==> && !w.repos[t.repo] && !Finished(wfs, t) && !c.live
                               && (t.claimedBy.None? || t.claimedBy == Some("") || t.launchPaused || c.launchFailed))
            && (Step(wfs, w, c).Ok? ==>
                  OnlyTask(w, Next(wfs, w, c), c.id,
                           t.(claimedBy := None, launchPaused := t.launchPaused && c.Release?)))
  {
    assert Known(wfs, w.repos, w.tasks[c.id]);
  }

  /** Reclaiming a runner and pausing a repository succeed for all tasks at once, and touch no other. */
  lemma BulkEffect(wfs: WorkflowTable, w: World, c: Command)
    requires ValidTable(wfs) && WorldOk(wfs, w) && (c.Reclaim? || c.PauseLaunches?)
    ensures var w' := Next(wfs, w, c);
            && (Step(wfs, w, c).Ok? <==> (c.PauseLaunches? ==> c.repo in w.repos))
            && w'.tasks.Keys == w.tasks.Keys
            && (Step(wfs, w, c).Ok? ==>
                  && w'.repos == (if c.PauseLaunches? then w.repos[c.repo := c.repoPaused] else w.repos)
                  && forall u :: u in w.tasks ==>
                       var t := w.tasks[u];
                       if c.Reclaim? && t.claimedBy == Some(c.runner) && !Finished(wfs, t)
                       then w'.tasks[u] == t.(claimedBy := None)
                       else if c.PauseLaunches? && u in c.ids && t.repo == c.repo
                       then w'.tasks[u] == t.(launchPaused := true)
                       else w'.tasks[u] == t)
  {
    forall u | u in w.tasks
      ensures IsTerminal(wfs, w.tasks[u]) <==> Finished(wfs, w.tasks[u])
    {
      assert Known(wfs, w.repos, w.tasks[u]);
    }
  }

  // ---- workspaces -----------------------------------------------------------------------------

  /** Only the holder of the claim records a workspace: on the task's own branch, and not as the
      destination of a migration that has not arrived. */
  lemma RecordProvisioningEffect(wfs: WorkflowTable, w: World, c: Command)
    requires ValidTable(wfs) && WorldOk(wfs, w) && c.RecordProvisioning? && c.id in w.tasks
    ensures var t := w.tasks[c.id];
            && (Step(wfs, w, c).Ok? <==>
                  && t.claimedBy == Some(c.runner) && t.slug.Some?
                  && (c.branch == "panopticon/" + t.slug.value || t.branch == Some(c.branch))
                  && (t.migration.Some? && t.migration.value.destination == c.runner ==>
                        t.migration.value.workspace == "installed" || t.migration.value.workspace == "accepted"))
            && (Step(wfs, w, c).Ok? ==>
                  OnlyTask(w, Next(wfs, w, c), c.id,
                           t.(branch := Some(c.branch), clone := Some(c.clone), provisionedBy := Some(c.runner),
                              workspaceVerifiedBy := if c.verified then Some(c.runner) else None)))
  {
    assert Known(wfs, w.repos, w.tasks[c.id]);
  }

  /** The terms of a report, whatever the task: two hosts, known words, discards authorised by the user. */
  ghost predicate TermsOk(f: Ownership.MigrationFacts) {
    && f.destination != f.source
    && f.workspace in ["pending", "installed", "accepted", "failed"] && f.method_ in ["archive", "forge-first"]
    && f.sessionHistory in ["requested", "accepted", "omitted", "failed"]
    && (f.discarded != [] ==> f.discardAuthorizedBy == Some("user"))
  }

  /** An arrival must be of the hand-off on record: installed after pending, accepted after either. */
  ghost predicate ArrivalOk(previous: Option<MigrationRecord>, f: Ownership.MigrationFacts) {
    (f.workspace == "installed" || f.workspace == "accepted") ==>
      && previous.Some? && previous.value.source == f.source && previous.value.destination == f.destination
      && previous.value.method_ == f.method_
      && (|| previous.value.workspace == "pending"
          || (previous.value.workspace == "installed" && f.workspace == "accepted"))
  }

  /** A migration is recorded exactly for the owner of the workspace, on proper terms and in order; the
      record repeats the report and remembers whether session history was ever asked for. */
  lemma RecordMigrationEffect(wfs: WorkflowTable, w: World, c: Command)
    requires ValidTable(wfs) && WorldOk(wfs, w) && c.RecordMigration? && c.id in w.tasks
    ensures var t, f, w' := w.tasks[c.id], c.facts, Next(wfs, w, c);
            && (Step(wfs, w, c).Ok? <==>
                  t.provisionedBy == Some(f.source) && TermsOk(f) && ArrivalOk(t.migration, f))
            && (Step(wfs, w, c).Ok? ==>
                  && c.id in w'.tasks && OnlyTask(w, w', c.id, t.(migration := w'.tasks[c.id].migration))
                  && w'.tasks[c.id].migration.Some?
                  && Repeats(t.migration, f, w'.tasks[c.id].migration.value))
  {
    assert Known(wfs, w.repos, w.tasks[c.id]);
  }

  ghost predicate Repeats(previous: Option<MigrationRecord>, f: Ownership.MigrationFacts, m: MigrationRecord) {
    && m.source == f.source && m.destination == f.destination && m.workspace == f.workspace && m.method_ == f.method_
    && m.sessionHistory == f.sessionHistory && m.discarded == f.discarded
    && m.discardAuthorizedBy == f.discardAuthorizedBy
    && var asked := previous.Some? &&
                    (previous.value.sessionHistory == "requested" || previous.value.sessionHistoryWasRequested);
       && (m.sessionHistoryWasRequested <==> asked || f.sessionHistory == "requested")
       && m.sessionHistoryChangedBy == (if asked && f.sessionHistory == "omitted" then Some("user") else None)
  }

  // ---- refusals -------------------------------------------------------------------------------

  ghost predicate MoveReason(g: Graph, t: Task, to: string, e: Lifecycle.Error) {
    match e
    case TaskTerminal => t.state in g.states && g.states[t.state].terminal
    case NoTransition => t.state in g.transitions && to !in g.transitions[t.state]
    case ResponsibilitiesNotMet =>
      t.history != [] && to != "DROPPED" &&
      exists r :: r in t.history[|t.history| - 1].responsibilities && r.status == Pending
    case _ => false
  }

  ghost predicate ReportReason(t: Task, key: string, status: Status, comment: Option<string>, e: Lifecycle.Error) {
    match e
    case CannotResolveAsPending => status == Pending
    case FailedNeedsComment => status == Failed && !Reportable(status, comment)
    case NoSuchPromise =>
      t.history != [] && forall r :: r in t.history[|t.history| - 1].responsibilities ==> r.key != key
    case _ => false
  }

  ghost predicate WakeReason(t: Task, index: int, wake: WakeStatus, e: Lifecycle.Error) {
    match e
    case WakeCannotBePending => wake == WakePending
    case NoSuchEntry => !(0 <= index < |t.history|)
    case WakeAlreadySettled =>
      0 <= index < |t.history| && t.history[index].wakeStatus != WakePending && t.history[index].wakeStatus != wake
    case _ => false
  }

  ghost predicate ClaimReason(wfs: WorkflowTable, w: World, t: Task, runner: string, e: Ownership.Error) {
    match e
    case AlreadyClaimed => t.claimedBy.Some? && t.claimedBy != Some(runner)
    case LaunchPaused => t.launchPaused || (t.repo in w.repos && w.repos[t.repo])
    case NoMigrationRecord => t.provisionedBy.Some? && t.provisionedBy != Some(runner) && t.migration.None?
    case SourceNotOwner => t.migration.Some? && Some(t.migration.value.source) != t.provisionedBy
    case WrongDestination => t.migration.Some? && t.migration.value.destination != runner
    case WorkspaceNotInstalled =>
      t.migration.Some? && t.migration.value.workspace != "installed" && t.migration.value.workspace != "accepted"
    case NotReady => Finished(wfs, t) || !DependenciesDone(wfs, w.tasks, t)
    case _ => false
  }

  ghost predicate RetryReason(wfs: WorkflowTable, w: World, t: Task, live: bool, e: Ownership.Error) {
    match e
    case LaunchPaused => t.repo in w.repos && w.repos[t.repo]
    case NotRetryable => Finished(wfs, t) || live
    case LaunchNotSettled => t.claimedBy.Some? && t.claimedBy.value != "" && !t.launchPaused
    case _ => false
  }

  ghost predicate ProvisioningReason(t: Task, branch: string, runner: string, e: Ownership.Error) {
    match e
    case SlugNotSet => t.slug.None?
    case NotClaimHolder => t.claimedBy != Some(runner)
    case DestinationNotAccepted =>
      t.migration.Some? && t.migration.value.destination == runner
      && t.migration.value.workspace != "installed" && t.migration.value.workspace != "accepted"
    case BranchMismatch => t.slug.Some? && branch != "panopticon/" + t.slug.value && t.branch != Some(branch)
    case _ => false
  }

  ghost predicate MigrationReason(t: Task, f: Ownership.MigrationFacts, e: Ownership.Error) {
    match e
    case NoWorkspaceOwner => t.provisionedBy.None?
    case SourceNotOwner => t.provisionedBy.Some? && t.provisionedBy != Some(f.source)
    case SameHost => f.destination == f.source
    case BadDisposition => f.workspace !in ["pending", "installed", "accepted", "failed"]
    case BadMethod => f.method_ !in ["archive", "forge-first"]
    case BadHistoryDisposition => f.sessionHistory !in ["requested", "accepted", "omitted", "failed"]
    case NoMatchingPending => !ArrivalOk(t.migration, f)
    case DiscardNotAuthorized => f.discarded != [] && f.discardAuthorizedBy != Some("user")
    case _ => false
  }

  /** A refused move, report or wake names a reason that holds. */
  lemma RefusedMoveIsJust(wfs: WorkflowTable, w: World, c: Command)
    requires ValidTable(wfs) && WorldOk(wfs, w) && (c.RequestTransition? || c.ResolveResponsibility? || c.RecordWake?)
    requires c.id in w.tasks && Step(wfs, w, c).Err?
    ensures w.tasks[c.id].workflow in wfs && Step(wfs, w, c).error.InLifecycle?
    ensures var t, e := w.tasks[c.id], Step(wfs, w, c).error.lifecycle;
            match c
            case RequestTransition(_, to, _, _, _) => MoveReason(wfs[t.workflow], t, to, e)
            case ResolveResponsibility(_, key, status, comment, _) => ReportReason(t, key, status, comment, e)
            case RecordWake(_, index, wake) => WakeReason(t, index, wake, e)
            case _ => true
  {
    var t := w.tasks[c.id];
    assert LogOk(wfs, t) && Known(wfs, w.repos, t);
    if c.RequestTransition? {
      MoveIsRefused(wfs[t.workflow], t, c.to, c.now, c.trigger, c.note);
    } else if c.ResolveResponsibility? {
      Lifecycle.ResolveAndAdvanceSpec(wfs[t.workflow], t, c.key, c.status, c.comment, c.now);
      RefusedReportIsJust(wfs[t.workflow], t, c.key, c.status, c.comment, c.now);
    }
  }

  lemma MoveIsRefused(g: Graph, t: Task, to: string, now: string, trigger: Option<string>, note: Option<string>)
    requires g.Valid() && t.history != [] && t.state in g.states
    ensures var r := Lifecycle.ApplyTransition(g, t, to, now, trigger, note);
            r.Err? ==> MoveReason(g, t, to, r.error)
  {
    PendingIsOutstanding(t.history[|t.history| - 1].responsibilities);
  }

  lemma RefusedReportIsJust(g: Graph, t: Task, key: string, status: Status, comment: Option<string>, now: string)
    requires g.Valid() && Lifecycle.HistoryOk(g, t)
    requires Lifecycle.ResolveAndAdvance(g, t, key, status, comment, now).Err?
    ensures ReportReason(t, key, status, comment, Lifecycle.ResolveAndAdvance(g, t, key, status, comment, now).error)
  {
    Lifecycle.ResolveAndAdvanceSpec(g, t, key, status, comment, now);
    assert Lifecycle.ResolvePromise(t, key, status, comment).Err?;
  }

  /** A refused claim or retry names a reason that holds. */
  lemma RefusedClaimIsJust(wfs: WorkflowTable, w: World, c: Command)
    requires ValidTable(wfs) && WorldOk(wfs, w) && (c.Claim? || c.Retry?)
    requires c.id in w.tasks && Step(wfs, w, c).Err?
    ensures Step(wfs, w, c).error.InOwnership?
    ensures var t, e := w.tasks[c.id], Step(wfs, w, c).error.ownership;
            if c.Claim? then ClaimReason(wfs, w, t, c.runner, e) else RetryReason(wfs, w, t, c.live, e)
  {
    var t := w.tasks[c.id];
    assert Known(wfs, w.repos, t);
    DoneMeansUnblocked(wfs, w, t);
  }

  /** And so does a refused report of a workspace or of a migration. */
  lemma RefusedWorkspaceIsJust(wfs: WorkflowTable, w: World, c: Command)
    requires ValidTable(wfs) && WorldOk(wfs, w) && (c.RecordProvisioning? || c.RecordMigration?)
    requires c.id in w.tasks && Step(wfs, w, c).Err?
    ensures Step(wfs, w, c).error.InOwnership?
    ensures var t, e := w.tasks[c.id], Step(wfs, w, c).error.ownership;
            if c.RecordProvisioning? then ProvisioningReason(t, c.branch, c.runner, e)
            else MigrationReason(t, c.facts, e)
  {
    var t := w.tasks[c.id];
    assert Known(wfs, w.repos, t);
    if c.RecordProvisioning? {
      ProvisioningIsRefused(t, c.branch, c.clone, c.runner, c.verified);
    } else {
      MigrationIsRefused(t, c.facts);
    }
  }

  lemma ProvisioningIsRefused(t: Task, branch: string, clone: string, runner: string, verified: bool)
    ensures var r := Ownership.RecordProvisioning(t, branch, clone, runner, verified);
            r.Err? ==> ProvisioningReason(t, branch, runner, r.error)
  {
  }

  lemma MigrationIsRefused(t: Task, f: Ownership.MigrationFacts)
    ensures var r := Ownership.RecordMigration(t, f);
            r.Err? ==> MigrationReason(t, f, r.error)
  {
  }
}
