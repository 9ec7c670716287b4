/** The task service itself: its stored tasks and its locks, with every public call proved against the
    step of ServiceSpec.dfy (src/panopticon/taskservice/service.py). Calls are atomic: the model
    starts each one with no lock held. */
module Service {
  import opened Models
  import opened Workflows
  import opened ServiceSpec
  import opened ServiceRuns
  import Lifecycle
  import Ownership
  import Readiness

  // ---- the cascade, set by set ----------------------------------------------------------------

  /** The tasks after dropping `dropped`. */
  function After(wfs: WorkflowTable, tasks: Tasks, dropped: set<Id>, note: Option<string>, now: string): Tasks {
    map u | u in tasks :: if u in dropped then DropTask(wfs, tasks[u], note, now) else tasks[u]
  }

  /** The workflow engine can move this task. */
  predicate Movable(wfs: WorkflowTable, t: Task) {
    t.workflow in wfs && t.state in wfs[t.workflow].states
  }

  ghost function Unfinished(wfs: WorkflowTable, tasks: Tasks): set<Id> {
    set u | u in tasks && !IsTerminal(wfs, tasks[u])
  }

  /** A task that was unfinished and has been moved to DROPPED leaves the measure of the cascade. */
  lemma FinishedLeaves(wfs: WorkflowTable, tasks: Tasks, id: Id, t: Task)
    requires ValidTable(wfs) && id in tasks && !IsTerminal(wfs, tasks[id])
    requires t.workflow in wfs && t.state == DROPPED
    ensures IsTerminal(wfs, t) && Unfinished(wfs, tasks[id := t]) == Unfinished(wfs, tasks) - {id}
    ensures id in Unfinished(wfs, tasks)
  {
    assert wfs[t.workflow].Valid();
  }

  lemma DroppedIsFinished(wfs: WorkflowTable, t: Task, note: Option<string>, now: string)
    requires ValidTable(wfs) && t.workflow in wfs
    ensures IsTerminal(wfs, DropTask(wfs, t, note, now))
    ensures DropTask(wfs, t, note, now).history != []
  {
    assert wfs[t.workflow].Valid();
  }

  lemma ChildFalls(wfs: WorkflowTable, tasks: Tasks, root: Id, child: Id)
    requires child in tasks && !IsTerminal(wfs, tasks[child]) && tasks[child].governor == Some(root)
    ensures child in DropSet(wfs, tasks, root)
  {
    forall s: set<Id> | DropClosed(wfs, tasks, root, s)
      ensures child in s
    {
      assert Falls(wfs, tasks, root, s, child);
    }
  }

  /** A child of the root brings exactly its own subtree: `tasks` is the state so far, with `dropped`
      already gone, and `child` is dropped next. */
  lemma ChildSubtree(wfs: WorkflowTable, tasks0: Tasks, root: Id, dropped: set<Id>, child: Id,
                     note: Option<string>, now: string)
    requires ValidTable(wfs) && dropped <= DropSet(wfs, tasks0, root)
    requires forall u :: u in dropped ==> Movable(wfs, tasks0[u])
    requires child in tasks0 && child !in dropped && Movable(wfs, tasks0[child])
    requires !IsTerminal(wfs, tasks0[child]) && tasks0[child].governor == Some(root)
    requires root in tasks0 ==> IsTerminal(wfs, tasks0[root])
    ensures var tasks1 := After(wfs, tasks0, dropped + {child}, note, now);
            var below := DropSet(wfs, tasks1, child);
            && child in DropSet(wfs, tasks0, root)
            && below <= DropSet(wfs, tasks0, root)
            && (forall u :: u in below ==>
                  && u !in dropped + {child} && tasks1[u] == tasks0[u] && tasks0[u].governor != Some(root))
  {
    var tasks1 := After(wfs, tasks0, dropped + {child}, note, now);
    var below := DropSet(wfs, tasks1, child);
    forall u | u in dropped + {child}
      ensures IsTerminal(wfs, tasks1[u])
    {
      DroppedIsFinished(wfs, tasks0[u], note, now);
    }
    DropSetIsUnfinished(wfs, tasks1, child);
    forall s: set<Id> | DropClosed(wfs, tasks0, root, s)
      ensures child in s && below <= s
    {
      assert Falls(wfs, tasks0, root, s, child);
      forall u | u in tasks1 && Falls(wfs, tasks1, child, s, u)
        ensures u in s
      {
        assert Falls(wfs, tasks0, root, s, u);
      }
      assert DropClosed(wfs, tasks1, child, s);
    }
    var others := set u | u in tasks1 && !IsTerminal(wfs, tasks1[u]) && tasks1[u].governor != Some(root);
    assert DropClosed(wfs, tasks1, child, others);
  }

  lemma DropOneMore(wfs: WorkflowTable, tasks: Tasks, dropped: set<Id>, child: Id, note: Option<string>, now: string)
    requires child in tasks && child !in dropped
    ensures After(wfs, tasks, dropped, note, now)[child] == tasks[child]
    ensures After(wfs, tasks, dropped, note, now)[child := DropTask(wfs, tasks[child], note, now)]
            == After(wfs, tasks, dropped + {child}, note, now)
  {
  }

  /** Unfinished tasks governed by a member are members. */
  ghost predicate ClosedBelow(wfs: WorkflowTable, tasks: Tasks, s: set<Id>) {
    forall u {:trigger GovernedIn(wfs, tasks, s, u)} :: u in tasks && GovernedIn(wfs, tasks, s, u) ==> u in s
  }

  ghost predicate GovernedIn(wfs: WorkflowTable, tasks: Tasks, s: set<Id>, u: Id)
    requires u in tasks
  {
    !IsTerminal(wfs, tasks[u]) && tasks[u].governor.Some? && tasks[u].governor.value in s
  }

  lemma ClosedAfterChild(wfs: WorkflowTable, tasks0: Tasks, dropped: set<Id>, child: Id, below: set<Id>,
                         note: Option<string>, now: string)
    requires child in tasks0 && ClosedBelow(wfs, tasks0, dropped)
    requires DropClosed(wfs, After(wfs, tasks0, dropped + {child}, note, now), child, below)
    ensures ClosedBelow(wfs, tasks0, dropped + {child} + below)
  {
    var tasks1 := After(wfs, tasks0, dropped + {child}, note, now);
    forall u | u in tasks0 && GovernedIn(wfs, tasks0, dropped + {child} + below, u)
      ensures u in dropped + {child} + below
    {
      assert GovernedIn(wfs, tasks0, dropped, u) ==> u in dropped;
      if u !in dropped + {child} {
        assert tasks1[u] == tasks0[u];
        assert Falls(wfs, tasks1, child, below, u);
      }
    }
  }

  /** A cascade below `root`: exactly the least set falls, or the call reports a task that the engine
      cannot move and has dropped only tasks of that set. */
  ghost predicate Cascaded(wfs: WorkflowTable, tasks0: Tasks, tasks': Tasks, root: Id,
                           note: Option<string>, now: string, error: Option<Error>, dropped: set<Id>)
  {
    && tasks' == After(wfs, tasks0, dropped, note, now)
    && dropped <= DropSet(wfs, tasks0, root)
    && (forall u :: u in dropped ==> Movable(wfs, tasks0[u]))
    && (error.None? ==> DropClosed(wfs, tasks0, root, dropped))
    && (error.Some? ==> Stuck(wfs, tasks0, root))
  }

  /** Some task of the subtree belongs to no loaded workflow or state. */
  ghost predicate Stuck(wfs: WorkflowTable, tasks: Tasks, root: Id) {
    exists u :: u in DropSet(wfs, tasks, root) && !Movable(wfs, tasks[u])
  }

  /** The loop invariant of the cascade: `dropped` is gone, it belongs to the subtree, and nothing
      unfinished is left below it. */
  ghost predicate Dropping(wfs: WorkflowTable, tasks0: Tasks, tasks': Tasks, root: Id,
                           note: Option<string>, now: string, dropped: set<Id>)
  {
    && tasks' == After(wfs, tasks0, dropped, note, now)
    && dropped <= DropSet(wfs, tasks0, root)
    && (forall u :: u in dropped ==> Movable(wfs, tasks0[u]))
  }

  lemma AfterComposes(wfs: WorkflowTable, tasks: Tasks, a: set<Id>, b: set<Id>, note: Option<string>, now: string)
    requires forall u :: u in b ==> u !in a
    ensures After(wfs, After(wfs, tasks, a, note, now), b, note, now) == After(wfs, tasks, a + b, note, now)
  {
  }

  /** What has fallen so far, the child, and what fell below it. */
  lemma StillDropping(wfs: WorkflowTable, tasks0: Tasks, root: Id, dropped: set<Id>, child: Id, tasks': Tasks,
                      below: set<Id>, note: Option<string>, now: string)
    requires dropped <= DropSet(wfs, tasks0, root) && child in DropSet(wfs, tasks0, root)
             && below <= DropSet(wfs, tasks0, root)
    requires (forall u :: u in dropped ==> Movable(wfs, tasks0[u])) && Movable(wfs, tasks0[child])
    requires var tasks1 := After(wfs, tasks0, dropped + {child}, note, now);
             && tasks' == After(wfs, tasks1, below, note, now)
             && forall u :: u in below ==>
                   u !in dropped + {child} && u in tasks1 && Movable(wfs, tasks1[u]) && tasks1[u] == tasks0[u]
    ensures Dropping(wfs, tasks0, tasks', root, note, now, dropped + {child} + below)
  {
    AfterComposes(wfs, tasks0, dropped + {child}, below, note, now);
  }

  /** Folding one child's cascade into the cascade of the root. */
  lemma AfterChild(wfs: WorkflowTable, tasks0: Tasks, root: Id, dropped: set<Id>, child: Id, tasks': Tasks,
                   error: Option<Error>, below: set<Id>, note: Option<string>, now: string)
    requires ValidTable(wfs) && ClosedBelow(wfs, tasks0, dropped)
    requires Dropping(wfs, tasks0, After(wfs, tasks0, dropped, note, now), root, note, now, dropped)
    requires child in tasks0 && child !in dropped && Movable(wfs, tasks0[child])
    requires !IsTerminal(wfs, tasks0[child]) && tasks0[child].governor == Some(root)
    requires root in tasks0 ==> IsTerminal(wfs, tasks0[root])
    requires Cascaded(wfs, After(wfs, tasks0, dropped + {child}, note, now), tasks', child, note, now, error, below)
    ensures Dropping(wfs, tasks0, tasks', root, note, now, dropped + {child} + below)
    ensures error.None? ==> ClosedBelow(wfs, tasks0, dropped + {child} + below)
    ensures error.Some? ==> Stuck(wfs, tasks0, root)
    ensures forall u :: u in below ==> u in tasks0 && !GovernedIn(wfs, tasks0, {root}, u)
  {
    var tasks1 := After(wfs, tasks0, dropped + {child}, note, now);
    ChildSubtree(wfs, tasks0, root, dropped, child, note, now);
    StillDropping(wfs, tasks0, root, dropped, child, tasks', below, note, now);
    if error.None? {
      ClosedAfterChild(wfs, tasks0, dropped, child, below, note, now);
    } else {
      StuckBelow(wfs, tasks0, tasks1, root, child);
    }
  }

  lemma StuckBelow(wfs: WorkflowTable, tasks0: Tasks, tasks1: Tasks, root: Id, child: Id)
    requires Stuck(wfs, tasks1, child) && DropSet(wfs, tasks1, child) <= DropSet(wfs, tasks0, root)
    requires forall u :: u in DropSet(wfs, tasks1, child) ==> u in tasks0 && u in tasks1 && tasks1[u] == tasks0[u]
    ensures Stuck(wfs, tasks0, root)
  {
    var v :| v in DropSet(wfs, tasks1, child) && !Movable(wfs, tasks1[v]);
    assert v in DropSet(wfs, tasks0, root) && !Movable(wfs, tasks0[v]);
  }

  /** The children listed before position `i` have fallen, those from `i` on have not. */
  ghost predicate ChildrenSplitAt(wfs: WorkflowTable, tasks: Tasks, root: Id, ids: seq<Id>, i: nat, dropped: set<Id>)
    requires i <= |ids| && forall u :: u in ids ==> u in tasks
  {
    forall j :: 0 <= j < |ids| && GovernedIn(wfs, tasks, {root}, ids[j]) ==> (ids[j] in dropped <==> j < i)
  }

  /** The loop invariant before the first child. */
  lemma NothingDropped(wfs: WorkflowTable, tasks: Tasks, root: Id, ids: seq<Id>, note: Option<string>, now: string)
    requires forall u :: u in ids ==> u in tasks
    ensures Dropping(wfs, tasks, tasks, root, note, now, {}) && ClosedBelow(wfs, tasks, {})
    ensures ChildrenSplitAt(wfs, tasks, root, ids, 0, {})
  {
    assert tasks == After(wfs, tasks, {}, note, now);
  }

  lemma NotAChild(wfs: WorkflowTable, tasks: Tasks, root: Id, ids: seq<Id>, i: nat, dropped: set<Id>)
    requires i < |ids| && (forall u :: u in ids ==> u in tasks) && !GovernedIn(wfs, tasks, {root}, ids[i])
    requires ChildrenSplitAt(wfs, tasks, root, ids, i, dropped)
    ensures ChildrenSplitAt(wfs, tasks, root, ids, i + 1, dropped)
  {
  }

  lemma NextChildDone(wfs: WorkflowTable, tasks: Tasks, root: Id, ids: seq<Id>, i: nat, dropped: set<Id>, all: set<Id>)
    requires i < |ids| && Distinct(ids) && (forall u :: u in ids ==> u in tasks)
    requires ChildrenSplitAt(wfs, tasks, root, ids, i, dropped) && dropped <= all && ids[i] in all
    requires forall u :: u in all - dropped - {ids[i]} ==> u in tasks && !GovernedIn(wfs, tasks, {root}, u)
    ensures ChildrenSplitAt(wfs, tasks, root, ids, i + 1, all)
  {
  }

  lemma AllChildrenDone(wfs: WorkflowTable, tasks0: Tasks, root: Id, ids: seq<Id>, dropped: set<Id>)
    requires ClosedBelow(wfs, tasks0, dropped) && (forall u :: u in ids <==> u in tasks0)
    requires ChildrenSplitAt(wfs, tasks0, root, ids, |ids|, dropped)
    ensures DropClosed(wfs, tasks0, root, dropped)
  {
    forall u {:trigger Falls(wfs, tasks0, root, dropped, u)} | u in tasks0 && Falls(wfs, tasks0, root, dropped, u)
      ensures u in dropped
    {
      assert GovernedIn(wfs, tasks0, {root}, u) || GovernedIn(wfs, tasks0, dropped, u);
      var j :| 0 <= j < |ids| && ids[j] == u;
    }
  }

  // ---- the service ----------------------------------------------------------------------------

  class TaskService {
    const workflows: WorkflowTable
    var tasks: Tasks
    var repos: map<Id, bool>
    /** Per-task transition locks that are held now. They are not reentrant. */
    var locked: set<Id>
    /** Whether the dependency lock is held now. */
    var admission: bool

    /** A service over an empty store. */
    constructor (workflows: WorkflowTable, repos: map<Id, bool>)
      requires ValidTable(workflows)
      ensures this.workflows == workflows && Stored() == World(map[], repos) && Idle()
    {
      this.workflows, this.repos := workflows, repos;
      tasks, locked, admission := map[], {}, false;
      new;
      EmptyIsOk(workflows, Stored());
    }

    function Stored(): World
      reads this
    {
      World(tasks, repos)
    }

    ghost predicate Valid()
      reads this
    {
      ValidTable(workflows) && (forall u :: u in tasks ==> tasks[u].history != [])
    }

    /** Unfinished tasks can be locked: only finished tasks hold a lock while a cascade runs. */
    ghost predicate UnfinishedAreFree()
      reads this
    {
      forall u :: u in locked && u in tasks ==> IsTerminal(workflows, tasks[u])
    }

    method ListIds() returns (ids: seq<Id>)
      ensures (forall u :: u in ids <==> u in tasks) && Distinct(ids)
    {
      ids := [];
      var left := tasks.Keys;
      while left != {}
        invariant left <= tasks.Keys && Distinct(ids)
        invariant forall u :: u in ids <==> u in tasks.Keys - left
        decreases left
      {
        var u :| u in left;
        assert u !in ids;
        ids := ids + [u];
        left := left - {u};
      }
    }

    /** `_commit_transition` for a gated move, and the cascade behind it. `dropped` is the set of
        governed tasks that went with it. */
    method GatedMove(id: Id, to: string, trigger: Option<string>, note: Option<string>, now: string)
      returns (error: Option<Error>, ghost dropped: set<Id>)
      requires Valid() && id !in locked && !admission && UnfinishedAreFree()
      modifies this
      ensures Valid() && locked == old(locked) && !admission && repos == old(repos)
      ensures tasks.Keys == old(tasks.Keys)
      ensures old(id !in tasks || !Movable(workflows, tasks[id])) ==>
                error.Some? && tasks == old(tasks) && dropped == {}
      ensures old(id in tasks && Movable(workflows, tasks[id])) ==>
                match Lifecycle.ApplyTransition(workflows[old(tasks[id].workflow)], old(tasks[id]),
                                                to, now, trigger, note)
                case Err(e) => error == Some(InLifecycle(e)) && tasks == old(tasks) && dropped == {}
                case Ok(t) => CommittedAndCascaded(old(tasks)[id := t], id, t.state == DROPPED,
                                                   note, now, error, dropped)
      decreases Unfinished(workflows, tasks), 0
    {
      dropped := {};
      locked := locked + {id};
      admission := true;
      error := Commit(id, to, false, trigger, note, now);
      admission := false;
      if error.None? && tasks[id].state == DROPPED {
        FinishedLeaves(workflows, old(tasks), id, tasks[id]);
        error, dropped := CascadeDrop(id, note, now);
      }
      locked := locked - {id};
    }

    /** What a committed move leaves behind, given the tasks right after the commit. */
    ghost predicate CommittedAndCascaded(tasks1: Tasks, id: Id, cascades: bool, note: Option<string>, now: string,
                                         error: Option<Error>, dropped: set<Id>)
      reads this
    {
      if cascades then Cascaded(workflows, tasks1, tasks, id, note, now, error, dropped)
      else error.None? && tasks == tasks1 && dropped == {}
    }

    /** `_commit_transition`: load, move, save. */
    method Commit(id: Id, to: string, force: bool, trigger: Option<string>, note: Option<string>, now: string)
      returns (error: Option<Error>)
      requires Valid() && admission && (force ==> trigger == Some(Lifecycle.SET_STATE))
      modifies this`tasks
      ensures Valid()
      ensures id !in old(tasks) ==> error == Some(NotFound) && tasks == old(tasks)
      ensures old(id in tasks && tasks[id].workflow !in workflows) ==>
                error == Some(UnknownWorkflow) && tasks == old(tasks)
      ensures old(id in tasks && tasks[id].workflow in workflows) ==>
                match (if force then Lifecycle.ForceTransition(workflows[old(tasks[id].workflow)], old(tasks[id]),
                                                               to, now, note)
                       else Lifecycle.ApplyTransition(workflows[old(tasks[id].workflow)], old(tasks[id]),
                                                      to, now, trigger, note))
                case Err(e) => error == Some(InLifecycle(e)) && tasks == old(tasks)
                case Ok(t) => error.None? && tasks == old(tasks)[id := t]
    {
      if id !in tasks {
        return Some(NotFound);
      }
      var stored := tasks[id];
      if stored.workflow !in workflows {
        return Some(UnknownWorkflow);
      }
      var task := new Lifecycle.TaskObject.Load(stored);
      var e := task.Move(workflows[stored.workflow], to, force, now, trigger, note);
      if e.Some? {
        return Some(InLifecycle(e.value));
      }
      tasks := tasks[id := task.Value()];
      return None;
    }

    /** `_cascade_drop_governed`: drop every unfinished task governed by `root`, in a snapshot taken at
        the start; each drop cascades in turn. */
    method CascadeDrop(root: Id, note: Option<string>, now: string)
      returns (error: Option<Error>, ghost dropped: set<Id>)
      requires Valid() && !admission && UnfinishedAreFree()
      requires root in tasks ==> IsTerminal(workflows, tasks[root])
      modifies this
      ensures Valid() && locked == old(locked) && !admission && repos == old(repos)
      ensures tasks.Keys == old(tasks.Keys)
      ensures Cascaded(workflows, old(tasks), tasks, root, note, now, error, dropped)
      decreases Unfinished(workflows, tasks), 2
    {
      var snapshot := tasks;
      var ids := ListIds();
      error, dropped := None, {};
      NothingDropped(workflows, snapshot, root, ids, note, now);
      for i := 0 to |ids|
        invariant error.None? && Valid() && locked == old(locked) && !admission && repos == old(repos)
        invariant tasks.Keys == snapshot.Keys && UnfinishedAreFree()
        invariant Unfinished(workflows, tasks) <= old(Unfinished(workflows, tasks))
        invariant Dropping(workflows, snapshot, tasks, root, note, now, dropped)
                  && ClosedBelow(workflows, snapshot, dropped)
        invariant ChildrenSplitAt(workflows, snapshot, root, ids, i, dropped)
      {
        var child := ids[i];
        assert child in ids;
        if snapshot[child].governor == Some(root) && !IsTerminal(workflows, snapshot[child]) {
          ghost var before := dropped;
          error, dropped := DropChild(snapshot, root, child, dropped, note, now);
          if error.Some? {
            return;
          }
          NextChildDone(workflows, snapshot, root, ids, i, before, dropped);
        } else {
          NotAChild(workflows, snapshot, root, ids, i, dropped);
        }
      }
      AllChildrenDone(workflows, snapshot, root, ids, dropped);
    }

    /** One round of the cascade: `request_transition` of an unfinished child to DROPPED. */
    method DropChild(ghost snapshot: Tasks, ghost root: Id, child: Id, ghost dropped: set<Id>,
                     note: Option<string>, now: string)
      returns (error: Option<Error>, ghost all: set<Id>)
      requires Valid() && !admission && UnfinishedAreFree()
      requires root in snapshot ==> IsTerminal(workflows, snapshot[root])
      requires Dropping(workflows, snapshot, tasks, root, note, now, dropped)
               && ClosedBelow(workflows, snapshot, dropped)
      requires child in snapshot && child !in dropped && GovernedIn(workflows, snapshot, {root}, child)
      modifies this
      ensures Valid() && locked == old(locked) && !admission && repos == old(repos)
      ensures tasks.Keys == snapshot.Keys && UnfinishedAreFree()
      ensures Unfinished(workflows, tasks) <= old(Unfinished(workflows, tasks))
      ensures Dropping(workflows, snapshot, tasks, root, note, now, all) && dropped <= all
      ensures error.None? ==> ClosedBelow(workflows, snapshot, all) && child in all
      ensures error.Some? ==> Stuck(workflows, snapshot, root)
      ensures forall u :: u in all - dropped - {child} ==> u in snapshot && !GovernedIn(workflows, snapshot, {root}, u)
      decreases Unfinished(workflows, tasks), 1
    {
      ChildFalls(workflows, snapshot, root, child);
      DropOneMore(workflows, snapshot, dropped, child, note, now);
      ghost var below;
      error, below := GatedMove(child, DROPPED, Some(Lifecycle.CASCADE_DROP), note, now);
      all := dropped;
      if Movable(workflows, snapshot[child]) {
        Lifecycle.DropIsNeverRefused(workflows[snapshot[child].workflow], snapshot[child], now,
                                     Some(Lifecycle.CASCADE_DROP), note);
        AfterChild(workflows, snapshot, root, dropped, child, tasks, error, below, note, now);
        all := dropped + {child} + below;
      }
      DroppingFinishes(workflows, snapshot, old(tasks), tasks, root, note, now, dropped, all);
    }

    // ---- public calls -------------------------------------------------------------------------

    /** Between calls: a well-formed store and no lock held. */
    ghost predicate Idle()
      reads this
    {
      ValidTable(workflows) && WorldOk(workflows, Stored()) && locked == {} && !admission
    }

    /** The call did exactly what its step says, and left the service idle. */
    ghost predicate Did(before: World, c: Command, error: Option<Error>)
      requires ValidTable(workflows)
      reads this
    {
      && Idle()
      && match Step(workflows, before, c)
         case Ok(w) => error.None? && Stored() == w
         case Err(e) => error == Some(e) && Stored() == before
    }

    method RequestTransition(id: Id, to: string, trigger: Option<string>, note: Option<string>, now: string)
      returns (error: Option<Error>)
      requires Idle()
      modifies this
      ensures Did(old(Stored()), Command.RequestTransition(id, to, trigger, note, now), error)
    {
      IdleIsValid(workflows, Stored());
      ghost var before := Stored();
      ghost var c := Command.RequestTransition(id, to, trigger, note, now);
      StepKeepsOk(workflows, before, c);
      if id !in tasks {
        return Some(NotFound);
      }
      assert Known(workflows, repos, tasks[id]);
      ghost var dropped;
      error, dropped := GatedMove(id, to, trigger, note, now);
      GatedMoveIsMove(workflows, before, id, to, trigger, note, now, tasks, error, dropped);
    }

    method ApplyOperation(id: Id, operation: string, note: Option<string>, now: string) returns (error: Option<Error>)
      requires Idle()
      modifies this
      ensures Did(old(Stored()), Command.ApplyOperation(id, operation, note, now), error)
    {
      IdleIsValid(workflows, Stored());
      ghost var before := Stored();
      StepKeepsOk(workflows, before, Command.ApplyOperation(id, operation, note, now));
      if id !in tasks {
        return Some(NotFound);
      }
      assert Known(workflows, repos, tasks[id]);
      var g := workflows[tasks[id].workflow];
      if tasks[id].state !in g.operations || operation !in g.operations[tasks[id].state] {
        return Some(NoSuchOperation);
      }
      var to := g.operations[tasks[id].state][operation];
      ghost var dropped;
      error, dropped := GatedMove(id, to, Some(operation), note, now);
      GatedMoveIsMove(workflows, before, id, to, Some(operation), note, now, tasks, error, dropped);
    }

    /** What a free move leaves of `tasks0`. It needs only the task, its workflow and the target: a
        stored task whose state label its workflow no longer has can be recovered this way. */
    ghost predicate FreelyMoved(tasks0: Tasks, id: Id, to: string, note: Option<string>, now: string,
                                error: Option<Error>, dropped: set<Id>)
      reads this
    {
      if id !in tasks0 then error == Some(NotFound) && tasks == tasks0
      else if tasks0[id].workflow !in workflows then error == Some(UnknownWorkflow) && tasks == tasks0
      else
        match Lifecycle.ForceTransition(workflows[tasks0[id].workflow], tasks0[id], to, now, note)
        case Err(e) => error == Some(InLifecycle(e)) && tasks == tasks0
        case Ok(t) => CommittedAndCascaded(tasks0[id := t], id, t.state == DROPPED, note, now, error, dropped)
    }

    method FreeMove(id: Id, to: string, note: Option<string>, now: string)
      returns (error: Option<Error>, ghost dropped: set<Id>)
      requires Valid() && locked == {} && !admission
      modifies this
      ensures Valid() && locked == {} && !admission && repos == old(repos)
      ensures FreelyMoved(old(tasks), id, to, note, now, error, dropped)
    {
      dropped := {};
      locked, admission := {id}, true;
      error := Commit(id, to, true, Some(Lifecycle.SET_STATE), note, now);
      admission := false;
      if error.None? && tasks[id].state == DROPPED {
        assert workflows[tasks[id].workflow].Valid();
        error, dropped := CascadeDrop(id, note, now);
      }
      locked := {};
    }

    /** The user's free move, of a task in any state. Over a store of known states it does exactly its
        atomic step. */
    method SetState(id: Id, to: string, note: Option<string>, now: string)
      returns (error: Option<Error>, ghost dropped: set<Id>)
      requires Valid() && locked == {} && !admission
      modifies this
      ensures Valid() && locked == {} && !admission && repos == old(repos)
      ensures FreelyMoved(old(tasks), id, to, note, now, error, dropped)
      ensures old(Idle()) ==> Did(old(Stored()), Command.SetState(id, to, note, now), error)
    {
      ghost var before := Stored();
      error, dropped := FreeMove(id, to, note, now);
      if WorldOk(workflows, before) {
        FreeMoveIsStep(this, before, id, to, note, now, error, dropped);
      }
    }

    /** `_cascade_after_transition` behind a committed move of `id` to `t`. */
    method CascadeFrom(id: Id, ghost before: World, ghost t: Task, note: Option<string>, now: string)
      requires ValidTable(workflows) && WorldOk(workflows, before) && id in before.tasks
      requires LogOk(workflows, t) && SameFrame(before.tasks[id], t)
      requires Stored() == before.(tasks := before.tasks[id := t]) && locked == {id} && !admission
      modifies this
      ensures locked == {id} && !admission
      ensures Stored() == SaveMoved(workflows, before, id, t, note, now)
    {
      OneTaskKeepsOk(workflows, before, id, t);
      ghost var w1 := before.(tasks := before.tasks[id := t]);
      IdleIsValid(workflows, w1);
      assert Known(workflows, repos, tasks[id]);
      if tasks[id].state == DROPPED {
        assert workflows[tasks[id].workflow].Valid();
        var error;
        ghost var dropped;
        error, dropped := CascadeDrop(id, note, now);
        CascadeIsComplete(workflows, w1, tasks, id, note, now, error, dropped);
      }
    }

    /** The part of the call under the dependency lock: resolve the promise in memory, move on when
        nothing is left and the agent advances, and save once. */
    method ResolveInPlace(id: Id, key: string, status: Status, comment: Option<string>, now: string)
      returns (error: Option<Error>, advanced: bool)
      requires Valid() && id in tasks && LogOk(workflows, tasks[id])
      modifies this`tasks
      ensures match Lifecycle.ResolveAndAdvance(workflows[old(tasks[id].workflow)], old(tasks[id]),
                                                key, status, comment, now)
              case Err(e) => error == Some(InLifecycle(e)) && tasks == old(tasks) && !advanced
              case Ok(t) =>
                && error.None? && tasks == old(tasks)[id := t]
                && (advanced <==> |t.history| > |old(tasks[id].history)|)
    {
      var g := workflows[tasks[id].workflow];
      Lifecycle.ResolveAndAdvanceSpec(g, tasks[id], key, status, comment, now);
      var task := new Lifecycle.TaskObject.Load(tasks[id]);
      var e := task.ResolveResponsibility(key, status, comment);
      if e.Some? {
        return Some(InLifecycle(e.value)), false;
      }
      advanced := false;
      if !Lifecycle.HasOutstanding(task.history[|task.history| - 1].responsibilities) {
        var dest := g.Advance(task.state);
        if dest.Some? && g.states[task.state].advancedBy.Agent? {
          e := task.Move(g, dest.value, false, now, Some("advance"), None);
          advanced := true;
        }
      }
      tasks := tasks[id := task.Value()];
      error := None;
    }

    /** Resolve one promise; when it was the last one and the agent advances the state, move on. */
    method ResolveResponsibility(id: Id, key: string, status: Status, comment: Option<string>, now: string)
      returns (error: Option<Error>)
      requires Idle()
      modifies this
      ensures Did(old(Stored()), Command.ResolveResponsibility(id, key, status, comment, now), error)
    {
      IdleIsValid(workflows, Stored());
      ghost var before, c := Stored(), Command.ResolveResponsibility(id, key, status, comment, now);
      if id !in tasks {
        return Some(NotFound);
      }
      assert Known(workflows, repos, tasks[id]) && LogOk(workflows, tasks[id]);
      ResolveStepIs(workflows, before, c);
      var advanced;
      error, advanced := ResolveInPlace(id, key, status, comment, now);
      if advanced {
        locked := {id};
        CascadeFrom(id, before, tasks[id], None, now);
        locked := {};
      }
      assert error.None? ==> Step(workflows, before, c) == Ok(Stored());
    }

    method RecordStageEntryWake(id: Id, index: int, status: WakeStatus) returns (error: Option<Error>)
      requires Idle()
      modifies this
      ensures Did(old(Stored()), Command.RecordWake(id, index, status), error)
    {
      StepKeepsOk(workflows, Stored(), Command.RecordWake(id, index, status));
      if status.WakePending? {
        return Some(InLifecycle(Lifecycle.WakeCannotBePending));
      }
      if id !in tasks {
        return Some(NotFound);
      }
      var task := tasks[id];
      assert Known(workflows, repos, task);
      if index < 0 || index >= |task.history| {
        return Some(InLifecycle(Lifecycle.NoSuchEntry));
      }
      var entry := task.history[index];
      if entry.wakeStatus == status {
        return None;
      }
      if !entry.wakeStatus.WakePending? {
        return Some(InLifecycle(Lifecycle.WakeAlreadySettled));
      }
      tasks := tasks[id := task.(history := task.history[index := entry.(wakeStatus := status)])];
      return None;
    }

    method CreateTask(id: Id, repo: Id, workflow: string, governor: Option<Id>, deps: seq<Id>, now: string)
      returns (error: Option<Error>)
      requires Idle()
      modifies this
      ensures Did(old(Stored()), Command.CreateTask(id, repo, workflow, governor, deps, now), error)
    {
      StepKeepsOk(workflows, Stored(), Command.CreateTask(id, repo, workflow, governor, deps, now));
      if repo !in repos {
        return Some(NotFound);
      }
      if workflow == "review" && governor.None? {
        return Some(ReviewNeedsGovernor);
      }
      if governor.Some? && governor.value !in tasks {
        return Some(NotFound);
      }
      if workflow !in workflows {
        return Some(UnknownWorkflow);
      }
      var task := Lifecycle.StartTask(workflows[workflow], repo, workflow, now).(
        governor := governor, launchPaused := repos[repo]);
      if deps != [] {
        var invalid := Readiness.ValidateDependencies(tasks, id, deps);
        if invalid.Some? {
          return Some(InDependencies(invalid.value));
        }
      }
      task := task.(dependsOn := deps);
      if id in tasks {
        return Some(AlreadyExists);
      }
      tasks := tasks[id := task];
      return None;
    }

    method SetDependencies(id: Id, deps: seq<Id>) returns (error: Option<Error>)
      requires Idle()
      modifies this
      ensures Did(old(Stored()), Command.SetDependencies(id, deps), error)
    {
      StepKeepsOk(workflows, Stored(), Command.SetDependencies(id, deps));
      if id !in tasks {
        return Some(NotFound);
      }
      assert Known(workflows, repos, tasks[id]);
      var invalid := Readiness.ValidateDependencies(tasks, id, deps);
      if invalid.Some? {
        return Some(InDependencies(invalid.value));
      }
      tasks := tasks[id := tasks[id].(dependsOn := deps)];
      return None;
    }

    method SetSlug(id: Id, slug: string) returns (error: Option<Error>)
      requires Idle()
      modifies this
      ensures Did(old(Stored()), Command.SetSlug(id, slug), error)
    {
      StepKeepsOk(workflows, Stored(), Command.SetSlug(id, slug));
      if id !in tasks {
        return Some(NotFound);
      }
      assert Known(workflows, repos, tasks[id]);
      tasks := tasks[id := tasks[id].(slug := Some(slug))];
      return None;
    }

    /** Handing the turn to the agent means the user has answered: the waiting markers go. */
    method SetTurn(id: Id, turn: Actor) returns (error: Option<Error>)
      requires Idle()
      modifies this
      ensures Did(old(Stored()), Command.SetTurn(id, turn), error)
    {
      StepKeepsOk(workflows, Stored(), Command.SetTurn(id, turn));
      if id !in tasks {
        return Some(NotFound);
      }
      assert Known(workflows, repos, tasks[id]);
      var task := tasks[id].(turn := turn);
      if turn.Agent? {
        task := task.(blocked := false, attention := false);
      }
      tasks := tasks[id := task];
      return None;
    }

    /** `live` and `launchFailed` are the task's registrations and its reported phase. */
    method Retry(id: Id, live: bool, launchFailed: bool) returns (error: Option<Error>)
      requires Idle()
      modifies this
      ensures Did(old(Stored()), Command.Retry(id, live, launchFailed), error)
    {
      StepKeepsOk(workflows, Stored(), Command.Retry(id, live, launchFailed));
      if id !in tasks {
        return Some(NotFound);
      }
      assert Known(workflows, repos, tasks[id]);
      var task := tasks[id];
      if repos[task.repo] {
        return Some(InOwnership(Ownership.LaunchPaused));
      }
      if IsTerminal(workflows, task) || live {
        return Some(InOwnership(Ownership.NotRetryable));
      }
      if Truthy(task.claimedBy) && !task.launchPaused && !launchFailed {
        return Some(InOwnership(Ownership.LaunchNotSettled));
      }
      tasks := tasks[id := task.(launchPaused := false, claimedBy := None)];
      return None;
    }

    method SetGovernor(id: Id, governor: Option<Id>) returns (error: Option<Error>)
      requires Idle()
      modifies this
      ensures Did(old(Stored()), Command.SetGovernor(id, governor), error)
    {
      StepKeepsOk(workflows, Stored(), Command.SetGovernor(id, governor));
      if id !in tasks {
        return Some(NotFound);
      }
      assert Known(workflows, repos, tasks[id]);
      if governor.Some? && governor.value !in tasks {
        return Some(NotFound);
      }
      tasks := tasks[id := tasks[id].(governor := governor)];
      return None;
    }

    method Claim(id: Id, runner: string) returns (error: Option<Error>)
      requires Idle()
      modifies this
      ensures Did(old(Stored()), Command.Claim(id, runner), error)
    {
      StepKeepsOk(workflows, Stored(), Command.Claim(id, runner));
      if id !in tasks {
        return Some(NotFound);
      }
      var task := tasks[id];
      assert Known(workflows, repos, task);
      if task.claimedBy.Some? && task.claimedBy.value != runner {
        return Some(InOwnership(Ownership.AlreadyClaimed));
      }
      if task.launchPaused || (task.claimedBy.None? && repos[task.repo]) {
        return Some(InOwnership(Ownership.LaunchPaused));
      }
      var crossHost := Ownership.CrossHostError(task, runner);
      if crossHost.Some? {
        return Some(InOwnership(crossHost.value));
      }
      if task.claimedBy.None? {
        var blocking := Readiness.DependenciesBlocking(workflows, task, tasks);
        if IsTerminal(workflows, task) || blocking {
          return Some(InOwnership(Ownership.NotReady));
        }
      }
      tasks := tasks[id := task.(claimedBy := Some(runner))];
      return None;
    }

    method Release(id: Id) returns (error: Option<Error>)
      requires Idle()
      modifies this
      ensures Did(old(Stored()), Command.Release(id), error)
    {
      StepKeepsOk(workflows, Stored(), Command.Release(id));
      if id !in tasks {
        return Some(NotFound);
      }
      assert Known(workflows, repos, tasks[id]);
      tasks := tasks[id := tasks[id].(claimedBy := None)];
      return None;
    }

    method Reclaim(runner: string) returns (error: Option<Error>)
      requires Idle()
      modifies this
      ensures Did(old(Stored()), Command.Reclaim(runner), error)
    {
      StepKeepsOk(workflows, Stored(), Command.Reclaim(runner));
      ReleaseClaims(runner);
      return None;
    }

    /** Release every unfinished task of a runner, one by one. */
    method ReleaseClaims(runner: string)
      modifies this`tasks
      ensures tasks == ReclaimStep(workflows, old(Stored()), runner).tasks
    {
      var listed := tasks;
      var ids := ListIds();
      for i := 0 to |ids|
        invariant tasks.Keys == listed.Keys
        invariant forall j :: 0 <= j < i ==> tasks[ids[j]] == Reclaimed(listed[ids[j]], runner)
        invariant forall j :: i <= j < |ids| ==> tasks[ids[j]] == listed[ids[j]]
      {
        assert ids[i] in ids;
        tasks := tasks[ids[i] := Reclaimed(listed[ids[i]], runner)];
      }
      forall u | u in listed
        ensures tasks[u] == Reclaimed(listed[u], runner)
      {
        assert u in ids;
      }
    }

    function Reclaimed(t: Task, runner: string): Task {
      if ReleasedBy(workflows, t, runner) then t.(claimedBy := None) else t
    }

    method RecordProvisioning(id: Id, branch: string, clone: string, runner: string, verified: bool)
      returns (error: Option<Error>)
      requires Idle()
      modifies this
      ensures Did(old(Stored()), Command.RecordProvisioning(id, branch, clone, runner, verified), error)
    {
      StepKeepsOk(workflows, Stored(), Command.RecordProvisioning(id, branch, clone, runner, verified));
      if id !in tasks {
        return Some(NotFound);
      }
      assert Known(workflows, repos, tasks[id]);
      var task := tasks[id];
      if task.slug.None? {
        return Some(InOwnership(Ownership.SlugNotSet));
      }
      if task.claimedBy != Some(runner) {
        return Some(InOwnership(Ownership.NotClaimHolder));
      }
      if task.migration.Some? && task.migration.value.destination == runner &&
         task.migration.value.workspace !in Ownership.INSTALLED_OR_ACCEPTED {
        return Some(InOwnership(Ownership.DestinationNotAccepted));
      }
      if branch != "panopticon/" + task.slug.value && task.branch != Some(branch) {
        return Some(InOwnership(Ownership.BranchMismatch));
      }
      task := task.(branch := Some(branch), clone := Some(clone), provisionedBy := Some(runner));
      tasks := tasks[id := task.(workspaceVerifiedBy := if verified then Some(runner) else None)];
      return None;
    }

    /** The guards of a migration record, in order. */
    static method MigrationError(task: Task, facts: Ownership.MigrationFacts) returns (error: Option<Ownership.Error>)
      ensures match Ownership.RecordMigration(task, facts)
              case Ok(_) => error.None?
              case Err(e) => error == Some(e)
    {
      if task.provisionedBy.None? {
        return Some(Ownership.NoWorkspaceOwner);
      }
      if facts.source != task.provisionedBy.value {
        return Some(Ownership.SourceNotOwner);
      }
      if facts.destination == facts.source {
        return Some(Ownership.SameHost);
      }
      if facts.workspace !in {"pending", "installed", "accepted", "failed"} {
        return Some(Ownership.BadDisposition);
      }
      if facts.method_ !in {"archive", "forge-first"} {
        return Some(Ownership.BadMethod);
      }
      if facts.sessionHistory !in {"requested", "accepted", "omitted", "failed"} {
        return Some(Ownership.BadHistoryDisposition);
      }
      if facts.workspace in {"installed", "accepted"} {
        if task.migration.None? || task.migration.value.source != facts.source ||
           task.migration.value.destination != facts.destination || task.migration.value.method_ != facts.method_ {
          return Some(Ownership.NoMatchingPending);
        }
        var previous := task.migration.value.workspace;
        if previous != "pending" && !(facts.workspace == "accepted" && previous == "installed") {
          return Some(Ownership.NoMatchingPending);
        }
      }
      if facts.discarded != [] && facts.discardAuthorizedBy != Some("user") {
        return Some(Ownership.DiscardNotAuthorized);
      }
      return None;
    }

    method RecordMigration(id: Id, facts: Ownership.MigrationFacts) returns (error: Option<Error>)
      requires Idle()
      modifies this
      ensures Did(old(Stored()), Command.RecordMigration(id, facts), error)
    {
      StepKeepsOk(workflows, Stored(), Command.RecordMigration(id, facts));
      if id !in tasks {
        return Some(NotFound);
      }
      assert Known(workflows, repos, tasks[id]);
      var refused := MigrationError(tasks[id], facts);
      if refused.Some? {
        return Some(InOwnership(refused.value));
      }
      var task := tasks[id];
      var requested := Ownership.HistoryWasRequested(task.migration);
      var changedBy := None;
      if requested && facts.sessionHistory == "omitted" {
        changedBy := Some("user");
      }
      tasks := tasks[id := task.(migration := Some(MigrationRecord(
        facts.source, facts.destination, facts.workspace, facts.method_, facts.sessionHistory, facts.discarded,
        facts.discardAuthorizedBy, changedBy, requested || facts.sessionHistory == "requested")))];
      return None;
    }
  }

  lemma IdleIsValid(wfs: WorkflowTable, w: World)
    requires ValidTable(wfs) && WorldOk(wfs, w)
    ensures forall u :: u in w.tasks ==> w.tasks[u].history != []
  {
    forall u | u in w.tasks
      ensures w.tasks[u].history != []
    {
      assert Known(wfs, w.repos, w.tasks[u]);
    }
  }

  /** In a well-formed store a cascade never gets stuck, so it drops the whole least set. */
  lemma CascadeIsComplete(wfs: WorkflowTable, w: World, tasks': Tasks, root: Id, note: Option<string>, now: string,
                          error: Option<Error>, dropped: set<Id>)
    requires ValidTable(wfs) && WorldOk(wfs, w) && Cascaded(wfs, w.tasks, tasks', root, note, now, error, dropped)
    ensures error.None? && tasks' == Cascade(wfs, w.tasks, root, note, now)
  {
    forall u | u in DropSet(wfs, w.tasks, root)
      ensures Movable(wfs, w.tasks[u])
    {
      assert Known(wfs, w.repos, w.tasks[u]);
    }
    assert dropped == DropSet(wfs, w.tasks, root);
  }

  /** What the step of a resolution is, in the terms of the method. */
  lemma ResolveStepIs(wfs: WorkflowTable, w: World, c: Command)
    requires ValidTable(wfs) && WorldOk(wfs, w) && c.ResolveResponsibility? && c.id in w.tasks
    requires Known(wfs, w.repos, w.tasks[c.id])
    ensures var t := w.tasks[c.id];
            match Lifecycle.ResolveAndAdvance(wfs[t.workflow], t, c.key, c.status, c.comment, c.now)
            case Err(e) => Step(wfs, w, c) == Err(InLifecycle(e))
            case Ok(t') =>
              && LogOk(wfs, t') && SameFrame(t, t')
              && Step(wfs, w, c) == Ok(if |t'.history| > |t.history| then SaveMoved(wfs, w, c.id, t', None, c.now)
                                       else w.(tasks := w.tasks[c.id := t']))
    ensures Step(wfs, w, c).Ok? ==> WorldOk(wfs, Step(wfs, w, c).value)
  {
    var t := w.tasks[c.id];
    assert LogOk(wfs, t);
    Lifecycle.ResolveAndAdvanceSpec(wfs[t.workflow], t, c.key, c.status, c.comment, c.now);
    ResolveKeepsRecord(wfs[t.workflow], t, c.key, c.status, c.comment, c.now);
    StepKeepsOk(wfs, w, c);
  }

  /** The committed free move with its cascade is the atomic step, over a well-formed store. */
  lemma FreeMoveIsStep(service: TaskService, w: World, id: Id, to: string, note: Option<string>, now: string,
                       error: Option<Error>, dropped: set<Id>)
    requires ValidTable(service.workflows) && WorldOk(service.workflows, w) && service.repos == w.repos
    requires service.FreelyMoved(w.tasks, id, to, note, now, error, dropped)
    ensures match Step(service.workflows, w, Command.SetState(id, to, note, now))
            case Ok(w') => error.None? && service.Stored() == w'
            case Err(e) => error == Some(e) && service.Stored() == w
    ensures WorldOk(service.workflows, service.Stored())
  {
    var wfs := service.workflows;
    StepKeepsOk(wfs, w, Command.SetState(id, to, note, now));
    if id in w.tasks {
      assert Known(wfs, w.repos, w.tasks[id]) && LogOk(wfs, w.tasks[id]);
      var g, t := wfs[w.tasks[id].workflow], w.tasks[id];
      var moved := Lifecycle.ForceTransition(g, t, to, now, note);
      if moved.Ok? && moved.value.state == DROPPED {
        Lifecycle.ForceKeepsHistory(g, t, to, now, note);
        OneTaskKeepsOk(wfs, w, id, moved.value);
        CascadeIsComplete(wfs, w.(tasks := w.tasks[id := moved.value]), service.tasks, id, note, now, error, dropped);
      }
    }
  }

  lemma GatedMoveIsMove(wfs: WorkflowTable, w: World, id: Id, to: string, trigger: Option<string>, note: Option<string>,
                        now: string, tasks': Tasks, error: Option<Error>, dropped: set<Id>)
    requires ValidTable(wfs) && WorldOk(wfs, w) && id in w.tasks && Known(wfs, w.repos, w.tasks[id])
    requires match Lifecycle.ApplyTransition(wfs[w.tasks[id].workflow], w.tasks[id], to, now, trigger, note)
             case Err(e) => error == Some(InLifecycle(e)) && tasks' == w.tasks
             case Ok(t) =>
               if t.state == DROPPED then Cascaded(wfs, w.tasks[id := t], tasks', id, note, now, error, dropped)
               else error.None? && tasks' == w.tasks[id := t]
    ensures match Move(wfs, w, id, Lifecycle.ApplyTransition(wfs[w.tasks[id].workflow], w.tasks[id],
                                                             to, now, trigger, note), note, now)
            case Ok(w') => error.None? && w.(tasks := tasks') == w'
            case Err(e) => error == Some(e) && tasks' == w.tasks
  {
    var g, t := wfs[w.tasks[id].workflow], w.tasks[id];
    var moved := Lifecycle.ApplyTransition(g, t, to, now, trigger, note);
    if moved.Ok? && moved.value.state == DROPPED {
      assert LogOk(wfs, t);
      Lifecycle.ApplyKeepsHistory(g, t, to, now, trigger, note);
      OneTaskKeepsOk(wfs, w, id, moved.value);
      CascadeIsComplete(wfs, w.(tasks := w.tasks[id := moved.value]), tasks', id, note, now, error, dropped);
    }
  }

  lemma DroppingFinishes(wfs: WorkflowTable, tasks0: Tasks, before: Tasks, after: Tasks, root: Id, note: Option<string>,
                         now: string, dropped: set<Id>, all: set<Id>)
    requires ValidTable(wfs) && dropped <= all
    requires Dropping(wfs, tasks0, before, root, note, now, dropped)
    requires Dropping(wfs, tasks0, after, root, note, now, all)
    ensures forall u :: u in after && !IsTerminal(wfs, after[u]) ==> u in before && after[u] == before[u]
  {
    forall u | u in after && !IsTerminal(wfs, after[u])
      ensures u in before && after[u] == before[u]
    {
      if u in all {
        DroppedIsFinished(wfs, tasks0[u], note, now);
      }
    }
  }
}
