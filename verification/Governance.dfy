/** Who may see and act on whom: the upward governor walk of the credential scope policy and the
    downward closure of the task list (src/panopticon/taskservice/auth_scope.py and the visibility
    loop of `list_tasks` in src/panopticon/taskservice/api.py). Governor links may dangle or form
    cycles, because setting a governor only checks that it exists. */
module Governance {
  import opened Models

  datatype Relation = Self | Governed | Unrelated | Missing

  datatype Action =
    | ReadTask | ReadTaskMetadata | InvokeOperation | RequestTransition | SetState
    | ResolveResponsibility | SetSlug | SetUrl | SetTokensUsed | SetTokenEstimate | SetTurn
    | SetBlocked | SetAttention | SetDependencies | RecordStageEntryWake | PutArtifact
    | ListArtifacts | ReadArtifact | CreateSessionInput | ReadSessionInputStatus
    | ReadSessionTranscript | RegisterContainer | DeregisterContainer | TaskLiveness | ClaimTask
    | ProvisionTask | MigrateTask | ReportLifecycle | ReportLauncherFailure | SetGovernor
    | SnoozeTask | PreplanChild | CreateChild | ListWorkflows

  const SELF_ACTIONS: set<Action> := {
    ReadTask, ReadTaskMetadata, InvokeOperation, RequestTransition, SetState, ResolveResponsibility,
    SetSlug, SetUrl, SetTokensUsed, SetTokenEstimate, SetTurn, SetBlocked, SetAttention,
    SetDependencies, PutArtifact, ListArtifacts, ReadArtifact, CreateSessionInput,
    ReadSessionInputStatus, ReadSessionTranscript, RegisterContainer, DeregisterContainer,
    TaskLiveness, ReportLauncherFailure }

  const CHILD_ACTIONS: set<Action> := {
    ReadTask, ReadTaskMetadata, PutArtifact, ListArtifacts, ReadArtifact, SetSlug, SetTokenEstimate,
    SetTurn, SetDependencies }

  /** A task list with its index: the ids in list order and the tasks by id. Ids are non-empty. */
  ghost predicate ValidList(ids: seq<Id>, tasks: Tasks) {
    (forall u :: u in ids <==> u in tasks) && "" !in tasks
  }

  // ---- the specification: the least set below a task ------------------------------------------

  ghost predicate HasGovernorIn(tasks: Tasks, u: Id, s: set<Id>)
    requires u in tasks
  {
    tasks[u].governor.Some? && tasks[u].governor.value in s
  }

  ghost predicate DownwardClosed(tasks: Tasks, s: set<Id>) {
    forall u {:trigger HasGovernorIn(tasks, u, s)} :: u in tasks && HasGovernorIn(tasks, u, s) ==> u in s
  }

  /** `u` is `top` or sits somewhere below it: it is in every downward-closed set around `top`. */
  ghost predicate Below(tasks: Tasks, top: Id, u: Id) {
    forall s: set<Id> :: top in s && DownwardClosed(tasks, s) ==> u in s
  }

  ghost predicate MayOrchestrate(orchestrators: set<string>, tasks: Tasks, subject: Id) {
    subject in tasks && tasks[subject].workflow in orchestrators
  }

  /** What a task credential may do, stated without the walk. */
  ghost predicate Allowed(orchestrators: set<string>, tasks: Tasks, subject: Id, action: Action, target: Id) {
    target in tasks &&
    if target == subject then action in SELF_ACTIONS
    else MayOrchestrate(orchestrators, tasks, subject) && Below(tasks, subject, target)
         && action in CHILD_ACTIONS + {PreplanChild}
  }

  /** The ids a task credential sees in the task list. */
  ghost function Visible(orchestrators: set<string>, tasks: Tasks, subject: Id): set<Id> {
    set u | u in tasks && (u == subject || (MayOrchestrate(orchestrators, tasks, subject) && Below(tasks, subject, u)))
  }

  // ---- the upward walk ------------------------------------------------------------------------

  /** Links out of `seen` lead back into it, end, or dangle, and none of them is the subject. */
  ghost predicate Trapped(tasks: Tasks, subject: Id, seen: set<Id>) {
    forall u :: u in seen ==>
      && u in tasks
      && (tasks[u].governor.Some? ==>
            var g := tasks[u].governor.value;
            g != subject && (g in seen || g !in tasks))
  }

  /** A trapped chain keeps its members out of the subject's subtree. */
  lemma TrappedIsNotBelow(tasks: Tasks, subject: Id, seen: set<Id>, target: Id)
    requires Trapped(tasks, subject, seen) && target in seen && target != subject
    ensures !Below(tasks, subject, target)
  {
    var s := {subject} + (tasks.Keys - seen);
    assert DownwardClosed(tasks, s);
    assert target !in s;
  }

  /** `_target`: look the target up, then follow governor links until the subject, a repetition, or
      the end of the chain. */
  method Relate(tasks: Tasks, subject: Id, target: Id) returns (r: Relation)
    requires "" !in tasks && subject != ""
    ensures r.Missing? <==> target !in tasks
    ensures r.Self? <==> target in tasks && target == subject
    ensures r.Governed? <==> target in tasks && target != subject && Below(tasks, subject, target)
  {
    if target !in tasks {
      return Missing;
    }
    if target == subject {
      return Self;
    }
    var current := target;
    var seen: set<Id> := {};
    while tasks[current].governor.Some? && tasks[current].governor.value != "" && current !in seen
      invariant current in tasks && seen <= tasks.Keys && current != subject
      invariant target in seen + {current}
      invariant forall u :: u in seen ==>
                  tasks[u].governor.Some? && tasks[u].governor.value != subject
                  && tasks[u].governor.value in seen + {current}
      invariant forall s: set<Id> :: DownwardClosed(tasks, s) && current in s ==> target in s
      decreases tasks.Keys - seen
    {
      seen := seen + {current};
      var g := tasks[current].governor.value;
      if g == subject {
        forall s: set<Id> | DownwardClosed(tasks, s) && subject in s
          ensures target in s
        {
          assert HasGovernorIn(tasks, current, s);
        }
        return Governed;
      }
      if g !in tasks {
        TrappedIsNotBelow(tasks, subject, seen, target);
        return Unrelated;
      }
      ghost var below := current;
      current := g;
      forall s: set<Id> | DownwardClosed(tasks, s) && current in s
        ensures target in s
      {
        assert HasGovernorIn(tasks, below, s);
      }
    }
    TrappedIsNotBelow(tasks, subject, seen + {current}, target);
    return Unrelated;
  }

  /** `authorize`. */
  function Authorize(action: Action, relation: Relation, sameId: bool, orchestrates: bool): bool {
    if relation.Self? && sameId then action in SELF_ACTIONS
    else if relation.Governed? && orchestrates then action in CHILD_ACTIONS || action.PreplanChild?
    else false
  }

  /** `decide`: the walk plus the action table decide exactly the specified authority. */
  method Decide(orchestrators: set<string>, tasks: Tasks, subject: Id, action: Action, target: Id)
    returns (allowed: bool)
    requires "" !in tasks && subject != ""
    ensures allowed <==> Allowed(orchestrators, tasks, subject, action, target)
  {
    var relation := Relate(tasks, subject, target);
    var orchestrates := subject in tasks && tasks[subject].workflow in orchestrators;
    allowed := Authorize(action, relation, target == subject, orchestrates);
  }

  /** A chain of governor links from a task up to the top. */
  ghost predicate Chain(tasks: Tasks, top: Id, p: seq<Id>) {
    && p != [] && p[|p| - 1] == top
    && forall i {:trigger p[i]} :: 0 <= i < |p| - 1 ==> p[i] in tasks && tasks[p[i]].governor == Some(p[i + 1])
  }

  ghost predicate LinkedUp(tasks: Tasks, top: Id, u: Id) {
    exists p :: Chain(tasks, top, p) && p[0] == u
  }

  lemma {:induction false} ChainIsBelow(tasks: Tasks, top: Id, p: seq<Id>)
    requires Chain(tasks, top, p)
    ensures Below(tasks, top, p[0])
  {
    if |p| > 1 {
      assert p[1..][0] == p[1];
      ChainIsBelow(tasks, top, p[1..]);
      BelowStep(tasks, top, p[1], p[0]);
    }
  }

  /** Sitting below a task is being linked up to it by governors, in any number of steps. */
  lemma BelowIsChained(tasks: Tasks, top: Id, u: Id)
    ensures Below(tasks, top, u) <==> LinkedUp(tasks, top, u)
  {
    if p :| Chain(tasks, top, p) && p[0] == u {
      ChainIsBelow(tasks, top, p);
    }
    if Below(tasks, top, u) {
      var s := {top} + set v | v in tasks && LinkedUp(tasks, top, v);
      assert LinkedUp(tasks, top, top) by {
        assert Chain(tasks, top, [top]) && [top][0] == top;
      }
      forall v {:trigger HasGovernorIn(tasks, v, s)} | v in tasks && HasGovernorIn(tasks, v, s)
        ensures v in s
      {
        var p :| Chain(tasks, top, p) && p[0] == tasks[v].governor.value;
        assert Chain(tasks, top, [v] + p) && ([v] + p)[0] == v;
      }
      assert LinkedUp(tasks, top, u);
    }
  }

  /** All that a task credential may do: to its own task everything but the acts of runners, overseers and
      planners, and, when its workflow orchestrates, ten kinds of acts on the tasks linked up to it. */
  lemma ReachOfATask(orchestrators: set<string>, tasks: Tasks, subject: Id, action: Action, target: Id)
    ensures Allowed(orchestrators, tasks, subject, action, target) <==>
              && target in tasks
              && if target == subject then
                   action !in {ClaimTask, ProvisionTask, MigrateTask, ReportLifecycle, RecordStageEntryWake,
                               SetGovernor, SnoozeTask, PreplanChild, CreateChild, ListWorkflows}
                 else
                   && subject in tasks && tasks[subject].workflow in orchestrators
                   && LinkedUp(tasks, subject, target)
                   && action in {ReadTask, ReadTaskMetadata, PutArtifact, ListArtifacts, ReadArtifact, SetSlug,
                                 SetTokenEstimate, SetTurn, SetDependencies, PreplanChild}
  {
    BelowIsChained(tasks, subject, target);
  }

  /** `decide_dependencies`: the edited task and every non-empty proposed id must be in scope. */
  method DecideDependencies(orchestrators: set<string>, tasks: Tasks, subject: Id, target: Id, deps: seq<Id>)
    returns (allowed: bool)
    requires "" !in tasks && subject != ""
    ensures allowed <==>
              && target in Visible(orchestrators, tasks, subject)
              && (forall d :: d in deps && d != "" ==> d in Visible(orchestrators, tasks, subject))
  {
    allowed := Decide(orchestrators, tasks, subject, SetDependencies, target);
    if !allowed {
      return;
    }
    for i := 0 to |deps|
      invariant forall j :: 0 <= j < i && deps[j] != "" ==> deps[j] in Visible(orchestrators, tasks, subject)
    {
      if deps[i] != "" {
        var secondary := Decide(orchestrators, tasks, subject, SetDependencies, deps[i]);
        if !secondary {
          assert deps[i] in deps && deps[i] !in Visible(orchestrators, tasks, subject);
          return false;
        }
      }
    }
  }

  // ---- the downward fixpoint ------------------------------------------------------------------

  lemma SubsetOfSameSize<T>(a: set<T>, b: set<T>)
    requires a <= b && |a| == |b|
    ensures a == b
  {
    assert |b - a| == 0;
  }

  /** The list endpoint's closure. Each pass adds ids as it finds them, so later entries of the list
      already see the earlier additions of the same pass. */
  method VisibleIds(orchestrators: set<string>, ids: seq<Id>, tasks: Tasks, principal: Id)
    returns (visible: set<Id>)
    requires ValidList(ids, tasks)
    ensures visible == Visible(orchestrators, tasks, principal)
  {
    visible := if principal in tasks then {principal} else {};
    if principal in tasks && tasks[principal].workflow in orchestrators {
      var changed := true;
      while changed
        invariant principal in visible && visible <= tasks.Keys
        invariant forall u :: u in visible ==> Below(tasks, principal, u)
        invariant !changed ==> DownwardClosed(tasks, visible)
        decreases tasks.Keys - visible, changed
      {
        ghost var start := visible;
        var before := |visible|;
        for i := 0 to |ids|
          invariant start <= visible <= tasks.Keys
          invariant forall u :: u in visible ==> Below(tasks, principal, u)
          invariant forall j :: 0 <= j < i ==>
                      ids[j] in visible || !HasGovernorIn(tasks, ids[j], start)
        {
          var u := ids[i];
          assert u in ids;
          if tasks[u].governor.Some? && tasks[u].governor.value in visible {
            BelowStep(tasks, principal, tasks[u].governor.value, u);
            visible := visible + {u};
          }
        }
        changed := |visible| != before;
        if start == visible {
          assert !changed;
        } else {
          ghost var x :| x in visible && x !in start;
          assert x in tasks.Keys - start;
        }
        if !changed {
          SubsetOfSameSize(start, visible);
        }
      }
      assert forall u :: Below(tasks, principal, u) ==> u in visible;
    }
  }

  lemma BelowStep(tasks: Tasks, top: Id, g: Id, u: Id)
    requires u in tasks && tasks[u].governor == Some(g) && Below(tasks, top, g)
    ensures Below(tasks, top, u)
  {
    forall s: set<Id> | top in s && DownwardClosed(tasks, s)
      ensures u in s
    {
      assert HasGovernorIn(tasks, u, s);
    }
  }

  /** The list shows a task credential exactly the tasks it may read one by one. */
  lemma ListAgreesWithReadAccess(orchestrators: set<string>, tasks: Tasks, subject: Id, target: Id)
    ensures target in Visible(orchestrators, tasks, subject) <==>
            Allowed(orchestrators, tasks, subject, ReadTask, target)
  {
    assert ReadTask in SELF_ACTIONS && ReadTask in CHILD_ACTIONS;
  }
}
