/** Workspace ownership as a property of whole runs of the task service: who may come to own a
    workspace, what an installed or accepted migration rests on, and what a migration record never
    forgets. */
module OwnershipRuns {
  import opened Models
  import opened Workflows
  import opened ServiceSpec
  import opened ServiceRuns
  import Lifecycle
  import Ownership
  import Readiness

  // ---- one step -------------------------------------------------------------------------------

  ghost predicate SameOwnership(t: Task, t': Task) {
    t'.claimedBy == t.claimedBy && t'.provisionedBy == t.provisionedBy && t'.migration == t.migration
  }

  /** The calls that may end the claim on a task: its release, its retry, and the reclaim of the runner
      that holds it. */
  predicate Releases(c: Command, id: Id, holder: Option<string>) {
    ((c.Release? || c.Retry?) && c.id == id) || (c.Reclaim? && holder == Some(c.runner))
  }

  /** The only ways one call can change a task's claim, workspace owner and migration record. */
  ghost predicate OwnershipStep(t: Task, c: Command, id: Id, t': Task) {
    || SameOwnership(t, t')
    || (Releases(c, id, t.claimedBy) && t' == t.(claimedBy := None, launchPaused := t'.launchPaused))
    || (c.Claim? && c.id == id && t' == t.(claimedBy := Some(c.runner))
        && (t.claimedBy.None? || t.claimedBy == Some(c.runner)) && Ownership.CrossHostError(t, c.runner).None?)
    || (c.RecordProvisioning? && c.id == id && t.claimedBy == t'.claimedBy == t'.provisionedBy == Some(c.runner)
        && t'.migration == t.migration)
    || (c.RecordMigration? && c.id == id && Ownership.RecordMigration(t, c.facts).Ok?
        && t' == Ownership.RecordMigration(t, c.facts).value)
  }

  lemma MovedKeepsOwnership(wfs: WorkflowTable, w: World, id: Id, t: Task, note: Option<string>, now: string, u: Id)
    requires id in w.tasks && SameOwnership(w.tasks[id], t)
    ensures SaveMoved(wfs, w, id, t, note, now).tasks.Keys == w.tasks.Keys
    ensures u in w.tasks ==> SameOwnership(w.tasks[u], SaveMoved(wfs, w, id, t, note, now).tasks[u])
  {
  }

  lemma TransitionKeepsOwnership(g: Graph, t: Task, to: string, now: string,
                                 trigger: Option<string>, note: Option<string>)
    requires g.Valid() && t.history != []
    ensures var r := Lifecycle.ApplyTransition(g, t, to, now, trigger, note);
            r.Ok? ==> SameOwnership(t, r.value)
  {
  }

  lemma ResolveKeepsOwnership(g: Graph, t: Task, key: string, status: Status, comment: Option<string>, now: string)
    requires g.Valid() && t.history != []
    ensures var r := Lifecycle.ResolveAndAdvance(g, t, key, status, comment, now);
            r.Ok? ==> SameOwnership(t, r.value)
  {
  }

  lemma MoveStepKeepsOwnership(wfs: WorkflowTable, w: World, c: Command, u: Id)
    requires ValidTable(wfs) && Moves(c) && c.id in w.tasks && Known(wfs, w.repos, w.tasks[c.id])
    requires MoveStep(wfs, w, c).Ok?
    ensures MoveStep(wfs, w, c).value.tasks.Keys == w.tasks.Keys
    ensures u in w.tasks ==> SameOwnership(w.tasks[u], MoveStep(wfs, w, c).value.tasks[u])
  {
    var t, g := w.tasks[c.id], wfs[w.tasks[c.id].workflow];
    if c.RequestTransition? {
      TransitionKeepsOwnership(g, t, c.to, c.now, c.trigger, c.note);
      MovedKeepsOwnership(wfs, w, c.id, Lifecycle.ApplyTransition(g, t, c.to, c.now, c.trigger, c.note).value,
                          c.note, c.now, u);
    } else if c.ApplyOperation? {
      var to := g.operations[t.state][c.operation];
      TransitionKeepsOwnership(g, t, to, c.now, Some(c.operation), c.note);
      MovedKeepsOwnership(wfs, w, c.id, Lifecycle.ApplyTransition(g, t, to, c.now, Some(c.operation), c.note).value,
                          c.note, c.now, u);
    } else if c.SetState? {
      MovedKeepsOwnership(wfs, w, c.id, Lifecycle.ForceTransition(g, t, c.to, c.now, c.note).value, c.note, c.now, u);
    } else {
      ResolveKeepsOwnership(g, t, c.key, c.status, c.comment, c.now);
      MovedKeepsOwnership(wfs, w, c.id, Lifecycle.ResolveAndAdvance(g, t, c.key, c.status, c.comment, c.now).value,
                          None, c.now, u);
    }
  }

  lemma HandOffIsOwnershipStep(wfs: WorkflowTable, w: World, c: Command)
    requires OnOneTask(c) && !Moves(c) && !Records(c)
    requires c.id in w.tasks && Known(wfs, w.repos, w.tasks[c.id]) && HandOffStep(wfs, w, c).Ok?
    ensures OwnershipStep(w.tasks[c.id], c, c.id, HandOffStep(wfs, w, c).value)
  {
  }

  lemma RecordKeepsOwnership(w: World, c: Command)
    requires Records(c) && c.id in w.tasks && RecordStep(w, c).Ok?
    ensures SameOwnership(w.tasks[c.id], RecordStep(w, c).value)
  {
  }

  lemma CreateLeavesOthers(wfs: WorkflowTable, w: World, c: Command, u: Id)
    requires ValidTable(wfs) && c.CreateTask? && CreateStep(wfs, w, c).Ok?
    ensures var tasks' := CreateStep(wfs, w, c).value.tasks;
            && tasks'.Keys == w.tasks.Keys + {c.id} && c.id !in w.tasks
            && (u in w.tasks ==> tasks'[u] == w.tasks[u])
            && tasks'[c.id].claimedBy.None? && tasks'[c.id].provisionedBy.None? && tasks'[c.id].migration.None?
  {
  }

  lemma PauseKeepsOwnership(w: World, repo: Id, paused: bool, ids: set<Id>, u: Id)
    requires PauseStep(w, repo, paused, ids).Ok?
    ensures var tasks' := PauseStep(w, repo, paused, ids).value.tasks;
            tasks'.Keys == w.tasks.Keys && (u in w.tasks ==> SameOwnership(w.tasks[u], tasks'[u]))
  {
  }

  lemma ReclaimReleases(wfs: WorkflowTable, w: World, runner: string, u: Id)
    ensures var tasks' := ReclaimStep(wfs, w, runner).tasks;
            && tasks'.Keys == w.tasks.Keys
            && (u in w.tasks ==>
                  var t := w.tasks[u];
                  tasks'[u] == if ReleasedBy(wfs, t, runner) then t.(claimedBy := None) else t)
  {
  }

  lemma OnTaskOwnership(w: World, c: Command, id: Id, r: Result<Task, Error>, u: Id)
    requires r.Ok? && id in w.tasks && OwnershipStep(w.tasks[id], c, id, r.value)
    ensures OnTask(w, id, r).value.tasks.Keys == w.tasks.Keys
    ensures u in w.tasks ==> OwnershipStep(w.tasks[u], c, u, OnTask(w, id, r).value.tasks[u])
  {
  }

  /** One call, seen from one task: an existing task takes an ownership step, a new one is unowned. */
  lemma StepOwnership(wfs: WorkflowTable, w: World, c: Command, u: Id)
    requires ValidTable(wfs)
    ensures u in w.tasks ==>
              u in Next(wfs, w, c).tasks && OwnershipStep(w.tasks[u], c, u, Next(wfs, w, c).tasks[u])
    ensures u !in w.tasks && u in Next(wfs, w, c).tasks ==>
              var t := Next(wfs, w, c).tasks[u];
              t.claimedBy.None? && t.provisionedBy.None? && t.migration.None?
  {
    var r := Step(wfs, w, c);
    if r.Ok? {
      if c.CreateTask? {
        CreateLeavesOthers(wfs, w, c, u);
      } else if c.PauseLaunches? {
        PauseKeepsOwnership(w, c.repo, c.repoPaused, c.ids, u);
      } else if c.Reclaim? {
        ReclaimReleases(wfs, w, c.runner, u);
      } else if Moves(c) {
        MoveStepKeepsOwnership(wfs, w, c, u);
      } else if Records(c) {
        RecordKeepsOwnership(w, c);
        OnTaskOwnership(w, c, c.id, RecordStep(w, c), u);
      } else {
        HandOffIsOwnershipStep(wfs, w, c);
        OnTaskOwnership(w, c, c.id, OwnershipResult(HandOffStep(wfs, w, c)), u);
      }
    }
  }

  // ---- whole runs -----------------------------------------------------------------------------

  ghost predicate ClaimedAt(ws: seq<World>, id: Id, i: nat, runner: string) {
    i < |ws| && id in ws[i].tasks && ws[i].tasks[id].claimedBy == Some(runner)
  }

  /** At step `j` the runner's claim was granted on an unclaimed task, and it has held ever since. */
  ghost predicate GrantedAt(ws: seq<World>, cs: seq<Command>, id: Id, j: nat, i: nat, runner: string)
    requires |ws| == |cs| + 1 && i < |ws|
  {
    && j < i && id in ws[j].tasks && ws[j].tasks[id].claimedBy.None?
    && cs[j].Claim? && cs[j].id == id && cs[j].runner == runner
    && forall k: nat :: j < k <= i ==> ClaimedAt(ws, id, k, runner)
  }

  /** While a runner holds a claim, the workspace keeps the owner it had at the grant, or has become
      the runner's own. */
  ghost predicate OwnerSinceGrant(ws: seq<World>, id: Id, j: nat, i: nat, runner: string)
    requires j < i < |ws| && id in ws[j].tasks && id in ws[i].tasks
  {
    ws[i].tasks[id].provisionedBy == ws[j].tasks[id].provisionedBy || ws[i].tasks[id].provisionedBy == Some(runner)
  }

  lemma {:induction false} ClaimWasGranted(wfs: WorkflowTable, ws: seq<World>, cs: seq<Command>, id: Id,
                                           i: nat, runner: string)
    returns (j: nat)
    requires ValidTable(wfs) && IsRun(wfs, ws, cs) && ClaimedAt(ws, id, i, runner)
    ensures GrantedAt(ws, cs, id, j, i, runner) && OwnerSinceGrant(ws, id, j, i, runner)
    ensures Ownership.CrossHostError(ws[j].tasks[id], runner).None?
    decreases i
  {
    assert i > 0;
    var w, c := ws[i - 1], cs[i - 1];
    assert ws[i - 1 + 1] == Next(wfs, w, c);
    StepOwnership(wfs, w, c, id);
    if id in w.tasks && w.tasks[id].claimedBy == Some(runner) {
      j := ClaimWasGranted(wfs, ws, cs, id, i - 1, runner);
    } else {
      j := i - 1;
    }
  }

  /** An installed or accepted migration out of `source` into `destination`. */
  ghost predicate HandedOver(t: Task, source: string, destination: string) {
    && t.provisionedBy == Some(source) && t.migration.Some?
    && t.migration.value.source == source && t.migration.value.destination == destination
    && t.migration.value.workspace in Ownership.INSTALLED_OR_ACCEPTED
  }

  /** A workspace changes hands between hosts only under a claim that was granted while an installed
      or accepted migration between exactly these hosts was on record. */
  lemma OwnershipMovesByMigration(wfs: WorkflowTable, ws: seq<World>, cs: seq<Command>, id: Id, i: nat,
                                  source: string, destination: string)
    requires ValidTable(wfs) && IsRun(wfs, ws, cs) && i < |cs| && id in ws[i].tasks && id in ws[i + 1].tasks
    requires ws[i].tasks[id].provisionedBy == Some(source)
    requires ws[i + 1].tasks[id].provisionedBy == Some(destination) && source != destination
    ensures exists j: nat ::
              GrantedAt(ws, cs, id, j, i, destination) && HandedOver(ws[j].tasks[id], source, destination)
  {
    StepOwnership(wfs, ws[i], cs[i], id);
    var j := ClaimWasGranted(wfs, ws, cs, id, i, destination);
    assert HandedOver(ws[j].tasks[id], source, destination);
  }

  ghost predicate SameHandOffAt(ws: seq<World>, id: Id, k: nat, m: MigrationRecord) {
    && k < |ws| && id in ws[k].tasks && ws[k].tasks[id].migration.Some?
    && Ownership.SameHandOff(ws[k].tasks[id].migration.value, m.source, m.destination, m.method_)
  }

  /** Every installed or accepted record goes back, through records of the same hand-off only, to a
      pending one. */
  lemma {:induction false} ArrivalWasPending(wfs: WorkflowTable, ws: seq<World>, cs: seq<Command>, id: Id, i: nat)
    returns (j: nat)
    requires ValidTable(wfs) && IsRun(wfs, ws, cs) && i < |ws| && id in ws[i].tasks
    requires ws[i].tasks[id].migration.Some?
    requires ws[i].tasks[id].migration.value.workspace in Ownership.INSTALLED_OR_ACCEPTED
    ensures j < i && SameHandOffAt(ws, id, j, ws[i].tasks[id].migration.value)
    ensures ws[j].tasks[id].migration.value.workspace == "pending"
    ensures forall k: nat :: j <= k <= i ==> SameHandOffAt(ws, id, k, ws[i].tasks[id].migration.value)
    decreases i
  {
    assert i > 0;
    assert ws[i - 1 + 1] == Next(wfs, ws[i - 1], cs[i - 1]);
    StepOwnership(wfs, ws[i - 1], cs[i - 1], id);
    var m := ws[i].tasks[id].migration.value;
    assert SameHandOffAt(ws, id, i - 1, m);
    if ws[i - 1].tasks[id].migration.value.workspace in Ownership.INSTALLED_OR_ACCEPTED {
      j := ArrivalWasPending(wfs, ws, cs, id, i - 1);
    } else {
      j := i - 1;
    }
    forall k: nat | j <= k <= i
      ensures SameHandOffAt(ws, id, k, m)
    {
      if k < i {
        assert k < i - 1 ==> SameHandOffAt(ws, id, k, ws[i - 1].tasks[id].migration.value);
      }
    }
  }

  /** Once a migration record has asked for the session history, every later record remembers it, and
      carries the flag. */
  lemma {:induction false} HistoryRequestSticks(wfs: WorkflowTable, ws: seq<World>, cs: seq<Command>, id: Id,
                                                i: nat, k: nat)
    requires ValidTable(wfs) && IsRun(wfs, ws, cs) && i <= k < |ws| && id in ws[i].tasks
    requires Ownership.HistoryWasRequested(ws[i].tasks[id].migration)
    ensures id in ws[k].tasks && Ownership.HistoryWasRequested(ws[k].tasks[id].migration)
    ensures ws[k].tasks[id].migration.value.sessionHistoryWasRequested
    decreases k
  {
    if k == i {
      RecordsAreOk(wfs, ws, cs, id, i);
    } else {
      HistoryRequestSticks(wfs, ws, cs, id, i, k - 1);
      assert ws[k - 1 + 1] == Next(wfs, ws[k - 1], cs[k - 1]);
      StepOwnership(wfs, ws[k - 1], cs[k - 1], id);
    }
  }

  /** What holds of every record in every run: it leads to another host, its terms are known ones,
      discarded changes were authorised by the user, a request for session history leaves the flag,
      and a requested history that is omitted is marked as changed by the user, no other. */
  ghost predicate RecordOk(m: MigrationRecord) {
    && m.destination != m.source
    && m.workspace in {"pending", "installed", "accepted", "failed"} && m.method_ in {"archive", "forge-first"}
    && m.sessionHistory in {"requested", "accepted", "omitted", "failed"}
    && (m.discarded != [] ==> m.discardAuthorizedBy == Some("user"))
    && (m.sessionHistory == "requested" ==> m.sessionHistoryWasRequested)
    && m.sessionHistoryChangedBy ==
         (if m.sessionHistory == "omitted" && m.sessionHistoryWasRequested then Some("user") else None)
  }

  lemma {:induction false} RecordsAreOk(wfs: WorkflowTable, ws: seq<World>, cs: seq<Command>, id: Id, i: nat)
    requires ValidTable(wfs) && IsRun(wfs, ws, cs) && i < |ws| && id in ws[i].tasks && ws[i].tasks[id].migration.Some?
    ensures RecordOk(ws[i].tasks[id].migration.value)
    decreases i
  {
    assert i > 0;
    assert ws[i - 1 + 1] == Next(wfs, ws[i - 1], cs[i - 1]);
    StepOwnership(wfs, ws[i - 1], cs[i - 1], id);
    if id in ws[i - 1].tasks && ws[i].tasks[id].migration == ws[i - 1].tasks[id].migration {
      RecordsAreOk(wfs, ws, cs, id, i - 1);
    }
  }

  /** While the destination owns the workspace, no record of the hand-off that brought it there can be
      written any more. If the hand-off was not accepted before, the task therefore does not count as
      provisioned until a migration out of the destination is recorded. */
  lemma {:induction false} NoLateAcceptance(wfs: WorkflowTable, ws: seq<World>, cs: seq<Command>, id: Id,
                                            i: nat, k: nat, owner: string)
    requires ValidTable(wfs) && IsRun(wfs, ws, cs) && i <= k < |ws| && id in ws[i].tasks
    requires ws[i].tasks[id].migration.Some? && ws[i].tasks[id].migration.value.workspace != "accepted"
    requires forall l: nat :: i <= l < k ==> id in ws[l].tasks && ws[l].tasks[id].provisionedBy == Some(owner)
    requires forall l :: i <= l < k && cs[l].RecordMigration? && cs[l].id == id ==> cs[l].facts.source != owner
    ensures id in ws[k].tasks && ws[k].tasks[id].migration == ws[i].tasks[id].migration
    ensures !Ownership.Provisioned(ws[k].tasks[id])
    decreases k
  {
    if k <= i {
    } else {
      NoLateAcceptance(wfs, ws, cs, id, i, k - 1, owner);
      assert ws[k - 1 + 1] == Next(wfs, ws[k - 1], cs[k - 1]);
      StepOwnership(wfs, ws[k - 1], cs[k - 1], id);
    }
  }

  /** In every run an installed hand-off can still be accepted exactly while the recorded workspace
      belongs to its source: the destination's own provisioning closes the door. */
  lemma AcceptanceNeedsTheSource(wfs: WorkflowTable, ws: seq<World>, cs: seq<Command>, id: Id, i: nat)
    requires ValidTable(wfs) && IsRun(wfs, ws, cs) && i < |cs| && id in ws[i].tasks
    requires cs[i].RecordMigration? && cs[i].id == id && ws[i].tasks[id].migration.Some?
    requires Ownership.AcceptsInstalled(ws[i].tasks[id].migration.value, cs[i].facts)
    ensures id in ws[i + 1].tasks && ws[i + 1].tasks[id].migration.Some?
    ensures var m, m' := ws[i].tasks[id].migration.value, ws[i + 1].tasks[id].migration.value;
            if ws[i].tasks[id].provisionedBy == Some(m.source)
            then Step(wfs, ws[i], cs[i]).Ok? && m'.workspace == "accepted"
                 && Ownership.SameHandOff(m', m.source, m.destination, m.method_)
            else Step(wfs, ws[i], cs[i]).Err? && ws[i + 1] == ws[i]
  {
    var w, c := ws[i], cs[i];
    assert ws[i + 1] == Next(wfs, w, c);
    RunsKeepOk(wfs, ws, cs, i);
    assert Known(wfs, w.repos, w.tasks[id]);
    Ownership.InstalledIsAcceptedIff(w.tasks[id], c.facts);
    assert HandOffStep(wfs, w, c) == Ownership.RecordMigration(w.tasks[id], c.facts);
  }

  // ---- claims ---------------------------------------------------------------------------------

  lemma ReleaseEndsClaim(wfs: WorkflowTable, w: World, c: Command)
    requires ValidTable(wfs) && (c.Release? || c.Retry?) && Step(wfs, w, c).Ok?
    ensures c.id in Next(wfs, w, c).tasks && Next(wfs, w, c).tasks[c.id].claimedBy.None?
  {
  }

  lemma RefusedCallKeepsStore(wfs: WorkflowTable, w: World, c: Command)
    requires ValidTable(wfs) && Step(wfs, w, c).Err?
    ensures Next(wfs, w, c) == w
  {
  }

  lemma ReclaimEndsClaim(wfs: WorkflowTable, w: World, c: Command, id: Id)
    requires ValidTable(wfs) && c.Reclaim? && id in w.tasks && w.tasks[id].claimedBy == Some(c.runner)
    ensures id in Next(wfs, w, c).tasks && Step(wfs, w, c).Ok?
    ensures Next(wfs, w, c).tasks[id].claimedBy == if IsTerminal(wfs, w.tasks[id]) then Some(c.runner) else None
  {
    ReclaimReleases(wfs, w, c.runner, id);
  }

  /** A held claim ends with a call exactly when the call succeeds and releases or retries the task, or
      reclaims its runner while the task is unfinished. No other runner's claim takes its place. */
  lemma ClaimEndsIff(wfs: WorkflowTable, w: World, c: Command, id: Id, runner: string)
    requires ValidTable(wfs) && id in w.tasks && w.tasks[id].claimedBy == Some(runner)
    ensures id in Next(wfs, w, c).tasks
    ensures var holder := Next(wfs, w, c).tasks[id].claimedBy;
            && (holder == Some(runner) || holder.None?)
            && (holder.None? <==> && Step(wfs, w, c).Ok? && Releases(c, id, Some(runner))
                                  && (c.Reclaim? ==> !IsTerminal(wfs, w.tasks[id])))
  {
    StepOwnership(wfs, w, c, id);
    if Step(wfs, w, c).Err? {
      RefusedCallKeepsStore(wfs, w, c);
    } else if c.Reclaim? && c.runner == runner {
      ReclaimEndsClaim(wfs, w, c, id);
    } else if (c.Release? || c.Retry?) && c.id == id {
      ReleaseEndsClaim(wfs, w, c);
    }
  }

  /** In every run, a runner that held a task and no longer does lost it to such a call, at a moment
      when it still held it. */
  lemma {:induction false} LostClaimWasReleased(wfs: WorkflowTable, ws: seq<World>, cs: seq<Command>, id: Id,
                                                i: nat, k: nat, runner: string) returns (j: nat)
    requires ValidTable(wfs) && IsRun(wfs, ws, cs) && i <= k < |ws|
    requires ClaimedAt(ws, id, i, runner) && !ClaimedAt(ws, id, k, runner)
    ensures i <= j < k && Step(wfs, ws[j], cs[j]).Ok? && Releases(cs[j], id, Some(runner))
    ensures forall l: nat :: i <= l <= j ==> ClaimedAt(ws, id, l, runner)
    ensures id in ws[j + 1].tasks && ws[j + 1].tasks[id].claimedBy.None?
    decreases k - i
  {
    assert ws[i + 1] == Next(wfs, ws[i], cs[i]);
    ClaimEndsIff(wfs, ws[i], cs[i], id, runner);
    if ClaimedAt(ws, id, i + 1, runner) {
      j := LostClaimWasReleased(wfs, ws, cs, id, i + 1, k, runner);
    } else {
      j := i;
    }
  }

  /** A claim is granted for a task nobody holds, whose launch and repository are open, and whose
      dependencies all ended with their work done; and it is not taken away by another runner. */
  lemma ClaimsAreOfReadyTasks(wfs: WorkflowTable, ws: seq<World>, cs: seq<Command>, id: Id, i: nat, runner: string)
    requires ValidTable(wfs) && IsRun(wfs, ws, cs) && i < |cs|
    requires ClaimedAt(ws, id, i + 1, runner) && !ClaimedAt(ws, id, i, runner)
    ensures cs[i] == Command.Claim(id, runner) && id in ws[i].tasks
    ensures var w, t := ws[i], ws[i].tasks[id];
            && t.claimedBy.None? && !t.launchPaused && t.repo in w.repos && !w.repos[t.repo] && !IsTerminal(wfs, t)
            && forall k :: 0 <= k < |t.dependsOn| ==>
                 var d := t.dependsOn[k];
                 d in w.tasks && IsTerminal(wfs, w.tasks[d]) && w.tasks[d].state != DROPPED
  {
    var w, c := ws[i], cs[i];
    assert ws[i + 1] == Next(wfs, w, c);
    StepOwnership(wfs, w, c, id);
    assert id in w.tasks && c.Claim? && c.id == id && Step(wfs, w, c).Ok?;
    assert HandOffStep(wfs, w, c).Ok?;
    var t := w.tasks[id];
    assert !Readiness.BlockedInSnapshot(wfs, t, w.tasks);
    forall k | 0 <= k < |t.dependsOn|
      ensures var d := t.dependsOn[k];
              d in w.tasks && IsTerminal(wfs, w.tasks[d]) && w.tasks[d].state != DROPPED
    {
      assert !Readiness.BlocksAt(wfs, t, w.tasks, k);
    }
  }
}
