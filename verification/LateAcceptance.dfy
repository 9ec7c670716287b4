/** A run in which a hand-off follows the order of `accept_migration` up to the last record, and that
    record is refused (src/panopticon/taskservice/service.py): the destination has provisioned the
    workspace, so the source no longer owns it and the record stays installed. */
module LateAcceptance {
  import opened Models
  import opened Workflows
  import opened ServiceSpec
  import opened ServiceRuns
  import Lifecycle
  import Ownership
  import Readiness

  /** A store with one task in one open repository. */
  function Only(repo: Id, id: Id, t: Task): World {
    World(map[id := t], map[repo := false])
  }

  /** A call that records one fact about the only task. */
  lemma OnlyRecord(wfs: WorkflowTable, repo: Id, id: Id, t: Task, c: Command, t': Task)
    requires ValidTable(wfs) && Known(wfs, map[repo := false], t)
    requires c.SetSlug? && c.id == id && t' == t.(slug := Some(c.slug))
    ensures Next(wfs, Only(repo, id, t), c) == Only(repo, id, t')
  {
    var w := Only(repo, id, t);
    assert RecordStep(w, c) == Ok(t');
    assert w.tasks[id := t'] == map[id := t'];
  }

  /** A call of the hand-off protocol on the only task. */
  lemma OnlyHandOff(wfs: WorkflowTable, repo: Id, id: Id, t: Task, c: Command, t': Task)
    requires ValidTable(wfs) && Known(wfs, map[repo := false], t)
    requires OnOneTask(c) && !Moves(c) && !Records(c) && c.id == id
    requires HandOffStep(wfs, Only(repo, id, t), c) == Ok(t')
    ensures Next(wfs, Only(repo, id, t), c) == Only(repo, id, t')
  {
    var w := Only(repo, id, t);
    assert w.tasks[id := t'] == map[id := t'];
  }

  /** An unclaimed, unfinished task without dependencies can be claimed where its workspace allows it. */
  lemma OnlyClaim(wfs: WorkflowTable, repo: Id, id: Id, t: Task, runner: string)
    requires ValidTable(wfs) && Known(wfs, map[repo := false], t) && !IsTerminal(wfs, t)
    requires t.repo == repo && t.claimedBy.None? && !t.launchPaused && t.dependsOn == []
    requires Ownership.CrossHostError(t, runner).None?
    ensures Next(wfs, Only(repo, id, t), Command.Claim(id, runner)) == Only(repo, id, t.(claimedBy := Some(runner)))
  {
    var w := Only(repo, id, t);
    assert !Held(wfs, w.tasks, t);
    OnlyHandOff(wfs, repo, id, t, Command.Claim(id, runner), t.(claimedBy := Some(runner)));
  }

  /** The facts of one hand-off, with the workspace as reported. */
  function Facts(source: string, destination: string, workspace: string): Ownership.MigrationFacts {
    Ownership.MigrationFacts(source, destination, workspace, "archive", "omitted", [], None)
  }

  function Record(source: string, destination: string, workspace: string): MigrationRecord {
    MigrationRecord(source, destination, workspace, "archive", "omitted", [], None, None, false)
  }

  const BRANCH := "panopticon/slug"

  /** The task as a runner has provisioned it. */
  function ProvisionedBy(t: Task, runner: string): Task {
    t.(branch := Some(BRANCH), clone := Some("clone"), provisionedBy := Some(runner),
       workspaceVerifiedBy := Some(runner))
  }

  /** The task after each call of the run. */
  function Stages(t: Task, s: string, d: string): seq<Task> {
    var named := t.(slug := Some("slug"));
    var claimed := named.(claimedBy := Some(s));
    var owned := ProvisionedBy(claimed, s);
    var pending := owned.(migration := Some(Record(s, d, "pending")));
    var installed := owned.(migration := Some(Record(s, d, "installed")));
    var released := installed.(claimedBy := None);
    var taken := released.(claimedBy := Some(d));
    [t, named, claimed, owned, pending, installed, released, taken, ProvisionedBy(taken, d), ProvisionedBy(taken, d)]
  }

  function Calls(id: Id, s: string, d: string): seq<Command> {
    [Command.SetSlug(id, "slug"),
     Command.Claim(id, s),
     Command.RecordProvisioning(id, BRANCH, "clone", s, true),
     Command.RecordMigration(id, Facts(s, d, "pending")),
     Command.RecordMigration(id, Facts(s, d, "installed")),
     Command.Release(id),
     Command.Claim(id, d),
     Command.RecordProvisioning(id, BRANCH, "clone", d, true),
     Command.RecordMigration(id, Facts(s, d, "accepted"))]
  }

  lemma CreatesOnly(wfs: WorkflowTable, repo: Id, workflow: string, id: Id, now: string)
    requires ValidTable(wfs) && workflow in wfs && workflow != "review"
    ensures var t := Lifecycle.StartTask(wfs[workflow], repo, workflow, now);
            && Next(wfs, World(map[], map[repo := false]), Command.CreateTask(id, repo, workflow, None, [], now))
               == Only(repo, id, t)
            && Known(wfs, map[repo := false], t) && !IsTerminal(wfs, t)
  {
    var w := World(map[], map[repo := false]);
    var t := Lifecycle.StartTask(wfs[workflow], repo, workflow, now);
    assert wfs[workflow].Valid();
    assert t.(governor := None, dependsOn := [], launchPaused := w.repos[repo]) == t;
    assert w.tasks[id := t] == map[id := t];
  }

  /** A task of the repository as it was created: unfinished, and nothing recorded. */
  ghost predicate Fresh(wfs: WorkflowTable, repo: Id, t: Task)
    requires ValidTable(wfs)
  {
    && Known(wfs, map[repo := false], t) && !IsTerminal(wfs, t) && t.repo == repo && t.dependsOn == []
    && t.claimedBy.None? && t.provisionedBy.None? && t.migration.None? && !t.launchPaused && t.slug.None?
  }

  /** The only task follows call `k` from its stage to the next one. */
  ghost predicate Follows(wfs: WorkflowTable, repo: Id, id: Id, t: Task, s: string, d: string, k: nat)
    requires ValidTable(wfs) && k < 9
  {
    Next(wfs, Only(repo, id, Stages(t, s, d)[k]), Calls(id, s, d)[k]) == Only(repo, id, Stages(t, s, d)[k + 1])
  }

  lemma SourceProvisions(wfs: WorkflowTable, repo: Id, id: Id, t: Task, s: string, d: string)
    requires ValidTable(wfs) && Fresh(wfs, repo, t)
    ensures Follows(wfs, repo, id, t, s, d, 0) && Follows(wfs, repo, id, t, s, d, 1)
            && Follows(wfs, repo, id, t, s, d, 2)
  {
    var stages, calls := Stages(t, s, d), Calls(id, s, d);
    OnlyRecord(wfs, repo, id, stages[0], calls[0], stages[1]);
    OnlyClaim(wfs, repo, id, stages[1], s);
    BranchIsOfSlug(stages[2]);
    OnlyHandOff(wfs, repo, id, stages[2], calls[2], stages[3]);
  }

  lemma BranchIsOfSlug(t: Task)
    requires t.slug == Some("slug")
    ensures BRANCH == "panopticon/" + t.slug.value
  {
  }

  lemma HandOffIsInstalled(wfs: WorkflowTable, repo: Id, id: Id, t: Task, s: string, d: string)
    requires ValidTable(wfs) && Fresh(wfs, repo, t) && s != d
    ensures Follows(wfs, repo, id, t, s, d, 3) && Follows(wfs, repo, id, t, s, d, 4)
  {
    var stages, calls := Stages(t, s, d), Calls(id, s, d);
    OnlyHandOff(wfs, repo, id, stages[3], calls[3], stages[4]);
    OnlyHandOff(wfs, repo, id, stages[4], calls[4], stages[5]);
  }

  lemma DestinationProvisions(wfs: WorkflowTable, repo: Id, id: Id, t: Task, s: string, d: string)
    requires ValidTable(wfs) && Fresh(wfs, repo, t) && s != d
    ensures Follows(wfs, repo, id, t, s, d, 5) && Follows(wfs, repo, id, t, s, d, 6)
            && Follows(wfs, repo, id, t, s, d, 7)
  {
    var stages, calls := Stages(t, s, d), Calls(id, s, d);
    OnlyHandOff(wfs, repo, id, stages[5], calls[5], stages[6]);
    OnlyClaim(wfs, repo, id, stages[6], d);
    BranchIsOfSlug(stages[7]);
    OnlyHandOff(wfs, repo, id, stages[7], calls[7], stages[8]);
  }

  /** The last record: the source is no longer the owner. */
  lemma AcceptanceIsRefused(wfs: WorkflowTable, repo: Id, id: Id, t: Task, s: string, d: string)
    requires ValidTable(wfs) && Fresh(wfs, repo, t) && s != d
    ensures Follows(wfs, repo, id, t, s, d, 8)
    ensures Step(wfs, Only(repo, id, Stages(t, s, d)[8]), Calls(id, s, d)[8])
            == Err(InOwnership(Ownership.SourceNotOwner))
  {
    var w, c := Only(repo, id, Stages(t, s, d)[8]), Calls(id, s, d)[8];
    assert HandOffStep(wfs, w, c) == Err(Ownership.SourceNotOwner);
  }

  /** In every workflow table and between any two runners there is such a run: at its end the
      destination holds the claim, owns and has verified the workspace, the record still says
      installed, its acceptance has just been refused, and the task does not count as provisioned. */
  lemma LateAcceptanceIsRefused(wfs: WorkflowTable, repo: Id, workflow: string, id: Id, now: string,
                                s: string, d: string)
    returns (ws: seq<World>, cs: seq<Command>)
    requires ValidTable(wfs) && workflow in wfs && workflow != "review" && s != d
    ensures IsRun(wfs, ws, cs) && |cs| == 10 && id in ws[9].tasks && ws[9].tasks[id].migration.Some?
    ensures cs[9].RecordMigration? && cs[9].id == id
            && Ownership.AcceptsInstalled(ws[9].tasks[id].migration.value, cs[9].facts)
    ensures Step(wfs, ws[9], cs[9]) == Err(InOwnership(Ownership.SourceNotOwner)) && ws[10] == ws[9]
    ensures var t := ws[9].tasks[id];
            && t.claimedBy == t.provisionedBy == t.workspaceVerifiedBy == Some(d)
            && t.migration.value.source == s && t.migration.value.destination == d
            && !Ownership.Provisioned(t)
  {
    var t := Lifecycle.StartTask(wfs[workflow], repo, workflow, now);
    CreatesOnly(wfs, repo, workflow, id, now);
    ws, cs := RunOf(wfs, repo, workflow, id, now, t, s, d);
    AcceptanceIsRefused(wfs, repo, id, t, s, d);
    EndsUnaccepted(t, id, s, d);
  }

  lemma AnyFollows(wfs: WorkflowTable, repo: Id, id: Id, t: Task, s: string, d: string, k: nat)
    requires ValidTable(wfs) && Fresh(wfs, repo, t) && s != d && k < 9
    ensures Follows(wfs, repo, id, t, s, d, k)
  {
    if k < 3 {
      SourceProvisions(wfs, repo, id, t, s, d);
    } else if k < 5 {
      HandOffIsInstalled(wfs, repo, id, t, s, d);
    } else if k < 8 {
      DestinationProvisions(wfs, repo, id, t, s, d);
    } else {
      AcceptanceIsRefused(wfs, repo, id, t, s, d);
    }
  }

  lemma EndsUnaccepted(t: Task, id: Id, s: string, d: string)
    requires s != d
    ensures var last, f := Stages(t, s, d)[8], Facts(s, d, "accepted");
            && last.claimedBy == last.provisionedBy == last.workspaceVerifiedBy == Some(d)
            && last.migration == Some(Record(s, d, "installed"))
            && Ownership.AcceptsInstalled(Record(s, d, "installed"), f)
            && Calls(id, s, d)[8] == Command.RecordMigration(id, f) && !Ownership.Provisioned(last)
            && Stages(t, s, d)[9] == last
  {
  }

  /** The calls in a row. */
  lemma RunOf(wfs: WorkflowTable, repo: Id, workflow: string, id: Id, now: string, t: Task, s: string, d: string)
    returns (ws: seq<World>, cs: seq<Command>)
    requires ValidTable(wfs) && Fresh(wfs, repo, t) && s != d
    requires Next(wfs, World(map[], map[repo := false]), Command.CreateTask(id, repo, workflow, None, [], now))
             == Only(repo, id, t)
    ensures IsRun(wfs, ws, cs) && |cs| == 10
    ensures ws[9] == Only(repo, id, Stages(t, s, d)[8]) && ws[10] == Only(repo, id, Stages(t, s, d)[9])
    ensures cs[9] == Calls(id, s, d)[8]
  {
    var stages, calls := Stages(t, s, d), Calls(id, s, d);
    ws := [World(map[], map[repo := false])] + seq(10, k requires 0 <= k < 10 => Only(repo, id, stages[k]));
    cs := [Command.CreateTask(id, repo, workflow, None, [], now)] + calls;
    forall i | 0 <= i < |cs|
      ensures ws[i + 1] == Next(wfs, ws[i], cs[i])
    {
      if i > 0 {
        AnyFollows(wfs, repo, id, t, s, d, i - 1);
      }
    }
  }
}
