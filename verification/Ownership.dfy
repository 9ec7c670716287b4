/** Claims, provisioning and host migration of one task, as the task service guards them
    (`claim`, `record_provisioning` and `record_migration` in
    src/panopticon/taskservice/service.py). */
module Ownership {
  import opened Models

  datatype Error =
    | AlreadyClaimed | LaunchPaused | NoMigrationRecord | SourceNotOwner | WrongDestination
    | WorkspaceNotInstalled | NotReady
    | SlugNotSet | NotClaimHolder | DestinationNotAccepted | BranchMismatch
    | NoWorkspaceOwner | SameHost | BadDisposition | BadMethod | BadHistoryDisposition
    | NoMatchingPending | DiscardNotAuthorized
    | LaunchNotSettled | NotRetryable

  const INSTALLED_OR_ACCEPTED: set<string> := {"installed", "accepted"}

  /** The migration guard of a claim: an unclaimed task whose workspace lives on another host may only
      be claimed by the destination of an installed or accepted migration out of that host. */
  function CrossHostError(t: Task, runner: string): Option<Error> {
    if t.claimedBy.None? && t.provisionedBy.Some? && t.provisionedBy.value != runner then
      match t.migration
      case None => Some(NoMigrationRecord)
      case Some(m) =>
        if m.source != t.provisionedBy.value then Some(SourceNotOwner)
        else if m.destination != runner then Some(WrongDestination)
        else if m.workspace !in INSTALLED_OR_ACCEPTED then Some(WorkspaceNotInstalled)
        else None
    else None
  }

  /** Compare-and-set. `blocked` says whether the task is terminal or held by dependencies. */
  function Claim(t: Task, runner: string, repoPaused: bool, blocked: bool): Result<Task, Error> {
    if t.claimedBy.Some? && t.claimedBy.value != runner then Err(AlreadyClaimed)
    else if t.launchPaused || (t.claimedBy.None? && repoPaused) then Err(LaunchPaused)
    else if CrossHostError(t, runner).Some? then Err(CrossHostError(t, runner).value)
    else if t.claimedBy.None? && blocked then Err(NotReady)
    else Ok(t.(claimedBy := Some(runner)))
  }

  function RecordProvisioning(t: Task, branch: string, clone: string, runner: string, verified: bool)
    : Result<Task, Error>
  {
    if t.slug.None? then Err(SlugNotSet)
    else if t.claimedBy != Some(runner) then Err(NotClaimHolder)
    else if t.migration.Some? && t.migration.value.destination == runner
            && t.migration.value.workspace !in INSTALLED_OR_ACCEPTED then Err(DestinationNotAccepted)
    else if branch != "panopticon/" + t.slug.value && t.branch != Some(branch) then Err(BranchMismatch)
    else Ok(t.(branch := Some(branch), clone := Some(clone), provisionedBy := Some(runner),
               workspaceVerifiedBy := if verified then Some(runner) else None))
  }

  /** The facts an operator reports for a migration. */
  datatype MigrationFacts = MigrationFacts(
    source: string, destination: string, workspace: string, method_: string, sessionHistory: string,
    discarded: seq<string>, discardAuthorizedBy: Option<string>)

  predicate SameHandOff(m: MigrationRecord, source: string, destination: string, method_: string) {
    m.source == source && m.destination == destination && m.method_ == method_
  }

  /** Whether the previous record lets this one claim that the workspace has arrived. */
  predicate FollowsPending(previous: Option<MigrationRecord>, f: MigrationFacts) {
    && previous.Some? && SameHandOff(previous.value, f.source, f.destination, f.method_)
    && previous.value.workspace in (if f.workspace == "installed" then {"pending"} else {"pending", "installed"})
  }

  predicate HistoryWasRequested(previous: Option<MigrationRecord>) {
    previous.Some? && (previous.value.sessionHistory == "requested" || previous.value.sessionHistoryWasRequested)
  }

  function RecordMigration(t: Task, f: MigrationFacts): Result<Task, Error> {
    if t.provisionedBy.None? then Err(NoWorkspaceOwner)
    else if t.provisionedBy != Some(f.source) then Err(SourceNotOwner)
    else if f.destination == f.source then Err(SameHost)
    else if f.workspace !in {"pending", "installed", "accepted", "failed"} then Err(BadDisposition)
    else if f.method_ !in {"archive", "forge-first"} then Err(BadMethod)
    else if f.sessionHistory !in {"requested", "accepted", "omitted", "failed"} then Err(BadHistoryDisposition)
    else if f.workspace in INSTALLED_OR_ACCEPTED && !FollowsPending(t.migration, f) then Err(NoMatchingPending)
    else if f.discarded != [] && f.discardAuthorizedBy != Some("user") then Err(DiscardNotAuthorized)
    else
      var requested := HistoryWasRequested(t.migration);
      Ok(t.(migration := Some(MigrationRecord(
        f.source, f.destination, f.workspace, f.method_, f.sessionHistory, f.discarded, f.discardAuthorizedBy,
        if requested && f.sessionHistory == "omitted" then Some("user") else None,
        requested || f.sessionHistory == "requested"))))
  }

  /** A report that the installed workspace of this very hand-off was accepted, on terms that pass the
      other guards. */
  predicate AcceptsInstalled(m: MigrationRecord, f: MigrationFacts) {
    && m.workspace == "installed" && f.workspace == "accepted" && SameHandOff(m, f.source, f.destination, f.method_)
    && f.destination != f.source && f.method_ in {"archive", "forge-first"}
    && f.sessionHistory in {"requested", "accepted", "omitted", "failed"}
    && (f.discarded != [] ==> f.discardAuthorizedBy == Some("user"))
  }

  /** Such a report is taken exactly while the source still owns the recorded workspace. */
  lemma InstalledIsAcceptedIff(t: Task, f: MigrationFacts)
    requires t.migration.Some? && AcceptsInstalled(t.migration.value, f)
    ensures RecordMigration(t, f).Ok? <==> t.provisionedBy == Some(t.migration.value.source)
  {
  }

  /** The `provisioned` property. */
  predicate Provisioned(t: Task) {
    && (t.migration.Some? ==> t.migration.value.workspace == "accepted")
    && Truthy(t.branch) && Truthy(t.clone) && Truthy(t.claimedBy)
    && t.claimedBy == t.provisionedBy == t.workspaceVerifiedBy
  }

  /** Recording a workspace makes the task provisioned exactly when the runner verified it and no
      migration is left unaccepted. */
  lemma RecordedIsProvisioned(t: Task, branch: string, clone: string, runner: string, verified: bool)
    requires RecordProvisioning(t, branch, clone, runner, verified).Ok?
    ensures Provisioned(RecordProvisioning(t, branch, clone, runner, verified).value) <==>
            && verified && branch != "" && clone != "" && runner != ""
            && (t.migration.None? || t.migration.value.workspace == "accepted")
  {
  }
}
