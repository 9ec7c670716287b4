/** The task service as one atomic step per public call. Every call either fails and changes nothing,
    or yields the next stored state. The class in Service.dfy is proved against these steps, and
    ServiceRuns.dfy states what every run of them keeps
    (src/panopticon/taskservice/service.py). */
module ServiceSpec {
  import opened Models
  import opened Workflows
  import Lifecycle
  import Ownership
  import Readiness

  /** What the store holds: the tasks, and for each repository whether launches are paused. */
  datatype World = World(tasks: Tasks, repos: map<Id, bool>)

  datatype Error =
    | NotFound | AlreadyExists | UnknownWorkflow | ReviewNeedsGovernor | NoSuchOperation
    | InLifecycle(lifecycle: Lifecycle.Error)
    | InDependencies(dependencies: Readiness.Error)
    | InOwnership(ownership: Ownership.Error)

  datatype Command =
    | CreateTask(id: Id, repo: Id, workflow: string, governor: Option<Id>, deps: seq<Id>, now: string)
    | SetDependencies(id: Id, deps: seq<Id>)
    | SetGovernor(id: Id, governor: Option<Id>)
    | RequestTransition(id: Id, to: string, trigger: Option<string>, note: Option<string>, now: string)
    | ApplyOperation(id: Id, operation: string, note: Option<string>, now: string)
    | SetState(id: Id, to: string, note: Option<string>, now: string)
    | ResolveResponsibility(id: Id, key: string, status: Status, comment: Option<string>, now: string)
    | RecordWake(id: Id, index: int, wake: WakeStatus)
    | SetSlug(id: Id, slug: string)
    | SetTurn(id: Id, turn: Actor)
    | PauseLaunches(repo: Id, repoPaused: bool, ids: set<Id>)
    | Claim(id: Id, runner: string)
    | Release(id: Id)
    | Reclaim(runner: string)
    | Retry(id: Id, live: bool, launchFailed: bool)
    | RecordProvisioning(id: Id, branch: string, clone: string, runner: string, verified: bool)
    | RecordMigration(id: Id, facts: Ownership.MigrationFacts)

  // ---- the cascade of a drop ------------------------------------------------------------------

  /** Closed under "unfinished and governed by a member or by the root". */
  ghost predicate DropClosed(wfs: WorkflowTable, tasks: Tasks, root: Id, s: set<Id>) {
    forall u {:trigger Falls(wfs, tasks, root, s, u)} :: u in tasks && Falls(wfs, tasks, root, s, u) ==> u in s
  }

  ghost predicate Falls(wfs: WorkflowTable, tasks: Tasks, root: Id, s: set<Id>, u: Id)
    requires u in tasks
  {
    && !IsTerminal(wfs, tasks[u])
    && tasks[u].governor.Some? && (tasks[u].governor.value == root || tasks[u].governor.value in s)
  }

  /** The least such set. */
  ghost function DropSet(wfs: WorkflowTable, tasks: Tasks, root: Id): set<Id> {
    set u | u in tasks && forall s: set<Id> :: DropClosed(wfs, tasks, root, s) ==> u in s
  }

  /** One governed task, dropped. */
  function DropTask(wfs: WorkflowTable, t: Task, note: Option<string>, now: string): Task {
    if t.workflow in wfs && DROPPED in wfs[t.workflow].states then
      Lifecycle.Enter(wfs[t.workflow], t, DROPPED, now, Some(Lifecycle.CASCADE_DROP), note)
    else t
  }

  ghost function Cascade(wfs: WorkflowTable, tasks: Tasks, root: Id, note: Option<string>, now: string): Tasks {
    map u | u in tasks ::
      if u in DropSet(wfs, tasks, root) then DropTask(wfs, tasks[u], note, now) else tasks[u]
  }

  /** Save a moved task and cascade when it landed in DROPPED. */
  ghost function SaveMoved(wfs: WorkflowTable, w: World, id: Id, t: Task, note: Option<string>, now: string): World {
    var tasks := w.tasks[id := t];
    w.(tasks := if t.state == DROPPED then Cascade(wfs, tasks, id, note, now) else tasks)
  }

  // ---- steps ----------------------------------------------------------------------------------

  ghost function Move(wfs: WorkflowTable, w: World, id: Id, moved: Result<Task, Lifecycle.Error>,
                      note: Option<string>, now: string): Result<World, Error>
  {
    match moved
    case Err(e) => Err(InLifecycle(e))
    case Ok(t) => Ok(SaveMoved(wfs, w, id, t, note, now))
  }

  ghost function OnTask(w: World, id: Id, r: Result<Task, Error>): Result<World, Error> {
    match r
    case Err(e) => Err(e)
    case Ok(t) => Ok(w.(tasks := w.tasks[id := t]))
  }

  function OwnershipResult(r: Result<Task, Ownership.Error>): Result<Task, Error> {
    match r
    case Err(e) => Err(InOwnership(e))
    case Ok(t) => Ok(t)
  }

  predicate ReleasedBy(wfs: WorkflowTable, t: Task, runner: string) {
    t.claimedBy == Some(runner) && !IsTerminal(wfs, t)
  }

  ghost function CreateStep(wfs: WorkflowTable, w: World, c: Command): Result<World, Error>
    requires c.CreateTask? && ValidTable(wfs)
  {
    if c.repo !in w.repos then Err(NotFound)
    else if c.workflow == "review" && c.governor.None? then Err(ReviewNeedsGovernor)
    else if c.governor.Some? && c.governor.value !in w.tasks then Err(NotFound)
    else if c.workflow !in wfs then Err(UnknownWorkflow)
    else if c.deps != [] && !Readiness.WriteAllowed(w.tasks, c.id, c.deps) then
      Err(InDependencies(Readiness.WriteError(w.tasks, c.deps)))
    else if c.id in w.tasks then Err(AlreadyExists)
    else
      var t := Lifecycle.StartTask(wfs[c.workflow], c.repo, c.workflow, c.now).(
        governor := c.governor, dependsOn := c.deps, launchPaused := w.repos[c.repo]);
      Ok(w.(tasks := w.tasks[c.id := t]))
  }

  predicate Moves(c: Command) {
    c.RequestTransition? || c.ApplyOperation? || c.SetState? || c.ResolveResponsibility?
  }

  predicate OnOneTask(c: Command) {
    !c.CreateTask? && !c.PauseLaunches? && !c.Reclaim?
  }

  /** Calls that may move the task through its workflow. */
  ghost function MoveStep(wfs: WorkflowTable, w: World, c: Command): Result<World, Error>
    requires ValidTable(wfs) && Moves(c) && c.id in w.tasks && Known(wfs, w.repos, w.tasks[c.id])
  {
    var t := w.tasks[c.id];
    var g := wfs[t.workflow];
    match c
    case RequestTransition(id, to, trigger, note, now) =>
      Move(wfs, w, id, Lifecycle.ApplyTransition(g, t, to, now, trigger, note), note, now)
    case ApplyOperation(id, operation, note, now) =>
      if t.state !in g.operations || operation !in g.operations[t.state] then Err(NoSuchOperation)
      else
        var to := g.operations[t.state][operation];
        Move(wfs, w, id, Lifecycle.ApplyTransition(g, t, to, now, Some(operation), note), note, now)
    case SetState(id, to, note, now) =>
      Move(wfs, w, id, Lifecycle.ForceTransition(g, t, to, now, note), note, now)
    case ResolveResponsibility(id, key, status, comment, now) =>
      match Lifecycle.ResolveAndAdvance(g, t, key, status, comment, now)
      case Err(e) => Err(InLifecycle(e))
      case Ok(t') =>
        Ok(if |t'.history| > |t.history| then SaveMoved(wfs, w, id, t', None, now)
           else w.(tasks := w.tasks[id := t']))
  }

  /** Calls that record a fact about one task. */
  ghost function RecordStep(w: World, c: Command): Result<Task, Error>
    requires Records(c) && c.id in w.tasks
  {
    var t := w.tasks[c.id];
    match c
    case SetDependencies(id, deps) =>
      if !Readiness.WriteAllowed(w.tasks, id, deps) then Err(InDependencies(Readiness.WriteError(w.tasks, deps)))
      else Ok(t.(dependsOn := deps))
    case SetGovernor(_, governor) =>
      if governor.Some? && governor.value !in w.tasks then Err(NotFound) else Ok(t.(governor := governor))
    case RecordWake(_, index, wake) =>
      (match Lifecycle.RecordWake(t, index, wake)
       case Err(e) => Err(InLifecycle(e))
       case Ok(t') => Ok(t'))
    case SetSlug(_, slug) => Ok(t.(slug := Some(slug)))
    case SetTurn(_, turn) =>
      Ok(if turn.Agent? then t.(turn := turn, blocked := false, attention := false) else t.(turn := turn))
  }

  predicate Records(c: Command) {
    c.SetDependencies? || c.SetGovernor? || c.RecordWake? || c.SetSlug? || c.SetTurn?
  }

  /** Whether a task may not be claimed now: it is finished or its dependencies hold it. */
  predicate Held(wfs: WorkflowTable, tasks: Tasks, t: Task) {
    IsTerminal(wfs, t) || Readiness.BlockedInSnapshot(wfs, t, tasks)
  }

  function Retried(t: Task, repoPaused: bool, terminal: bool, live: bool, launchFailed: bool)
    : Result<Task, Ownership.Error> {
    if repoPaused then Err(Ownership.LaunchPaused)
    else if terminal || live then Err(Ownership.NotRetryable)
    else if Truthy(t.claimedBy) && !t.launchPaused && !launchFailed then Err(Ownership.LaunchNotSettled)
    else Ok(t.(launchPaused := false, claimedBy := None))
  }

  /** Calls about claims, workspaces and migrations of one task. */
  function HandOffStep(wfs: WorkflowTable, w: World, c: Command): Result<Task, Ownership.Error>
    requires OnOneTask(c) && !Moves(c) && !Records(c)
    requires c.id in w.tasks && Known(wfs, w.repos, w.tasks[c.id])
  {
    var t := w.tasks[c.id];
    match c
    case Claim(_, runner) => Ownership.Claim(t, runner, w.repos[t.repo], Held(wfs, w.tasks, t))
    case Release(_) => Ok(t.(claimedBy := None))
    case Retry(_, live, launchFailed) => Retried(t, w.repos[t.repo], IsTerminal(wfs, t), live, launchFailed)
    case RecordProvisioning(_, branch, clone, runner, verified) =>
      Ownership.RecordProvisioning(t, branch, clone, runner, verified)
    case RecordMigration(_, facts) => Ownership.RecordMigration(t, facts)
  }

  /** The repository gate and the selected task holds, in one store transaction. */
  function PauseStep(w: World, repo: Id, paused: bool, ids: set<Id>): Result<World, Error> {
    if repo !in w.repos then Err(NotFound)
    else Ok(World(map u | u in w.tasks ::
                    if u in ids && w.tasks[u].repo == repo then w.tasks[u].(launchPaused := true) else w.tasks[u],
                  w.repos[repo := paused]))
  }

  /** Release every unfinished task of a runner. */
  function ReclaimStep(wfs: WorkflowTable, w: World, runner: string): World {
    w.(tasks := map u | u in w.tasks ::
         if ReleasedBy(wfs, w.tasks[u], runner) then w.tasks[u].(claimedBy := None) else w.tasks[u])
  }

  /** Runs never store a task that is not `Known` (ServiceRuns.dfy); the step is defined to refuse one
      so that it is total. */
  ghost function Step(wfs: WorkflowTable, w: World, c: Command): Result<World, Error>
    requires ValidTable(wfs)
  {
    if c.CreateTask? then CreateStep(wfs, w, c)
    else if c.RecordWake? && c.wake.WakePending? then Err(InLifecycle(Lifecycle.WakeCannotBePending))
    else if c.PauseLaunches? then PauseStep(w, c.repo, c.repoPaused, c.ids)
    else if c.Reclaim? then Ok(ReclaimStep(wfs, w, c.runner))
    else if c.id !in w.tasks then Err(NotFound)
    else if !Known(wfs, w.repos, w.tasks[c.id]) then Err(UnknownWorkflow)
    else if Moves(c) then MoveStep(wfs, w, c)
    else if Records(c) then OnTask(w, c.id, RecordStep(w, c))
    else OnTask(w, c.id, OwnershipResult(HandOffStep(wfs, w, c)))
  }

  /** The task has a repository, a loaded workflow, a state of that workflow, and a log. */
  predicate Known(wfs: WorkflowTable, repos: map<Id, bool>, t: Task) {
    t.repo in repos && t.workflow in wfs && t.state in wfs[t.workflow].states && t.history != []
  }

  ghost predicate AllKnown(wfs: WorkflowTable, w: World) {
    forall u {:trigger Known(wfs, w.repos, w.tasks[u])} :: u in w.tasks ==> Known(wfs, w.repos, w.tasks[u])
  }

  /** A failed call leaves the store as it was. */
  ghost function Next(wfs: WorkflowTable, w: World, c: Command): World
    requires ValidTable(wfs)
  {
    match Step(wfs, w, c)
    case Ok(w') => w'
    case Err(_) => w
  }
}
