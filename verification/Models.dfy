/** The vocabulary of the control plane: plain records with no behaviour of their own
    (src/panopticon/core/models.py). */
module Models {

  type Id = string

  datatype Option<+T> = None | Some(value: T)

  datatype Result<+T, +E> = Ok(value: T) | Err(error: E)

  /** The two parties that hold a turn or move a task out of a state. */
  datatype Actor = User | Agent

  datatype Status = Pending | Met | Failed

  datatype WakeStatus = WakePending | Delivered | Skipped

  /** One promise an agent makes on entering a state. */
  datatype Responsibility = Responsibility(
    key: string, description: string, status: Status, comment: Option<string>)

  /** One entry of a task's log, written when the task enters `toState`. */
  datatype HistoryEntry = HistoryEntry(
    at: string,
    fromState: Option<string>,
    toState: string,
    trigger: Option<string>,
    note: Option<string>,
    responsibilities: seq<Responsibility>,
    wakeStatus: WakeStatus)

  /** The operator's record of a host hand-off. Dispositions and methods stay strings: the service
      checks them against fixed sets and refuses the rest. */
  datatype MigrationRecord = MigrationRecord(
    source: string,
    destination: string,
    workspace: string,
    method_: string,
    sessionHistory: string,
    discarded: seq<string>,
    discardAuthorizedBy: Option<string>,
    sessionHistoryChangedBy: Option<string>,
    sessionHistoryWasRequested: bool)

  /** A task as the store holds it. Fields that no modelled operation reads or writes are absent. */
  datatype Task = Task(
    repo: Id,
    workflow: string,
    state: string,
    turn: Actor,
    blocked: bool,
    attention: bool,
    slug: Option<string>,
    branch: Option<string>,
    clone: Option<string>,
    provisionedBy: Option<string>,
    workspaceVerifiedBy: Option<string>,
    migration: Option<MigrationRecord>,
    claimedBy: Option<string>,
    governor: Option<Id>,
    dependsOn: seq<Id>,
    history: seq<HistoryEntry>,
    launchPaused: bool)

  type Tasks = map<Id, Task>

  const COMPLETE := "COMPLETE"
  const DROPPED := "DROPPED"
  const TERMINAL_LABELS: set<string> := {COMPLETE, DROPPED}

  /** Python truthiness of an optional string. */
  predicate Truthy(s: Option<string>) {
    s.Some? && s.value != ""
  }

  ghost predicate Distinct<T>(s: seq<T>) {
    forall i, j :: 0 <= i < j < |s| ==> s[i] != s[j]
  }
}
