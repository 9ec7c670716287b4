/** The store's integrity checks and the row update behind `save_task`: a differential write that must
    come to the same thing as overwriting the task (src/panopticon/core/store.py and
    src/panopticon/taskservice/store_sqlalchemy.py, over rows in memory). */
module Store {
  import opened Models

  datatype Error =
    | EmptyHistory | StateMismatch | HistoryShrank | HistoryModified | SettledWakeModified
    | FinalizedPromisesModified | PromiseSetChanged

  // ---- rows -----------------------------------------------------------------------------------

  /** Enumerations are stored as their text. */
  function StatusText(s: Status): string {
    match s
    case Pending => "pending"
    case Met => "met"
    case Failed => "failed"
  }

  function WakeText(w: WakeStatus): string {
    match w
    case WakePending => "pending"
    case Delivered => "delivered"
    case Skipped => "skipped"
  }

  predicate IsStatusText(s: string) {
    s == "pending" || s == "met" || s == "failed"
  }

  predicate IsWakeText(s: string) {
    s == "pending" || s == "delivered" || s == "skipped"
  }

  function ParseStatus(s: string): (r: Status)
    requires IsStatusText(s)
    ensures StatusText(r) == s
  {
    if s == "pending" then Pending else if s == "met" then Met else Failed
  }

  function ParseWake(s: string): (r: WakeStatus)
    requires IsWakeText(s)
    ensures WakeText(r) == s
  {
    if s == "pending" then WakePending else if s == "delivered" then Delivered else Skipped
  }

  datatype ResponsibilityRow = ResponsibilityRow(
    idx: nat, key: string, description: string, status: string, comment: Option<string>)
  {
    predicate Valid() { IsStatusText(status) }

    function ToDomain(): Responsibility
      requires Valid()
    {
      Responsibility(key, description, ParseStatus(status), comment)
    }

    static function FromDomain(r: Responsibility, idx: nat): (row: ResponsibilityRow)
      ensures row.Valid() && row.ToDomain() == r
    {
      ResponsibilityRow(idx, r.key, r.description, StatusText(r.status), r.comment)
    }
  }

  datatype HistoryRow = HistoryRow(
    position: nat, at: string, fromState: Option<string>, toState: string, trigger: Option<string>,
    note: Option<string>, wakeStatus: string, responsibilities: seq<ResponsibilityRow>)
  {
    predicate Valid() {
      IsWakeText(wakeStatus) && forall i :: 0 <= i < |responsibilities| ==> responsibilities[i].Valid()
    }

    function ToDomain(): HistoryEntry
      requires Valid()
    {
      HistoryEntry(at, fromState, toState, trigger, note,
                   seq(|responsibilities|, i requires 0 <= i < |responsibilities| => responsibilities[i].ToDomain()),
                   ParseWake(wakeStatus))
    }

    static function FromDomain(e: HistoryEntry, position: nat): (row: HistoryRow)
      ensures row.Valid() && row.ToDomain() == e
    {
      var row := HistoryRow(position, e.at, e.fromState, e.toState, e.trigger, e.note, WakeText(e.wakeStatus),
        seq(|e.responsibilities|, i requires 0 <= i < |e.responsibilities| =>
          ResponsibilityRow.FromDomain(e.responsibilities[i], i)));
      assert row.ToDomain().responsibilities == e.responsibilities;
      row
    }
  }

  predicate ValidRows(rows: seq<HistoryRow>) {
    forall i :: 0 <= i < |rows| ==> rows[i].Valid()
  }

  function Entries(rows: seq<HistoryRow>): seq<HistoryEntry>
    requires ValidRows(rows)
  {
    seq(|rows|, i requires 0 <= i < |rows| => rows[i].ToDomain())
  }

  // ---- the checks -----------------------------------------------------------------------------

  predicate SameFacts(a: HistoryEntry, b: HistoryEntry) {
    && a.at == b.at && a.fromState == b.fromState && a.toState == b.toState
    && a.trigger == b.trigger && a.note == b.note
  }

  predicate WakeMayBecome(a: WakeStatus, b: WakeStatus) {
    a == b || (a.WakePending? && !b.WakePending?)
  }

  /** What may happen to a stored entry: its facts stay, a pending wake may settle once, and only the
      last entry's promises may still change. */
  predicate Extends(prev: HistoryEntry, cur: HistoryEntry, last: bool) {
    && SameFacts(prev, cur) && WakeMayBecome(prev.wakeStatus, cur.wakeStatus)
    && (!last ==> prev.responsibilities == cur.responsibilities)
  }

  ghost predicate AppendOnly(stored: seq<HistoryEntry>, incoming: seq<HistoryEntry>) {
    && |stored| <= |incoming|
    && forall i :: 0 <= i < |stored| ==> Extends(stored[i], incoming[i], i == |stored| - 1)
  }

  method ValidateHistoryAppendOnly(stored: seq<HistoryEntry>, incoming: seq<HistoryEntry>)
    returns (error: Option<Error>)
    ensures error.None? <==> AppendOnly(stored, incoming)
  {
    if |incoming| < |stored| {
      return Some(HistoryShrank);
    }
    for i := 0 to |stored|
      invariant forall j :: 0 <= j < i ==> Extends(stored[j], incoming[j], j == |stored| - 1)
    {
      var prev, cur := stored[i], incoming[i];
      if !SameFacts(prev, cur) {
        return Some(HistoryModified);
      }
      if prev.wakeStatus != cur.wakeStatus && (!prev.wakeStatus.WakePending? || cur.wakeStatus.WakePending?) {
        return Some(SettledWakeModified);
      }
      if i < |stored| - 1 && prev.responsibilities != cur.responsibilities {
        return Some(FinalizedPromisesModified);
      }
    }
    return None;
  }

  // ---- the differential update ----------------------------------------------------------------

  predicate SameKeys(a: seq<Responsibility>, b: seq<Responsibility>) {
    |a| == |b| && forall i :: 0 <= i < |a| ==> a[i].key == b[i].key
  }

  /** The write goes through: append-only, and the current entry keeps its promise keys. */
  ghost predicate Storable(stored: seq<HistoryEntry>, incoming: seq<HistoryEntry>) {
    && AppendOnly(stored, incoming)
    && (stored != [] ==> SameKeys(stored[|stored| - 1].responsibilities, incoming[|stored| - 1].responsibilities))
  }

  /** The row update never rewrites a promise's description. */
  ghost predicate DescriptionsKept(stored: seq<HistoryEntry>, incoming: seq<HistoryEntry>)
    requires Storable(stored, incoming)
  {
    stored != [] ==>
      var a, b := stored[|stored| - 1].responsibilities, incoming[|stored| - 1].responsibilities;
      forall i :: 0 <= i < |a| ==> a[i].description == b[i].description
  }

  /** Status and comment from the incoming promise, key and description from the stored one. */
  function Fulfilled(stored: seq<Responsibility>, incoming: seq<Responsibility>): (r: seq<Responsibility>)
    requires |stored| == |incoming|
    ensures |r| == |stored|
    ensures forall i :: 0 <= i < |r| ==>
              r[i] == stored[i].(status := incoming[i].status, comment := incoming[i].comment)
  {
    seq(|stored|, i requires 0 <= i < |stored| =>
      stored[i].(status := incoming[i].status, comment := incoming[i].comment))
  }

  /** The history the update leaves behind. */
  ghost function Patched(stored: seq<HistoryEntry>, incoming: seq<HistoryEntry>): (r: seq<HistoryEntry>)
    requires Storable(stored, incoming)
    ensures |r| == |incoming|
  {
    seq(|incoming|, i requires 0 <= i < |incoming| =>
      if i >= |stored| then incoming[i]
      else if i < |stored| - 1 then stored[i].(wakeStatus := incoming[i].wakeStatus)
      else stored[i].(wakeStatus := incoming[i].wakeStatus,
                      responsibilities := Fulfilled(stored[i].responsibilities, incoming[i].responsibilities)))
  }

  /** The differential update is an overwrite exactly when the current promises keep their
      descriptions. */
  lemma PatchIsOverwrite(stored: seq<HistoryEntry>, incoming: seq<HistoryEntry>)
    requires Storable(stored, incoming)
    ensures Patched(stored, incoming) == incoming <==> DescriptionsKept(stored, incoming)
  {
    var p := Patched(stored, incoming);
    if stored != [] {
      var last := |stored| - 1;
      var a, b := stored[last].responsibilities, incoming[last].responsibilities;
      forall i | 0 <= i < |incoming| && i != last
        ensures p[i] == incoming[i]
      {
        assert i < |stored| ==> Extends(stored[i], incoming[i], false);
      }
      assert Extends(stored[last], incoming[last], true);
      if DescriptionsKept(stored, incoming) {
        assert Fulfilled(a, b) == b;
      } else {
        var i :| 0 <= i < |a| && a[i].description != b[i].description;
        assert Fulfilled(a, b)[i] != b[i];
        assert p[last].responsibilities == Fulfilled(a, b);
      }
    }
  }

  /** The log with one current promise reworded. */
  function Reworded(h: seq<HistoryEntry>, k: nat, words: string): seq<HistoryEntry>
    requires h != [] && k < |h[|h| - 1].responsibilities|
  {
    var e := h[|h| - 1];
    h[|h| - 1 := e.(responsibilities := e.responsibilities[k := e.responsibilities[k].(description := words)])]
  }

  /** The family of inputs on which the two forms part: a save that rewords a current promise is
      accepted, and reads back the old words. */
  lemma RewordingIsLost(stored: seq<HistoryEntry>, k: nat, words: string)
    requires stored != [] && k < |stored[|stored| - 1].responsibilities|
    requires stored[|stored| - 1].responsibilities[k].description != words
    ensures var incoming := Reworded(stored, k, words);
            && Storable(stored, incoming) && incoming[|incoming| - 1].toState == stored[|stored| - 1].toState
            && Patched(stored, incoming) == stored != incoming
  {
    var last := |stored| - 1;
    var incoming := Reworded(stored, k, words);
    var a, b := stored[last].responsibilities, incoming[last].responsibilities;
    assert b[k].description == words;
    assert Fulfilled(a, b) == a;
    assert Patched(stored, incoming) == stored;
  }

  /** One such input. */
  lemma RewordingExample() returns (stored: seq<HistoryEntry>, incoming: seq<HistoryEntry>)
    ensures Storable(stored, incoming) && |incoming| == 1 && incoming[0].toState == "PLANNING"
    ensures var sent, read := incoming[0].responsibilities, Patched(stored, incoming)[0].responsibilities;
            |sent| == |read| == 1 && sent[0].description == "Write the plan" && read[0].description == "Draft the plan"
  {
    var promise := Responsibility("plan", "Draft the plan", Pending, None);
    stored := [HistoryEntry("t0", None, "PLANNING", Some("start"), None, [promise], Skipped)];
    incoming := Reworded(stored, 0, "Write the plan");
    RewordingIsLost(stored, 0, "Write the plan");
  }

  lemma PatchedFromParts(stored: seq<HistoryEntry>, incoming: seq<HistoryEntry>, woken: seq<HistoryEntry>,
                         patched: seq<HistoryEntry>)
    requires Storable(stored, incoming) && |woken| == |stored|
    requires forall i :: 0 <= i < |stored| ==> woken[i] == stored[i].(wakeStatus := incoming[i].wakeStatus)
    requires if stored == [] then patched == woken
             else var k := |stored| - 1;
                  patched == woken[k := woken[k].(responsibilities :=
                    Fulfilled(stored[k].responsibilities, incoming[k].responsibilities))]
    ensures patched + incoming[|stored|..] == Patched(stored, incoming)
  {
  }

  /** The task as supplied, except for the identity columns and the launch hold, which a save never
      writes. */
  function Written(repo: Id, workflow: string, launchPaused: bool, t: Task, history: seq<HistoryEntry>): Task {
    t.(repo := repo, workflow := workflow, launchPaused := launchPaused, history := history)
  }

  /** A task row with its history rows. `repo` and `workflow` are never rewritten, and the launch hold
      only by its own operation. */
  class TaskRow {
    const repo: Id
    const workflow: string
    var state: string
    var turn: Actor
    var blocked: bool
    var attention: bool
    var slug: Option<string>
    var branch: Option<string>
    var clone: Option<string>
    var provisionedBy: Option<string>
    var workspaceVerifiedBy: Option<string>
    var migration: Option<MigrationRecord>
    var claimedBy: Option<string>
    var governor: Option<Id>
    var dependsOn: seq<Id>
    var launchPaused: bool
    var history: seq<HistoryRow>

    ghost predicate Valid()
      reads this`history
    {
      ValidRows(history)
    }

    function StoredHistory(): seq<HistoryEntry>
      requires Valid()
      reads this`history
    {
      Entries(history)
    }

    function ToDomain(): Task
      requires Valid()
      reads this
    {
      Task(repo, workflow, state, turn, blocked, attention, slug, branch, clone, provisionedBy,
           workspaceVerifiedBy, migration, claimedBy, governor, dependsOn, StoredHistory(), launchPaused)
    }

    constructor FromDomain(t: Task)
      ensures Valid() && ToDomain() == t
    {
      repo, workflow := t.repo, t.workflow;
      state, turn, blocked, attention := t.state, t.turn, t.blocked, t.attention;
      slug, branch, clone := t.slug, t.branch, t.clone;
      provisionedBy, workspaceVerifiedBy, migration, claimedBy :=
        t.provisionedBy, t.workspaceVerifiedBy, t.migration, t.claimedBy;
      governor, dependsOn, launchPaused := t.governor, t.dependsOn, t.launchPaused;
      history := seq(|t.history|, i requires 0 <= i < |t.history| => HistoryRow.FromDomain(t.history[i], i));
      new;
      assert StoredHistory() == t.history;
    }

    /** `_fulfil_current_promises` on the row at `last`. */
    method FulfilCurrentPromises(last: nat, entry: HistoryEntry) returns (error: Option<Error>)
      requires Valid() && last < |history|
      modifies this`history
      ensures Valid()
      ensures var before := old(StoredHistory()[last]);
              if SameKeys(before.responsibilities, entry.responsibilities) then
                error.None? && StoredHistory() == old(StoredHistory())[last :=
                  before.(responsibilities := Fulfilled(before.responsibilities, entry.responsibilities))]
              else error.Some? && history == old(history)
    {
      var rows := history[last].responsibilities;
      ghost var before := StoredHistory()[last];
      if |rows| != |entry.responsibilities| ||
         exists i :: 0 <= i < |rows| && rows[i].key != entry.responsibilities[i].key {
        return Some(PromiseSetChanged);
      }
      for i := 0 to |rows|
        invariant |rows| == |before.responsibilities|
        invariant forall j :: 0 <= j < |rows| ==> rows[j].Valid()
        invariant forall j :: 0 <= j < i ==>
                    rows[j].ToDomain() == before.responsibilities[j].(status := entry.responsibilities[j].status,
                                                                      comment := entry.responsibilities[j].comment)
        invariant forall j :: i <= j < |rows| ==> rows[j].ToDomain() == before.responsibilities[j]
      {
        var r := entry.responsibilities[i];
        rows := rows[i := rows[i].(status := StatusText(r.status), comment := r.comment)];
      }
      var row := history[last].(responsibilities := rows);
      assert row.ToDomain().responsibilities == Fulfilled(before.responsibilities, entry.responsibilities);
      assert row.ToDomain() == before.(responsibilities := Fulfilled(before.responsibilities, entry.responsibilities));
      history := history[last := row];
      return None;
    }

    /** Settle the wakes of the stored entries. */
    method PatchWakes(count: nat, incoming: seq<HistoryEntry>)
      requires Valid() && count == |history| <= |incoming|
      modifies this`history
      ensures Valid() && |history| == count
      ensures forall i :: 0 <= i < count ==>
                StoredHistory()[i] == old(StoredHistory()[i]).(wakeStatus := incoming[i].wakeStatus)
    {
      ghost var before := StoredHistory();
      for i := 0 to count
        invariant Valid() && |history| == count == |before|
        invariant forall j :: 0 <= j < i ==> StoredHistory()[j] == before[j].(wakeStatus := incoming[j].wakeStatus)
        invariant forall j :: i <= j < count ==> StoredHistory()[j] == before[j]
      {
        var row := history[i].(wakeStatus := WakeText(incoming[i].wakeStatus));
        assert StoredHistory()[i] == before[i];
        assert row.ToDomain() == before[i].(wakeStatus := incoming[i].wakeStatus);
        history := history[i := row];
      }
    }

    /** Append rows for the entries beyond the stored ones. */
    method AppendRows(count: nat, incoming: seq<HistoryEntry>)
      requires Valid() && count == |history| <= |incoming|
      modifies this`history
      ensures Valid() && StoredHistory() == old(StoredHistory()) + incoming[count..]
    {
      ghost var before := StoredHistory();
      for i := count to |incoming|
        invariant Valid() && StoredHistory() == before + incoming[count..i]
      {
        ghost var prior := StoredHistory();
        history := history + [HistoryRow.FromDomain(incoming[i], i)];
        assert StoredHistory() == prior + [incoming[i]];
        assert incoming[count..i + 1] == incoming[count..i] + [incoming[i]];
      }
      assert incoming[count..|incoming|] == incoming[count..];
    }

    /** The history part of `_update_task`: settle wakes, fulfil the current promises, append rows. */
    method PatchHistory(incoming: seq<HistoryEntry>, ghost stored: seq<HistoryEntry>) returns (error: Option<Error>)
      requires Valid() && stored == StoredHistory() && AppendOnly(stored, incoming)
      modifies this`history
      ensures Valid()
      ensures error.None? <==> Storable(stored, incoming)
      ensures error.None? ==> StoredHistory() == Patched(stored, incoming)
    {
      var count := |history|;
      PatchWakes(count, incoming);
      ghost var woken := StoredHistory();
      if count > 0 {
        assert woken[count - 1].responsibilities == stored[count - 1].responsibilities;
        error := FulfilCurrentPromises(count - 1, incoming[count - 1]);
        if error.Some? {
          return;
        }
      }
      ghost var patched := StoredHistory();
      AppendRows(count, incoming);
      PatchedFromParts(stored, incoming, woken, patched);
      return None;
    }

    /** `_update_task`. A changed promise set aborts the transaction, which restores the history rows;
        the columns are assigned last here, because nothing in between reads them. */
    method UpdateTask(task: Task, ghost stored: seq<HistoryEntry>) returns (error: Option<Error>)
      requires Valid() && stored == StoredHistory() && AppendOnly(stored, task.history)
      modifies this
      ensures Valid()
      ensures error.None? <==> Storable(stored, task.history)
      ensures error.None? ==>
                ToDomain() == Written(repo, workflow, old(launchPaused), task, Patched(stored, task.history))
      ensures error.Some? ==> ToDomain() == old(ToDomain())
    {
      var before := history;
      error := PatchHistory(task.history, stored);
      if error.Some? {
        history := before;
        return;
      }
      AssignColumns(task);
    }

    /** The columns that `_update_task` writes. */
    method AssignColumns(task: Task)
      requires Valid()
      modifies this
      ensures history == old(history) && launchPaused == old(launchPaused)
      ensures ToDomain() == Written(repo, workflow, launchPaused, task, StoredHistory())
    {
      AssignProgress(task);
      AssignOwnership(task);
    }

    method AssignProgress(task: Task)
      modifies `state, `turn, `blocked, `attention, `slug, `governor, `dependsOn
      ensures state == task.state && turn == task.turn && blocked == task.blocked && attention == task.attention
      ensures slug == task.slug && governor == task.governor && dependsOn == task.dependsOn
    {
      state, turn, blocked, attention := task.state, task.turn, task.blocked, task.attention;
      slug, governor, dependsOn := task.slug, task.governor, task.dependsOn;
    }

    method AssignOwnership(task: Task)
      modifies `branch, `clone, `provisionedBy, `workspaceVerifiedBy, `migration, `claimedBy
      ensures branch == task.branch && clone == task.clone && provisionedBy == task.provisionedBy
      ensures workspaceVerifiedBy == task.workspaceVerifiedBy && migration == task.migration
      ensures claimedBy == task.claimedBy
    {
      branch, clone := task.branch, task.clone;
      provisionedBy, workspaceVerifiedBy := task.provisionedBy, task.workspaceVerifiedBy;
      migration, claimedBy := task.migration, task.claimedBy;
    }

    /** `save_task`: both checks, then the update. A task whose log is storable and keeps its
        descriptions is read back exactly as it was supplied. */
    method SaveTask(task: Task) returns (error: Option<Error>)
      requires Valid()
      modifies this
      ensures Valid()
      ensures error.None? <==>
                && task.history != [] && task.state == task.history[|task.history| - 1].toState
                && Storable(old(StoredHistory()), task.history)
      ensures error.Some? ==> ToDomain() == old(ToDomain())
      ensures error.None? ==>
                (DescriptionsKept(old(StoredHistory()), task.history) <==>
                 ToDomain() == Written(repo, workflow, old(launchPaused), task, task.history))
    {
      if task.history == [] {
        return Some(EmptyHistory);
      }
      if task.state != task.history[|task.history| - 1].toState {
        return Some(StateMismatch);
      }
      var stored := StoredHistory();
      error := ValidateHistoryAppendOnly(stored, task.history);
      if error.Some? {
        return;
      }
      error := UpdateTask(task, stored);
      if error.None? {
        PatchIsOverwrite(stored, task.history);
      }
    }
  }
}
