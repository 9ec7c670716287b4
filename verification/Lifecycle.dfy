/** A task's passage through its workflow and the log it leaves behind
    (`Task.resolve_responsibility` in src/panopticon/core/models.py, the task lifecycle in
    src/panopticon/core/workflow.py and the transition methods of
    src/panopticon/taskservice/service.py). */
module Lifecycle {
  import opened Models
  import opened Workflows

  datatype Error =
    | UnknownWorkflow | UnknownState | TaskTerminal | NoTransition | ResponsibilitiesNotMet
    | CannotResolveAsPending | FailedNeedsComment | NoSuchPromise | NoSuchOperation
    | NoSuchEntry | WakeAlreadySettled | WakeCannotBePending

  const SET_STATE := "set-state"
  const CASCADE_DROP := "cascade-drop"

  // ---- pure lifecycle -------------------------------------------------------------------------

  predicate IsOutstanding(r: Responsibility) {
    r.status.Pending?
  }

  predicate HasOutstanding(rs: seq<Responsibility>) {
    exists i :: 0 <= i < |rs| && IsOutstanding(rs[i])
  }

  /** Characters that Python's `str.strip` removes. */
  predicate IsSpace(c: char) {
    || '\t' <= c <= '\r' || '\U{1c}' <= c <= ' ' || c == '\U{85}' || c == '\U{a0}'
    || c == '\U{1680}' || '\U{2000}' <= c <= '\U{200a}' || '\U{2028}' <= c <= '\U{2029}'
    || c == '\U{202f}' || c == '\U{205f}' || c == '\U{3000}'
  }

  predicate HasComment(c: Option<string>) {
    c.Some? && exists i :: 0 <= i < |c.value| && !IsSpace(c.value[i])
  }

  /** The log entry written on entering `to`. */
  function EntryFor(g: Graph, from: string, to: string, now: string,
                    trigger: Option<string>, note: Option<string>): HistoryEntry
    requires to in g.states
  {
    HistoryEntry(now, Some(from), to, trigger, note, g.states[to].responsibilities,
                 if !g.states[to].terminal && g.states[to].turnOnEnter.Agent? then WakePending else Skipped)
  }

  /** Append the entry for `to` and recompute state and turn. The service also ends the stale
      waiting marker. */
  function Enter(g: Graph, t: Task, to: string, now: string,
                 trigger: Option<string>, note: Option<string>): Task
    requires to in g.states
  {
    t.(history := t.history + [EntryFor(g, t.state, to, now, trigger, note)],
       state := to, turn := g.states[to].turnOnEnter, blocked := false)
  }

  /** The gated move. */
  function ApplyTransition(g: Graph, t: Task, to: string, now: string,
                           trigger: Option<string>, note: Option<string>): Result<Task, Error>
    requires g.Valid() && t.history != []
  {
    if t.state !in g.states then Err(UnknownState)
    else if g.states[t.state].terminal then Err(TaskTerminal)
    else if to !in g.transitions[t.state] then Err(NoTransition)
    else if to != DROPPED && HasOutstanding(t.history[|t.history| - 1].responsibilities) then
      Err(ResponsibilitiesNotMet)
    else
      assert g.ValidState(t.state);
      Ok(Enter(g, t, to, now, trigger, note))
  }

  /** The user's free move: only the target has to exist. */
  function ForceTransition(g: Graph, t: Task, to: string, now: string, note: Option<string>): Result<Task, Error>
  {
    if to !in g.states then Err(UnknownState) else Ok(Enter(g, t, to, now, Some(SET_STATE), note))
  }

  function StartTask(g: Graph, repo: Id, workflow: string, now: string): Task
    requires g.Valid()
  {
    Task(repo, workflow, g.initial, g.states[g.initial].turnOnEnter, false, false,
         None, None, None, None, None, None, None, None, [],
         [HistoryEntry(now, None, g.initial, Some("start"), None,
                       g.states[g.initial].responsibilities, Skipped)],
         false)
  }

  /** Position of the first promise with this key, or the length when there is none. */
  function FirstWithKey(rs: seq<Responsibility>, key: string): (k: nat)
    ensures k <= |rs|
    ensures k < |rs| ==> rs[k].key == key
    ensures forall j :: 0 <= j < k ==> rs[j].key != key
  {
    if rs == [] || rs[0].key == key then 0 else 1 + FirstWithKey(rs[1..], key)
  }

  function ResolvePromise(t: Task, key: string, status: Status, comment: Option<string>): Result<Task, Error>
    requires t.history != []
  {
    if status.Pending? then Err(CannotResolveAsPending)
    else if status.Failed? && !HasComment(comment) then Err(FailedNeedsComment)
    else
      var last := |t.history| - 1;
      var rs := t.history[last].responsibilities;
      var k := FirstWithKey(rs, key);
      if k == |rs| then Err(NoSuchPromise)
      else Ok(t.(history := t.history[last := t.history[last].(
             responsibilities := rs[k := rs[k].(status := status, comment := comment)])]))
  }

  /** Resolve one promise and, when it was the last one and the agent advances this state, advance.
      The move happens on the same in-memory task, so both land in one save. */
  function ResolveAndAdvance(g: Graph, t: Task, key: string, status: Status, comment: Option<string>,
                             now: string): Result<Task, Error>
    requires g.Valid() && t.history != []
  {
    var resolved := ResolvePromise(t, key, status, comment);
    if resolved.Err? then resolved
    else
      var t' := resolved.value;
      if HasOutstanding(t'.history[|t'.history| - 1].responsibilities) then resolved
      else if t'.state !in g.states then Err(UnknownState)
      else
        var dest := g.Advance(t'.state);
        if dest.None? || !g.states[t'.state].advancedBy.Agent? then resolved
        else ApplyTransition(g, t', dest.value, now, Some("advance"), None)
  }

  function RecordWake(t: Task, index: int, status: WakeStatus): Result<Task, Error> {
    if status.WakePending? then Err(WakeCannotBePending)
    else if index < 0 || index >= |t.history| then Err(NoSuchEntry)
    else if t.history[index].wakeStatus == status then Ok(t)
    else if !t.history[index].wakeStatus.WakePending? then Err(WakeAlreadySettled)
    else Ok(t.(history := t.history[index := t.history[index].(wakeStatus := status)]))
  }

  // ---- what every history keeps ---------------------------------------------------------------

  ghost predicate PromisesOk(g: Graph, e: HistoryEntry)
    requires e.toState in g.states
  {
    var declared := g.states[e.toState].responsibilities;
    && |e.responsibilities| == |declared|
    && (forall i :: 0 <= i < |declared| ==>
          && e.responsibilities[i].key == declared[i].key
          && e.responsibilities[i].description == declared[i].description)
    && (forall r :: r in e.responsibilities ==>
          && (r.status.Failed? ==> HasComment(r.comment))
          && (r.status.Pending? ==> r.comment.None?))
  }

  /** A pending or delivered wake exists only where the agent was to act first. */
  ghost predicate WakeOk(g: Graph, e: HistoryEntry)
    requires e.toState in g.states
  {
    !e.wakeStatus.Skipped? ==> !g.states[e.toState].terminal && g.states[e.toState].turnOnEnter.Agent?
  }

  ghost predicate EntryOk(g: Graph, e: HistoryEntry) {
    e.toState in g.states && PromisesOk(g, e) && WakeOk(g, e)
  }

  /** A step the gate let through: an edge out of a non-terminal state, and no promise left pending
      unless the task was dropped. */
  ghost predicate Gated(g: Graph, prev: HistoryEntry, e: HistoryEntry) {
    && prev.toState in g.states && prev.toState in g.transitions && !g.states[prev.toState].terminal
    && e.toState in g.transitions[prev.toState]
    && (e.toState != DROPPED ==> !HasOutstanding(prev.responsibilities))
  }

  ghost predicate LinkOk(g: Graph, prev: HistoryEntry, e: HistoryEntry)
    requires g.Valid()
  {
    && e.fromState == Some(prev.toState)
    && (e.trigger != Some(SET_STATE) ==> Gated(g, prev, e))
  }

  /** The log is one connected chain from the initial state to the current one, and an entry with
      another trigger than `set-state` was gated. A caller may give a gated move that trigger too, so
      the label does not tell which entries were free moves; GatedRuns.dfy says it by call. */
  ghost predicate HistoryOk(g: Graph, t: Task)
    requires g.Valid()
  {
    var h := t.history;
    && h != []
    && h[0].fromState.None? && h[0].toState == g.initial && h[0].trigger == Some("start")
    && h[|h| - 1].toState == t.state && t.state in g.states
    && (forall e :: e in h ==> EntryOk(g, e))
    && (forall i :: 0 < i < |h| ==> LinkAt(g, h, i))
  }

  ghost predicate LinkAt(g: Graph, h: seq<HistoryEntry>, i: nat)
    requires g.Valid() && 0 < i < |h|
  {
    LinkOk(g, h[i - 1], h[i])
  }

  /** The log is as long as before, or it is longer by one gated entry, whatever its trigger. */
  ghost predicate GrowsGated(g: Graph, before: seq<HistoryEntry>, after: seq<HistoryEntry>) {
    || |after| == |before|
    || (before != [] && |after| == |before| + 1 && Gated(g, after[|before| - 1], after[|before|]))
  }

  lemma StartIsOk(g: Graph, repo: Id, workflow: string, now: string)
    requires g.Valid()
    ensures HistoryOk(g, StartTask(g, repo, workflow, now))
  {
    assert g.ValidState(g.initial);
  }

  /** Appending an entry keeps the log well formed when its link to the previous entry does. */
  lemma EnterKeepsHistory(g: Graph, t: Task, to: string, now: string,
                          trigger: Option<string>, note: Option<string>)
    requires g.Valid() && HistoryOk(g, t) && to in g.states
    requires trigger != Some(SET_STATE) ==>
               Gated(g, t.history[|t.history| - 1], EntryFor(g, t.state, to, now, trigger, note))
    ensures HistoryOk(g, Enter(g, t, to, now, trigger, note))
  {
    var e := EntryFor(g, t.state, to, now, trigger, note);
    var h := t.history + [e];
    assert g.ValidState(to);
    forall i | 0 < i < |h|
      ensures LinkAt(g, h, i)
    {
      if i < |t.history| {
        assert LinkAt(g, t.history, i);
      }
    }
  }

  lemma ApplyKeepsHistory(g: Graph, t: Task, to: string, now: string,
                          trigger: Option<string>, note: Option<string>)
    requires g.Valid() && HistoryOk(g, t)
    requires ApplyTransition(g, t, to, now, trigger, note).Ok?
    ensures HistoryOk(g, ApplyTransition(g, t, to, now, trigger, note).value)
    ensures var h, h' := t.history, ApplyTransition(g, t, to, now, trigger, note).value.history;
            |h'| == |h| + 1 && h <= h' && GrowsGated(g, h, h')
  {
    assert g.ValidState(t.state);
    EnterKeepsHistory(g, t, to, now, trigger, note);
  }

  lemma ForceKeepsHistory(g: Graph, t: Task, to: string, now: string, note: Option<string>)
    requires g.Valid() && HistoryOk(g, t) && ForceTransition(g, t, to, now, note).Ok?
    ensures HistoryOk(g, ForceTransition(g, t, to, now, note).value)
  {
    EnterKeepsHistory(g, t, to, now, Some(SET_STATE), note);
  }

  /** Changing one entry without touching its transition facts keeps the chain, provided the entry
      itself stays well formed and, if it is followed by another one, its promises stay. */
  lemma PatchKeepsHistory(g: Graph, t: Task, k: nat, e: HistoryEntry)
    requires g.Valid() && HistoryOk(g, t) && k < |t.history| && EntryOk(g, e)
    requires e.fromState == t.history[k].fromState && e.toState == t.history[k].toState
    requires e.trigger == t.history[k].trigger
    requires k < |t.history| - 1 ==> e.responsibilities == t.history[k].responsibilities
    ensures HistoryOk(g, t.(history := t.history[k := e]))
  {
    var h := t.history[k := e];
    forall i | 0 < i < |h|
      ensures LinkAt(g, h, i)
    {
      assert LinkAt(g, t.history, i);
    }
  }

  lemma ResolveKeepsHistory(g: Graph, t: Task, key: string, status: Status, comment: Option<string>)
    requires g.Valid() && HistoryOk(g, t) && ResolvePromise(t, key, status, comment).Ok?
    ensures HistoryOk(g, ResolvePromise(t, key, status, comment).value)
  {
    var last := |t.history| - 1;
    var rs := t.history[last].responsibilities;
    var k := FirstWithKey(rs, key);
    var rs' := rs[k := rs[k].(status := status, comment := comment)];
    var e := t.history[last].(responsibilities := rs');
    assert EntryOk(g, t.history[last]);
    forall r | r in rs'
      ensures (r.status.Failed? ==> HasComment(r.comment)) && (r.status.Pending? ==> r.comment.None?)
    {
      var j :| 0 <= j < |rs'| && rs'[j] == r;
      assert j != k ==> r in rs;
    }
    PatchKeepsHistory(g, t, last, e);
  }

  /** Auto-advance never fails: whenever the promise can be resolved, the whole call succeeds, and it
      moves the task exactly when nothing is left outstanding, the agent advances this state and the
      state has an `advance` edge. */
  lemma ResolveAndAdvanceSpec(g: Graph, t: Task, key: string, status: Status, comment: Option<string>, now: string)
    requires g.Valid() && HistoryOk(g, t)
    ensures var r := ResolveAndAdvance(g, t, key, status, comment, now);
            var p := ResolvePromise(t, key, status, comment);
            && (r.Ok? <==> p.Ok?)
            && (r.Ok? ==> HistoryOk(g, r.value) && GrowsGated(g, t.history, r.value.history))
            && (r.Ok? ==>
                  var rs := p.value.history[|t.history| - 1].responsibilities;
                  if !HasOutstanding(rs) && g.Advance(t.state).Some? && g.states[t.state].advancedBy.Agent?
                  then |r.value.history| == |t.history| + 1 && r.value.state == g.Advance(t.state).value
                  else r == p)
  {
    var p := ResolvePromise(t, key, status, comment);
    assert g.ValidState(t.state);
    if p.Ok? {
      ResolveKeepsHistory(g, t, key, status, comment);
      var dest := g.Advance(t.state);
      if !HasOutstanding(p.value.history[|t.history| - 1].responsibilities)
         && dest.Some? && g.states[t.state].advancedBy.Agent? {
        assert ApplyTransition(g, p.value, dest.value, now, Some("advance"), None).Ok?;
        ApplyKeepsHistory(g, p.value, dest.value, now, Some("advance"), None);
      }
    }
  }

  lemma WakeKeepsHistory(g: Graph, t: Task, index: int, status: WakeStatus)
    requires g.Valid() && HistoryOk(g, t) && RecordWake(t, index, status).Ok?
    ensures HistoryOk(g, RecordWake(t, index, status).value)
  {
    if t.history[index].wakeStatus != status {
      assert EntryOk(g, t.history[index]);
      PatchKeepsHistory(g, t, index, t.history[index].(wakeStatus := status));
    }
  }

  /** Dropping is the universal escape hatch: from a known non-terminal state it cannot be refused. */
  lemma DropIsNeverRefused(g: Graph, t: Task, now: string, trigger: Option<string>, note: Option<string>)
    requires g.Valid() && t.history != [] && t.state in g.states && !g.states[t.state].terminal
    ensures ApplyTransition(g, t, DROPPED, now, trigger, note) == Ok(Enter(g, t, DROPPED, now, trigger, note))
  {
    assert g.ValidState(t.state);
  }

  /** A gated step leaves an unfinished state along an edge, and unless it drops the task, every
      promise of the state it leaves is met or has failed with a comment. */
  lemma GatedStepIsSettled(g: Graph, t: Task, i: nat)
    requires g.Valid() && HistoryOk(g, t) && i < |t.history| - 1
    requires Gated(g, t.history[i], t.history[i + 1])
    ensures var e := t.history[i];
            && e.toState in g.states && !g.states[e.toState].terminal
            && t.history[i + 1].fromState == Some(e.toState) && t.history[i + 1].toState in g.transitions[e.toState]
            && forall r :: r in e.responsibilities && t.history[i + 1].toState != DROPPED ==>
                 r.status.Met? || (r.status.Failed? && HasComment(r.comment))
  {
    assert LinkAt(g, t.history, i + 1);
    assert EntryOk(g, t.history[i]);
    forall r | r in t.history[i].responsibilities && t.history[i + 1].toState != DROPPED
      ensures r.status.Met? || (r.status.Failed? && HasComment(r.comment))
    {
      var j :| 0 <= j < |t.history[i].responsibilities| && t.history[i].responsibilities[j] == r;
      assert !IsOutstanding(t.history[i].responsibilities[j]);
    }
  }

  // ---- the mutable task object ----------------------------------------------------------------

  /** A task in memory: the fields that the lifecycle changes in place, over the record it was loaded
      from. */
  class TaskObject {
    const base: Task
    var state: string
    var turn: Actor
    var blocked: bool
    var history: seq<HistoryEntry>

    constructor Load(t: Task)
      ensures Value() == t && base == t
    {
      base := t;
      state, turn, blocked, history := t.state, t.turn, t.blocked, t.history;
    }

    function Value(): Task
      reads this
    {
      base.(state := state, turn := turn, blocked := blocked, history := history)
    }

    /** `current_entry.responsibilities[i] = ...` for the first promise with this key. */
    method ResolveResponsibility(key: string, status: Status, comment: Option<string>)
      returns (error: Option<Error>)
      requires history != []
      modifies this
      ensures match ResolvePromise(old(Value()), key, status, comment)
              case Ok(t) => error.None? && Value() == t
              case Err(e) => error == Some(e) && Value() == old(Value())
    {
      if status.Pending? {
        return Some(CannotResolveAsPending);
      }
      if status.Failed? && !HasComment(comment) {
        return Some(FailedNeedsComment);
      }
      var last := |history| - 1;
      var promised := history[last].responsibilities;
      var i := 0;
      while i < |promised|
        invariant 0 <= i <= |promised|
        invariant forall j :: 0 <= j < i ==> promised[j].key != key
        invariant Value() == old(Value())
      {
        if promised[i].key == key {
          FirstWithKeyIs(promised, key, i);
          promised := promised[i := promised[i].(status := status, comment := comment)];
          history := history[last := history[last].(responsibilities := promised)];
          return None;
        }
        i := i + 1;
      }
      FirstWithKeyIs(promised, key, |promised|);
      return Some(NoSuchPromise);
    }

    /** `_enter`, followed by the service's clearing of `blocked`. */
    method EnterState(g: Graph, to: string, now: string, trigger: Option<string>, note: Option<string>)
      requires to in g.states
      modifies this
      ensures Value() == Enter(g, old(Value()), to, now, trigger, note)
    {
      history := history + [EntryFor(g, state, to, now, trigger, note)];
      state := to;
      turn := g.states[to].turnOnEnter;
      blocked := false;
    }

    /** `_commit_transition` up to the save: the gated or the free move. */
    method Move(g: Graph, to: string, force: bool, now: string, trigger: Option<string>, note: Option<string>)
      returns (error: Option<Error>)
      requires g.Valid() && history != [] && (force ==> trigger == Some(SET_STATE))
      modifies this
      ensures match (if force then ForceTransition(g, old(Value()), to, now, note)
                     else ApplyTransition(g, old(Value()), to, now, trigger, note))
              case Ok(t) => error.None? && Value() == t
              case Err(e) => error == Some(e) && Value() == old(Value())
    {
      if force {
        if to !in g.states {
          return Some(UnknownState);
        }
      } else {
        if state !in g.states {
          return Some(UnknownState);
        }
        if g.states[state].terminal {
          return Some(TaskTerminal);
        }
        if to !in g.transitions[state] {
          return Some(NoTransition);
        }
        if to != DROPPED && HasOutstanding(history[|history| - 1].responsibilities) {
          return Some(ResponsibilitiesNotMet);
        }
        assert g.ValidState(state);
      }
      EnterState(g, to, now, trigger, note);
      return None;
    }
  }

  lemma {:induction false} FirstWithKeyIs(rs: seq<Responsibility>, key: string, k: nat)
    requires k <= |rs| && (k < |rs| ==> rs[k].key == key)
    requires forall j :: 0 <= j < k ==> rs[j].key != key
    ensures FirstWithKey(rs, key) == k
  {
    if k == 0 {
    } else {
      assert rs[0].key != key;
      FirstWithKeyIs(rs[1..], key, k - 1);
    }
  }
}
