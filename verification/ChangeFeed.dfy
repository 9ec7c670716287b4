/** The change feed behind `GET /tasks`: a version counter, an event that every change replaces, and
    clients that wait for the version to move (`ChangeFeed` and `list_tasks` in
    src/panopticon/taskservice/api.py, `tasks_version` and `_tasks_snapshot` in
    src/panopticon/taskservice/service.py, `_bump_version` in src/panopticon/core/store.py).

    A stored write commits first and is counted in a later step, so anything may happen in between, and so
    does an artifact, which the epoch counts. Any other ephemeral change takes effect and is counted at
    once. One service lifetime is modelled. */
module ChangeFeed {
  import opened Models

  // ---- the interleaved steps ------------------------------------------------------------------

  type Write = nat

  /** Where a client's request stands. A reading client has its version and awaits its snapshot. */
  datatype Phase = Idle | Parked(since: int, event: nat) | Reading(version: nat)

  /** A client with the last response it got. */
  datatype Client = Client(phase: Phase, version: nat, snapshot: set<Write>)

  /** `counted` lists the writes in the order in which the version counted them. */
  datatype State = State(
    storeVersion: nat, epoch: nat, committed: set<Write>, counted: seq<Write>, event: nat, clients: map<Id, Client>)
  {
    function Version(): nat { storeVersion + epoch }

    predicate Fired(e: nat) { e < event }
  }

  datatype Step =
    | Commit(w: Write)
    | Bump(w: Write)
    | Ephemeral(w: Write)
    | BumpEpoch(w: Write)
    | Snapshot(c: Id)
    | Wait(c: Id, since: int)
    | Wake(c: Id)
    | Timeout(c: Id)
    | Respond(c: Id)

  predicate Enabled(s: State, st: Step) {
    match st
    case Commit(w) => w !in s.committed
    case Bump(w) => w in s.committed && w !in s.counted
    case Ephemeral(w) => w !in s.committed
    case BumpEpoch(w) => w in s.committed && w !in s.counted
    case Snapshot(c) => c in s.clients && s.clients[c].phase.Idle?
    case Wait(c, _) => c in s.clients && s.clients[c].phase.Idle?
    case Wake(c) => c in s.clients && s.clients[c].phase.Parked? && s.Fired(s.clients[c].phase.event)
    case Timeout(c) => c in s.clients && s.clients[c].phase.Parked?
    case Respond(c) => c in s.clients && s.clients[c].phase.Reading?
  }

  function SetPhase(s: State, c: Id, p: Phase): State
    requires c in s.clients
  {
    s.(clients := s.clients[c := s.clients[c].(phase := p)])
  }

  function Next(s: State, st: Step): State
    requires Enabled(s, st)
  {
    match st
    case Commit(w) => s.(committed := s.committed + {w})
    case Bump(w) => s.(storeVersion := s.storeVersion + 1, counted := s.counted + [w], event := s.event + 1)
    case Ephemeral(w) =>
      s.(epoch := s.epoch + 1, committed := s.committed + {w}, counted := s.counted + [w], event := s.event + 1)
    case BumpEpoch(w) => s.(epoch := s.epoch + 1, counted := s.counted + [w], event := s.event + 1)
    case Snapshot(c) => SetPhase(s, c, Reading(s.Version()))
    case Wait(c, since) =>
      if s.Version() != since then SetPhase(s, c, Reading(s.Version())) else SetPhase(s, c, Parked(since, s.event))
    case Wake(c) => SetPhase(s, c, Reading(s.Version()))
    case Timeout(c) => SetPhase(s, c, Reading(s.Version()))
    case Respond(c) =>
      s.(clients := s.clients[c := Client(Idle, s.clients[c].phase.version, s.committed)])
  }

  predicate Init(s: State) {
    && s.storeVersion == 0 && s.epoch == 0 && s.committed == {} && s.counted == [] && s.event == 0
    && forall c :: c in s.clients ==> s.clients[c] == Client(Idle, 0, {})
  }

  ghost predicate IsRun(ss: seq<State>, steps: seq<Step>) {
    && |ss| == |steps| + 1 && Init(ss[0])
    && forall i :: 0 <= i < |steps| ==> Enabled(ss[i], steps[i]) && ss[i + 1] == Next(ss[i], steps[i])
  }

  // ---- the objects ----------------------------------------------------------------------------

  class Event {
    var isSet: bool

    constructor ()
      ensures !isSet
    {
      isSet := false;
    }
  }

  /** The store's counter, the service's epoch of ephemeral changes, and the event of the HTTP side.
      `issued` lists the events in the order in which they were current. */
  class Feed {
    var storeVersion: nat
    var epoch: nat
    var changed: Event
    ghost var issued: seq<Event>

    constructor ()
      ensures Valid() && storeVersion == 0 && epoch == 0 && |issued| == 1 && fresh(changed)
    {
      storeVersion, epoch := 0, 0;
      changed := new Event();
      issued := [changed];
    }

    /** All events but the current one have been set. */
    ghost predicate Valid()
      reads this, issued
    {
      && issued != [] && issued[|issued| - 1] == changed && !changed.isSet
      && forall e :: 0 <= e < |issued| - 1 ==> issued[e].isSet
    }

    /** The objects are in this state of the step machine. */
    ghost predicate IsIn(s: State)
      reads this, issued
    {
      Valid() && s.storeVersion == storeVersion && s.epoch == epoch && s.event == |issued| - 1
    }

    /** An event of the machine has fired exactly when its object is set. */
    lemma FiredIsSet(s: State, e: nat)
      requires IsIn(s) && e < |issued|
      ensures s.Fired(e) <==> issued[e].isSet
    {
    }

    function Version(): nat
      reads this
    {
      storeVersion + epoch
    }

    /** Wake everyone who holds the current event, then arm a new one. */
    method Notify()
      requires Valid()
      modifies this`changed, this`issued, changed
      ensures Valid() && old(changed).isSet && fresh(changed) && issued == old(issued) + [changed]
    {
      changed.isSet := true;
      changed := new Event();
      issued := issued + [changed];
    }

    /** `_bump_version`: count a committed write, then notify. */
    method BumpVersion(ghost s: State, ghost w: Write)
      requires IsIn(s) && Enabled(s, Bump(w))
      modifies this, changed
      ensures IsIn(Next(s, Bump(w))) && old(changed).isSet
    {
      storeVersion := storeVersion + 1;
      Notify();
    }

    /** `_notify_change`: count an ephemeral change, made just now or committed before, then notify. */
    method NotifyChange(ghost s: State, ghost st: Step)
      requires IsIn(s) && Enabled(s, st) && (st.Ephemeral? || st.BumpEpoch?)
      modifies this, changed
      ensures IsIn(Next(s, st)) && old(changed).isSet
    {
      epoch := epoch + 1;
      Notify();
    }

    /** The entry of `wait`: read the version when it has moved, otherwise capture the event to park on
        before anything else can run. */
    method Enter(ghost s: State, ghost c: Id, since: int) returns (version: nat, parkOn: Event?)
      requires IsIn(s) && Enabled(s, Wait(c, since))
      ensures IsIn(Next(s, Wait(c, since)))
      ensures match Next(s, Wait(c, since)).clients[c].phase
              case Parked(_, event) => event < |issued| && parkOn == issued[event]
              case Reading(v) => parkOn == null && version == v
              case Idle => false
    {
      version := Version();
      parkOn := if version != since then null else changed;
    }

    /** The exit of `wait`, woken or timed out, and the start of an immediate request: the version is
        read before the tasks are. */
    method ReadVersion(ghost s: State, ghost st: Step) returns (version: nat)
      requires IsIn(s) && Enabled(s, st) && (st.Wake? || st.Timeout? || st.Snapshot?)
      ensures IsIn(Next(s, st)) && Next(s, st).clients[st.c].phase == Reading(version)
    {
      version := Version();
    }

    /** Woken at the right time: whoever parked and whose event object is set may read the version. */
    lemma SetEventWakes(s: State, c: Id)
      requires IsIn(s) && c in s.clients && s.clients[c].phase.Parked? && s.clients[c].phase.event < |issued|
      ensures issued[s.clients[c].phase.event].isSet <==> Enabled(s, Wake(c))
    {
      FiredIsSet(s, s.clients[c].phase.event);
    }
  }

  // ---- nothing is missed ----------------------------------------------------------------------

  /** The first `v` counted writes are all in the snapshot. */
  ghost predicate Reflects(s: State, v: nat, snapshot: set<Write>) {
    v <= |s.counted| && forall i :: 0 <= i < v ==> s.counted[i] in snapshot
  }

  ghost predicate ClientOk(s: State, c: Client) {
    && Reflects(s, c.version, c.snapshot)
    && match c.phase
       case Idle => true
       case Parked(since, event) => since == event <= s.event
       case Reading(version) => Reflects(s, version, s.committed)
  }

  ghost predicate Inv(s: State) {
    && s.Version() == |s.counted| == s.event
    && (forall i :: 0 <= i < |s.counted| ==> s.counted[i] in s.committed)
    && forall c :: c in s.clients ==> ClientOk(s, s.clients[c])
  }

  lemma StepKeepsInv(s: State, st: Step)
    requires Inv(s) && Enabled(s, st)
    ensures Inv(Next(s, st))
  {
    var s' := Next(s, st);
    forall c | c in s'.clients
      ensures ClientOk(s', s'.clients[c])
    {
      assert ClientOk(s, s.clients[c]);
    }
  }

  lemma {:induction false} RunKeepsInv(ss: seq<State>, steps: seq<Step>, i: nat)
    requires IsRun(ss, steps) && i < |ss|
    ensures Inv(ss[i])
  {
    if i == 0 {
    } else {
      RunKeepsInv(ss, steps, i - 1);
      StepKeepsInv(ss[i - 1], steps[i - 1]);
      assert ss[i - 1 + 1] == Next(ss[i - 1], steps[i - 1]);
    }
  }

  /** Every response a client holds, in every reachable state, reflects every write that its version
      counts. */
  lemma ResponsesReflectTheirVersion(ss: seq<State>, steps: seq<Step>, i: nat, c: Id)
    requires IsRun(ss, steps) && i < |ss| && c in ss[i].clients
    ensures Reflects(ss[i], ss[i].clients[c].version, ss[i].clients[c].snapshot)
  {
    RunKeepsInv(ss, steps, i);
    assert ClientOk(ss[i], ss[i].clients[c]);
  }

  /** The steps in which the version moves. */
  predicate Counts(st: Step) {
    st.Bump? || st.Ephemeral? || st.BumpEpoch?
  }

  /** A client that waits for changes past its last version and has not been woken holds every write
      counted so far; it is woken as soon as one more is counted. */
  lemma ParkedClientsMissNothing(ss: seq<State>, steps: seq<Step>, i: nat, c: Id)
    requires IsRun(ss, steps) && i < |ss| && c in ss[i].clients && ss[i].clients[c].phase.Parked?
    requires ss[i].clients[c].phase.since == ss[i].clients[c].version
    ensures var s, client := ss[i], ss[i].clients[c];
            if s.Version() == client.version then
              && !s.Fired(client.phase.event)
              && (forall w :: w in s.counted ==> w in client.snapshot)
              && (forall st :: Enabled(s, st) && Counts(st) ==> Enabled(Next(s, st), Wake(c)))
            else Enabled(s, Wake(c))
  {
    RunKeepsInv(ss, steps, i);
    var s, client := ss[i], ss[i].clients[c];
    assert ClientOk(s, client);
  }

  /** Versions never run backwards, so a client that keeps echoing its version keeps moving forward. */
  lemma {:induction false} VersionsGrow(ss: seq<State>, steps: seq<Step>, i: nat, k: nat)
    requires IsRun(ss, steps) && i <= k < |ss|
    ensures ss[i].Version() <= ss[k].Version() && ss[i].counted <= ss[k].counted
    ensures ss[i].committed <= ss[k].committed
    decreases k
  {
    if i >= k {
    } else {
      VersionsGrow(ss, steps, i, k - 1);
      assert ss[k - 1 + 1] == Next(ss[k - 1], steps[k - 1]);
    }
  }

  /** A response answered after a write was counted, to a request that read its version after that
      write was counted, shows the write. */
  lemma CountedWritesAreShown(ss: seq<State>, steps: seq<Step>, i: nat, k: nat, c: Id, w: Write)
    requires IsRun(ss, steps) && i <= k < |ss| && c in ss[k].clients
    requires w in ss[i].counted && ss[k].clients[c].version >= ss[i].Version()
    ensures w in ss[k].clients[c].snapshot
  {
    RunKeepsInv(ss, steps, i);
    VersionsGrow(ss, steps, i, k);
    ResponsesReflectTheirVersion(ss, steps, k, c);
    var j :| 0 <= j < |ss[i].counted| && ss[i].counted[j] == w;
    assert ss[k].counted[j] == w;
  }

  /** The step in which a client's request reads the version. */
  ghost predicate Reads(s: State, st: Step, c: Id) {
    && Enabled(s, st) && c in s.clients && !s.clients[c].phase.Reading?
    && Next(s, st).clients[c].phase.Reading?
  }

  /** A request goes on with the number of writes counted when it reads; and a client that was woken has
      moved past the version it waited on. */
  lemma ReadsCurrentVersion(s: State, st: Step, c: Id)
    requires Inv(s) && Reads(s, st, c)
    ensures Next(s, st).clients[c].phase == Reading(|s.counted|)
    ensures st == Wake(c) ==> s.clients[c].phase.Parked? && |s.counted| > s.clients[c].phase.since
  {
    assert ClientOk(s, s.clients[c]);
  }

  lemma {:induction false} ReadingStays(ss: seq<State>, steps: seq<Step>, i: nat, k: nat, c: Id, p: Phase)
    requires IsRun(ss, steps) && i <= k < |ss| && p.Reading?
    requires forall n {:trigger ss[n]} :: i <= n <= k ==> c in ss[n].clients && ss[n].clients[c].phase.Reading?
    requires ss[i].clients[c].phase == p
    ensures ss[k].clients[c].phase == p
    decreases k
  {
    if i < k {
      ReadingStays(ss, steps, i, k - 1, c, p);
      assert ss[k - 1 + 1] == Next(ss[k - 1], steps[k - 1]);
    }
  }

  /** A request that reads the version in one step and is answered in a later one, whatever happens in
      between: the answer's version is the number of writes counted when it read, and it shows all of
      them. */
  lemma AnswersAreCurrent(ss: seq<State>, steps: seq<Step>, i: nat, k: nat, c: Id)
    requires IsRun(ss, steps) && i < k < |steps| && Reads(ss[i], steps[i], c) && steps[k] == Respond(c)
    requires forall n {:trigger ss[n]} :: i < n <= k ==> c in ss[n].clients && ss[n].clients[c].phase.Reading?
    ensures c in ss[k + 1].clients && ss[k + 1].clients[c].version == |ss[i].counted|
    ensures forall w :: w in ss[i].counted ==> w in ss[k + 1].clients[c].snapshot
  {
    RunKeepsInv(ss, steps, i);
    ReadsCurrentVersion(ss[i], steps[i], c);
    assert ss[i + 1] == Next(ss[i], steps[i]) && ss[k + 1] == Next(ss[k], steps[k]);
    ReadingStays(ss, steps, i + 1, k, c, Reading(|ss[i].counted|));
    RunKeepsInv(ss, steps, k);
    VersionsGrow(ss, steps, i, k);
    forall w | w in ss[i].counted
      ensures w in ss[k + 1].clients[c].snapshot
    {
      var j :| 0 <= j < |ss[i].counted| && ss[i].counted[j] == w;
      assert ss[k].counted[j] == w;
    }
  }
}
