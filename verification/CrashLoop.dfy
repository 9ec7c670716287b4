/** The runner's crash-loop guard: how often an orphaned task may be respawned
    (`heal`, `_respawn_count`, `spawn_one` and the failure branch of `_spawn` in
    src/panopticon/sessionservice/spawner.py). Spawn outcomes, session probes and the daemon's
    reachability are inputs; time is any non-decreasing clock. The guard lives in one runner process: a
    new process keeps the runner's claims, forgets the guard, and starts its own clock. */
module CrashLoop {
  import opened Models

  /** How a spawn ended. A pre-session failure is an image or container command that failed before
      the session existed; anything else that raises is a late failure. */
  datatype Outcome = Started | PreSessionFailure | LateFailure

  datatype Config = Config(maxRespawns: nat, respawnReset: real)

  /** One task's guard: the respawns of the current burst with the time of the last one, and whether
      its latest respawn failed before a session existed. */
  datatype Guard = Guard(tracked: Option<(nat, real)>, sticky: bool) {
    function Count(): nat { if tracked.Some? then tracked.value.0 else 0 }
    function Last(): real { if tracked.Some? then tracked.value.1 else 0.0 }
  }

  const FORGOTTEN := Guard(None, false)

  /** What happens to one task: a new runner process, a fresh claim with its first spawn, or one pass of
      the self-heal loop. `later` is the clock when the spawn's failure branch reads it. */
  datatype Event =
    | Restart(later: real)
    | FreshClaim(outcome: Outcome, later: real)
    | HealPass(ownTerminal: bool, orphan: bool, configured: bool, reachable: bool, now: real,
               outcome: Outcome, later: real)

  function RespawnCount(cfg: Config, g: Guard, now: real): nat {
    if g.Count() != 0 && !g.sticky && now - g.Last() >= cfg.respawnReset then 0 else g.Count()
  }

  /** The failure branch of a spawn. */
  function AfterSpawn(cfg: Config, g: Guard, outcome: Outcome, later: real): Guard {
    if !outcome.PreSessionFailure? then g
    else if g.Count() >= cfg.maxRespawns then Guard(Some((g.Count(), later)), true)
    else if g.Count() != 0 then Guard(Some((g.Count(), later)), true)
    else g.(sticky := true)
  }

  /** Whether a pass respawns the task. */
  predicate Respawns(cfg: Config, g: Guard, e: Event) {
    && e.HealPass? && !e.ownTerminal && e.orphan && e.configured && e.reachable
    && RespawnCount(cfg, g, e.now) < cfg.maxRespawns
  }

  function Apply(cfg: Config, g: Guard, e: Event): Guard {
    match e
    case Restart(_) => FORGOTTEN
    case FreshClaim(outcome, later) => AfterSpawn(cfg, FORGOTTEN, outcome, later)
    case HealPass(ownTerminal, orphan, configured, reachable, now, outcome, later) =>
      if ownTerminal then FORGOTTEN
      else if !orphan || !configured then g
      else if !reachable then
        if g.tracked.Some? then g.(tracked := Some((g.Count(), now))) else g
      else if !Respawns(cfg, g, e) then g
      else
        var spawned := AfterSpawn(cfg, g.(tracked := Some((RespawnCount(cfg, g, now) + 1, now))), outcome, later);
        if outcome.Started? then spawned.(sticky := false) else spawned
  }

  // ---- what the guard guarantees --------------------------------------------------------------

  /** What happened to the task within its current claim and runner process, apart from the guard: when
      it was respawned; for each respawn, whether it was the first or the one before it had survived; how
      many of the latest respawns in a row failed before a session existed; whether any spawn did with no
      successful respawn since; when the latest respawn failed that way; and the latest pass since the
      latest respawn that was deferred because the daemon was down. */
  datatype Log = Log(
    respawns: seq<real>, renewed: seq<bool>, streak: nat, stuck: bool, failedAt: Option<real>, outage: Option<real>)

  const NOTHING := Log([], [], 0, false, None, None)

  predicate LongAgo(cfg: Config, moment: Option<real>, now: real) {
    moment.Some? ==> now - moment.value >= cfg.respawnReset
  }

  /** The latest respawn counts as survived: a session was reached, and the respawn, the failure it may
      have ended in and every deferred pass since are at least `respawnReset` ago. */
  predicate Survived(cfg: Config, l: Log, now: real) {
    && l.respawns != [] && !l.stuck && now - l.respawns[|l.respawns| - 1] >= cfg.respawnReset
    && LongAgo(cfg, l.failedAt, now) && LongAgo(cfg, l.outage, now)
  }

  function Record(cfg: Config, g: Guard, l: Log, e: Event): Log {
    match e
    case Restart(_) => NOTHING
    case FreshClaim(outcome, _) => NOTHING.(stuck := outcome.PreSessionFailure?)
    case HealPass(ownTerminal, orphan, configured, reachable, now, outcome, later) =>
      if ownTerminal then NOTHING
      else if orphan && configured && !reachable then l.(outage := Some(now))
      else if !Respawns(cfg, g, e) then l
      else
        Log(l.respawns + [now], l.renewed + [l.respawns == [] || Survived(cfg, l, now)],
            if outcome.PreSessionFailure? then l.streak + 1 else 0,
            if outcome.Started? then false else l.stuck || outcome.PreSessionFailure?,
            if outcome.PreSessionFailure? then Some(later) else None, None)
  }

  /** Readings of one process's clock, which never runs backwards. */
  predicate InOrder(clock: real, e: Event) {
    match e
    case Restart(_) => true
    case FreshClaim(_, later) => clock <= later
    case HealPass(_, _, _, _, now, _, later) => clock <= now <= later
  }

  /** Some two neighbours among the `n + 1` respawns from `i` on are at least `gap` apart. */
  ghost predicate HasGap(ts: seq<real>, i: nat, n: nat, gap: real)
    requires i + n < |ts|
  {
    exists j :: i <= j < i + n && ts[j + 1] - ts[j] >= gap
  }

  ghost predicate Paced(cfg: Config, ts: seq<real>) {
    forall i: nat {:trigger HasGap(ts, i, cfg.maxRespawns, cfg.respawnReset)} ::
      i + cfg.maxRespawns < |ts| ==> HasGap(ts, i, cfg.maxRespawns, cfg.respawnReset)
  }

  /** The respawns since the latest that began a renewed budget. */
  function Burst(renewed: seq<bool>): nat {
    if renewed == [] then 0
    else if renewed[|renewed| - 1] then 1
    else 1 + Burst(renewed[..|renewed| - 1])
  }

  /** The latest of the respawn, the failure it ended in, and the deferred passes since. */
  function Stamp(l: Log): real
    requires l.respawns != []
  {
    if l.outage.Some? then l.outage.value
    else if l.failedAt.Some? then l.failedAt.value
    else l.respawns[|l.respawns| - 1]
  }

  /** The moments of the log are in order. */
  ghost predicate Ordered(l: Log, clock: real) {
    l.respawns != [] ==>
      && l.respawns[|l.respawns| - 1] <= Stamp(l) <= clock
      && (l.failedAt.Some? ==> l.respawns[|l.respawns| - 1] <= l.failedAt.value <= Stamp(l))
  }

  /** The guard remembers of the log what it needs: the burst, the latest moment and the flag. */
  ghost predicate Remembers(cfg: Config, g: Guard, l: Log) {
    && g.Count() == Burst(l.renewed) && g.sticky == l.stuck && (l.failedAt.Some? ==> l.stuck)
    && (l.respawns != [] ==> g.Last() == Stamp(l))
    && |l.renewed| == |l.respawns| && (l.renewed != [] ==> l.renewed[0])
  }

  /** The invariant: the current burst is the last `Count` respawns, it began after a gap unless it is
      the first, the recorded time is no earlier than the last respawn, and a streak of pre-session
      failures lies inside the burst and keeps the guard sticky. */
  ghost predicate Inv(cfg: Config, g: Guard, l: Log, clock: real) {
    var n, c := |l.respawns|, g.Count();
    && Remembers(cfg, g, l) && Ordered(l, clock)
    && c <= n && c <= cfg.maxRespawns && (n > 0 ==> c > 0)
    && (0 < c < n ==> l.respawns[n - c] - l.respawns[n - c - 1] >= cfg.respawnReset)
    && l.streak <= c && (l.streak > 0 ==> g.sticky)
    && Paced(cfg, l.respawns)
  }

  function Clock(e: Event): real {
    e.later
  }

  lemma GapStays(times: seq<real>, next: real, i: nat, window: nat, reset: real)
    requires i + window < |times| && HasGap(times, i, window, reset)
    ensures HasGap(times + [next], i, window, reset)
  {
    var j :| i <= j < i + window && times[j + 1] - times[j] >= reset;
    var longer := times + [next];
    assert longer[j + 1] - longer[j] >= reset;
  }

  lemma RespawnKeepsPaced(cfg: Config, g: Guard, l: Log, clock: real, e: Event)
    requires Inv(cfg, g, l, clock) && InOrder(clock, e) && Respawns(cfg, g, e)
    ensures Paced(cfg, l.respawns + [e.now])
    ensures var c, n := RespawnCount(cfg, g, e.now), |l.respawns|;
            c < n ==> (l.respawns + [e.now])[n - c] - (l.respawns + [e.now])[n - c - 1] >= cfg.respawnReset
  {
    var ts := l.respawns + [e.now];
    var n, c := |l.respawns|, RespawnCount(cfg, g, e.now);
    assert c < n ==> ts[n - c] - ts[n - c - 1] >= cfg.respawnReset;
    forall i: nat {:trigger HasGap(ts, i, cfg.maxRespawns, cfg.respawnReset)} | i + cfg.maxRespawns < |ts|
      ensures HasGap(ts, i, cfg.maxRespawns, cfg.respawnReset)
    {
      if i + cfg.maxRespawns < n {
        GapStays(l.respawns, e.now, i, cfg.maxRespawns, cfg.respawnReset);
      } else {
        assert i <= n - c - 1 < i + cfg.maxRespawns;
      }
    }
  }

  /** The guard resets its count exactly when the latest respawn has survived. */
  lemma ResetMeansSurvived(cfg: Config, g: Guard, l: Log, clock: real, now: real)
    requires Remembers(cfg, g, l) && Ordered(l, clock) && clock <= now && (l.respawns != [] ==> g.Count() > 0)
    ensures Survived(cfg, l, now) <==> l.respawns != [] && RespawnCount(cfg, g, now) == 0
    ensures !Survived(cfg, l, now) ==> RespawnCount(cfg, g, now) == g.Count()
  {
  }

  lemma RespawnGuard(cfg: Config, g: Guard, e: Event)
    requires Respawns(cfg, g, e)
    ensures var g' := Apply(cfg, g, e);
            && g'.tracked.Some? && g'.Count() == RespawnCount(cfg, g, e.now) + 1
            && g'.Last() == (if e.outcome.PreSessionFailure? then e.later else e.now)
            && g'.sticky == (if e.outcome.Started? then false else g.sticky || e.outcome.PreSessionFailure?)
  {
  }

  lemma BurstGrows(renewed: seq<bool>, more: bool)
    ensures Burst(renewed + [more]) == if more then 1 else 1 + Burst(renewed)
  {
    assert (renewed + [more])[..|renewed|] == renewed;
  }

  lemma RespawnIsRemembered(cfg: Config, g: Guard, l: Log, clock: real, e: Event)
    requires Inv(cfg, g, l, clock) && InOrder(clock, e) && Respawns(cfg, g, e)
    ensures Remembers(cfg, Apply(cfg, g, e), Record(cfg, g, l, e))
    ensures Apply(cfg, g, e).Count() == RespawnCount(cfg, g, e.now) + 1
  {
    ResetMeansSurvived(cfg, g, l, clock, e.now);
    RespawnGuard(cfg, g, e);
    BurstGrows(l.renewed, l.respawns == [] || Survived(cfg, l, e.now));
    RespawnStamp(cfg, g, l, e);
  }

  lemma RespawnStamp(cfg: Config, g: Guard, l: Log, e: Event)
    requires Respawns(cfg, g, e)
    ensures var l' := Record(cfg, g, l, e);
            && l'.respawns == l.respawns + [e.now] && l'.respawns[|l.respawns|] == e.now
            && Stamp(l') == if e.outcome.PreSessionFailure? then e.later else e.now
  {
  }

  lemma RespawnIsOrdered(cfg: Config, g: Guard, l: Log, clock: real, e: Event)
    requires InOrder(clock, e) && Respawns(cfg, g, e)
    ensures Ordered(Record(cfg, g, l, e), Clock(e))
  {
    RespawnStamp(cfg, g, l, e);
  }

  lemma StepKeepsInv(cfg: Config, g: Guard, l: Log, clock: real, e: Event)
    requires Inv(cfg, g, l, clock) && InOrder(clock, e)
    ensures Inv(cfg, Apply(cfg, g, e), Record(cfg, g, l, e), Clock(e))
  {
    if Respawns(cfg, g, e) {
      RespawnKeepsPaced(cfg, g, l, clock, e);
      RespawnIsRemembered(cfg, g, l, clock, e);
      RespawnIsOrdered(cfg, g, l, clock, e);
    }
  }

  // ---- runs -----------------------------------------------------------------------------------

  function GuardAfter(cfg: Config, es: seq<Event>): Guard {
    if es == [] then FORGOTTEN
    else Apply(cfg, GuardAfter(cfg, es[..|es| - 1]), es[|es| - 1])
  }

  function LogAfter(cfg: Config, es: seq<Event>): Log {
    if es == [] then NOTHING
    else
      var before := es[..|es| - 1];
      Record(cfg, GuardAfter(cfg, before), LogAfter(cfg, before), es[|es| - 1])
  }

  /** When an event first reads the clock. */
  function Start(e: Event): real {
    match e
    case Restart(later) => later
    case FreshClaim(_, later) => later
    case HealPass(_, _, _, _, now, _, _) => now
  }

  ghost predicate OneClock(es: seq<Event>) {
    && (es != [] ==> InOrder(Start(es[0]), es[0]))
    && forall i {:trigger es[i]} :: 0 < i < |es| ==> InOrder(Clock(es[i - 1]), es[i])
  }

  lemma {:induction false} RunKeepsInv(cfg: Config, es: seq<Event>)
    requires OneClock(es)
    ensures Inv(cfg, GuardAfter(cfg, es), LogAfter(cfg, es), if es == [] then 0.0 else Clock(es[|es| - 1]))
  {
    if es == [] {
    } else {
      var before := es[..|es| - 1];
      assert OneClock(before) by {
        forall i {:trigger before[i]} | 0 < i < |before|
          ensures InOrder(Clock(before[i - 1]), before[i])
        {
          assert es[i] == before[i];
        }
      }
      RunKeepsInv(cfg, before);
      assert before != [] ==> InOrder(Clock(es[|es| - 2]), es[|es| - 1]);
      StepKeepsInv(cfg, GuardAfter(cfg, before), LogAfter(cfg, before),
                   if before == [] then Start(es[0]) else Clock(before[|before| - 1]), es[|es| - 1]);
    }
  }

  /** Whatever happens in between, among any `maxRespawns + 1` consecutive respawns within one claim
      and process two neighbours are at least `respawnReset` apart. */
  lemma RespawnsArePaced(cfg: Config, es: seq<Event>, i: nat)
    requires OneClock(es) && i + cfg.maxRespawns < |LogAfter(cfg, es).respawns|
    ensures HasGap(LogAfter(cfg, es).respawns, i, cfg.maxRespawns, cfg.respawnReset)
  {
    RunKeepsInv(cfg, es);
  }

  /** Pre-session failures in a row get at most `maxRespawns` respawns, however much time passes. */
  lemma PreSessionFailuresAreBounded(cfg: Config, es: seq<Event>)
    requires OneClock(es)
    ensures LogAfter(cfg, es).streak <= cfg.maxRespawns
  {
    RunKeepsInv(cfg, es);
  }

  /** The budget is spent: none of the latest `maxRespawns` respawns was followed by a survival before
      the next one. */
  ghost predicate Exhausted(cfg: Config, l: Log)
    requires |l.renewed| == |l.respawns|
  {
    var n := |l.respawns|;
    n >= cfg.maxRespawns && forall i :: n - cfg.maxRespawns < i < n ==> !l.renewed[i]
  }

  lemma {:induction false} BurstReaches(renewed: seq<bool>, m: nat)
    requires m > 0 && (renewed != [] ==> renewed[0])
    ensures Burst(renewed) >= m <==> |renewed| >= m && forall i :: |renewed| - m < i < |renewed| ==> !renewed[i]
  {
    if renewed == [] {
    } else {
      var n, front := |renewed|, renewed[..|renewed| - 1];
      if m > 1 && !renewed[n - 1] {
        BurstReaches(front, m - 1);
        assert forall i :: 0 <= i < n - 1 ==> front[i] == renewed[i];
      } else if m > 1 && n >= m {
        assert n - m < n - 1 < n;
      }
    }
  }

  lemma PrefixIsOneClock(es: seq<Event>, e: Event)
    requires OneClock(es + [e])
    ensures OneClock(es) && (es != [] ==> InOrder(Clock(es[|es| - 1]), e))
  {
    var all := es + [e];
    assert es != [] ==> all[0] == es[0];
    forall i {:trigger es[i]} | 0 < i < |es|
      ensures InOrder(Clock(es[i - 1]), es[i])
    {
      assert all[i] == es[i];
    }
    assert all[|es|] == e;
  }

  predicate FindsOrphan(e: Event) {
    e.HealPass? && !e.ownTerminal && e.orphan && e.configured && e.reachable
  }

  /** When the guard gives up, exactly: a pass that finds an orphan leaves it alone if and only if the
      budget is spent and the latest respawn has not survived. It has not while a pre-session failure is
      without a successful respawn, or while the respawn, the failure it ended in or a deferred pass
      since is less than `respawnReset` ago. */
  lemma RefusalMeansExhausted(cfg: Config, es: seq<Event>, e: Event)
    requires OneClock(es + [e]) && FindsOrphan(e)
    ensures var g, l := GuardAfter(cfg, es), LogAfter(cfg, es);
            |l.renewed| == |l.respawns| && (!Respawns(cfg, g, e) <==> Exhausted(cfg, l) && !Survived(cfg, l, e.now))
  {
    PrefixIsOneClock(es, e);
    RunKeepsInv(cfg, es);
    RefusalInState(cfg, GuardAfter(cfg, es), LogAfter(cfg, es), if es == [] then e.now else Clock(es[|es| - 1]), e);
  }

  lemma RefusalInState(cfg: Config, g: Guard, l: Log, clock: real, e: Event)
    requires FindsOrphan(e) && Inv(cfg, g, l, clock) && clock <= e.now
    ensures !Respawns(cfg, g, e) <==> Exhausted(cfg, l) && !Survived(cfg, l, e.now)
  {
    ResetMeansSurvived(cfg, g, l, clock, e.now);
    BurstIsSpent(cfg, g, l);
  }

  lemma BurstIsSpent(cfg: Config, g: Guard, l: Log)
    requires Remembers(cfg, g, l)
    ensures g.Count() >= cfg.maxRespawns <==> Exhausted(cfg, l)
  {
    if cfg.maxRespawns > 0 {
      BurstReaches(l.renewed, cfg.maxRespawns);
    }
  }

  /** The promise that a respawn which stayed up for `respawnReset` gets a fresh budget, and when it is
      kept: with the budget spent, exactly when no pass was deferred in the last `respawnReset`. */
  lemma SurvivorIsHealedIff(cfg: Config, es: seq<Event>, e: Event)
    requires OneClock(es + [e]) && FindsOrphan(e)
    requires var l := LogAfter(cfg, es);
             l.respawns != [] && !l.stuck && e.now - l.respawns[|l.respawns| - 1] >= cfg.respawnReset
    ensures var g, l := GuardAfter(cfg, es), LogAfter(cfg, es);
            |l.renewed| == |l.respawns|
            && (Respawns(cfg, g, e) <==> !Exhausted(cfg, l) || LongAgo(cfg, l.outage, e.now))
  {
    PrefixIsOneClock(es, e);
    RunKeepsInv(cfg, es);
    RefusalMeansExhausted(cfg, es, e);
  }

  lemma After(cfg: Config, es: seq<Event>, e: Event)
    ensures GuardAfter(cfg, es + [e]) == Apply(cfg, GuardAfter(cfg, es), e)
    ensures LogAfter(cfg, es + [e]) == Record(cfg, GuardAfter(cfg, es), LogAfter(cfg, es), e)
  {
    assert (es + [e])[..|es|] == es;
  }

  /** A pass at `now` that finds an orphan whose respawn, if any, starts. */
  function Pass(reachable: bool, now: real, outcome: Outcome): Event {
    HealPass(false, true, true, reachable, now, outcome, now)
  }

  lemma FourInOrder(a: Event, b: Event, c: Event, e: Event)
    requires InOrder(Start(a), a) && InOrder(Clock(a), b) && InOrder(Clock(b), c) && InOrder(Clock(c), e)
    ensures OneClock([a, b, c] + [e])
  {
    assert [a, b, c] + [e] == [a, b, c, e];
  }

  lemma AfterThree(cfg: Config, a: Event, b: Event, c: Event)
    ensures var g1, l1 := Apply(cfg, FORGOTTEN, a), Record(cfg, FORGOTTEN, NOTHING, a);
            var g2, l2 := Apply(cfg, g1, b), Record(cfg, g1, l1, b);
            GuardAfter(cfg, [a, b, c]) == Apply(cfg, g2, c) && LogAfter(cfg, [a, b, c]) == Record(cfg, g2, l2, c)
  {
    assert [] + [a] == [a] && [a] + [b] == [a, b] && [a, b] + [c] == [a, b, c];
    After(cfg, [], a);
    After(cfg, [a], b);
    After(cfg, [a, b], c);
  }

  /** An input that breaks the promise: the only respawn has been up for an hour, but the daemon was
      down ten seconds ago. */
  lemma SurvivorIsRefused() returns (cfg: Config, es: seq<Event>, e: Event)
    ensures cfg == Config(1, 60.0) && OneClock(es + [e]) && FindsOrphan(e) && e.now == 3610.0
    ensures LogAfter(cfg, es).respawns == [10.0] && !LogAfter(cfg, es).stuck
    ensures !Respawns(cfg, GuardAfter(cfg, es), e)
  {
    cfg, e := Config(1, 60.0), Pass(true, 3610.0, Started);
    var claim, respawn, outage := FreshClaim(Started, 0.0), Pass(true, 10.0, Started), Pass(false, 3600.0, Started);
    es := [claim, respawn, outage];
    FourInOrder(claim, respawn, outage, e);
    AfterThree(cfg, claim, respawn, outage);
    var g1, l1 := Apply(cfg, FORGOTTEN, claim), Record(cfg, FORGOTTEN, NOTHING, claim);
    assert g1 == FORGOTTEN && l1 == NOTHING;
    var g2, l2 := Apply(cfg, g1, respawn), Record(cfg, g1, l1, respawn);
    assert g2 == Guard(Some((1, 10.0)), false) && l2.respawns == [] + [10.0];
    assert GuardAfter(cfg, es) == Guard(Some((1, 3600.0)), false);
  }

  /** The task stays with the runner and the runner with its process. */
  predicate SameClaim(e: Event) {
    e.HealPass? && !e.ownTerminal
  }

  ghost predicate RefusedAfter(cfg: Config, es: seq<Event>, more: seq<Event>, e: Event) {
    OneClock(es + more + [e]) && FindsOrphan(e) ==> !Respawns(cfg, GuardAfter(cfg, es + more), e)
  }

  /** However the claim goes on, no pass respawns the task any more. */
  ghost predicate GivenUp(cfg: Config, es: seq<Event>) {
    forall more, e {:trigger RefusedAfter(cfg, es, more, e)} ::
      (forall k {:trigger more[k]} :: 0 <= k < |more| ==> SameClaim(more[k])) ==> RefusedAfter(cfg, es, more, e)
  }

  /** A spent guard that is sticky stays so through every pass. */
  lemma SpentStays(cfg: Config, g: Guard, e: Event)
    requires g.Count() >= cfg.maxRespawns && (g.sticky || cfg.maxRespawns == 0) && SameClaim(e)
    ensures !Respawns(cfg, g, e)
    ensures Apply(cfg, g, e).Count() == g.Count() && Apply(cfg, g, e).sticky == g.sticky
  {
  }

  lemma {:induction false} SpentStaysThrough(cfg: Config, es: seq<Event>, more: seq<Event>)
    requires GuardAfter(cfg, es).Count() >= cfg.maxRespawns
    requires GuardAfter(cfg, es).sticky || cfg.maxRespawns == 0
    requires forall k {:trigger more[k]} :: 0 <= k < |more| ==> SameClaim(more[k])
    ensures var g, g' := GuardAfter(cfg, es), GuardAfter(cfg, es + more);
            g'.Count() == g.Count() && g'.sticky == g.sticky
  {
    if more == [] {
      assert es + more == es;
    } else {
      var front, last := more[..|more| - 1], more[|more| - 1];
      SpentStaysThrough(cfg, es, front);
      assert es + more == es + front + [last];
      After(cfg, es + front, last);
      SpentStays(cfg, GuardAfter(cfg, es + front), last);
    }
  }

  /** When a task is given up for good, exactly: with the budget spent, when a pre-session failure has
      had no successful respawn since. Then no time and no later pass brings it back; otherwise a pass
      that comes late enough does. */
  lemma GivenUpIff(cfg: Config, es: seq<Event>)
    requires OneClock(es)
    ensures var l := LogAfter(cfg, es);
            |l.renewed| == |l.respawns|
            && (GivenUp(cfg, es) <==> cfg.maxRespawns == 0 || (Exhausted(cfg, l) && l.stuck))
  {
    var g, l := GuardAfter(cfg, es), LogAfter(cfg, es);
    RunKeepsInv(cfg, es);
    BurstIsSpent(cfg, g, l);
    if cfg.maxRespawns == 0 || (Exhausted(cfg, l) && l.stuck) {
      forall more: seq<Event>, e | forall k {:trigger more[k]} :: 0 <= k < |more| ==> SameClaim(more[k])
        ensures RefusedAfter(cfg, es, more, e)
      {
        SpentStaysThrough(cfg, es, more);
        if FindsOrphan(e) {
          SpentStays(cfg, GuardAfter(cfg, es + more), e);
        }
      }
    } else {
      LatePassRespawns(cfg, es);
    }
  }

  /** With budget left, or without such a failure, a pass that comes late enough respawns the task. */
  lemma LatePassRespawns(cfg: Config, es: seq<Event>)
    requires OneClock(es) && cfg.maxRespawns > 0
    requires GuardAfter(cfg, es).Count() < cfg.maxRespawns || !GuardAfter(cfg, es).sticky
    ensures !GivenUp(cfg, es)
  {
    RunKeepsInv(cfg, es);
    var g := GuardAfter(cfg, es);
    var clock := if es == [] then 0.0 else Clock(es[|es| - 1]);
    var now := if cfg.respawnReset > 0.0 then clock + cfg.respawnReset else clock;
    var e := Pass(true, now, Started);
    assert es + [] == es;
    OneClockExtends(es, e);
    assert Respawns(cfg, g, e);
    assert !RefusedAfter(cfg, es, [], e);
  }

  lemma OneClockExtends(es: seq<Event>, e: Event)
    requires OneClock(es) && InOrder(if es == [] then Start(e) else Clock(es[|es| - 1]), e)
    ensures OneClock(es + [e])
  {
    var all := es + [e];
    forall i {:trigger all[i]} | 0 < i < |all|
      ensures InOrder(Clock(all[i - 1]), all[i])
    {
      assert i < |es| ==> all[i] == es[i];
      assert all[i - 1] == es[i - 1];
    }
  }

  /** A pre-session failure holds a task back for good even when its latest respawn failed later, in a
      session. */
  lemma LateFailureStaysStuck() returns (cfg: Config, es: seq<Event>)
    ensures OneClock(es) && GivenUp(cfg, es)
    ensures LogAfter(cfg, es).streak == 0 && LogAfter(cfg, es).stuck && |LogAfter(cfg, es).respawns| == 2
  {
    cfg := Config(2, 60.0);
    var claim, early := FreshClaim(Started, 0.0), Pass(true, 10.0, PreSessionFailure);
    var late := Pass(true, 20.0, LateFailure);
    es := [claim, early, late];
    AfterThree(cfg, claim, early, late);
    var g1, l1 := Apply(cfg, FORGOTTEN, claim), Record(cfg, FORGOTTEN, NOTHING, claim);
    assert g1 == FORGOTTEN && l1 == NOTHING;
    var g2, l2 := Apply(cfg, g1, early), Record(cfg, g1, l1, early);
    assert g2 == Guard(Some((1, 10.0)), true) && |l2.respawns| == 1 && l2.stuck;
    assert GuardAfter(cfg, es) == Guard(Some((2, 20.0)), true);
    RunKeepsInv(cfg, es);
    BurstIsSpent(cfg, GuardAfter(cfg, es), LogAfter(cfg, es));
    GivenUpIff(cfg, es);
  }

  // ---- the runner -----------------------------------------------------------------------------

  /** What the runner knows of a task. */
  datatype TaskView = TaskView(
    id: Id, state: string, claimedBy: Option<string>, launchPaused: bool, containerFailed: bool, shell: bool)

  /** How a spawn call ended. After an infrastructure failure the runner probes for the session; a
      probe that raises counts as an existing session. */
  datatype SpawnResult = SpawnOk | InfrastructureFailure(sessionProbe: Option<bool>) | OtherFailure

  function Classify(shell: bool, r: SpawnResult): Outcome {
    match r
    case SpawnOk => Started
    case InfrastructureFailure(probe) => if !shell && probe == Some(false) then PreSessionFailure else LateFailure
    case OtherFailure => LateFailure
  }

  /** A failure counts as pre-session exactly when the runner saw a container command fail, for a task
      that has one, and then saw that there is no session. */
  lemma PreSessionIff(shell: bool, r: SpawnResult)
    ensures Classify(shell, r) == PreSessionFailure <==> !shell && r == InfrastructureFailure(Some(false))
    ensures Classify(shell, r) == Started <==> r == SpawnOk
  {
  }

  class Spawner {
    const runner: string
    const cfg: Config
    var respawns: map<Id, (nat, real)>
    var preSessionFailures: set<Id>

    /** A new process: the guard of every task is as after a `Restart`. */
    constructor (runner: string, cfg: Config)
      ensures this.runner == runner && this.cfg == cfg
      ensures forall id :: GuardOf(id) == FORGOTTEN
    {
      this.runner, this.cfg := runner, cfg;
      respawns, preSessionFailures := map[], {};
    }

    function GuardOf(id: Id): Guard
      reads this
    {
      Guard(if id in respawns then Some(respawns[id]) else None, id in preSessionFailures)
    }

    predicate IsOrphan(task: TaskView, hasSession: bool) {
      if task.claimedBy != Some(runner) || task.state in TERMINAL_LABELS then false
      else if task.launchPaused || task.containerFailed then false
      else if task.shell then false
      else !hasSession
    }

    /** The part of `_spawn`'s failure branch that touches the guard; says whether the task is latched
        as failed instead of being left for another pass. */
    method SpawnFailed(task: TaskView, r: SpawnResult, now: real) returns (latched: bool)
      requires !r.SpawnOk?
      modifies this
      ensures GuardOf(task.id) == AfterSpawn(cfg, old(GuardOf(task.id)), Classify(task.shell, r), now)
      ensures forall id :: id != task.id ==> GuardOf(id) == old(GuardOf(id))
      ensures latched <==>
                Classify(task.shell, r).LateFailure? || old(GuardOf(task.id)).Count() >= cfg.maxRespawns
    {
      var recoverable := !task.shell && r.InfrastructureFailure?;
      var sessionEstablished := true;
      if recoverable && r.sessionProbe.Some? {
        sessionEstablished := r.sessionProbe.value;
      }
      var count := if task.id in respawns then respawns[task.id].0 else 0;
      var exhausted := count >= cfg.maxRespawns;
      if recoverable && !sessionEstablished && !exhausted {
        preSessionFailures := preSessionFailures + {task.id};
        if count != 0 {
          respawns := respawns[task.id := (count, now)];
        }
        return false;
      }
      if recoverable && !sessionEstablished && exhausted {
        preSessionFailures := preSessionFailures + {task.id};
        respawns := respawns[task.id := (count, now)];
      }
      return true;
    }

    /** `spawn_one` once the claim is won: a new budget, then the first spawn. */
    method SpawnClaimed(task: TaskView, r: SpawnResult, later: real)
      modifies this
      ensures GuardOf(task.id) == Apply(cfg, old(GuardOf(task.id)), FreshClaim(Classify(task.shell, r), later))
      ensures forall id :: id != task.id ==> GuardOf(id) == old(GuardOf(id))
    {
      respawns := respawns - {task.id};
      preSessionFailures := preSessionFailures - {task.id};
      if !r.SpawnOk? {
        var _ := SpawnFailed(task, r, later);
      }
    }

    /** Budget left, or the latest respawn of the events so far has survived. */
    ghost predicate MayRespawn(es: seq<Event>, now: real) {
      var l := LogAfter(cfg, es);
      |l.renewed| == |l.respawns| && (!Exhausted(cfg, l) || Survived(cfg, l, now))
    }

    lemma PassRespawnsIff(es: seq<Event>, now: real)
      requires OneClock(es + [Pass(true, now, Started)])
      ensures RespawnCount(cfg, GuardAfter(cfg, es), now) < cfg.maxRespawns <==> MayRespawn(es, now)
    {
      RefusalMeansExhausted(cfg, es, Pass(true, now, Started));
    }

    /** One self-heal pass over one task. It respawns only an unfinished container task that this runner
        holds, that is neither paused nor failed, and that has no session; and such a one, on a pass with
        its configuration there and the daemon up, exactly when the events so far leave it a respawn. For
        any other task but its own finished one, the pass changes nothing. */
    method Heal(task: TaskView, hasSession: bool, configured: bool, reachable: bool, now: real,
                r: SpawnResult, later: real)
      returns (respawned: bool)
      modifies this
      ensures var e := HealPass(task.state in TERMINAL_LABELS && task.claimedBy == Some(runner),
                                IsOrphan(task, hasSession), configured, reachable, now, Classify(task.shell, r), later);
              && GuardOf(task.id) == Apply(cfg, old(GuardOf(task.id)), e)
              && (respawned <==> Respawns(cfg, old(GuardOf(task.id)), e))
      ensures forall id :: id != task.id ==> GuardOf(id) == old(GuardOf(id))
      ensures respawned ==>
                && !hasSession && task.claimedBy == Some(runner) && task.state != "COMPLETE" && task.state != "DROPPED"
                && !task.launchPaused && !task.containerFailed && !task.shell && configured && reachable
      ensures && !hasSession && task.claimedBy == Some(runner) && task.state != "COMPLETE" && task.state != "DROPPED"
              && !task.launchPaused && !task.containerFailed && !task.shell && configured && reachable ==>
                forall es {:trigger GuardAfter(cfg, es)} ::
                  OneClock(es + [Pass(true, now, Started)]) && GuardAfter(cfg, es) == old(GuardOf(task.id)) ==>
                    (respawned <==> MayRespawn(es, now))
      ensures hasSession || task.claimedBy != Some(runner) ==>
                || (respawns == old(respawns) && preSessionFailures == old(preSessionFailures))
                || (task.claimedBy == Some(runner) && (task.state == "COMPLETE" || task.state == "DROPPED")
                    && GuardOf(task.id) == FORGOTTEN)
    {
      if task.state in TERMINAL_LABELS && task.claimedBy == Some(runner) {
        respawns := respawns - {task.id};
        preSessionFailures := preSessionFailures - {task.id};
      }
      if !IsOrphan(task, hasSession) || !configured {
        return false;
      }
      if !reachable {
        if task.id in respawns {
          respawns := respawns[task.id := (respawns[task.id].0, now)];
        }
        return false;
      }
      forall es {:trigger GuardAfter(cfg, es)} | OneClock(es + [Pass(true, now, Started)])
        ensures RespawnCount(cfg, GuardAfter(cfg, es), now) < cfg.maxRespawns <==> MayRespawn(es, now)
      {
        PassRespawnsIff(es, now);
      }
      var count := RespawnCount(cfg, GuardOf(task.id), now);
      if count >= cfg.maxRespawns {
        return false;
      }
      respawns := respawns[task.id := (count + 1, now)];
      if r.SpawnOk? {
        preSessionFailures := preSessionFailures - {task.id};
      } else {
        var _ := SpawnFailed(task, r, later);
      }
      return true;
    }
  }
}
