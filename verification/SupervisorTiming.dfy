/** Timed properties of supervisor and connections together: re-activation after a lost
    link, and the quality update of an outage. */
module SupervisorTiming {
  import opened Protocol
  import Link
  import opened Supervisor

  const RECONNECT_DELAY := Link.RECONNECT_DELAY

  // ---- a link that dropped and re-opened is noticed ----

  /** The system with the time of its latest event and of its latest monitor round. */
  datatype Timed = Timed(system: System, clock: int, lastRound: int)

  /** Time does not run backwards and monitor rounds are less than `gap` ms apart. */
  predicate InTime(t: Timed, e: Event, gap: nat) {
    && Enabled(t.system, e)
    && t.clock <= e.now
    && (e.MonitorRound? ==> e.now < t.lastRound + gap)
  }

  function TimedStep(t: Timed, e: Event): Timed
    requires Enabled(t.system, e)
  {
    Timed(Step(t.system, e), e.now, if e.MonitorRound? then e.now else t.lastRound)
  }

  ghost predicate TimelyRun(t: Timed, es: seq<Event>, gap: nat)
    decreases es
  {
    es == [] || (InTime(t, es[0], gap) && TimelyRun(TimedStep(t, es[0]), es[1..], gap))
  }

  ghost function TimedRun(t: Timed, es: seq<Event>, gap: nat): Timed
    requires TimelyRun(t, es, gap)
    decreases es
  {
    if es == [] then t else TimedRun(TimedStep(t, es[0]), es[1..], gap)
  }

  /** The active link is in session, or was lost after the latest monitor round and cannot
      be open again before the reconnect delay, counted from that round, has passed. */
  predicate Accounted(l: Link.Link, clock: int, lastRound: int) {
    || l.conState == Link.Active
    || clock >= lastRound + RECONNECT_DELAY
    || (&& !l.connected
        && (|| l.conState == Link.Closed
            || (l.conState == Link.WaitForReconnect && l.delayExpiration >= lastRound + RECONNECT_DELAY)))
  }

  ghost predicate TimedInv(t: Timed) {
    && SingleActive(t.system)
    && t.lastRound <= t.clock
    && (t.system.monitor.active.Some? ==>
          Accounted(t.system.links[t.system.monitor.active.value], t.clock, t.lastRound))
  }

  lemma LinkStepStaysAccounted(l: Link.Link, e: Link.Event, clock: int, lastRound: int, now: int)
    requires Link.Inv(l) && Link.Enabled(l, e) && Accounted(l, clock, lastRound)
    requires lastRound <= clock <= now && (e.ThreadRound? ==> e.now == now)
    requires !e.Activated? && !e.ConnectRequested?
    ensures Accounted(Link.Step(l, e), now, lastRound)
  {
  }

  lemma RoundReaccounts(t: Timed, e: Event)
    requires TimedInv(t) && InTime(t, e, RECONNECT_DELAY) && e.MonitorRound?
    ensures TimedInv(TimedStep(t, e))
  {
    RoundKeepsSingleActive(t.system, e.now, e.halNow);
  }

  lemma TimedStepKeepsInv(t: Timed, e: Event)
    requires TimedInv(t) && InTime(t, e, RECONNECT_DELAY)
    ensures TimedInv(TimedStep(t, e))
  {
    if e.OnLink? {
      LinkStepKeepsSingleActive(t.system, e);
      if t.system.monitor.active == Some(e.link) {
        LinkStepStaysAccounted(t.system.links[e.link], e.event, t.clock, t.lastRound, e.now);
      }
    } else {
      RoundReaccounts(t, e);
    }
  }

  lemma {:induction false} TimedRunKeepsInv(t: Timed, es: seq<Event>)
    requires TimedInv(t) && TimelyRun(t, es, RECONNECT_DELAY)
    ensures TimedInv(TimedRun(t, es, RECONNECT_DELAY))
    decreases es
  {
    if es != [] {
      TimedStepKeepsInv(t, es[0]);
      TimedRunKeepsInv(TimedStep(t, es[0]), es[1..]);
    }
  }

  /** With monitor rounds less than 10000 ms apart, every monitor round finds an active
      connection that reports Connected in session: no dropped and re-opened link is
      overlooked. */
  lemma ConnectedActiveLinkIsInSession(s: System, t0: int, es: seq<Event>, round: Event)
    requires IsInitial(s) && round.MonitorRound?
    requires TimelyRun(Timed(s, t0, t0), es, RECONNECT_DELAY)
    requires InTime(TimedRun(Timed(s, t0, t0), es, RECONNECT_DELAY), round, RECONNECT_DELAY)
    ensures var r := TimedRun(Timed(s, t0, t0), es, RECONNECT_DELAY).system;
            r.monitor.active.Some? && r.links[r.monitor.active.value].connected ==>
              r.links[r.monitor.active.value].conState == Link.Active
  {
    TimedRunKeepsInv(Timed(s, t0, t0), es);
  }

  // ---- the bound is tight, and a missed re-opening is never repaired ----

  const ROUND := Link.RoundInput(false, false, true)

  function Thread(now: int): Event {
    OnLink(0, now, Link.ThreadRound(now, ROUND, false))
  }

  /** One link, activated by the monitor round at time 0, lost at once, re-opened after
      exactly the reconnect delay. */
  const SLOW_MONITOR := [
    Thread(0), OnLink(0, 0, Link.ConnectionOpened), MonitorRound(0, 0),
    OnLink(0, 0, Link.ConnectionClosed), Thread(0), Thread(10000), Thread(10000),
    OnLink(0, 10000, Link.ConnectionOpened), MonitorRound(10000, 10000)]

  const ONE_LINK := System([Link.Initial(true)], [true], InitialMonitor(0))

  /** A system whose active connection is open but not in session. */
  ghost predicate Overlooked(s: System) {
    && SingleActive(s)
    && s.monitor.active.Some?
    && s.links[s.monitor.active.value].conState == Link.Inactive
    && !s.links[s.monitor.active.value].disconnect
  }

  lemma TenSecondsAreTooSlow()
    ensures IsInitial(ONE_LINK)
    ensures TimelyRun(Timed(ONE_LINK, 0, 0), SLOW_MONITOR, RECONNECT_DELAY + 1)
    ensures var t := TimedRun(Timed(ONE_LINK, 0, 0), SLOW_MONITOR, RECONNECT_DELAY + 1);
            Overlooked(t.system) && t.clock == t.lastRound == 10000
  {
    var t0 := Timed(ONE_LINK, 0, 0);
    var t3 := AfterFirstRound(t0);
    var t8 := AfterReopening(t3);
    var t9 := LastRoundOverlooks(t8);
    assert SLOW_MONITOR[3..][5..] == [MonitorRound(10000, 10000)];
    RunSplit(t3, SLOW_MONITOR[3..], 5, RECONNECT_DELAY + 1);
    RunSplit(t0, SLOW_MONITOR, 3, RECONNECT_DELAY + 1);
  }

  lemma LastRoundOverlooks(t8: Timed) returns (t9: Timed)
    requires t8.clock == 10000 && t8.lastRound == 0
    requires |t8.system.links| == 1 && t8.system.autostart == [true]
    requires t8.system.monitor.active == Some(0) && t8.system.monitor.status == Started
    requires t8.system.monitor.changes == [Started]
    requires t8.system.links[0] ==
             Link.Link(Link.Inactive, true, false, true, false, false, Link.Open(false), 20000, 2, 1)
    ensures TimelyRun(t8, [MonitorRound(10000, 10000)], RECONNECT_DELAY + 1)
    ensures t9 == TimedRun(t8, [MonitorRound(10000, 10000)], RECONNECT_DELAY + 1)
    ensures Overlooked(t9.system) && t9.clock == t9.lastRound == 10000
  {
    var last := [MonitorRound(10000, 10000)];
    assert last[1..] == [];
    t9 := TimedStep(t8, last[0]);
    assert TimelyRun(t9, [], RECONNECT_DELAY + 1) && TimedRun(t9, [], RECONNECT_DELAY + 1) == t9;
    assert t9.system.links[0] == t8.system.links[0];
  }

  lemma AfterFirstRound(t0: Timed) returns (t3: Timed)
    requires t0 == Timed(ONE_LINK, 0, 0)
    ensures TimelyRun(t0, SLOW_MONITOR[..3], RECONNECT_DELAY + 1)
    ensures t3 == TimedRun(t0, SLOW_MONITOR[..3], RECONNECT_DELAY + 1)
    ensures t3.clock == 0 && t3.lastRound == 0 && |t3.system.links| == 1 && t3.system.autostart == [true]
    ensures t3.system.monitor.active == Some(0) && t3.system.monitor.status == Started
    ensures t3.system.monitor.changes == [Started]
    ensures t3.system.links[0] ==
            Link.Link(Link.Active, true, false, true, false, true, Link.Open(true), 10000, 1, 0)
  {
    var es := SLOW_MONITOR[..3];
    var t1 := TimedStep(t0, es[0]);
    var t2 := TimedStep(t1, es[1]);
    t3 := TimedStep(t2, es[2]);
    assert es[1..][1..] == [es[2]] && [es[2]][1..] == [];
    assert t3 == TimedStep(t2, [es[2]][0]);
    assert TimelyRun(t3, [], RECONNECT_DELAY + 1) && TimedRun(t3, [], RECONNECT_DELAY + 1) == t3;
    assert TimelyRun(t2, [es[2]], RECONNECT_DELAY + 1) && TimedRun(t2, [es[2]], RECONNECT_DELAY + 1) == t3;
    assert TimelyRun(t1, es[1..], RECONNECT_DELAY + 1) && TimedRun(t1, es[1..], RECONNECT_DELAY + 1) == t3;
  }

  lemma AfterReopening(t3: Timed) returns (t8: Timed)
    requires t3.clock == 0 && t3.lastRound == 0 && |t3.system.links| == 1 && t3.system.autostart == [true]
    requires t3.system.monitor.active == Some(0)
    requires t3.system.links[0] ==
             Link.Link(Link.Active, true, false, true, false, true, Link.Open(true), 10000, 1, 0)
    ensures TimelyRun(t3, SLOW_MONITOR[3..][..5], RECONNECT_DELAY + 1)
    ensures t8 == TimedRun(t3, SLOW_MONITOR[3..][..5], RECONNECT_DELAY + 1)
    ensures t8.clock == 10000 && t8.lastRound == 0
    ensures t8.system.monitor == t3.system.monitor && t8.system.autostart == [true] && |t8.system.links| == 1
    ensures t8.system.links[0] ==
            Link.Link(Link.Inactive, true, false, true, false, false, Link.Open(false), 20000, 2, 1)
  {
    var es := SLOW_MONITOR[3..][..5];
    var t4 := TimedStep(t3, es[0]);
    var t5 := TimedStep(t4, es[1]);
    var t6 := TimedStep(t5, es[2]);
    var t7 := TimedStep(t6, es[3]);
    t8 := TimedStep(t7, es[4]);
    assert es[1..][1..][1..][1..] == [es[4]] && [es[4]][1..] == [];
    assert t8 == TimedStep(t7, [es[4]][0]);
    assert TimelyRun(t8, [], RECONNECT_DELAY + 1) && TimedRun(t8, [], RECONNECT_DELAY + 1) == t8;
    assert TimelyRun(t7, [es[4]], RECONNECT_DELAY + 1) && TimedRun(t7, [es[4]], RECONNECT_DELAY + 1) == t8;
    assert TimelyRun(t6, es[1..][1..][1..], RECONNECT_DELAY + 1)
        && TimedRun(t6, es[1..][1..][1..], RECONNECT_DELAY + 1) == t8;
    assert TimelyRun(t5, es[1..][1..], RECONNECT_DELAY + 1) && TimedRun(t5, es[1..][1..], RECONNECT_DELAY + 1) == t8;
    assert TimelyRun(t4, es[1..], RECONNECT_DELAY + 1) && TimedRun(t4, es[1..], RECONNECT_DELAY + 1) == t8;
  }

  lemma {:induction false} RunSplit(t: Timed, es: seq<Event>, k: nat, gap: nat)
    requires k <= |es| && TimelyRun(t, es[..k], gap)
    requires TimelyRun(TimedRun(t, es[..k], gap), es[k..], gap)
    ensures TimelyRun(t, es, gap)
    ensures TimedRun(t, es, gap) == TimedRun(TimedRun(t, es[..k], gap), es[k..], gap)
    decreases k
  {
    if k == 0 {
      assert es[..0] == [] && es[0..] == es;
    } else {
      assert es[..k][1..] == es[1..][..k - 1] && es[k..] == es[1..][k - 1..];
      RunSplit(TimedStep(t, es[0]), es[1..], k - 1, gap);
    }
  }

  /** An active connection that reports Connected is in session. */
  ghost predicate InSessionIfConnected(s: System) {
    s.monitor.active.Some? && s.monitor.active.value < |s.links| && s.links[s.monitor.active.value].connected ==>
      s.links[s.monitor.active.value].conState == Link.Active
  }

  /** In every run from the start of the client with monitor rounds less than `gap` ms apart,
      the next round finds a connected active connection in session. */
  ghost predicate Notices(gap: nat) {
    forall s, t0, es, round: Event |
      IsInitial(s) && round.MonitorRound? && TimelyRun(Timed(s, t0, t0), es, gap)
      && InTime(TimedRun(Timed(s, t0, t0), es, gap), round, gap) ::
      InSessionIfConnected(TimedRun(Timed(s, t0, t0), es, gap).system)
  }

  lemma {:induction false} ShorterGapsAreStricter(t: Timed, es: seq<Event>, short: nat, long: nat)
    requires short <= long && TimelyRun(t, es, short)
    ensures TimelyRun(t, es, long) && TimedRun(t, es, long) == TimedRun(t, es, short)
    decreases es
  {
    if es != [] {
      hide Step, Enabled;
      ShorterGapsAreStricter(TimedStep(t, es[0]), es[1..], short, long);
    }
  }

  /** No reconnection is overlooked, in any run over any number of connections, if and only if
      monitor rounds are less than 10000 ms apart. */
  lemma ReconnectionsAreNoticedExactly(gap: nat)
    ensures Notices(gap) <==> gap <= 10000
  {
    if gap <= RECONNECT_DELAY {
      forall s, t0, es, round: Event |
        IsInitial(s) && round.MonitorRound? && TimelyRun(Timed(s, t0, t0), es, gap)
        && InTime(TimedRun(Timed(s, t0, t0), es, gap), round, gap)
        ensures InSessionIfConnected(TimedRun(Timed(s, t0, t0), es, gap).system)
      {
        ShorterGapsAreStricter(Timed(s, t0, t0), es, gap, RECONNECT_DELAY);
        ConnectedActiveLinkIsInSession(s, t0, es, round);
      }
    } else {
      TenSecondsAreTooSlow();
      var t := Timed(ONE_LINK, 0, 0);
      ShorterGapsAreStricter(t, SLOW_MONITOR, RECONNECT_DELAY + 1, gap);
      var u := TimedRun(t, SLOW_MONITOR, gap);
      var round := MonitorRound(10000, 10000);
      assert InTime(u, round, gap) && !InSessionIfConnected(u.system);
    }
  }

  /** Neither a library close nor a disconnect request on this link. */
  predicate LeavesAlone(e: Event, link: nat) {
    e.OnLink? && e.link == link ==> !e.event.ConnectionClosed? && !e.event.DisconnectRequested?
  }

  /** Once overlooked, the link stays active, open and out of session for as long as it is
      not closed, however often the monitor looks. */
  lemma {:induction false} OverlookedStaysOverlooked(s: System, es: seq<Event>)
    requires Overlooked(s) && Feasible(s, es)
    requires forall k | 0 <= k < |es| :: LeavesAlone(es[k], s.monitor.active.value)
    ensures Overlooked(Run(s, es)) && Run(s, es).monitor.active == s.monitor.active
    decreases es
  {
    if es != [] {
      assert LeavesAlone(es[0], s.monitor.active.value);
      OverlookedStep(s, es[0]);
      OverlookedStaysOverlooked(Step(s, es[0]), es[1..]);
    }
  }

  lemma OverlookedStep(s: System, e: Event)
    requires Overlooked(s) && Enabled(s, e) && LeavesAlone(e, s.monitor.active.value)
    ensures Overlooked(Step(s, e)) && Step(s, e).monitor.active == s.monitor.active
  {
    StepKeepsSingleActive(s, e);
  }

  // ---- one quality update per outage ----

  predicate EverActivated(r: Rounds) {
    r.Then? && (r.finding == ActivatedOne || EverActivated(r.past))
  }

  /** The first round since the latest activation that found nothing open. */
  function FirstIdle(r: Rounds): Option<int> {
    if r.NoRounds? || r.finding == ActivatedOne then None
    else if FirstIdle(r.past).Some? then FirstIdle(r.past)
    else if r.finding == NothingOpen && EverActivated(r.past) then Some(r.at)
    else None
  }

  /** The latest round found nothing open, more than 500 ms after the first such round. */
  predicate LateRound(r: Rounds) {
    r.Then? && r.finding == NothingOpen && FirstIdle(r).Some? && r.at > FirstIdle(r).value + 500
  }

  /** Some round of the current outage was late. */
  predicate LateBefore(r: Rounds) {
    r.Then? && r.finding != ActivatedOne && (LateRound(r) || LateBefore(r.past))
  }

  function UpdatesInOutage(r: Rounds): nat {
    if r.NoRounds? || r.finding == ActivatedOne then 0
    else UpdatesInOutage(r.past) + if r.published then 1 else 0
  }

  /** The update is published in exactly the first late round of each outage. */
  predicate PublishedOnTime(r: Rounds) {
    r.Then? ==> PublishedOnTime(r.past) && (r.published <==> LateRound(r) && !LateBefore(r.past))
  }

  predicate QualityInv(m: Monitor) {
    && PublishedOnTime(m.rounds)
    && m.firstConnected == EverActivated(m.rounds)
    && m.qualityUpdated == LateBefore(m.rounds)
    && (FirstIdle(m.rounds).Some? ==> FirstIdle(m.rounds).value >= 0)
    && m.qualityUpdateTimer ==
         (if FirstIdle(m.rounds).Some? then FirstIdle(m.rounds).value + 500 else 0)
  }

  lemma {:induction false} OutageShape(r: Rounds)
    ensures !EverActivated(r) ==> FirstIdle(r) == None
    ensures FirstIdle(r) == None ==> !LateBefore(r)
  {
    if r.Then? {
      OutageShape(r.past);
    }
  }

  lemma WaitKeepsQuality(m: Monitor, now: int)
    requires QualityInv(m) && now >= 0
    ensures QualityInv(WaitForQuality(m, now))
  {
    OutageShape(m.rounds);
  }

  /** What the quality update depends on. */
  predicate SameQuality(m: Monitor, n: Monitor) {
    && n.rounds == m.rounds && n.firstConnected == m.firstConnected
    && n.qualityUpdated == m.qualityUpdated && n.qualityUpdateTimer == m.qualityUpdateTimer
  }

  function Activated(m: Monitor, now: int): Monitor {
    m.(firstConnected := true, qualityUpdateTimer := 0, qualityUpdated := false,
       rounds := Then(m.rounds, now, ActivatedOne, false))
  }

  function Watched(m: Monitor, now: int, finding: Finding): Monitor {
    m.(rounds := Then(m.rounds, now, finding, false))
  }

  lemma RoundQuality(s: System, now: int, halNow: int)
    requires Valid(s)
    ensures var m, n := s.monitor, Round(s, now, halNow).monitor;
            || SameQuality(Activated(m, now), n)
            || SameQuality(WaitForQuality(m, now), n)
            || SameQuality(Watched(m, now, ActiveLost), n)
            || SameQuality(Watched(m, now, ActiveUp), n)
  {
    hide FirstOpen, ConnectAll, DropUnneeded, WaitForQuality;
  }

  lemma WatchingKeepsQuality(m: Monitor, now: int, finding: Finding)
    requires QualityInv(m) && finding != NothingOpen
    ensures QualityInv(Activated(m, now))
    ensures finding != ActivatedOne ==> QualityInv(Watched(m, now, finding))
  {
    OutageShape(m.rounds);
  }

  lemma StepKeepsQuality(s: System, e: Event)
    requires Enabled(s, e) && e.now >= 0 && QualityInv(s.monitor)
    ensures QualityInv(Step(s, e).monitor)
  {
    match e
    case MonitorRound(now, halNow) =>
      RoundQuality(s, now, halNow);
      WaitKeepsQuality(s.monitor, now);
      WatchingKeepsQuality(s.monitor, now, ActiveLost);
      WatchingKeepsQuality(s.monitor, now, ActiveUp);
      hide Round, WaitForQuality, PublishedOnTime, LateBefore, EverActivated, FirstIdle;
    case OnLink(_, _, _) =>
  }

  lemma {:induction false} RunKeepsQuality(s: System, es: seq<Event>)
    requires Feasible(s, es) && QualityInv(s.monitor) && forall k | 0 <= k < |es| :: es[k].now >= 0
    ensures QualityInv(Run(s, es).monitor)
    decreases es
  {
    if es != [] {
      StepKeepsQuality(s, es[0]);
      RunKeepsQuality(Step(s, es[0]), es[1..]);
    }
  }

  lemma {:induction false} OncePerOutage(r: Rounds)
    requires PublishedOnTime(r)
    ensures UpdatesInOutage(r) == if LateBefore(r) then 1 else 0
    ensures !EverActivated(r) ==> !LateBefore(r) && FirstIdle(r) == None
  {
    if r.Then? {
      OncePerOutage(r.past);
    }
  }

  /** In every run: at most one non-topical update between two activations, none before the
      first activation, each published in the first round that finds nothing open more than
      500 ms after the outage's first such round, and none missing once such a round occurred. */
  lemma OneQualityUpdatePerOutage(s: System, es: seq<Event>)
    requires IsInitial(s) && Feasible(s, es) && forall k | 0 <= k < |es| :: es[k].now >= 0
    ensures var r := Run(s, es).monitor.rounds;
            && PublishedOnTime(r)
            && UpdatesInOutage(r) <= 1
            && (UpdatesInOutage(r) == 1 <==> LateBefore(r))
            && (!EverActivated(r) ==> UpdatesInOutage(r) == 0)
  {
    RunKeepsQuality(s, es);
    OncePerOutage(Run(s, es).monitor.rounds);
  }
}
