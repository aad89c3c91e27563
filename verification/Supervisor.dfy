/** The redundancy supervisor over any number of connections (clause 10 of
    IEC 60870-5-104, redundant connections). */
module Supervisor {
  import opened Protocol
  import Link

  const BACKUP_CONNECTION_TIMEOUT := 5000
  const QUALITY_UPDATE_TIMEOUT := 500

  datatype ConnectionStatus = Started | NotConnected

  /** What one monitor round found. */
  datatype Finding = ActivatedOne | NothingOpen | ActiveLost | ActiveUp

  /** Monitor rounds so far, latest last. `published` tells whether the round published
      the non-topical quality update. */
  datatype Rounds = NoRounds | Then(past: Rounds, at: int, finding: Finding, published: bool)

  /** The locals of _monitoringThread and the two client fields it maintains, plus
      history: the connx_status change events and the rounds. */
  datatype Monitor = Monitor(
    active: Option<nat>, status: ConnectionStatus,
    qualityUpdateTimer: int, qualityUpdated: bool, firstConnected: bool,
    backupConnectionStartTime: int,
    changes: seq<ConnectionStatus>, rounds: Rounds)

  datatype System = System(links: seq<Link.Link>, autostart: seq<bool>, monitor: Monitor)

  function InitialMonitor(halNow: int): Monitor {
    Monitor(None, NotConnected, 0, false, false, halNow + BACKUP_CONNECTION_TIMEOUT, [], NoRounds)
  }

  function UpdateStatus(m: Monitor, s: ConnectionStatus): Monitor {
    if m.status == s then m else m.(status := s, changes := m.changes + [s])
  }

  /** The first connection that reports Connected. */
  function FirstOpen(links: seq<Link.Link>): (r: Option<nat>)
    ensures r.Some? ==> r.value < |links| && links[r.value].connected
    ensures forall j | 0 <= j < (if r.Some? then r.value else |links|) :: !links[j].connected
  {
    if links == [] then None
    else if links[0].connected then Some(0)
    else match FirstOpen(links[1..])
      case Some(i) => Some(i + 1)
      case None => None
  }

  function ConnectAll(links: seq<Link.Link>): (r: seq<Link.Link>)
    ensures |r| == |links|
    ensures forall i | 0 <= i < |links| ::
              r[i] == if Link.IsDisconnected(links[i]) then Link.Connect(links[i]) else links[i]
  {
    if links == [] then []
    else [if Link.IsDisconnected(links[0]) then Link.Connect(links[0]) else links[0]] + ConnectAll(links[1..])
  }

  /** Other open links are closed unless configured to stay open; `at` numbers the first one. */
  function DropUnneeded(links: seq<Link.Link>, autostart: seq<bool>, active: nat, at: nat): (r: seq<Link.Link>)
    requires at + |links| == |autostart|
    ensures |r| == |links|
    ensures forall i | 0 <= i < |links| ::
              r[i] == if at + i != active && links[i].connected && !autostart[at + i]
                      then Link.Disconnect(links[i]) else links[i]
  {
    if links == [] then []
    else [if at != active && links[0].connected && !autostart[at] then Link.Disconnect(links[0]) else links[0]]
         + DropUnneeded(links[1..], autostart, active, at + 1)
  }

  /** The quality branch of a round that found nothing open. */
  function WaitForQuality(m: Monitor, now: int): Monitor {
    var due := m.firstConnected && !m.qualityUpdated && m.qualityUpdateTimer != 0 && now > m.qualityUpdateTimer;
    m.(qualityUpdated := m.qualityUpdated || due,
       qualityUpdateTimer :=
         if m.firstConnected && !m.qualityUpdated && m.qualityUpdateTimer == 0
         then now + QUALITY_UPDATE_TIMEOUT else m.qualityUpdateTimer,
       rounds := Then(m.rounds, now, NothingOpen, due))
  }

  predicate Valid(s: System) {
    |s.autostart| == |s.links| && (s.monitor.active.Some? ==> s.monitor.active.value < |s.links|)
  }

  /** One round of _monitoringThread; `halNow` is the wall clock, `now` the monotonic one. */
  function Round(s: System, now: int, halNow: int): System
    requires Valid(s)
  {
    var m := s.monitor;
    var restart := halNow + BACKUP_CONNECTION_TIMEOUT;
    match m.active
    case None => (
      match FirstOpen(s.links)
      case Some(i) =>
        s.(links := s.links[i := Link.Activate(s.links[i])],
           monitor := UpdateStatus(m, Started).(
             active := Some(i), firstConnected := true, qualityUpdateTimer := 0, qualityUpdated := false,
             backupConnectionStartTime := restart, rounds := Then(m.rounds, now, ActivatedOne, false)))
      case None =>
        var m1 := UpdateStatus(WaitForQuality(m, now), NotConnected);
        if halNow > m.backupConnectionStartTime
        then s.(links := ConnectAll(s.links), monitor := m1.(backupConnectionStartTime := restart))
        else s.(monitor := m1))
    case Some(a) =>
      var m1 := m.(backupConnectionStartTime := restart);
      if !s.links[a].connected
      then s.(monitor := m1.(active := None, rounds := Then(m.rounds, now, ActiveLost, false)))
      else s.(links := DropUnneeded(s.links, s.autostart, a, 0),
              monitor := m1.(rounds := Then(m.rounds, now, ActiveUp, false)))
  }

  // ---- runs ----

  /** Every event carries its time. Only the monitor activates and connects links. */
  datatype Event = OnLink(link: nat, now: int, event: Link.Event) | MonitorRound(now: int, halNow: int)

  predicate Enabled(s: System, e: Event) {
    match e
    case OnLink(i, now, ev) =>
      && i < |s.links| && Link.Enabled(s.links[i], ev)
      && !ev.Activated? && !ev.ConnectRequested? && (ev.ThreadRound? ==> ev.now == now)
    case MonitorRound(_, _) => Valid(s)
  }

  function Step(s: System, e: Event): System
    requires Enabled(s, e)
  {
    match e
    case OnLink(i, _, ev) => s.(links := s.links[i := Link.Step(s.links[i], ev)])
    case MonitorRound(now, halNow) => Round(s, now, halNow)
  }

  /** The status is the last change event, and change events alternate, STARTED first. */
  predicate Alternating(changes: seq<ConnectionStatus>, status: ConnectionStatus) {
    && (forall k | 0 <= k < |changes| :: changes[k] == if k % 2 == 0 then Started else NotConnected)
    && status == (if |changes| % 2 == 0 then NotConnected else Started)
  }

  /** Only the active connection is both connected and ACTIVE. */
  ghost predicate SingleActive(s: System) {
    && Valid(s)
    && (forall i | 0 <= i < |s.links| :: Link.Inv(s.links[i]))
    && (forall i | 0 <= i < |s.links| ::
          s.links[i].connected && s.links[i].conState == Link.Active ==> s.monitor.active == Some(i))
    && (s.monitor.active.Some? ==> s.monitor.status == Started)
    && Alternating(s.monitor.changes, s.monitor.status)
  }

  lemma LinkStepKeepsSingleActive(s: System, e: Event)
    requires SingleActive(s) && Enabled(s, e) && e.OnLink?
    ensures SingleActive(Step(s, e))
  {
    Link.StepKeepsInv(s.links[e.link], e.event);
  }

  lemma UpdateAlternates(m: Monitor, st: ConnectionStatus)
    requires Alternating(m.changes, m.status)
    ensures Alternating(UpdateStatus(m, st).changes, st)
    ensures UpdateStatus(m, st).status == st
  {
  }

  lemma SearchKeepsSingleActive(s: System, now: int, halNow: int)
    requires SingleActive(s) && s.monitor.active == None
    ensures SingleActive(Round(s, now, halNow))
  {
    UpdateAlternates(s.monitor, Started);
    UpdateAlternates(WaitForQuality(s.monitor, now), NotConnected);
  }

  lemma WatchKeepsSingleActive(s: System, now: int, halNow: int)
    requires SingleActive(s) && s.monitor.active.Some?
    ensures SingleActive(Round(s, now, halNow))
  {
  }

  lemma RoundKeepsSingleActive(s: System, now: int, halNow: int)
    requires SingleActive(s)
    ensures SingleActive(Round(s, now, halNow))
  {
    if s.monitor.active == None {
      SearchKeepsSingleActive(s, now, halNow);
    } else {
      WatchKeepsSingleActive(s, now, halNow);
    }
  }

  lemma StepKeepsSingleActive(s: System, e: Event)
    requires SingleActive(s) && Enabled(s, e)
    ensures SingleActive(Step(s, e))
  {
    if e.OnLink? {
      LinkStepKeepsSingleActive(s, e);
    } else {
      RoundKeepsSingleActive(s, e.now, e.halNow);
    }
  }

  ghost predicate Feasible(s: System, es: seq<Event>)
    decreases es
  {
    es == [] || (Enabled(s, es[0]) && Feasible(Step(s, es[0]), es[1..]))
  }

  ghost function Run(s: System, es: seq<Event>): System
    requires Feasible(s, es)
    decreases es
  {
    if es == [] then s else Run(Step(s, es[0]), es[1..])
  }

  predicate IsInitial(s: System) {
    && |s.autostart| == |s.links|
    && (forall i | 0 <= i < |s.links| :: s.links[i] == Link.Initial(s.links[i].connect))
    && s.monitor == InitialMonitor(s.monitor.backupConnectionStartTime - BACKUP_CONNECTION_TIMEOUT)
  }

  lemma {:induction false} RunKeepsSingleActive(s: System, es: seq<Event>)
    requires SingleActive(s) && Feasible(s, es)
    ensures SingleActive(Run(s, es))
    decreases es
  {
    if es != [] {
      StepKeepsSingleActive(s, es[0]);
      RunKeepsSingleActive(Step(s, es[0]), es[1..]);
    }
  }

  /** At most one connection is connected and ACTIVE; it is the active connection; a chosen
      active connection means status STARTED; status changes alternate, STARTED first. */
  lemma AtMostOneActiveLink(s: System, es: seq<Event>, i: nat, j: nat)
    requires IsInitial(s) && Feasible(s, es)
    requires i < |Run(s, es).links| && j < |Run(s, es).links|
    requires Run(s, es).links[i].connected && Run(s, es).links[i].conState == Link.Active
    ensures Run(s, es).monitor.active == Some(i) && Run(s, es).monitor.status == Started
    ensures Run(s, es).links[j].connected && Run(s, es).links[j].conState == Link.Active ==> i == j
  {
    RunKeepsSingleActive(s, es);
  }

  lemma StatusChangesAlternate(s: System, es: seq<Event>)
    requires IsInitial(s) && Feasible(s, es)
    ensures Alternating(Run(s, es).monitor.changes, Run(s, es).monitor.status)
    ensures Run(s, es).monitor.active.Some? ==> Run(s, es).monitor.status == Started
  {
    RunKeepsSingleActive(s, es);
  }

  // ---- what a round finds, does and reports ----

  /** A round finds what is there: the first connected link when none is chosen, nothing when
      none is connected, else whether the chosen one still is. */
  lemma FindingsAreTrue(s: System, now: int, halNow: int)
    requires Valid(s)
    ensures var t := Step(s, MonitorRound(now, halNow)).monitor;
            var open := exists i :: 0 <= i < |s.links| && s.links[i].connected;
            && t.rounds.Then? && t.rounds.past == s.monitor.rounds && t.rounds.at == now
            && t.rounds.finding == (
                 match s.monitor.active
                 case None => if open then ActivatedOne else NothingOpen
                 case Some(a) => if s.links[a].connected then ActiveUp else ActiveLost)
            && (t.active.Some? <==> t.rounds.finding in {ActivatedOne, ActiveUp})
            && (t.rounds.finding == NothingOpen ==> t.status == NotConnected)
            && (t.rounds.finding == ActivatedOne ==> t.status == Started)
            && (t.rounds.finding in {ActiveUp, ActiveLost} ==> t.status == s.monitor.status)
  {
  }

  /** Whether the client is in operation after these rounds: from an activation up to the
      next round that finds nothing open. */
  predicate IsStarted(rounds: Rounds) {
    rounds.Then? && !rounds.finding.NothingOpen?
  }

  /** The status changes that the findings call for: STARTED with an activation out of an
      outage, NOT CONNECTED with the first round of an outage that finds nothing open. */
  function Announcements(rounds: Rounds): seq<ConnectionStatus> {
    match rounds
    case NoRounds => []
    case Then(past, _, finding, _) =>
      Announcements(past)
      + (if finding.ActivatedOne? && !IsStarted(past) then [Started]
         else if finding.NothingOpen? && IsStarted(past) then [NotConnected] else [])
  }

  ghost predicate IsReported(s: System) {
    && Valid(s)
    && s.monitor.status == (if IsStarted(s.monitor.rounds) then Started else NotConnected)
    && s.monitor.changes == Announcements(s.monitor.rounds)
    && (s.monitor.active.Some? ==> IsStarted(s.monitor.rounds))
  }

  lemma StepKeepsReported(s: System, e: Event)
    requires IsReported(s) && Enabled(s, e)
    ensures IsReported(Step(s, e))
  {
  }

  lemma {:induction false} RunKeepsReported(s: System, es: seq<Event>)
    requires IsReported(s) && Feasible(s, es)
    ensures IsReported(Run(s, es))
    decreases es
  {
    if es != [] {
      StepKeepsReported(s, es[0]);
      RunKeepsReported(Step(s, es[0]), es[1..]);
    }
  }

  /** In every run the reported status is NOT CONNECTED exactly before the first activation and
      whenever the latest round found nothing open; and each outage in which a round finds
      nothing open is announced exactly once, in the first such round, as is its end. */
  lemma StatusIsExact(s: System, es: seq<Event>)
    requires IsInitial(s) && Feasible(s, es)
    ensures var m := Run(s, es).monitor;
            && (m.status == NotConnected <==> m.rounds.NoRounds? || m.rounds.finding == NothingOpen)
            && m.changes == Announcements(m.rounds)
  {
    RunKeepsReported(s, es);
  }

  /** The link that a round activates is the first connected one; an INACTIVE one gets
      STARTDT and is ACTIVE; the other links are not touched. */
  lemma FirstOpenIsActivated(s: System, now: int, halNow: int)
    requires Valid(s) && s.monitor.active == None
    requires exists i :: 0 <= i < |s.links| && s.links[i].connected
    ensures var t := Step(s, MonitorRound(now, halNow));
            && |t.links| == |s.links| && t.monitor.active.Some?
            && var a := t.monitor.active.value;
               && a < |s.links| && s.links[a].connected && (forall j | 0 <= j < a :: !s.links[j].connected)
               && (forall j | 0 <= j < |s.links| && j != a :: t.links[j] == s.links[j])
               && (s.links[a].conState == Link.Inactive && s.links[a].handle.Open? ==>
                     t.links[a].conState == Link.Active && t.links[a].handle == Link.Open(true))
               && t.monitor.backupConnectionStartTime == halNow + 5000
  {
  }

  /** Every link that is neither connected nor connecting is asked to connect by a round that
      finds nothing open more than five seconds after the clock was set, which restarts it; any
      other such round touches no link. */
  lemma BackupsAreConnectedExactly(s: System, now: int, halNow: int)
    requires Valid(s) && s.monitor.active == None && forall i | 0 <= i < |s.links| :: !s.links[i].connected
    ensures var t := Step(s, MonitorRound(now, halNow));
            if halNow > s.monitor.backupConnectionStartTime then
              && |t.links| == |s.links| && t.monitor.backupConnectionStartTime == halNow + 5000
              && forall i | 0 <= i < |s.links| ::
                   t.links[i] == if s.links[i].connecting then s.links[i]
                                 else s.links[i].(connect := true, disconnect := false)
            else t.links == s.links && t.monitor.backupConnectionStartTime == s.monitor.backupConnectionStartTime
  {
  }

  /** While the chosen link is up, every other link that is open and need not stay open is
      closed: the next round of its thread leaves it without a handle. The chosen link, closed
      links and those that stay open are not touched. */
  lemma UnneededLinksAreClosed(s: System, now: int, halNow: int, i: nat, at: int, env: Link.RoundInput, close: bool)
    requires Valid(s) && s.monitor.active.Some? && s.links[s.monitor.active.value].connected
    requires i < |s.links| && Link.Inv(s.links[i])
    ensures var t := Step(s, MonitorRound(now, halNow));
            && |t.links| == |s.links| && t.monitor.active == s.monitor.active
            && t.monitor.backupConnectionStartTime == halNow + 5000
            && (if s.monitor.active != Some(i) && s.links[i].connected && !s.autostart[i]
                then var l := Step(t, OnLink(i, at, Link.ThreadRound(at, env, close))).links[i];
                     l.handle == Link.NoHandle && !l.connected && !l.connect && l.created == l.destroyed
                else t.links[i] == s.links[i])
  {
    var t := Step(s, MonitorRound(now, halNow));
    if s.monitor.active != Some(i) && s.links[i].connected && !s.autostart[i] {
      assert Link.Inv(t.links[i]) && t.links[i].disconnect && !t.links[i].connect;
      Link.DisconnectEndsTheConnection(t.links[i], at, env, close);
    }
  }

  /** A chosen link that was lost is given up, and no link is touched. */
  lemma LostLinkIsGivenUp(s: System, now: int, halNow: int)
    requires Valid(s) && s.monitor.active.Some? && !s.links[s.monitor.active.value].connected
    ensures var t := Step(s, MonitorRound(now, halNow));
            t.links == s.links && t.monitor.active == None && t.monitor.backupConnectionStartTime == halNow + 5000
  {
  }
}
