/** What the whole client promises, over any number of connections and any failover between
    them: sound FINISHED, exact lists of unanswered points, conserved requests, one
    interrogating connection, and no overlooked reconnection. */
module FleetTheorems {
  import opened Protocol
  import opened Exchange
  import Session
  import opened Fleet
  import FlagProofs
  import HistoryProofs
  import Link
  import PendingProofs
  import QualityProofs
  import RequestProofs
  import RequestTheorems
  import SessionLink
  import Supervisor
  import SupervisorTiming
  import SyncProofs

  lemma InitialKeepsInv(f: Fleet)
    requires IsInitial(f)
    ensures Inv(f)
  {
    forall i | 0 <= i < |f.members| ensures Link.Inv(Links(f.members)[i]) && !Links(f.members)[i].connected {
      assert Whole(f).links[i] == Link.Initial(Whole(f).links[i].connect);
    }
  }

  lemma RunFromStart(cfg: Session.Config, f: Fleet, es: seq<Event>, i: nat)
    requires IsInitial(f) && Feasible(cfg, f, es) && i < |f.members|
    ensures Inv(f) && Inv(Run(cfg, f, es)) && i < |Run(cfg, f, es).members|
    ensures var seen := SeenRun(cfg, f, es, i);
            var s := Session.Initial(f.members[i].link.connect, f.clock);
            && Session.Feasible(cfg, s, seen)
            && Face(Run(cfg, f, es), i) == Session.Run(cfg, s, seen)
  {
    InitialKeepsInv(f);
    EveryConnectionRunsItsSession(cfg, f, es, i);
  }

  lemma {:induction false} RunKeepsInv(cfg: Session.Config, f: Fleet, es: seq<Event>)
    requires Inv(f) && Feasible(cfg, f, es)
    ensures Inv(Run(cfg, f, es)) && |Run(cfg, f, es).members| == |f.members|
    decreases es
  {
    if es != [] {
      StepKeepsInv(cfg, f, es[0]);
      RunKeepsInv(cfg, Step(cfg, f, es[0]), es[1..]);
    }
  }

  /** Interrogations that connection `i` has sent so far. */
  function AskedBy(f: Fleet, i: nat): nat
    requires i < |f.members|
  {
    RequestProofs.Settle(f.members[i].history).asked
  }

  // ---- FINISHED ----

  /** The client reports FINISHED only when its active connection receives an ACT_TERM for a
      confirmed request of its own; for a request of the current session, exactly when the
      confirmation was positive and no other cause followed. Neither the supervisor nor any
      other connection can bring it about. */
  lemma ClientFinishedIsSound(cfg: Session.Config, f: Fleet, es: seq<Event>, e: Event)
    requires IsInitial(f) && Feasible(cfg, f, es) && Enabled(Run(cfg, f, es), e)
    ensures var g := Run(cfg, f, es);
            && (g.status != Session.GiFinished && Step(cfg, g, e).status == Session.GiFinished ==>
                  && e.OnMember? && RequestTheorems.IsActTerm(e.event)
                  && g.monitor.active == Some(e.i)
                  && var p := RequestProofs.Settle(g.members[e.i].history).phase;
                     p.Running? && (p.current ==> p.good))
            && (e.OnMember? && RequestTheorems.IsActTerm(e.event) ==>
                  var p := RequestProofs.Settle(g.members[e.i].history).phase;
                  p.Running? && p.current ==> (Step(cfg, g, e).status == Session.GiFinished <==> p.good))
  {
    var g := Run(cfg, f, es);
    if e.OnMember? {
      InitialKeepsInv(f);
      RunKeepsInv(cfg, f, es);
      RunFromStart(cfg, f, es, e.i);
      assert Links(g.members)[e.i] == g.members[e.i].link;
      RequestTheorems.FinishedIsSound(
        cfg, f.members[e.i].link.connect, f.clock, SeenRun(cfg, f, es, e.i), e.event);
      if e.event.Received? {
        assert Link.Inv(Links(g.members)[e.i]);
        ActiveIsChosen(g, e.i);
      }
      hide Session.Step, Session.Run;
    }
  }

  /** Connection `i` is active before every step, and no STARTDT_CON arrives on it. */
  predicate StaysActive(cfg: Session.Config, f: Fleet, es: seq<Event>, i: nat)
    requires Feasible(cfg, f, es)
    decreases es
  {
    es == [] ||
    (&& i < |f.members| && f.members[i].link.conState == Link.Active
     && !(es[0].OnMember? && es[0].i == i && es[0].event.StartDtConReceived?)
     && StaysActive(cfg, Step(cfg, f, es[0]), es[1..], i))
  }

  lemma ActiveStepKeepsSession(cfg: Session.Config, f: Fleet, e: Event, i: nat)
    requires Inv(f) && Enabled(f, e) && i < |f.members| && f.members[i].link.conState == Link.Active
    requires !(e.OnMember? && e.i == i && e.event.StartDtConReceived?)
    ensures RequestTheorems.KeepsSession(Face(f, i), Seen(cfg, f, e, i))
  {
    StepsAreSeen(cfg, f, e, i);
    assert Link.Inv(Links(f.members)[i]);
    if e.MonitorRound? { RoundOnLink(f, e.now, e.halNow, i); }
    hide Session.Step, Ordered, Supervisor.Round, Links;
  }

  lemma {:induction false} ActiveRunKeepsSession(cfg: Session.Config, f: Fleet, es: seq<Event>, i: nat)
    requires Inv(f) && Feasible(cfg, f, es) && i < |f.members| && StaysActive(cfg, f, es, i)
    ensures RequestTheorems.SessionLasts(cfg, Face(f, i), SeenRun(cfg, f, es, i))
    decreases es
  {
    if es != [] {
      ActiveStepKeepsSession(cfg, f, es[0], i);
      StepKeepsInv(cfg, f, es[0]);
      StepsAreSeen(cfg, f, es[0], i);
      hide Seen, Session.Step, Session.Enabled, Face, RequestTheorems.KeepsSession;
      ActiveRunKeepsSession(cfg, Step(cfg, f, es[0]), es[1..], i);
      var seen := SeenRun(cfg, f, es, i);
      assert seen[0] == Seen(cfg, f, es[0], i) && seen[1..] == SeenRun(cfg, Step(cfg, f, es[0]), es[1..], i);
    }
  }

  /** A request refused on a connection of the client is not reported FINISHED for as long as
      that connection stays active in its session, whatever arrives on any connection: FINISHED
      needs a new request on it. */
  lemma ClientRefusedRequestNeverFinishes(
      cfg: Session.Config, f: Fleet, before: seq<Event>, later: seq<Event>, i: nat)
    requires IsInitial(f) && Feasible(cfg, f, before) && Feasible(cfg, Run(cfg, f, before), later)
    requires i < |f.members| && i < |Run(cfg, f, before).members|
    requires var m := Run(cfg, f, before).members[i];
             m.link.conState == Link.Active
             && RequestProofs.Settle(m.history).phase == RequestProofs.Running(true, false)
    requires StaysActive(cfg, Run(cfg, f, before), later, i)
    ensures i < |Run(cfg, Run(cfg, f, before), later).members|
    ensures var g := Run(cfg, f, before);
            Run(cfg, g, later).status == Session.GiFinished ==> AskedBy(Run(cfg, g, later), i) > AskedBy(g, i)
  {
    var g := Run(cfg, f, before);
    RunFromStart(cfg, f, before, i);
    EveryConnectionRunsItsSession(cfg, g, later, i);
    ActiveRunKeepsSession(cfg, g, later, i);
    RequestTheorems.FailedRequestNeverFinishes(
      cfg, f.members[i].link.connect, f.clock, SeenRun(cfg, f, before, i), SeenRun(cfg, g, later, i));
    hide Session.Run, Session.Feasible;
  }

  // ---- unanswered points ----

  predicate PendingInv(cfg: Session.Config, f: Fleet) {
    var b := PendingProofs.Review(cfg, f.log);
    f.pending == PendingProofs.Unanswered(cfg, b) && b.allExact
  }

  lemma StepKeepsPending(cfg: Session.Config, f: Fleet, e: Event)
    requires PendingInv(cfg, f) && Enabled(f, e)
    ensures PendingInv(cfg, Step(cfg, f, e))
  {
    if e.OnMember? {
      hide Session.Step;
      PendingProofs.StepKeepsInv(cfg, Wide(f, e.i), e.event);
      HistoryProofs.StepIsBlind(cfg, Wide(f, e.i), Face(f, e.i), e.event);
    }
  }

  lemma {:induction false} RunKeepsPending(cfg: Session.Config, f: Fleet, es: seq<Event>)
    requires PendingInv(cfg, f) && Feasible(cfg, f, es)
    ensures PendingInv(cfg, Run(cfg, f, es))
    decreases es
  {
    if es != [] {
      hide PendingInv, Step;
      StepKeepsPending(cfg, f, es[0]);
      RunKeepsPending(cfg, Step(cfg, f, es[0]), es[1..]);
    }
  }

  /** Across all connections and failovers, the pending list is the configured station group
      in (CA, IOA) order minus the points answered, on any connection, since the latest cycle
      began on any connection; and every publication of invalid quality listed exactly the
      points unanswered at that moment. */
  lemma ClientPendingIsExact(cfg: Session.Config, f: Fleet, es: seq<Event>)
    requires IsInitial(f) && Feasible(cfg, f, es)
    ensures var g := Run(cfg, f, es);
            var b := PendingProofs.Review(cfg, g.log);
            && g.pending == PendingProofs.Unanswered(cfg, b)
            && b.allExact
            && (WellKeyed(cfg.defs) && cfg.station == StationGroup(cfg.defs) ==> InAddressOrder(g.pending))
  {
    RunKeepsPending(cfg, f, es);
    if WellKeyed(cfg.defs) && cfg.station == StationGroup(cfg.defs) {
      EnumerateIsExact(cfg.defs, d => InStationGroup(d));
      PendingProofs.MinusKeepsOrder(cfg.station, PendingProofs.Review(cfg, Run(cfg, f, es).log).seen);
    }
  }

  /** In every run of the client, an event that ends the interrogation on a connection - a
      negative ACT_CON, ACT_TERM, a failing cause, a deadline, a refused address - publishes as
      invalid exactly the points that no connection has been answered since the latest cycle
      began, and no other event publishes any. */
  lemma ClientPublishesUnanswered(cfg: Session.Config, f: Fleet, es: seq<Event>, e: Event)
    requires IsInitial(f) && Feasible(cfg, f, es) && Enabled(Run(cfg, f, es), e)
    ensures var g := Run(cfg, f, es);
            var h := Step(cfg, g, e);
            var unanswered := PendingProofs.Unanswered(cfg, PendingProofs.Review(cfg, h.log));
            QualityProofs.Invalidations(h.log) ==
              QualityProofs.Invalidations(g.log) +
              if e.OnMember? && QualityProofs.EndsInterrogation(cfg, Face(g, e.i), e.event) && unanswered != []
              then [unanswered] else []
  {
    RunKeepsPending(cfg, f, es);
    var g := Run(cfg, f, es);
    StepKeepsPending(cfg, g, e);
    if e.OnMember? {
      hide Session.Step, Run, Feasible;
      QualityProofs.EndsPublishUnanswered(cfg, Wide(g, e.i), e.event);
      HistoryProofs.StepIsBlind(cfg, Wide(g, e.i), Face(g, e.i), e.event);
    }
  }

  // ---- conservation on every connection ----

  /** On every connection of every client run, requests, clock synchronization commands and
      request flags are conserved, and a closed gate holds back all interrogations. */
  lemma EveryConnectionConserves(cfg: Session.Config, f: Fleet, es: seq<Event>, i: nat)
    requires IsInitial(f) && Feasible(cfg, f, es) && i < |f.members|
    ensures i < |Run(cfg, f, es).members|
    ensures var m := Run(cfg, f, es).members[i];
            var requests := RequestProofs.Settle(m.history);
            var clocks := SyncProofs.Review(cfg, m.history);
            var flags := FlagProofs.Review(m.history);
            && requests.asked == requests.terminated + requests.timedOut + requests.overwritten
                                 + (if m.gi.req != 0 then 1 else 0)
            && (m.gi.req != 0 ==> m.gi.inProgress)
            && clocks.sent == clocks.confirmed + (if m.sync.commandSent then 1 else 0)
            && (Session.SyncEnabled(cfg) ==> clocks.gateKept)
            && flags.raised == flags.served + (if m.gi.requested then 1 else 0)
  {
    RunFromStart(cfg, f, es, i);
    var s, seen := Session.Initial(f.members[i].link.connect, f.clock), SeenRun(cfg, f, es, i);
    RequestProofs.RunKeepsInv(cfg, s, seen);
    SyncProofs.RunKeepsInv(cfg, s, seen);
    FlagProofs.RunKeepsInv(cfg, s, seen);
  }

  // ---- one interrogating connection ----

  /** Whatever step of whatever run: an interrogation leaves only on the active connection. */
  lemma OnlyTheActiveConnectionAsks(cfg: Session.Config, f: Fleet, es: seq<Event>, e: Event, i: nat)
    requires IsInitial(f) && Feasible(cfg, f, es) && Enabled(Run(cfg, f, es), e)
    requires i < |f.members|
    ensures i < |Run(cfg, f, es).members| && i < |Step(cfg, Run(cfg, f, es), e).members|
    ensures var g := Run(cfg, f, es);
            AskedBy(Step(cfg, g, e), i) != AskedBy(g, i) ==> e.OnMember? && e.i == i && g.monitor.active == Some(i)
  {
    var g := Run(cfg, f, es);
    InitialKeepsInv(f);
    RunKeepsInv(cfg, f, es);
    if e.OnMember? && e.i == i {
      RunFromStart(cfg, f, es, i);
      var s, seen := Session.Initial(f.members[i].link.connect, f.clock), SeenRun(cfg, f, es, i);
      RequestProofs.RunKeepsInv(cfg, s, seen);
      if g.members[i].link.conState == Link.Active {
        ActiveIsChosen(g, i);
      } else {
        IdleConnectionsAskNothing(cfg, Face(g, i), e.event);
      }
    }
  }

  lemma IdleConnectionsAskNothing(cfg: Session.Config, s: Session.State, ev: Session.Event)
    requires RequestProofs.Inv(cfg, s, s.clock) && s.clock >= 0 && Session.Enabled(s, ev)
    requires s.link.conState != Link.Active
    ensures RequestProofs.Settle(Session.Step(cfg, s, ev).history).asked == RequestProofs.Settle(s.history).asked
  {
    assert RequestProofs.Inv(cfg, s, ev.now);
    match ev
    case ThreadRound(now, env) =>
      hide Session.Periodics, Link.Switch, Link.ServeDisconnect;
    case Received(now, a, isActive) =>
      hide Session.Receive;
      RequestProofs.ReceiveKeeps(cfg, s, a, now, isActive);
    case _ =>
      hide Session.Round, Session.Receive;
  }

  // ---- lost links are noticed ----

  /** Monitor rounds less than ten seconds apart, counted from `last`. */
  predicate RoundsInTime(es: seq<Event>, last: int)
    decreases es
  {
    es == [] ||
    if es[0].MonitorRound? then es[0].now < last + Link.RECONNECT_DELAY && RoundsInTime(es[1..], es[0].now)
    else RoundsInTime(es[1..], last)
  }

  function LastRound(es: seq<Event>, last: int): int
    decreases es
  {
    if es == [] then last else LastRound(es[1..], if es[0].MonitorRound? then es[0].now else last)
  }

  ghost predicate TimedInv(f: Fleet, last: int) {
    SupervisorTiming.TimedInv(SupervisorTiming.Timed(Whole(f), f.clock, last))
  }

  lemma MemberStepKeepsTimedInv(cfg: Session.Config, f: Fleet, i: nat, ev: Session.Event, last: int)
    requires TimedInv(f, last) && Enabled(f, OnMember(i, ev))
    ensures TimedInv(Step(cfg, f, OnMember(i, ev)), last)
  {
    var s, g := Face(f, i), Step(cfg, f, OnMember(i, ev));
    var t := SupervisorTiming.Timed(Whole(f), f.clock, last);
    hide Session.Step, SupervisorTiming.TimedInv, Links;
    SessionLink.SessionRefinesLink(cfg, s, ev);
    match SessionLink.Project(cfg, s, ev)
    case Some(le) =>
      var on := Supervisor.OnLink(i, ev.now, le);
      ProjectionIsLocal(cfg, s, ev);
      assert Whole(g).links == Supervisor.Step(Whole(f), on).links;
      SupervisorTiming.TimedStepKeepsInv(t, on);
    case None =>
      assert Whole(g).links == Whole(f).links;
      WaitingKeepsTimedInv(t, ev.now);
  }

  lemma WaitingKeepsTimedInv(t: SupervisorTiming.Timed, now: int)
    requires SupervisorTiming.TimedInv(t) && now >= t.clock
    ensures SupervisorTiming.TimedInv(t.(clock := now))
  {
  }

  lemma {:induction false} RunKeepsTimedInv(cfg: Session.Config, f: Fleet, es: seq<Event>, last: int)
    requires TimedInv(f, last) && Feasible(cfg, f, es) && RoundsInTime(es, last)
    ensures TimedInv(Run(cfg, f, es), LastRound(es, last))
    decreases es
  {
    if es != [] {
      var g := Step(cfg, f, es[0]);
      match es[0] {
        case OnMember(i, ev) =>
          MemberStepKeepsTimedInv(cfg, f, i, ev, last);
          RunKeepsTimedInv(cfg, g, es[1..], last);
        case MonitorRound(now, halNow) =>
          RoundKeepsTimedInv(cfg, f, now, halNow, last);
          RunKeepsTimedInv(cfg, g, es[1..], now);
      }
    }
  }

  lemma RoundKeepsTimedInv(cfg: Session.Config, f: Fleet, now: int, halNow: int, last: int)
    requires TimedInv(f, last) && Enabled(f, MonitorRound(now, halNow)) && now < last + Link.RECONNECT_DELAY
    ensures TimedInv(Step(cfg, f, MonitorRound(now, halNow)), now)
  {
    var t := SupervisorTiming.Timed(Whole(f), f.clock, last);
    var g := Step(cfg, f, MonitorRound(now, halNow));
    hide SupervisorTiming.TimedInv, Supervisor.Round, Links, WithLinks;
    SupervisorTiming.TimedStepKeepsInv(t, Supervisor.MonitorRound(now, halNow));
    RoundKeepsAutostart(Whole(f), now, halNow);
    assert Whole(g).links == Supervisor.Round(Whole(f), now, halNow).links;
  }

  /** With monitor rounds less than 10000 ms apart, every round finds an active connection
      that reports Connected in session, whatever the sessions did in between: a link that
      dropped and re-opened was noticed and will be activated again. */
  lemma NoReconnectionIsOverlooked(cfg: Session.Config, f: Fleet, es: seq<Event>, now: int, halNow: int)
    requires IsInitial(f) && Feasible(cfg, f, es) && RoundsInTime(es, f.clock)
    requires Enabled(Run(cfg, f, es), MonitorRound(now, halNow))
    requires now < LastRound(es, f.clock) + 10000
    ensures var g := Run(cfg, f, es);
            g.monitor.active.Some? && g.members[g.monitor.active.value].link.connected ==>
              g.members[g.monitor.active.value].link.conState == Link.Active
  {
    InitialKeepsInv(f);
    RunKeepsTimedInv(cfg, f, es, f.clock);
  }
}
