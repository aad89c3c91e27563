/** The whole client: any number of connections, each with its session, the supervisor that
    activates them, and the GI status and pending list they share. Every connection sees the
    others only as `Elsewhere` steps, so whatever is proved of one session's runs holds for
    every connection of the client. */
module Fleet {
  import opened Protocol
  import opened Exchange
  import opened Session
  import Link
  import SessionLink
  import Supervisor

  /** What one connection owns, and its history. */
  datatype Member = Member(link: Link.Link, sync: Sync, gi: Gi, history: History)

  /** `log` is the history of the client as a whole. */
  datatype Fleet = Fleet(
    members: seq<Member>, autostart: seq<bool>, monitor: Supervisor.Monitor,
    status: GiStatus, pending: seq<Definition>, clock: int, log: History)

  /** The session that connection `i` runs. */
  function Face(f: Fleet, i: nat): State
    requires i < |f.members|
  {
    var m := f.members[i];
    State(m.link, m.sync, m.gi, f.status, f.pending, f.clock, m.history)
  }

  /** The same session with the history of the whole client. */
  function Wide(f: Fleet, i: nat): State
    requires i < |f.members|
  {
    Face(f, i).(history := f.log)
  }

  function Links(ms: seq<Member>): (r: seq<Link.Link>)
    ensures |r| == |ms| && forall i | 0 <= i < |ms| :: r[i] == ms[i].link
  {
    if ms == [] then [] else [ms[0].link] + Links(ms[1..])
  }

  function WithLinks(ms: seq<Member>, ls: seq<Link.Link>): (r: seq<Member>)
    requires |ls| == |ms|
    ensures |r| == |ms| && forall i | 0 <= i < |ms| :: r[i] == ms[i].(link := ls[i])
  {
    if ms == [] then [] else [ms[0].(link := ls[0])] + WithLinks(ms[1..], ls[1..])
  }

  /** What the supervisor works on. */
  function Whole(f: Fleet): Supervisor.System {
    Supervisor.System(Links(f.members), f.autostart, f.monitor)
  }

  datatype Event = OnMember(i: nat, event: Session.Event) | MonitorRound(now: int, halNow: int)

  /** Only the supervisor activates and connects; ASDUs arrive only after STARTDT was sent;
      requests from the north side go to the active connection. */
  predicate Enabled(f: Fleet, e: Event) {
    match e
    case OnMember(i, ev) =>
      && i < |f.members| && Session.Enabled(Face(f, i), ev)
      && !ev.Activated? && !ev.ConnectRequested? && !ev.Elsewhere?
      && (ev.Received? ==> f.members[i].link.handle == Link.Open(true) && ev.isActive == (f.monitor.active == Some(i)))
      && (ev.GiRequested? ==> f.monitor.active == Some(i))
    case MonitorRound(now, _) => Supervisor.Valid(Whole(f)) && f.clock <= now < 0x8000_0000_0000_0000
  }

  function Step(cfg: Config, f: Fleet, e: Event): Fleet
    requires Enabled(f, e)
  {
    match e
    case OnMember(i, ev) =>
      var t := Session.Step(cfg, Face(f, i), ev);
      f.(members := f.members[i := Member(t.link, t.sync, t.gi, t.history)],
         status := t.status, pending := t.pending, clock := ev.now,
         log := Session.Step(cfg, Wide(f, i), ev).history)
    case MonitorRound(now, halNow) =>
      var r := Supervisor.Round(Whole(f), now, halNow);
      f.(members := WithLinks(f.members, LinksAfter(f, now, halNow)), monitor := r.monitor, clock := now)
  }

  /** A round of the supervisor keeps the number of connections. */
  function LinksAfter(f: Fleet, now: int, halNow: int): (r: seq<Link.Link>)
    requires Supervisor.Valid(Whole(f))
    ensures |r| == |f.members| && r == Supervisor.Round(Whole(f), now, halNow).links
  {
    Supervisor.Round(Whole(f), now, halNow).links
  }

  function Run(cfg: Config, f: Fleet, es: seq<Event>): Fleet
    requires Feasible(cfg, f, es)
    decreases es
  {
    if es == [] then f else Run(cfg, Step(cfg, f, es[0]), es[1..])
  }

  predicate Feasible(cfg: Config, f: Fleet, es: seq<Event>)
    decreases es
  {
    es == [] || (Enabled(f, es[0]) && Feasible(cfg, Step(cfg, f, es[0]), es[1..]))
  }

  predicate IsInitial(f: Fleet) {
    && f.clock >= 0 && Supervisor.IsInitial(Whole(f)) && f.status == GiIdle && f.pending == [] && f.log == Nothing
    && forall i | 0 <= i < |f.members| :: Face(f, i) == Session.Initial(f.members[i].link.connect, f.clock)
  }

  // ---- one active session ----

  ghost predicate Inv(f: Fleet) {
    Supervisor.SingleActive(Whole(f))
  }

  lemma MemberStepKeepsInv(cfg: Config, f: Fleet, i: nat, ev: Session.Event)
    requires Inv(f) && Enabled(f, OnMember(i, ev))
    ensures Inv(Step(cfg, f, OnMember(i, ev)))
  {
    var s, g := Face(f, i), Step(cfg, f, OnMember(i, ev));
    hide Session.Step, Supervisor.SingleActive, Links;
    SessionLink.SessionRefinesLink(cfg, s, ev);
    match SessionLink.Project(cfg, s, ev)
    case Some(le) =>
      var on := Supervisor.OnLink(i, ev.now, le);
      ProjectionIsLocal(cfg, s, ev);
      assert Whole(g).links == Supervisor.Step(Whole(f), on).links;
      Supervisor.LinkStepKeepsSingleActive(Whole(f), on);
    case None =>
      assert Whole(g).links == Whole(f).links;
  }

  lemma ProjectionIsLocal(cfg: Config, s: State, ev: Session.Event)
    requires !ev.Activated? && !ev.ConnectRequested? && SessionLink.Project(cfg, s, ev).Some?
    ensures var le := SessionLink.Project(cfg, s, ev).value;
            !le.Activated? && !le.ConnectRequested? && (le.ThreadRound? ==> le.now == ev.now)
  {
    hide SessionLink.Closes, SessionLink.FailsInterrogation;
  }

  lemma StepKeepsInv(cfg: Config, f: Fleet, e: Event)
    requires Inv(f) && Enabled(f, e)
    ensures Inv(Step(cfg, f, e))
  {
    match e
    case OnMember(i, ev) => MemberStepKeepsInv(cfg, f, i, ev);
    case MonitorRound(now, halNow) =>
      hide Supervisor.SingleActive, Supervisor.Round, Links, WithLinks;
      Supervisor.RoundKeepsSingleActive(Whole(f), now, halNow);
      assert Whole(Step(cfg, f, e)).links == Supervisor.Round(Whole(f), now, halNow).links;
      RoundKeepsAutostart(Whole(f), now, halNow);
  }

  lemma RoundKeepsAutostart(s: Supervisor.System, now: int, halNow: int)
    requires Supervisor.Valid(s)
    ensures Supervisor.Round(s, now, halNow).autostart == s.autostart
  {
  }

  // ---- what a connection sees of a step ----

  /** The request of the supervisor to one connection, if any. */
  function Ordered(f: Fleet, now: int, halNow: int, i: nat): Session.Event
    requires Supervisor.Valid(Whole(f)) && i < |f.members|
  {
    var l := f.members[i].link;
    match f.monitor.active
    case None => (
      match Supervisor.FirstOpen(Links(f.members))
      case Some(k) => if k == i then Activated(now) else Elsewhere(now, f.status, f.pending)
      case None =>
        if halNow > f.monitor.backupConnectionStartTime && Link.IsDisconnected(l)
        then ConnectRequested(now) else Elsewhere(now, f.status, f.pending))
    case Some(a) =>
      if Links(f.members)[a].connected && i != a && l.connected && !f.autostart[i]
      then DisconnectRequested(now) else Elsewhere(now, f.status, f.pending)
  }

  function Seen(cfg: Config, f: Fleet, e: Event, i: nat): Session.Event
    requires Enabled(f, e) && i < |f.members|
  {
    match e
    case OnMember(j, ev) =>
      if j == i then ev else Elsewhere(ev.now, Step(cfg, f, e).status, Step(cfg, f, e).pending)
    case MonitorRound(now, halNow) => Ordered(f, now, halNow, i)
  }

  /** A connection out of session leaves the shared status and pending list alone. */
  lemma OnlySessionsShare(cfg: Config, s: State, ev: Session.Event)
    requires s.link.conState != Link.Active && !ev.Received? && !ev.Elsewhere?
    ensures Session.Step(cfg, s, ev).status == s.status && Session.Step(cfg, s, ev).pending == s.pending
  {
    hide Periodics, Link.Switch, Link.ServeDisconnect;
  }

  lemma OthersSeeElsewhere(cfg: Config, f: Fleet, j: nat, ev: Session.Event, i: nat)
    requires Inv(f) && Enabled(f, OnMember(j, ev)) && i < |f.members| && i != j
    ensures var e := Seen(cfg, f, OnMember(j, ev), i);
            && Session.Enabled(Face(f, i), e)
            && Face(Step(cfg, f, OnMember(j, ev)), i) == Session.Step(cfg, Face(f, i), e)
  {
    var s := Face(f, j);
    assert Link.Inv(Links(f.members)[i]) && Link.Inv(Links(f.members)[j]);
    if s.link.conState == Link.Active {
      ActiveIsChosen(f, j);
      if f.members[i].link.conState == Link.Active { ActiveIsChosen(f, i); }
    } else {
      OnlySessionsShare(cfg, s, ev);
    }
    var g := Session.Step(cfg, s, ev);
    assert g.clock == ev.now by { StepTime(cfg, s, ev); }
    hide Session.Step, Link.Inv, Supervisor.SingleActive, Links;
    ElsewhereStep(cfg, Face(f, i), ev.now, g.status, g.pending);
  }

  lemma StepTime(cfg: Config, s: State, ev: Session.Event)
    ensures Session.Step(cfg, s, ev).clock == ev.now
  {
    hide Effect;
  }

  lemma ElsewhereStep(cfg: Config, s: State, now: int, status: GiStatus, pending: seq<Definition>)
    ensures Session.Step(cfg, s, Elsewhere(now, status, pending))
            == s.(status := status, pending := pending, clock := now)
  {
  }

  /** A connection in the active state is connected, hence the chosen one. */
  lemma ActiveIsChosen(f: Fleet, i: nat)
    requires Inv(f) && i < |f.members| && f.members[i].link.conState == Link.Active
    ensures f.monitor.active == Some(i)
  {
    assert Link.Inv(Links(f.members)[i]);
    assert Whole(f).links[i].connected;
  }

  lemma OrdersAreSteps(cfg: Config, f: Fleet, now: int, halNow: int, i: nat)
    requires Inv(f) && Enabled(f, MonitorRound(now, halNow)) && i < |f.members|
    ensures var e := Ordered(f, now, halNow, i);
            && Session.Enabled(Face(f, i), e)
            && Face(Step(cfg, f, MonitorRound(now, halNow)), i) == Session.Step(cfg, Face(f, i), e)
  {
    RoundOnLink(f, now, halNow, i);
    hide Supervisor.Round, Links, WithLinks, Supervisor.SingleActive;
    OrderedEffect(cfg, Face(f, i), Ordered(f, now, halNow, i));
  }

  /** What a supervisor round does to one link is what its order says. */
  lemma RoundOnLink(f: Fleet, now: int, halNow: int, i: nat)
    requires Supervisor.Valid(Whole(f)) && i < |f.members|
    ensures var e := Ordered(f, now, halNow, i);
            && e.now == now
            && (e.Activated? || e.ConnectRequested? || e.DisconnectRequested?
                || e == Elsewhere(now, f.status, f.pending))
            && LinksAfter(f, now, halNow)[i] ==
                 if e.Activated? then Link.Activate(f.members[i].link)
                 else if e.ConnectRequested? then Link.Connect(f.members[i].link)
                 else if e.DisconnectRequested? then Link.Disconnect(f.members[i].link)
                 else f.members[i].link
  {
    hide Links, Supervisor.FirstOpen, Supervisor.ConnectAll, Supervisor.DropUnneeded, Supervisor.WaitForQuality,
         Supervisor.UpdateStatus;
  }

  lemma OrderedEffect(cfg: Config, s: State, e: Session.Event)
    requires e.Activated? || e.ConnectRequested? || e.DisconnectRequested? || e == Elsewhere(e.now, s.status, s.pending)
    requires s.clock <= e.now < 0x8000_0000_0000_0000
    ensures Session.Enabled(s, e)
    ensures Session.Step(cfg, s, e) ==
            s.(clock := e.now,
               link := if e.Activated? then Link.Activate(s.link)
                       else if e.ConnectRequested? then Link.Connect(s.link)
                       else if e.DisconnectRequested? then Link.Disconnect(s.link)
                       else s.link)
  {
  }

  lemma StepsAreSeen(cfg: Config, f: Fleet, e: Event, i: nat)
    requires Inv(f) && Enabled(f, e) && i < |f.members|
    ensures Session.Enabled(Face(f, i), Seen(cfg, f, e, i))
    ensures i < |Step(cfg, f, e).members|
    ensures Face(Step(cfg, f, e), i) == Session.Step(cfg, Face(f, i), Seen(cfg, f, e, i))
  {
    match e
    case OnMember(j, ev) =>
      if j == i {
        StepTime(cfg, Face(f, i), ev);
        hide Session.Step, Supervisor.SingleActive, Links;
      } else {
        OthersSeeElsewhere(cfg, f, j, ev, i);
      }
    case MonitorRound(now, halNow) => OrdersAreSteps(cfg, f, now, halNow, i);
  }

  /** A run of the client as connection `i` sees it. */
  function SeenRun(cfg: Config, f: Fleet, es: seq<Event>, i: nat): seq<Session.Event>
    requires Feasible(cfg, f, es) && i < |f.members|
    decreases es
  {
    if es == [] then []
    else [Seen(cfg, f, es[0], i)] +
         (if i < |Step(cfg, f, es[0]).members| then SeenRun(cfg, Step(cfg, f, es[0]), es[1..], i) else [])
  }

  /** In every run of the client, each connection makes a run of its session: what is proved
      of all session runs holds for each connection of the client. */
  lemma {:induction false} EveryConnectionRunsItsSession(cfg: Config, f: Fleet, es: seq<Event>, i: nat)
    requires Inv(f) && Feasible(cfg, f, es) && i < |f.members|
    ensures Inv(Run(cfg, f, es)) && i < |Run(cfg, f, es).members|
    ensures Session.Feasible(cfg, Face(f, i), SeenRun(cfg, f, es, i))
    ensures Face(Run(cfg, f, es), i) == Session.Run(cfg, Face(f, i), SeenRun(cfg, f, es, i))
    decreases es
  {
    if es != [] {
      hide Seen, Session.Step, Session.Enabled, Face;
      StepKeepsInv(cfg, f, es[0]);
      StepsAreSeen(cfg, f, es[0], i);
      var g := Step(cfg, f, es[0]);
      EveryConnectionRunsItsSession(cfg, g, es[1..], i);
      var seen := SeenRun(cfg, f, es, i);
      assert seen[0] == Seen(cfg, f, es[0], i) && seen[1..] == SeenRun(cfg, g, es[1..], i);
    }
  }
}
