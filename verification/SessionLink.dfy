/** A session drives its connection exactly as the stand-alone connection model allows:
    everything proved of `Link` and of the supervisor holds for full sessions. */
module SessionLink {
  import opened Protocol
  import opened Session
  import Link
  import Reception

  /** Whether the periodic work of this round closes the library handle. */
  predicate Closes(cfg: Config, s: State, now: int, clockSent: bool, giSent: bool) {
    var s1 := SyncTick(cfg, s, now, clockSent);
    && GateOpen(cfg, s1) && cfg.giEnabled && s.gi.firstSent && s.gi.inProgress
    && (IsOverdue(cfg, s, now) || (s.gi.req == 0 && cfg.giAllCa && s.gi.it < |cfg.cas| && !giSent))
  }

  /** What the connection model sees of a session event. */
  function Project(cfg: Config, s: State, e: Event): Option<Link.Event> {
    match e
    case ThreadRound(now, env) =>
      Some(Link.ThreadRound(now, env.link, Closes(cfg, s, now, env.clockSent, env.giSent)))
    case ConnectionOpened(_) => Some(Link.ConnectionOpened)
    case ConnectionClosed(_) => Some(Link.ConnectionClosed)
    case StartDtConReceived(_) => Some(Link.StartDtConReceived)
    case Received(_, a, _) => if FailsInterrogation(s, a) then Some(Link.DisconnectRequested) else None
    case Activated(_) => Some(Link.Activated)
    case ConnectRequested(_) => Some(Link.ConnectRequested)
    case DisconnectRequested(_) => Some(Link.DisconnectRequested)
    case GiRequested(_) => None
    case Elsewhere(_, _, _) => None
  }

  /** A C_IC_NA_1 with neither ACT_CON nor ACT_TERM while an interrogation is under way. */
  predicate FailsInterrogation(s: State, a: Asdu) {
    && a.typeId == C_IC_NA_1 && !Reception.IsHandled(a, |a.objects|)
    && a.cot != COT_ACTIVATION_CON && a.cot != COT_ACTIVATION_TERMINATION
    && Live(s.status)
  }

  lemma StartCycleKeepsLink(cfg: Config, s: State, why: Why, now: int, sent: bool)
    ensures StartCycle(cfg, s, why, now, sent).link == s.link
  {
  }

  lemma ProgressLink(cfg: Config, s: State, now: int, sent: bool)
    ensures Progress(cfg, s, now, sent).link ==
            if IsOverdue(cfg, s, now) || (s.gi.req == 0 && cfg.giAllCa && s.gi.it < |cfg.cas| && !sent)
            then Link.CloseHandle(s.link) else s.link
  {
  }

  lemma RestartKeepsLink(cfg: Config, s: State, now: int, sent: bool)
    ensures ServeRequest(cfg, RestartDue(cfg, s, now, sent), now, sent).link == s.link
  {
    hide StartCycle;
    StartCycleKeepsLink(cfg, s, Periodic, now, sent);
    StartCycleKeepsLink(cfg, s, EndOfInit, now, sent);
    var s1 := RestartDue(cfg, s, now, sent);
    StartCycleKeepsLink(cfg, LowerFlag(s1), OnRequest, now, sent);
  }

  lemma PeriodicsLink(cfg: Config, s: State, now: int, clockSent: bool, giSent: bool)
    ensures Periodics(cfg, s, now, clockSent, giSent).link ==
            if Closes(cfg, s, now, clockSent, giSent) then Link.CloseHandle(s.link) else s.link
  {
    hide StartCycle, Progress, ServeRequest, RestartDue;
    var s1 := SyncTick(cfg, s, now, clockSent);
    StartCycleKeepsLink(cfg, s1, First, now, giSent);
    ProgressLink(cfg, s1, now, giSent);
    RestartKeepsLink(cfg, s1, now, giSent);
    assert s1.gi == s.gi && s1.link == s.link;
  }

  lemma ReceiveLink(cfg: Config, s: State, a: Asdu, now: int, isActive: bool)
    ensures Receive(cfg, s, a, now, isActive).link ==
            if FailsInterrogation(s, a) then Link.Disconnect(s.link) else s.link
  {
    var s1 := HandleAsdu(cfg, s, a, now, isActive);
    assert s1.link == s.link && Live(s1.status) == Live(s.status) by { HandleAsduLink(cfg, s, a, now, isActive); }
    hide HandleAsdu;
  }

  lemma HandleAsduLink(cfg: Config, s: State, a: Asdu, now: int, isActive: bool)
    ensures HandleAsdu(cfg, s, a, now, isActive).link == s.link
    ensures Live(HandleAsdu(cfg, s, a, now, isActive).status) == Live(s.status)
  {
  }

  lemma SessionRefinesLink(cfg: Config, s: State, e: Event)
    requires Enabled(s, e)
    ensures match Project(cfg, s, e)
            case Some(le) => Link.Enabled(s.link, le) && Step(cfg, s, e).link == Link.Step(s.link, le)
            case None => Step(cfg, s, e).link == s.link
  {
    match e
    case ThreadRound(now, env) =>
      hide Periodics, Closes;
      PeriodicsLink(cfg, s, now, env.clockSent, env.giSent);
    case Received(now, a, isActive) =>
      hide Receive, FailsInterrogation;
      ReceiveLink(cfg, s, a, now, isActive);
    case _ =>
  }

  lemma StepKeepsLinkInv(cfg: Config, s: State, e: Event)
    requires Link.Inv(s.link) && Enabled(s, e)
    ensures Link.Inv(Step(cfg, s, e).link)
  {
    hide Effect, Project, Link.Inv;
    SessionRefinesLink(cfg, s, e);
    if Project(cfg, s, e).Some? {
      Link.StepKeepsInv(s.link, Project(cfg, s, e).value);
    }
  }

  lemma {:induction false} RunKeepsLinkInv(cfg: Config, s: State, es: seq<Event>)
    requires Link.Inv(s.link) && Feasible(cfg, s, es)
    ensures Link.Inv(Run(cfg, s, es).link)
    decreases es
  {
    if es != [] {
      StepKeepsLinkInv(cfg, s, es[0]);
      RunKeepsLinkInv(cfg, Step(cfg, s, es[0]), es[1..]);
    }
  }

  lemma RoundKeepsLinkInv(cfg: Config, s: State, now: Time, env: RoundInput)
    requires Link.Inv(s.link) && s.clock <= now
    ensures Link.Inv(Round(cfg, s, now, env).link)
  {
    hide Round, Link.Inv, Link.Round, Closes;
    SessionRefinesLink(cfg, s, ThreadRound(now, env));
    Link.StepKeepsInv(s.link, Project(cfg, s, ThreadRound(now, env)).value);
  }

  lemma ReceptionKeepsLinkInv(cfg: Config, s: State, a: Asdu, now: Time, isActive: bool)
    requires Link.Inv(s.link)
    ensures Link.Inv(Receive(cfg, s, a, now, isActive).link)
  {
    hide Receive;
    ReceiveLink(cfg, s, a, now, isActive);
  }

  // ---- what ends a session ----

  /** In a session, too, the thread's next round serves a disconnect request. */
  lemma DisconnectEndsTheSession(cfg: Config, s: State, now: int, env: RoundInput)
    requires Link.Inv(s.link) && s.link.disconnect && Enabled(s, ThreadRound(now, env))
    ensures var t := Step(cfg, s, ThreadRound(now, env)).link;
            && t.handle == Link.NoHandle && t.created == t.destroyed
            && !t.connected && !t.connecting && !t.disconnect
  {
    hide Effect, Link.Inv, Link.Round;
    SessionRefinesLink(cfg, s, ThreadRound(now, env));
    Link.DisconnectEndsTheConnection(s.link, now, env.link, Closes(cfg, s, now, env.clockSent, env.giSent));
  }

  /** A C_IC_NA_1 with a failing cause, while an interrogation is reported as under way, costs
      the connection: the next round of the thread leaves no handle, and none is dialed before
      someone asks for it. With any other ASDU the link stays as it is. */
  lemma FailingCauseEndsTheSession(cfg: Config, s: State, t: int, a: Asdu, isActive: bool, now: int, env: RoundInput)
    requires Link.Inv(s.link) && Enabled(s, Received(t, a, isActive)) && t <= now < 0x8000_0000_0000_0000
    ensures var r := Step(cfg, s, Received(t, a, isActive));
            if a.typeId == C_IC_NA_1 && !Reception.IsHandled(a, |a.objects|) && a.cot != 7 && a.cot != 10
               && s.status in {GiStarted, GiInProgress}
            then var u := Step(cfg, r, ThreadRound(now, env)).link;
                 u.handle == Link.NoHandle && !u.connected && !u.connect && u.created == u.destroyed
            else r.link == s.link
  {
    var e, f := Received(t, a, isActive), ThreadRound(now, env);
    var r := Step(cfg, s, e);
    SessionRefinesLink(cfg, s, e);
    StepKeepsLinkInv(cfg, s, e);
    assert r.clock == t;
    if FailsInterrogation(s, a) {
      DisconnectEndsTheSession(cfg, r, now, env);
      SessionRefinesLink(cfg, r, f);
      hide Effect;
      RoundKeepsUnwanted(r.link, now, env.link, Closes(cfg, r, now, env.clockSent, env.giSent));
    }
  }

  /** No round asks for a connection by itself. */
  lemma RoundKeepsUnwanted(l: Link.Link, now: int, env: Link.RoundInput, close: bool)
    ensures Link.Round(l, now, env, close).connect == l.connect
  {
  }
}
