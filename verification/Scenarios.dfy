/** Stretches of concrete runs of one session: how a client gets into a session, loses the
    link and comes back. The examples of the proof modules are put together from them. */
module Scenarios {
  import opened Protocol
  import opened Reception
  import opened Session
  import Link

  /** The library accepts everything it is asked. */
  const ACCEPTING := RoundInput(Link.RoundInput(false, false, true), true, true)

  /** It refuses interrogation commands. */
  const REFUSING := RoundInput(Link.RoundInput(false, false, true), true, false)

  const CLOCK_REPLY := Asdu(C_CS_NA_1, COT_ACTIVATION_CON, 1, false, [Object(0, 0)])
  const CONFIRMATION := Asdu(C_IC_NA_1, COT_ACTIVATION_CON, 1, false, [Object(0, 0)])
  const TERMINATION := Asdu(C_IC_NA_1, COT_ACTIVATION_TERMINATION, 1, false, [Object(0, 0)])

  // ---- putting runs together ----

  predicate Reaches(cfg: Config, s: State, es: seq<Event>, t: State) {
    Feasible(cfg, s, es) && Run(cfg, s, es) == t
  }

  lemma ReachByOne(cfg: Config, s: State, e: Event)
    requires Enabled(s, e)
    ensures Reaches(cfg, s, [e], Step(cfg, s, e))
  {
    hide Step, Enabled;
    assert [e][1..] == [];
    assert Run(cfg, Step(cfg, s, e), []) == Step(cfg, s, e) && Feasible(cfg, Step(cfg, s, e), []);
  }

  lemma {:induction false} ReachOn(cfg: Config, s: State, a: seq<Event>, t: State, b: seq<Event>, u: State)
    requires Reaches(cfg, s, a, t) && Reaches(cfg, t, b, u)
    ensures Reaches(cfg, s, a + b, u)
    decreases a
  {
    hide Step, Enabled;
    if a == [] {
      assert a + b == b;
    } else {
      assert (a + b)[1..] == a[1..] + b;
      ReachOn(cfg, Step(cfg, s, a[0]), a[1..], t, b, u);
    }
  }

  lemma ReachByAnother(cfg: Config, s: State, es: seq<Event>, t: State, e: Event)
    requires Reaches(cfg, s, es, t) && Enabled(t, e)
    ensures Reaches(cfg, s, es + [e], Step(cfg, t, e))
  {
    hide Reaches, Step, Enabled;
    ReachByOne(cfg, t, e);
    ReachOn(cfg, s, es, t, [e], Step(cfg, t, e));
  }

  // ---- into a session ----

  predicate InSession(s: State) {
    s.link.handle == Link.Open(true) && s.link.conState == Link.Active && s.link.connect && !s.link.disconnect
  }

  /** Dial, open, activate, STARTDT_CON. */
  function Starting(t: int): seq<Event> {
    [ThreadRound(t, ACCEPTING), ConnectionOpened(t), Activated(t), StartDtConReceived(t)]
  }

  /** The state of a client in its first session, before the first round. */
  function Started(cfg: Config, t: int): State {
    Run(cfg, Initial(true, t), Starting(t))
  }

  lemma StartingStarts(cfg: Config, t: Time)
    ensures Reaches(cfg, Initial(true, t), Starting(t), Started(cfg, t))
    ensures var s := Started(cfg, t);
            && InSession(s) && s.clock == t && s.gi == Initial(true, t).gi
            && s.sync == Sync(false, false, false, t) && s.status == GiIdle
            && s.history == History.Then(History.Then(Nothing, LinkOpened), StartDt)
  {
    hide Periodics, Receive, Reaches;
    var s0 := Initial(true, t);
    var s1 := Step(cfg, s0, ThreadRound(t, ACCEPTING));
    var s2 := Step(cfg, s1, ConnectionOpened(t));
    var s3 := Step(cfg, s2, Activated(t));
    var s4 := Step(cfg, s3, StartDtConReceived(t));
    ReachByOne(cfg, s0, ThreadRound(t, ACCEPTING));
    ReachByAnother(cfg, s0, [ThreadRound(t, ACCEPTING)], s1, ConnectionOpened(t));
    ReachByAnother(cfg, s0, [ThreadRound(t, ACCEPTING)] + [ConnectionOpened(t)], s2, Activated(t));
    ReachByAnother(cfg, s0, [ThreadRound(t, ACCEPTING)] + [ConnectionOpened(t)] + [Activated(t)],
                   s3, StartDtConReceived(t));
    assert Starting(t) == [ThreadRound(t, ACCEPTING)] + [ConnectionOpened(t)] + [Activated(t)]
                          + [StartDtConReceived(t)];
    assert Run(cfg, s0, Starting(t)) == s4 by { ReachesMeans(cfg, s0, Starting(t), s4); }
  }

  lemma ReachesMeans(cfg: Config, s: State, es: seq<Event>, t: State)
    requires Reaches(cfg, s, es, t)
    ensures Feasible(cfg, s, es) && Run(cfg, s, es) == t
  {
  }

  // ---- single events ----

  lemma SessionRound(cfg: Config, s: State, now: int, env: RoundInput)
    requires InSession(s)
    ensures Round(cfg, s, now, env) == Periodics(cfg, s, now, env.clockSent, env.giSent)
  {
    hide GiTick, SyncTick;
    TicksKeepLinkRequest(cfg, s, now, env);
  }

  lemma TicksKeepLinkRequest(cfg: Config, s: State, now: int, env: RoundInput)
    ensures Periodics(cfg, s, now, env.clockSent, env.giSent).link.disconnect == s.link.disconnect
  {
    hide StartCycle, Progress, RestartDue, ServeRequest;
    var s1 := SyncTick(cfg, s, now, env.clockSent);
    CycleKeepsLink(cfg, s1, First, now, env.giSent);
    ProgressKeepsLinkRequest(cfg, s1, now, env.giSent);
    RestartKeepsLink(cfg, s1, now, env.giSent);
  }

  lemma CycleKeepsLink(cfg: Config, s: State, why: Why, now: int, sent: bool)
    ensures StartCycle(cfg, s, why, now, sent).link == s.link
  {
  }

  lemma ProgressKeepsLinkRequest(cfg: Config, s: State, now: int, sent: bool)
    ensures Progress(cfg, s, now, sent).link.disconnect == s.link.disconnect
  {
  }

  lemma RestartKeepsLink(cfg: Config, s: State, now: int, sent: bool)
    ensures ServeRequest(cfg, RestartDue(cfg, s, now, sent), now, sent).link == s.link
  {
    hide StartCycle;
    CycleKeepsLink(cfg, s, Periodic, now, sent);
    CycleKeepsLink(cfg, s, EndOfInit, now, sent);
    CycleKeepsLink(cfg, LowerFlag(RestartDue(cfg, s, now, sent)), OnRequest, now, sent);
  }

  /** The data path leaves a control ASDU with another cause than 20 alone. */
  lemma {:induction false} ControlTriggersNothing(cfg: Config, a: Asdu, n: nat)
    requires !IsForwarded(a.typeId) && n <= |a.objects|
    ensures !Triggers(cfg.defs, cfg.triggers, a, n)
  {
    if n > 0 { ControlTriggersNothing(cfg, a, n - 1); }
  }

  lemma ControlPasses(cfg: Config, s: State, a: Asdu, now: int, isActive: bool)
    requires !IsForwarded(a.typeId) && !IsInterrogationResponse(a) && !IsHandled(a, |a.objects|)
    ensures Receive(cfg, s, a, now, isActive) == ControlReply(cfg, s, a, now)
  {
    hide IsForwarded, ControlReply, IsHandled, Triggers;
    ControlTriggersNothing(cfg, a, |a.objects|);
  }

  // ---- a session whose gate is open and whose clock needs no command ----

  predicate IsClockDone(s: State) {
    s.sync.firstDone && !s.sync.commandSent && !s.sync.synchronized
  }

  lemma RoundOfClockDone(cfg: Config, s: State, now: int, env: RoundInput)
    requires InSession(s) && IsClockDone(s) && cfg.giEnabled
    ensures Round(cfg, s, now, env) == GiTick(cfg, s, now, env.giSent)
  {
    hide GiTick, Round;
    SessionRound(cfg, s, now, env);
  }

  /** The first session, and a C_CS_NA_1 before the first round. */
  function Opening(t: int): seq<Event> {
    Starting(t) + [Received(t, CLOCK_REPLY, true)]
  }

  lemma OpeningOpens(cfg: Config, t: Time) returns (s: State)
    ensures Reaches(cfg, Initial(true, t), Opening(t), s)
    ensures InSession(s) && IsClockDone(s) && s.clock == t
    ensures s.gi == Initial(true, t).gi && s.status == GiIdle
    ensures s.history == History.Then(History.Then(History.Then(Nothing, LinkOpened), StartDt), ClockSeen)
  {
    StartingStarts(cfg, t);
    var r := Started(cfg, t);
    hide Reaches, Started, HandleAsdu;
    ControlPasses(cfg, r, CLOCK_REPLY, t, true);
    s := Step(cfg, r, Received(t, CLOCK_REPLY, true));
    ReachByAnother(cfg, Initial(true, t), Starting(t), r, Received(t, CLOCK_REPLY, true));
  }

  // ---- out of a session and back ----

  /** Lose the link, wait, dial, open, activate. */
  function Reconnecting(t: int): seq<Event> {
    [ConnectionClosed(t), ThreadRound(t, ACCEPTING), ThreadRound(t + 10000, ACCEPTING),
     ThreadRound(t + 10000, ACCEPTING), ConnectionOpened(t + 10000), Activated(t + 10000)]
  }

  lemma ReconnectChangesOnlyTheLink(cfg: Config, s: State, t: int)
    requires s.link.handle == Link.Open(true) && s.link.connect && !s.link.disconnect
    requires s.clock <= t < 0x4000_0000_0000_0000
    ensures Feasible(cfg, s, Reconnecting(t))
    ensures var r := Run(cfg, s, Reconnecting(t));
            && r == s.(link := r.link, clock := t + 10000, history := History.Then(s.history, LinkOpened))
            && InSession(r)
  {
    hide Periodics, SessionStarted, Receive;
    var es := Reconnecting(t);
    var s1 := Step(cfg, s, es[0]);
    var s2 := Step(cfg, s1, es[1]);
    var s3 := Step(cfg, s2, es[2]);
    var s4 := Step(cfg, s3, es[3]);
    var s5 := Step(cfg, s4, es[4]);
    var s6 := Step(cfg, s5, es[5]);
    assert s2.link.conState == Link.WaitForReconnect && s3.link.conState == Link.Idle;
    assert s4.link.handle == Link.Dialing;
    RunOne(cfg, s5, [], es[5]);
    RunOne(cfg, s4, [es[5]], es[4]);
    RunOne(cfg, s3, [es[4], es[5]], es[3]);
    RunOne(cfg, s2, [es[3], es[4], es[5]], es[2]);
    RunOne(cfg, s1, [es[2], es[3], es[4], es[5]], es[1]);
    RunOne(cfg, s, [es[1], es[2], es[3], es[4], es[5]], es[0]);
    assert Reconnecting(t) == [es[0]] + [es[1], es[2], es[3], es[4], es[5]];
  }

  lemma RunOne(cfg: Config, s: State, es: seq<Event>, e: Event)
    ensures Run(cfg, s, [e] + es) == Run(cfg, Step(cfg, s, e), es)
    ensures Feasible(cfg, s, [e] + es) == (Enabled(s, e) && Feasible(cfg, Step(cfg, s, e), es))
  {
    assert ([e] + es)[1..] == es;
  }
}
