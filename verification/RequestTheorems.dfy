/** What FINISHED promises, and when a request is given up. */
module RequestTheorems {
  import opened Protocol
  import opened Reception
  import opened Session
  import opened RequestProofs
  import opened Scenarios
  import Link
  import SessionLink

  /** A received C_IC_NA_1 that the session, not the data path, handles. */
  predicate IsGiReply(a: Asdu, cot: int) {
    a.typeId == C_IC_NA_1 && a.cot == cot && !IsHandled(a, |a.objects|)
  }

  predicate IsActTerm(e: Event) {
    e.Received? && IsGiReply(e.asdu, COT_ACTIVATION_TERMINATION)
  }

  // ---- FINISHED ----

  /** No new session begins on this connection. */
  predicate IsSameSession(e: Event) {
    !e.StartDtConReceived? && !e.ConnectionOpened?
  }

  /** Nor does another connection, taking over, report FINISHED for its own interrogation. */
  predicate KeepsSession(s: State, e: Event) {
    IsSameSession(e) && (e.Elsewhere? ==> e.status == s.status || e.status != GiFinished)
  }

  predicate SessionLasts(cfg: Config, s: State, es: seq<Event>)
    decreases es
  {
    es == [] || (KeepsSession(s, es[0]) && SessionLasts(cfg, Step(cfg, s, es[0]), es[1..]))
  }

  lemma ReceiveEffect(cfg: Config, s: State, a: Asdu, now: int, isActive: bool)
    requires Inv(cfg, s, now) && now >= 0
    ensures var p := Settle(s.history).phase;
            var t := Receive(cfg, s, a, now, isActive);
            var q := Settle(t.history).phase;
            if IsGiReply(a, COT_ACTIVATION_TERMINATION) then
              && q == Advance(Settle(s.history), GotActTerm).phase
              && (t.status == GiFinished <==> (s.status == GiFinished || (p.Running? && Live(s.status))))
            else
              && (t.status == GiFinished ==> s.status == GiFinished)
              && (q == p || q == Advance(Settle(s.history), GotOther).phase
                  || q == Advance(Settle(s.history), GotActCon(a.negative)).phase)
  {
    hide HandleAsdu, ClockReply, GiReply;
    var s1 := HandleAsdu(cfg, s, a, now, isActive);
    HandleAsduKeeps(cfg, s, a, now, isActive);
    ClockReplyIsNeutral(cfg, s1, a, now);
    GiReplyEffect(cfg, s1, a, now);
  }

  lemma GiReplyEffect(cfg: Config, s: State, a: Asdu, now: int)
    requires Inv(cfg, s, now)
    ensures var p := Settle(s.history).phase;
            var t := GiReply(s, a);
            var q := Settle(t.history).phase;
            if a.cot == COT_ACTIVATION_TERMINATION then
              && q == Advance(Settle(s.history), GotActTerm).phase
              && (t.status == GiFinished <==> (s.status == GiFinished || (p.Running? && Live(s.status))))
            else
              && (t.status == GiFinished ==> s.status == GiFinished)
              && (q == Advance(Settle(s.history), GotOther).phase
                  || q == Advance(Settle(s.history), GotActCon(a.negative)).phase)
  {
    hide ActCon, ActTerm, OtherCause;
    ActConKeeps(cfg, s, a.negative, now);
    ActTermKeeps(cfg, s, now);
    OtherCauseKeeps(cfg, s, now);
  }

  /** A request of the current session is confirmed or refused only while the link is active. */
  lemma CurrentMeansActive(cfg: Config, s: State, now: int)
    requires Inv(cfg, s, now) && Link.Inv(s.link) && s.link.handle.Open? && IsCurrent(Settle(s.history).phase)
    ensures s.link.conState == Link.Active
  {
  }

  /** What a step from `s` to `t` means for FINISHED and for a lost request. */
  predicate IsSound(s: State, e: Event, t: State) {
    var l := Settle(s.history);
    var m := Settle(t.history);
    && (t.status == GiFinished && s.status != GiFinished && !e.Elsewhere? ==>
          IsActTerm(e) && l.phase.Running? && (l.phase.current ==> l.phase.good))
    && (IsActTerm(e) && l.phase.Running? && l.phase.current ==>
          (Live(s.status) <==> l.phase.good) && (s.status == GiFailed <==> !l.phase.good))
    && (IsActTerm(e) && l.phase.Running? ==>
          (t.status == GiFinished <==> Live(s.status) || s.status == GiFinished))
    && (IsSameSession(e) && m.asked == l.asked && l.phase in {Quiet, Running(true, false)} ==>
          m.phase in {l.phase, Quiet})
  }

  lemma ReceiveIsSound(cfg: Config, s: State, a: Asdu, now: int, isActive: bool)
    requires Inv(cfg, s, now) && Link.Inv(s.link) && now >= 0 && s.link.handle.Open?
    ensures IsSound(s, Received(now, a, isActive), Receive(cfg, s, a, now, isActive))
  {
    hide Receive, IsGiReply, Settle;
    ReceiveEffect(cfg, s, a, now, isActive);
    if IsCurrent(Settle(s.history).phase) { CurrentMeansActive(cfg, s, now); }
  }

  lemma StepEffect(cfg: Config, s: State, e: Event)
    requires Inv(cfg, s, s.clock) && Link.Inv(s.link) && s.clock >= 0 && Enabled(s, e)
    ensures IsSound(s, e, Step(cfg, s, e))
  {
    hide Receive, Round, Link.Inv;
    assert Inv(cfg, s, e.now);
    match e
    case ThreadRound(now, env) =>
      RoundKeeps(cfg, s, now, env);
      hide Settle, Inv;
    case Received(now, a, isActive) =>
      ReceiveIsSound(cfg, s, a, now, isActive);
      hide Settle, Inv;
    case _ =>
  }

  /** The GI status becomes FINISHED only by an ACT_TERM for a confirmed request. Within the
      STARTDT session of the request, it does so exactly when the confirmation was positive
      and no other cause arrived since; for a request carried over from an earlier session
      it depends on the status alone. */
  lemma FinishedIsSound(cfg: Config, connect: bool, t0: int, es: seq<Event>, e: Event)
    requires t0 >= 0 && Feasible(cfg, Initial(connect, t0), es)
    requires Enabled(Run(cfg, Initial(connect, t0), es), e)
    ensures var s := Run(cfg, Initial(connect, t0), es);
            var p := Settle(s.history).phase;
            && (s.status != GiFinished && Step(cfg, s, e).status == GiFinished && !e.Elsewhere? ==>
                  IsActTerm(e) && p.Running? && (p.current ==> p.good))
            && (IsActTerm(e) && p.Running? && p.current ==>
                  (Step(cfg, s, e).status == GiFinished <==> p.good))
            && (IsActTerm(e) && p.Running? && !p.current ==>
                  (Step(cfg, s, e).status == GiFinished <==> Live(s.status) || s.status == GiFinished))
  {
    var s := Run(cfg, Initial(connect, t0), es);
    RunKeepsInv(cfg, Initial(connect, t0), es);
    SessionLink.RunKeepsLinkInv(cfg, Initial(connect, t0), es);
    StepEffect(cfg, s, e);
  }

  /** A request refused or failed in this session, or one already closed without FINISHED. */
  predicate IsLost(s: State) {
    var p := Settle(s.history).phase;
    (p == Running(true, false) || p == Quiet) && s.status != GiFinished
  }

  /** A refused request of an active session is lost. */
  lemma RefusedIsLost(cfg: Config, s: State)
    requires Inv(cfg, s, s.clock) && s.link.conState == Link.Active
    requires Settle(s.history).phase == Running(true, false)
    ensures IsLost(s) && s.status == GiFailed
  {
  }

  /** After a negative ACT_CON, or another cause after ACT_CON, nothing that arrives within
      the session makes that request FINISHED: FINISHED needs a new request first. */
  lemma FailedRequestNeverFinishes(cfg: Config, connect: bool, t0: int, before: seq<Event>, later: seq<Event>)
    requires t0 >= 0 && Feasible(cfg, Initial(connect, t0), before)
    requires var s := Run(cfg, Initial(connect, t0), before);
             && Feasible(cfg, s, later)
             && (IsLost(s) || (Settle(s.history).phase == Running(true, false) && s.link.conState == Link.Active))
    requires SessionLasts(cfg, Run(cfg, Initial(connect, t0), before), later)
    ensures var s := Run(cfg, Initial(connect, t0), before);
            Run(cfg, s, later).status == GiFinished ==>
              Settle(Run(cfg, s, later).history).asked > Settle(s.history).asked
  {
    RunKeepsInv(cfg, Initial(connect, t0), before);
    SessionLink.RunKeepsLinkInv(cfg, Initial(connect, t0), before);
    var s := Run(cfg, Initial(connect, t0), before);
    if !IsLost(s) { RefusedIsLost(cfg, s); }
    LostRequestNeverFinishes(cfg, s, later);
  }

  lemma {:induction false} LostRequestNeverFinishes(cfg: Config, s: State, es: seq<Event>)
    requires Inv(cfg, s, s.clock) && Link.Inv(s.link) && s.clock >= 0 && Feasible(cfg, s, es)
    requires IsLost(s)
    requires SessionLasts(cfg, s, es)
    ensures Run(cfg, s, es).status == GiFinished ==>
              Settle(Run(cfg, s, es).history).asked > Settle(s.history).asked
    decreases es
  {
    if es != [] {
      hide Step, Link.Inv;
      var t := Step(cfg, s, es[0]);
      StepsClock(cfg, s, es[0]);
      RequestProofs.StepKeepsInv(cfg, s, es[0]);
      SessionLink.StepKeepsLinkInv(cfg, s, es[0]);
      StepEffect(cfg, s, es[0]);
      if Settle(t.history).asked == Settle(s.history).asked {
        LostStaysLost(cfg, s, es[0]);
        LostRequestNeverFinishes(cfg, t, es[1..]);
      } else {
        AskedNeverFalls(cfg, t, es[1..]);
      }
    }
  }

  lemma StepsClock(cfg: Config, s: State, e: Event)
    requires Enabled(s, e)
    ensures Step(cfg, s, e).clock == e.now
  {
    hide Effect;
  }

  lemma LostStaysLost(cfg: Config, s: State, e: Event)
    requires Inv(cfg, s, s.clock) && Link.Inv(s.link) && s.clock >= 0 && Enabled(s, e)
    requires IsLost(s) && KeepsSession(s, e)
    requires Settle(Step(cfg, s, e).history).asked == Settle(s.history).asked
    ensures IsLost(Step(cfg, s, e))
  {
    StepEffect(cfg, s, e);
    if e.Elsewhere? { assert Step(cfg, s, e).status == e.status; }
    hide Step;
  }

  lemma {:induction false} AskedNeverFalls(cfg: Config, s: State, es: seq<Event>)
    requires Inv(cfg, s, s.clock) && s.clock >= 0 && Feasible(cfg, s, es)
    ensures Settle(Run(cfg, s, es).history).asked >= Settle(s.history).asked
    decreases es
  {
    if es != [] {
      RequestProofs.StepKeepsInv(cfg, s, es[0]);
      AskedNeverFalls(cfg, Step(cfg, s, es[0]), es[1..]);
    }
  }

  // ---- why "within a session" is needed ----

  predicate IsAllCaWithoutSync(cfg: Config) {
    cfg.giAllCa && cfg.giEnabled && cfg.cas != [] && !SyncEnabled(cfg)
  }

  /** The new session after a reconnection, up to its first round. */
  function Resuming(t: int): seq<Event> {
    Reconnecting(t) + [StartDtConReceived(t + 10000)] + [ThreadRound(t + 10000, ACCEPTING)]
  }

  /** A request confirmed in the previous session, even negatively, is reported FINISHED by
      an ACT_TERM after reconnection in all-CA mode: STARTDT_CON does not reset the request
      state, and the new session's first cycle sets the status to STARTED. The reference
      automaton carries the refusal over: `good` is as it was. */
  lemma CarriedRequestIsReportedFinished(cfg: Config, s: State, t: int, term: Asdu)
    requires IsAllCaWithoutSync(cfg) && s.gi.req == 2
    requires s.link.handle == Link.Open(true) && s.link.connect && !s.link.disconnect
    requires s.clock <= t < 0x4000_0000_0000_0000
    requires IsGiReply(term, COT_ACTIVATION_TERMINATION)
    ensures var r := Run(cfg, s, Resuming(t));
            && Feasible(cfg, s, Resuming(t)) && Enabled(r, Received(t + 10000, term, true))
            && Settle(r.history).phase == Aged(Settle(s.history).phase)
            && Step(cfg, r, Received(t + 10000, term, true)).status == GiFinished
  {
    ReconnectChangesOnlyTheLink(cfg, s, t);
    var q := Run(cfg, s, Reconnecting(t));
    var e1, e2 := StartDtConReceived(t + 10000), ThreadRound(t + 10000, ACCEPTING);
    var r1 := Step(cfg, q, e1);
    var r2 := Step(cfg, r1, e2);
    FirstAllCaRound(cfg, r1, t + 10000);
    TermFinishes(cfg, r2, term, t + 10000);
    ReachByAnother(cfg, s, Reconnecting(t), q, e1);
    ReachByAnother(cfg, s, Reconnecting(t) + [e1], r1, e2);
    hide Round, Receive, Run, Feasible;
  }

  lemma FirstAllCaRound(cfg: Config, s: State, now: int)
    requires IsAllCaWithoutSync(cfg) && !s.gi.firstSent
    requires s.link.conState == Link.Active && !s.link.disconnect
    ensures var t := Round(cfg, s, now, ACCEPTING);
            && t.status == GiStarted && t.gi.req == s.gi.req && t.link == s.link
            && t.gi.firstSent && t.gi.inProgress && t.gi.it == 0
            && Settle(t.history).phase == Settle(s.history).phase
  {
    hide Progress, ServeRequest, RestartDue;
    UpdateIsNeutral(Rewound(cfg, CycleBegun(cfg, s, First, now)), GiStarted);
  }

  lemma TermFinishes(cfg: Config, s: State, term: Asdu, now: int)
    requires s.gi.req == 2 && s.status == GiStarted && IsGiReply(term, COT_ACTIVATION_TERMINATION)
    ensures Receive(cfg, s, term, now, true).status == GiFinished
  {
    hide IsHandled, Triggers;
    ControlPasses(cfg, s, term, now, true);
  }

  /** The first session and two rounds: the first address was asked. */
  function Asking(): seq<Event> {
    Starting(0) + [ThreadRound(0, ACCEPTING)] + [ThreadRound(0, ACCEPTING)]
  }

  lemma AskingAsks(cfg: Config) returns (s: State)
    requires IsAllCaWithoutSync(cfg)
    ensures Reaches(cfg, Initial(true, 0), Asking(), s)
    ensures InSession(s) && s.clock == 0
    ensures s.gi.req == 1 && s.gi.firstSent && s.status == GiStarted
    ensures Settle(s.history).phase == Waiting(true) && Settle(s.history).activity == 0
  {
    var e := ThreadRound(0, ACCEPTING);
    StartingStarts(cfg, 0);
    var r := Started(cfg, 0);
    assert Settle(r.history).phase == Quiet;
    hide Started, Reaches;
    FirstAllCaRound(cfg, r, 0);
    var r1 := Step(cfg, r, e);
    SecondAllCaRound(cfg, r1, 0);
    s := Step(cfg, r1, e);
    hide Round;
    ReachByAnother(cfg, Initial(true, 0), Starting(0), r, e);
    ReachByAnother(cfg, Initial(true, 0), Starting(0) + [e], r1, e);
  }

  lemma SecondAllCaRound(cfg: Config, s: State, now: int)
    requires IsAllCaWithoutSync(cfg) && s.gi.firstSent && s.gi.inProgress && s.gi.req == 0 && s.gi.it == 0
    requires s.link.conState == Link.Active && !s.link.disconnect
    ensures var t := Round(cfg, s, now, ACCEPTING);
            && t.gi == s.gi.(req := 1, reqSent := now, it := 1) && t.status == GiStarted && t.link == s.link
            && Settle(t.history).phase == Waiting(true) && Settle(t.history).activity == now
  {
    hide StartCycle, ServeRequest, RestartDue;
    UpdateIsNeutral(Record(s.(gi := s.gi.(req := 1, reqSent := now)), Asked(cfg.cas[0], now)), GiStarted);
  }

  /** An ACT_CON opens the second step of a waiting request and leaves its clock alone. */
  lemma ConfirmationRuns(cfg: Config, s: State, con: Asdu, now: int, isActive: bool)
    requires s.gi.req == 1 && IsGiReply(con, COT_ACTIVATION_CON)
    ensures var t := Receive(cfg, s, con, now, isActive);
            && t.gi == s.gi.(req := 2) && t.link == s.link && t.sync == s.sync
            && t.status == (if con.negative then GiFailed else GiInProgress)
            && Settle(t.history) == Advance(Settle(s.history), GotActCon(con.negative))
  {
    hide IsHandled, Receive;
    ControlPasses(cfg, s, con, now, isActive);
    ActConRuns(s, con.negative);
    hide ActCon;
  }

  lemma ActConRuns(s: State, negative: bool)
    requires s.gi.req == 1
    ensures var t := ActCon(s, negative);
            && t.gi == s.gi.(req := 2) && t.link == s.link && t.sync == s.sync
            && t.status == (if negative then GiFailed else GiInProgress)
            && Settle(t.history) == Advance(Settle(s.history), GotActCon(negative))
  {
    var s1 := Record(s, GotActCon(negative)).(gi := s.gi.(req := 2));
    FailIsNeutral(s1);
    UpdateIsNeutral(s1, GiInProgress);
  }

  /** The first request answered by an ACT_CON. */
  lemma AnswerToFirstRequest(cfg: Config, con: Asdu, at: int) returns (s: State)
    requires IsAllCaWithoutSync(cfg) && IsGiReply(con, COT_ACTIVATION_CON) && 0 <= at < 0x4000_0000_0000_0000
    ensures Reaches(cfg, Initial(true, 0), Asking() + [Received(at, con, true)], s)
    ensures InSession(s) && s.clock == at && s.gi.req == 2 && s.gi.firstSent
    ensures s.status == if con.negative then GiFailed else GiInProgress
    ensures Settle(s.history).phase == Running(true, !con.negative) && Settle(s.history).activity == 0
  {
    hide Receive, Reaches, Asking, Settle, IsGiReply, Round, Initial;
    var q := AskingAsks(cfg);
    ConfirmationRuns(cfg, q, con, at, true);
    s := Step(cfg, q, Received(at, con, true));
    assert s == Receive(cfg, q, con, at, true).(clock := at);
    hide Step;
    ReachByAnother(cfg, Initial(true, 0), Asking(), q, Received(at, con, true));
  }

  /** Such a state is reachable, and a refused request does end up FINISHED: from the start of
      the client, a request is asked, refused by a negative ACT_CON, carried over a lost link,
      and reported FINISHED by an ACT_TERM, while the reference automaton still holds it as
      refused, and as sent in an earlier session. */
  lemma RefusedRequestIsReportedFinished(cfg: Config, refusal: Asdu, term: Asdu)
    requires IsAllCaWithoutSync(cfg)
    requires IsGiReply(refusal, COT_ACTIVATION_CON) && refusal.negative
    requires IsGiReply(term, COT_ACTIVATION_TERMINATION)
    ensures var refused := Asking() + [Received(0, refusal, true)];
            var s := Run(cfg, Initial(true, 0), refused);
            var r := Run(cfg, Initial(true, 0), refused + Resuming(0));
            && Feasible(cfg, Initial(true, 0), refused + Resuming(0) + [Received(10000, term, true)])
            && s.status == GiFailed && Settle(s.history).phase == Running(true, false)
            && Settle(r.history).phase == Running(false, false)
            && Run(cfg, Initial(true, 0), refused + Resuming(0) + [Received(10000, term, true)]).status == GiFinished
  {
    var s0 := Initial(true, 0);
    var e, last := Received(0, refusal, true), Received(10000, term, true);
    hide Step, Receive, Reconnecting, Resuming, Initial, Asking, Run, Feasible, IsGiReply;
    var s := AnswerToFirstRequest(cfg, refusal, 0);
    CarriedRequestIsReportedFinished(cfg, s, 0, term);
    var r := Run(cfg, s, Resuming(0));
    assert Reaches(cfg, s, Resuming(0), r);
    hide Reaches;
    ReachOn(cfg, s0, Asking() + [e], s, Resuming(0), r);
    ReachByAnother(cfg, s0, Asking() + [e] + Resuming(0), r, last);
    ReachesMeans(cfg, s0, Asking() + [e], s);
    ReachesMeans(cfg, s0, Asking() + [e] + Resuming(0), r);
    ReachesMeans(cfg, s0, Asking() + [e] + Resuming(0) + [last], Step(cfg, r, last));
  }

  // ---- the deadline ----

  /** A round of an active session in which the interrogation is past its first cycle. */
  predicate IsWatched(cfg: Config, s: State) {
    s.link.conState == Link.Active && cfg.giEnabled && GateOpen(cfg, s) && s.gi.firstSent
  }

  /** With 0 < gi_time <= 2147483, an open request survives a round if and only if the round
      is at most gi_time * 1000 ms after the later of its sending and the last response
      accepted while running; otherwise the round closes it as FAILED and drops the link. */
  lemma DeadlineIsKept(cfg: Config, connect: bool, t0: int, es: seq<Event>, now: int, env: RoundInput)
    requires t0 >= 0 && Feasible(cfg, Initial(connect, t0), es)
    requires var s := Run(cfg, Initial(connect, t0), es);
             Enabled(s, ThreadRound(now, env)) && IsWatched(cfg, s) && s.gi.req != 0
    requires 0 < cfg.giTime <= MAX_EXACT_SECONDS
    ensures var s := Run(cfg, Initial(connect, t0), es);
            var t := Step(cfg, s, ThreadRound(now, env));
            var l := Settle(s.history);
            if now <= l.activity + 1000 * cfg.giTime
            then t.gi == s.gi && t.status == s.status && Settle(t.history) == l
            else t.gi.req == 0 && t.status == GiFailed && !t.link.connected
                 && Settle(t.history).timedOut == l.timedOut + 1 && Settle(t.history).phase == Quiet
  {
    RunKeepsInv(cfg, Initial(connect, t0), es);
    SessionLink.RunKeepsLinkInv(cfg, Initial(connect, t0), es);
    DeadlineStep(cfg, Run(cfg, Initial(connect, t0), es), now, env);
  }

  lemma DeadlineStep(cfg: Config, s: State, now: int, env: RoundInput)
    requires Inv(cfg, s, now) && Link.Inv(s.link) && IsWatched(cfg, s) && s.gi.req != 0
    requires 0 < cfg.giTime <= MAX_EXACT_SECONDS && now < 0x8000_0000_0000_0000
    ensures var t := Round(cfg, s, now, env);
            var l := Settle(s.history);
            if now <= l.activity + 1000 * cfg.giTime
            then t.gi == s.gi && t.status == s.status && Settle(t.history) == l
            else t.gi.req == 0 && t.status == GiFailed && !t.link.connected
                 && Settle(t.history).timedOut == l.timedOut + 1 && Settle(t.history).phase == Quiet
  {
    hide GiTick, SyncTick, Round, IsOverdue, After, Settle;
    var s1 := SyncTick(cfg, s, now, env.clockSent);
    SyncTickKeeps(cfg, s, now, env.clockSent);
    SyncTickLeaves(cfg, s, now, env.clockSent);
    OverdueMeans(cfg, s1, now);
    OverdueRound(cfg, s1, now, env.giSent);
    RoundOfWatched(cfg, s, now, env);
  }

  lemma OverdueMeans(cfg: Config, s: State, now: int)
    requires Inv(cfg, s, now) && s.gi.req != 0 && now < 0x8000_0000_0000_0000
    requires 0 < cfg.giTime <= MAX_EXACT_SECONDS
    ensures IsOverdue(cfg, s, now) <==> now > Settle(s.history).activity + 1000 * cfg.giTime
  {
  }

  lemma SyncTickLeaves(cfg: Config, s: State, now: int, sent: bool)
    ensures var t := SyncTick(cfg, s, now, sent);
            t.gi == s.gi && t.link == s.link && t.status == s.status && GateOpen(cfg, t) == GateOpen(cfg, s)
  {
  }

  lemma OverdueRound(cfg: Config, s: State, now: int, sent: bool)
    requires s.gi.firstSent && s.gi.inProgress && s.gi.req != 0 && Inv(cfg, s, now)
    ensures var t := GiTick(cfg, s, now, sent);
            if IsOverdue(cfg, s, now)
            then t.gi.req == 0 && t.status == GiFailed && !t.link.handle.Open?
                 && (s.link.handle.Open? ==> !t.link.connected)
                 && Settle(t.history).timedOut == Settle(s.history).timedOut + 1
                 && Settle(t.history).phase == Quiet
            else t == s
  {
    hide StartCycle, ServeRequest, RestartDue, AskNext;
    FailIsNeutral(RequestExpired(cfg, s, now));
  }

  lemma RoundOfWatched(cfg: Config, s: State, now: int, env: RoundInput)
    requires IsWatched(cfg, s)
    ensures var u := GiTick(cfg, SyncTick(cfg, s, now, env.clockSent), now, env.giSent);
            var t := Round(cfg, s, now, env);
            t == u.(link := Link.ServeDisconnect(u.link, env.link.dropFails))
  {
    hide GiTick;
    SyncTickLeaves(cfg, s, now, env.clockSent);
  }

  // ---- not a deadline per step ----

  /** The deadline of the open request is `since + gi_time * 1000`. */
  ghost predicate IsDueFrom(cfg: Config, s: State, since: int) {
    forall now: Time :: IsOverdue(cfg, s, now) <==> now > since + 1000 * cfg.giTime
  }

  lemma DueFromSending(cfg: Config, s: State, since: int)
    requires 0 < cfg.giTime <= MAX_EXACT_SECONDS && s.gi.req != 0
    requires 0 <= s.gi.reqSent && 0 <= since && s.gi.reqSent < 0x4000_0000_0000_0000 && since < 0x4000_0000_0000_0000
    ensures IsDueFrom(cfg, s, since) <==> since == s.gi.reqSent
  {
    if since != s.gi.reqSent {
      var now: Time := 1000 * cfg.giTime + 1 + if since < s.gi.reqSent then since else s.gi.reqSent;
      assert !(IsOverdue(cfg, s, now) <==> now > since + 1000 * cfg.giTime);
    }
  }

  /** The step that an ACT_CON opens does not get its own gi_time: its deadline counts from
      the ACT_CON if and only if that arrives in the same millisecond in which the request
      was sent. It counts from the sending. */
  lemma ConfirmationRestartsNoDeadline(cfg: Config, s: State, con: Asdu, at: int, isActive: bool)
    requires 0 < cfg.giTime <= MAX_EXACT_SECONDS && s.gi.req == 1
    requires 0 <= s.gi.reqSent <= at < 0x4000_0000_0000_0000
    requires IsGiReply(con, COT_ACTIVATION_CON)
    ensures var t := Receive(cfg, s, con, at, isActive);
            && t.gi.req == 2
            && (IsDueFrom(cfg, t, at) <==> at == s.gi.reqSent)
            && IsDueFrom(cfg, t, s.gi.reqSent)
  {
    ConfirmationRuns(cfg, s, con, at, isActive);
    var t := Receive(cfg, s, con, at, isActive);
    hide Receive, IsDueFrom;
    DueFromSending(cfg, t, at);
    DueFromSending(cfg, t, s.gi.reqSent);
  }

  /** Only a response accepted in the second step moves the deadline: to gi_time after it. */
  lemma ResponseRestartsTheDeadline(cfg: Config, s: State, a: Asdu, at: int, isActive: bool)
    requires 0 < cfg.giTime <= MAX_EXACT_SECONDS && s.gi.req == 2
    requires 0 <= at < 0x4000_0000_0000_0000
    requires IsInterrogationResponse(a)
    ensures var t := Receive(cfg, s, a, at, isActive); t.gi.req == 2 && IsDueFrom(cfg, t, at)
  {
    hide Answered, Triggers, IsHandled, IsDueFrom, ControlReply, WithoutAll;
    var s1 := HandleAsdu(cfg, s, a, at, isActive);
    assert s1.gi.req == 2 && s1.gi.reqSent == at;
    ResponseControls(cfg, s1, a, at);
    hide HandleAsdu;
    DueFromSending(cfg, Receive(cfg, s, a, at, isActive), at);
  }

  lemma ResponseControls(cfg: Config, s: State, a: Asdu, at: int)
    requires IsInterrogationResponse(a)
    ensures var t := ControlReply(cfg, s, a, at); t.gi.req == s.gi.req && t.gi.reqSent == s.gi.reqSent
  {
  }

  /** A request whose second step is cut short: asked at 0, confirmed at 5, and failed by the
      round at gi_time * 1000 + 1, when less than gi_time has passed since the confirmation. */
  lemma SecondStepIsCutShort(cfg: Config, con: Asdu)
    requires IsAllCaWithoutSync(cfg) && 0 < cfg.giTime <= MAX_EXACT_SECONDS
    requires IsGiReply(con, COT_ACTIVATION_CON) && !con.negative
    ensures var now := 1000 * cfg.giTime + 1;
            var confirmed := Asking() + [Received(5, con, true)];
            var s := Run(cfg, Initial(true, 0), confirmed);
            var t := Run(cfg, Initial(true, 0), confirmed + [ThreadRound(now, ACCEPTING)]);
            && Feasible(cfg, Initial(true, 0), confirmed + [ThreadRound(now, ACCEPTING)])
            && Settle(s.history).phase == Running(true, true) && s.status == GiInProgress
            && now - 5 < 1000 * cfg.giTime
            && t.status == GiFailed && Settle(t.history).timedOut == Settle(s.history).timedOut + 1
  {
    var s0 := Initial(true, 0);
    var now := 1000 * cfg.giTime + 1;
    var confirmed, last := Asking() + [Received(5, con, true)], ThreadRound(now, ACCEPTING);
    hide Step, Receive, Asking, Run, Feasible, IsGiReply, Reaches, Settle, Initial;
    var s := AnswerToFirstRequest(cfg, con, 5);
    assert IsWatched(cfg, s);
    hide IsWatched;
    ReachByAnother(cfg, s0, confirmed, s, last);
    ReachesMeans(cfg, s0, confirmed, s);
    ReachesMeans(cfg, s0, confirmed + [last], Step(cfg, s, last));
    DeadlineIsKept(cfg, true, 0, confirmed, now, ACCEPTING);
  }

  /** The client's deadline test agrees with the intended one. */
  predicate IsHonoured(giTime: Seconds, sentAt: Time, now: Time) {
    now > After(sentAt, giTime) <==> now > sentAt + 1000 * giTime
  }

  /** The bound on gi_time is exact: a setting honours its deadline at all times if and only
      if the 32-bit product does not overflow. */
  lemma DeadlineIsExactBelowOverflow(giTime: Seconds)
    ensures giTime <= MAX_EXACT_SECONDS <==> forall sentAt: Time, now: Time :: IsHonoured(giTime, sentAt, now)
  {
    if giTime > MAX_EXACT_SECONDS {
      var sentAt: Time := 0x1_0000_0000;
      var now: Time := sentAt + 1000 * giTime;
      assert Millis(giTime) < 0x8000_0000 < 1000 * giTime;
      assert !IsHonoured(giTime, sentAt, now);
    }
  }
}
