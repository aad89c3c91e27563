/** Interrogation requests: the session's request state follows a reference automaton over
    the messages of the link; conservation, deadline, and what FINISHED means. */
module RequestProofs {
  import opened Protocol
  import opened Exchange
  import opened Reception
  import opened Session
  import Link

  /** The reference automaton of one interrogation. `current`: the request was sent in the
      current STARTDT session, on the transport connection opened last. `good`: its ACT_CON
      was positive and no C_IC_NA_1 with another cause arrived since. */
  datatype Phase = Quiet | Waiting(current: bool) | Running(current: bool, good: bool)

  /** What the history says about requests: how many were sent, how each ended, the phase
      of the open one, and when it last showed activity. `restarted`: a STARTDT_CON came since
      the last request was sent; `why`: the reason of the latest cycle. `misplaced` counts the
      overwritten requests that were not overwritten by a first cycle after a STARTDT_CON. */
  datatype Ledger = Ledger(
    asked: nat, terminated: nat, timedOut: nat, overwritten: nat, misplaced: nat,
    phase: Phase, activity: int, restarted: bool, why: Why)

  function Aged(p: Phase): Phase {
    match p
    case Quiet => Quiet
    case Waiting(_) => Waiting(false)
    case Running(_, good) => Running(false, good)
  }

  function Advance(l: Ledger, e: Entry): Ledger {
    match e
    case LinkOpened => l.(phase := Aged(l.phase))
    case StartDt => l.(phase := Aged(l.phase), restarted := true)
    case Began(why, _) => l.(why := why)
    case Asked(_, at) =>
      l.(asked := l.asked + 1, overwritten := l.overwritten + (if l.phase.Quiet? then 0 else 1),
         misplaced := l.misplaced + (if l.phase.Quiet? || (l.restarted && l.why.First?) then 0 else 1),
         phase := Waiting(true), activity := at, restarted := false)
    case GotActCon(negative) => if l.phase.Waiting? then l.(phase := Running(l.phase.current, !negative)) else l
    case GotActTerm => if l.phase.Running? then l.(phase := Quiet, terminated := l.terminated + 1) else l
    case GotOther => if l.phase.Running? then l.(phase := Running(l.phase.current, false)) else l
    case TimedOut(_) => if l.phase.Quiet? then l else l.(phase := Quiet, timedOut := l.timedOut + 1)
    case Response(at, _) => if l.phase.Running? then l.(activity := at) else l
    case _ => l
  }

  function Settle(h: History): (l: Ledger)
    ensures l.asked == l.terminated + l.timedOut + l.overwritten + (if l.phase.Quiet? then 0 else 1)
  {
    match h
    case Nothing => Ledger(0, 0, 0, 0, 0, Quiet, 0, false, First)
    case Then(past, e) => Advance(Settle(past), e)
  }

  function Code(p: Phase): RequestState {
    if p.Quiet? then 0 else if p.Waiting? then 1 else 2
  }

  function IsCurrent(p: Phase): bool {
    !p.Quiet? && p.current
  }

  /** `now` bounds all times so far. */
  predicate Inv(cfg: Config, s: State, now: int) {
    var l := Settle(s.history);
    && s.gi.req == Code(l.phase)
    && (s.gi.req != 0 ==> s.gi.inProgress)
    && (IsCurrent(l.phase) ==> s.gi.firstSent)
    && (s.link.conState == Link.Inactive ==> !IsCurrent(l.phase))
    && (l.phase.Running? && l.phase.current && s.link.conState == Link.Active ==>
          if l.phase.good then Live(s.status) else s.status == GiFailed)
    && (s.gi.req != 0 ==> s.gi.reqSent == l.activity)
    && 0 <= l.activity <= now
    && (cfg.giAllCa ==> l.overwritten == 0)
    && l.misplaced == 0
    && (!l.phase.Quiet? && !l.restarted ==> s.gi.firstSent)
  }

  lemma UpdateIsNeutral(s: State, status: GiStatus)
    ensures Settle(UpdateStatus(s, status).history) == Settle(s.history)
  {
  }

  lemma FailIsNeutral(s: State)
    ensures Settle(Fail(s).history) == Settle(s.history)
  {
    UpdateIsNeutral(s, GiFailed);
  }

  lemma SyncTickKeeps(cfg: Config, s: State, now: int, sent: bool)
    requires Inv(cfg, s, now)
    ensures Inv(cfg, SyncTick(cfg, s, now, sent), now)
    ensures Settle(SyncTick(cfg, s, now, sent).history) == Settle(s.history)
    ensures SyncTick(cfg, s, now, sent).status == s.status && SyncTick(cfg, s, now, sent).link == s.link
  {
  }

  lemma StartCycleKeeps(cfg: Config, s: State, why: Why, now: int, sent: bool)
    requires Inv(cfg, s, now) && now >= 0 && s.link.conState == Link.Active
    requires s.gi.req == 0 || (why == First && !s.gi.firstSent)
    ensures Inv(cfg, StartCycle(cfg, s, why, now, sent), now)
    ensures Settle(s.history).asked
            <= Settle(StartCycle(cfg, s, why, now, sent).history).asked
            <= Settle(s.history).asked + 1
    ensures cfg.giAllCa || !sent ==>
              Settle(StartCycle(cfg, s, why, now, sent).history) == Settle(s.history).(why := why)
    ensures !cfg.giAllCa && sent ==>
              Settle(StartCycle(cfg, s, why, now, sent).history).asked == Settle(s.history).asked + 1
    ensures StartCycle(cfg, s, why, now, sent).status in {s.status, GiStarted}
    ensures StartCycle(cfg, s, why, now, sent).link == s.link
    ensures StartCycle(cfg, s, why, now, sent).gi.req == (if cfg.giAllCa || !sent then s.gi.req else 1)
    ensures !cfg.giAllCa && sent ==> StartCycle(cfg, s, why, now, sent).status == GiStarted
  {
    var s1 := CycleBegun(cfg, s, why, now);
    assert Settle(s1.history) == Settle(s.history).(why := why);
    if cfg.giAllCa {
      UpdateIsNeutral(Rewound(cfg, s1), GiStarted);
    } else {
      UpdateIsNeutral(s1, GiStarted);
    }
  }

  lemma TimeOutKeeps(cfg: Config, s: State, now: int)
    requires Inv(cfg, s, now) && s.gi.req != 0
    ensures Inv(cfg, TimeOut(cfg, s, now), now)
    ensures Settle(TimeOut(cfg, s, now).history).phase == Quiet && TimeOut(cfg, s, now).status == GiFailed
    ensures Settle(TimeOut(cfg, s, now).history).asked == Settle(s.history).asked
  {
    FailIsNeutral(RequestExpired(cfg, s, now));
  }

  lemma AskNextKeeps(cfg: Config, s: State, now: int, sent: bool)
    requires Inv(cfg, s, now) && now >= 0 && s.gi.req == 0 && s.gi.firstSent && s.gi.inProgress
    requires s.gi.it < |cfg.cas| && s.link.conState == Link.Active
    ensures Inv(cfg, AskNext(cfg, s, now, sent), now)
    ensures AskNext(cfg, s, now, sent).status in {GiStarted, GiFailed}
    ensures Settle(AskNext(cfg, s, now, sent).history).asked == Settle(s.history).asked ==>
              Settle(AskNext(cfg, s, now, sent).history) == Settle(s.history)
    ensures Settle(s.history).asked <= Settle(AskNext(cfg, s, now, sent).history).asked <= Settle(s.history).asked + 1
  {
    var ca := cfg.cas[s.gi.it];
    if sent {
      UpdateIsNeutral(Record(s.(gi := s.gi.(req := 1, reqSent := now)), Asked(ca, now)), GiStarted);
    } else {
      FailIsNeutral(Record(s, NotAsked(ca)));
    }
  }

  lemma GiTickKeeps(cfg: Config, s: State, now: int, sent: bool)
    requires Inv(cfg, s, now) && now >= 0 && s.link.conState == Link.Active
    ensures Inv(cfg, GiTick(cfg, s, now, sent), now)
    ensures GiTick(cfg, s, now, sent).status in {s.status, GiStarted, GiFailed}
    ensures Settle(GiTick(cfg, s, now, sent).history).asked == Settle(s.history).asked ==>
              Settle(GiTick(cfg, s, now, sent).history).phase in {Settle(s.history).phase, Quiet}
    ensures Settle(s.history).asked <= Settle(GiTick(cfg, s, now, sent).history).asked <= Settle(s.history).asked + 1
  {
    hide StartCycle, TimeOut, AskNext, ServeRequest, RestartDue;
    if !s.gi.firstSent {
      StartCycleKeeps(cfg, s, First, now, sent);
    } else if s.gi.inProgress {
      if s.gi.req != 0 {
        if IsOverdue(cfg, s, now) { TimeOutKeeps(cfg, s, now); }
      } else if cfg.giAllCa && s.gi.it < |cfg.cas| {
        AskNextKeeps(cfg, s, now, sent);
      }
    } else {
      RestartKeeps(cfg, s, now, sent);
    }
  }

  lemma DueKeeps(cfg: Config, s: State, now: int, sent: bool)
    requires Inv(cfg, s, now) && now >= 0 && !s.gi.inProgress && s.link.conState == Link.Active
    ensures var t := RestartDue(cfg, s, now, sent);
            && Inv(cfg, t, now) && t.link == s.link && t.status in {s.status, GiStarted}
            && (t.status == GiStarted || t.gi.req == 0)
            && (if t.gi.req == 0
                then Settle(t.history).asked == Settle(s.history).asked
                     && Settle(t.history).phase == Settle(s.history).phase
                else Settle(t.history).asked == Settle(s.history).asked + 1)
  {
    hide StartCycle;
    StartCycleKeeps(cfg, s, Periodic, now, sent);
    StartCycleKeeps(cfg, s, EndOfInit, now, sent);
  }

  lemma ServeKeeps(cfg: Config, s: State, now: int, sent: bool)
    requires Inv(cfg, s, now) && now >= 0 && s.link.conState == Link.Active
    requires s.status == GiStarted || s.gi.req == 0
    ensures var t := ServeRequest(cfg, s, now, sent);
            && Inv(cfg, t, now) && t.status in {s.status, GiStarted}
            && (Settle(t.history).asked == Settle(s.history).asked ==>
                  Settle(t.history).phase == Settle(s.history).phase)
            && Settle(s.history).asked <= Settle(t.history).asked <= Settle(s.history).asked + 1
            && (s.status == GiStarted ==> t == s)
  {
    hide StartCycle;
    assert Inv(cfg, LowerFlag(s), now);
    if s.status != GiStarted { StartCycleKeeps(cfg, LowerFlag(s), OnRequest, now, sent); }
  }

  /** Two restarts can fall into one round, but only the first can send: it leaves the
      status STARTED, and in all-CA mode no restart sends anything. */
  lemma RestartKeeps(cfg: Config, s: State, now: int, sent: bool)
    requires Inv(cfg, s, now) && now >= 0 && !s.gi.inProgress && s.link.conState == Link.Active
    ensures var t := ServeRequest(cfg, RestartDue(cfg, s, now, sent), now, sent);
            && Inv(cfg, t, now) && t.status in {s.status, GiStarted}
            && (Settle(t.history).asked == Settle(s.history).asked ==>
                  Settle(t.history).phase == Settle(s.history).phase)
            && Settle(s.history).asked <= Settle(t.history).asked <= Settle(s.history).asked + 1
  {
    hide RestartDue, ServeRequest, Inv, Settle;
    DueKeeps(cfg, s, now, sent);
    ServeKeeps(cfg, RestartDue(cfg, s, now, sent), now, sent);
  }

  lemma RoundKeeps(cfg: Config, s: State, now: int, env: RoundInput)
    requires Inv(cfg, s, now) && now >= 0
    ensures Inv(cfg, Round(cfg, s, now, env), now)
    ensures Round(cfg, s, now, env).status in {s.status, GiStarted, GiFailed}
    ensures Settle(Round(cfg, s, now, env).history).asked == Settle(s.history).asked ==>
              Settle(Round(cfg, s, now, env).history).phase in {Settle(s.history).phase, Quiet}
    ensures Settle(s.history).asked <= Settle(Round(cfg, s, now, env).history).asked <= Settle(s.history).asked + 1
  {
    hide GiTick, SyncTick, Link.Switch, Link.ServeDisconnect;
    Link.RoundEntersNoSession(s.link, now, env.link.dialFails, env.link.created);
    Link.DisconnectEntersNoSession(
      if s.link.conState == Link.Active then Periodics(cfg, s, now, env.clockSent, env.giSent).link
      else Link.Switch(s.link, now, env.link.dialFails, env.link.created), env.link.dropFails);
    SyncTickKeeps(cfg, s, now, env.clockSent);
    if s.link.conState == Link.Active {
      GiTickKeeps(cfg, SyncTick(cfg, s, now, env.clockSent), now, env.giSent);
    }
  }

  lemma TakeResponseKeeps(cfg: Config, s: State, answered: seq<Definition>, now: int)
    requires Inv(cfg, s, now) && now >= 0
    ensures Inv(cfg, TakeResponse(s, answered, now), now)
    ensures Settle(TakeResponse(s, answered, now).history) ==
            Settle(s.history).(activity := if s.gi.req == 2 then now else Settle(s.history).activity)
    ensures Live(TakeResponse(s, answered, now).status) == Live(s.status)
    ensures TakeResponse(s, answered, now).status == GiFinished <==> s.status == GiFinished
  {
    var s0 := Record(s.(gi := if s.gi.req == 2 then s.gi.(reqSent := now) else s.gi,
                        pending := WithoutAll(s.pending, answered)),
                     Response(now, answered));
    UpdateIsNeutral(s0, if s.status == GiStarted then GiInProgress else s.status);
  }

  lemma RaiseIsNeutral(s: State)
    ensures Settle(RaiseFlag(s).history) == Settle(s.history)
  {
  }

  lemma RaiseKeeps(cfg: Config, s: State, now: int)
    ensures Settle(RaiseFlag(s).history) == Settle(s.history) && RaiseFlag(s).status == s.status
    ensures Inv(cfg, s, now) ==> Inv(cfg, RaiseFlag(s), now)
  {
    RaiseIsNeutral(s);
    hide Settle;
  }

  lemma HandleAsduKeeps(cfg: Config, s: State, a: Asdu, now: int, isActive: bool)
    requires Inv(cfg, s, now) && now >= 0
    ensures Inv(cfg, HandleAsdu(cfg, s, a, now, isActive), now)
    ensures Settle(HandleAsdu(cfg, s, a, now, isActive).history).(activity := 0) ==
            Settle(s.history).(activity := 0)
    ensures Live(HandleAsdu(cfg, s, a, now, isActive).status) == Live(s.status)
    ensures HandleAsdu(cfg, s, a, now, isActive).status == GiFinished <==> s.status == GiFinished
  {
    hide TakeResponse, Answered, Triggers, RaiseFlag, Inv, Settle;
    TakeResponseKeeps(cfg, s, Answered(cfg.defs, a, |a.objects|), now);
    RaiseKeeps(cfg, s, now);
    RaiseKeeps(cfg, TakeResponse(s, Answered(cfg.defs, a, |a.objects|), now), now);
  }

  lemma ClockReplyIsNeutral(cfg: Config, s: State, a: Asdu, now: int)
    ensures Settle(ClockReply(cfg, s, a, now).history) == Settle(s.history)
    ensures ClockReply(cfg, s, a, now).gi == s.gi && ClockReply(cfg, s, a, now).status == s.status
    ensures ClockReply(cfg, s, a, now).link == s.link
  {
  }

  lemma ActConKeeps(cfg: Config, s: State, negative: bool, now: int)
    requires Inv(cfg, s, now)
    ensures Inv(cfg, ActCon(s, negative), now)
    ensures Settle(ActCon(s, negative).history) == Advance(Settle(s.history), GotActCon(negative))
    ensures ActCon(s, negative).status in {s.status, GiFailed, GiInProgress}
  {
    var s1 := Record(s, GotActCon(negative));
    FailIsNeutral(s1.(gi := s1.gi.(req := 2)));
    UpdateIsNeutral(s1.(gi := s1.gi.(req := 2)), GiInProgress);
  }

  lemma ActTermKeeps(cfg: Config, s: State, now: int)
    requires Inv(cfg, s, now)
    ensures Inv(cfg, ActTerm(s), now)
    ensures Settle(ActTerm(s).history) == Advance(Settle(s.history), GotActTerm)
    ensures ActTerm(s).status == if s.gi.req == 2 && Live(s.status) then GiFinished else s.status
  {
    var s1 := Record(s, GotActTerm);
    UpdateIsNeutral(s1.(gi := s1.gi.(req := 0)), GiFinished);
  }

  lemma OtherCauseKeeps(cfg: Config, s: State, now: int)
    requires Inv(cfg, s, now)
    ensures Inv(cfg, OtherCause(s), now)
    ensures Settle(OtherCause(s).history) == Advance(Settle(s.history), GotOther)
    ensures OtherCause(s).status in {s.status, GiFailed}
  {
    FailIsNeutral(Record(s, GotOther));
  }

  lemma GiReplyKeeps(cfg: Config, s: State, a: Asdu, now: int)
    requires Inv(cfg, s, now)
    ensures Inv(cfg, GiReply(s, a), now)
    ensures Settle(GiReply(s, a).history).asked == Settle(s.history).asked
  {
    hide ActCon, ActTerm, OtherCause, Inv, Settle;
    ActConKeeps(cfg, s, a.negative, now);
    ActTermKeeps(cfg, s, now);
    OtherCauseKeeps(cfg, s, now);
  }

  lemma ReceiveKeeps(cfg: Config, s: State, a: Asdu, now: int, isActive: bool)
    requires Inv(cfg, s, now) && now >= 0
    ensures Inv(cfg, Receive(cfg, s, a, now, isActive), now)
    ensures Settle(Receive(cfg, s, a, now, isActive).history).asked == Settle(s.history).asked
  {
    hide HandleAsdu, ClockReply, GiReply;
    var s1 := HandleAsdu(cfg, s, a, now, isActive);
    HandleAsduKeeps(cfg, s, a, now, isActive);
    ClockReplyIsNeutral(cfg, s1, a, now);
    GiReplyKeeps(cfg, s1, a, now);
  }

  lemma StepKeepsInv(cfg: Config, s: State, e: Event)
    requires Inv(cfg, s, s.clock) && s.clock >= 0 && Enabled(s, e)
    ensures Inv(cfg, Step(cfg, s, e), e.now)
    ensures Settle(s.history).asked <= Settle(Step(cfg, s, e).history).asked <= Settle(s.history).asked + 1
  {
    assert Inv(cfg, s, e.now);
    match e
    case ThreadRound(now, env) => RoundKeeps(cfg, s, now, env);
    case Received(now, a, isActive) => ReceiveKeeps(cfg, s, a, now, isActive);
    case _ =>
  }

  lemma {:induction false} RunKeepsInv(cfg: Config, s: State, es: seq<Event>)
    requires Inv(cfg, s, s.clock) && s.clock >= 0 && Feasible(cfg, s, es)
    ensures Inv(cfg, Run(cfg, s, es), Run(cfg, s, es).clock) && Run(cfg, s, es).clock >= 0
    decreases es
  {
    if es != [] {
      StepKeepsInv(cfg, s, es[0]);
      RunKeepsInv(cfg, Step(cfg, s, es[0]), es[1..]);
    }
  }

  // ---- theorems ----

  /** In every run: cycle interrogations sent = accepted terminations + time-outs + requests
      overwritten + (1 if a request is open); every request that is overwritten is overwritten
      by the broadcast of a first cycle, with a STARTDT_CON since it was sent; an open request
      means a cycle in progress; all-CA cycles overwrite nothing; and no single step sends
      more than one interrogation. */
  lemma RequestsAreConserved(cfg: Config, connect: bool, t0: int, es: seq<Event>, e: Event)
    requires t0 >= 0 && Feasible(cfg, Initial(connect, t0), es)
    requires Enabled(Run(cfg, Initial(connect, t0), es), e)
    ensures var s := Run(cfg, Initial(connect, t0), es);
            var l := Settle(s.history);
            && l.asked == l.terminated + l.timedOut + l.overwritten + (if s.gi.req != 0 then 1 else 0)
            && s.gi.req == Code(l.phase)
            && (s.gi.req != 0 ==> s.gi.inProgress)
            && l.misplaced == 0
            && (cfg.giAllCa ==> l.overwritten == 0)
            && l.asked <= Settle(Step(cfg, s, e).history).asked <= l.asked + 1
  {
    RunKeepsInv(cfg, Initial(connect, t0), es);
    var s := Run(cfg, Initial(connect, t0), es);
    StepKeepsInv(cfg, s, e);
  }
}
