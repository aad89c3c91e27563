/** The history is a record only: no operation of a session reads it. */
module HistoryProofs {
  import opened Protocol
  import opened Reception
  import opened Session
  import Link

  /** A state without its past. */
  function Blind(s: State): State {
    s.(history := Nothing)
  }

  lemma UpdateIsBlind(s: State, t: State, status: GiStatus)
    requires Blind(s) == Blind(t)
    ensures Blind(UpdateStatus(s, status)) == Blind(UpdateStatus(t, status))
    ensures Blind(Invalidate(s)) == Blind(Invalidate(t))
    ensures Blind(RaiseFlag(s)) == Blind(RaiseFlag(t))
  {
  }

  lemma FailIsBlind(s: State, t: State)
    requires Blind(s) == Blind(t)
    ensures Blind(Fail(s)) == Blind(Fail(t))
  {
    UpdateIsBlind(s, t, GiFailed);
    UpdateIsBlind(UpdateStatus(s, GiFailed), UpdateStatus(t, GiFailed), GiFailed);
    hide UpdateStatus, Invalidate;
  }

  lemma SyncTickIsBlind(cfg: Config, s: State, t: State, now: int, sent: bool)
    requires Blind(s) == Blind(t)
    ensures Blind(SyncTick(cfg, s, now, sent)) == Blind(SyncTick(cfg, t, now, sent))
  {
  }

  lemma StartCycleIsBlind(cfg: Config, s: State, t: State, why: Why, now: int, sent: bool)
    requires Blind(s) == Blind(t)
    ensures Blind(StartCycle(cfg, s, why, now, sent)) == Blind(StartCycle(cfg, t, why, now, sent))
  {
    hide UpdateStatus;
    var s1, t1 := CycleBegun(cfg, s, why, now), CycleBegun(cfg, t, why, now);
    UpdateIsBlind(s1, t1, GiStarted);
    UpdateIsBlind(Rewound(cfg, s1), Rewound(cfg, t1), GiStarted);
  }

  lemma ProgressIsBlind(cfg: Config, s: State, t: State, now: int, sent: bool)
    requires Blind(s) == Blind(t)
    ensures Blind(Progress(cfg, s, now, sent)) == Blind(Progress(cfg, t, now, sent))
  {
    hide UpdateStatus, Fail;
    var gi := s.gi.(req := 0, nextStart := After(now, cfg.giCycle));
    FailIsBlind(Record(s.(gi := gi), Entry.TimedOut(now)), Record(t.(gi := gi), Entry.TimedOut(now)));
    if s.gi.it < |cfg.cas| {
      var ca, asked := cfg.cas[s.gi.it], s.gi.(req := 1, reqSent := now);
      UpdateIsBlind(Record(s.(gi := asked), Asked(ca, now)), Record(t.(gi := asked), Asked(ca, now)), GiStarted);
      FailIsBlind(Record(s, NotAsked(ca)), Record(t, NotAsked(ca)));
    }
  }

  lemma RestartIsBlind(cfg: Config, s: State, t: State, now: int, sent: bool)
    requires Blind(s) == Blind(t)
    ensures Blind(ServeRequest(cfg, RestartDue(cfg, s, now, sent), now, sent))
            == Blind(ServeRequest(cfg, RestartDue(cfg, t, now, sent), now, sent))
  {
    hide StartCycle;
    StartCycleIsBlind(cfg, s, t, Periodic, now, sent);
    StartCycleIsBlind(cfg, s, t, EndOfInit, now, sent);
    var s1, t1 := RestartDue(cfg, s, now, sent), RestartDue(cfg, t, now, sent);
    StartCycleIsBlind(cfg, LowerFlag(s1), LowerFlag(t1), OnRequest, now, sent);
  }

  lemma RoundIsBlind(cfg: Config, s: State, t: State, now: int, env: RoundInput)
    requires Blind(s) == Blind(t)
    ensures Blind(Round(cfg, s, now, env)) == Blind(Round(cfg, t, now, env))
  {
    hide SyncTick, StartCycle, Progress, ServeRequest, RestartDue, Link.Switch, Link.ServeDisconnect;
    SyncTickIsBlind(cfg, s, t, now, env.clockSent);
    var s1, t1 := SyncTick(cfg, s, now, env.clockSent), SyncTick(cfg, t, now, env.clockSent);
    StartCycleIsBlind(cfg, s1, t1, First, now, env.giSent);
    ProgressIsBlind(cfg, s1, t1, now, env.giSent);
    RestartIsBlind(cfg, s1, t1, now, env.giSent);
  }

  lemma HandleAsduIsBlind(cfg: Config, s: State, t: State, a: Asdu, now: int, isActive: bool)
    requires Blind(s) == Blind(t)
    ensures Blind(HandleAsdu(cfg, s, a, now, isActive)) == Blind(HandleAsdu(cfg, t, a, now, isActive))
  {
    hide UpdateStatus, RaiseFlag, Answered, Triggers, WithoutAll;
    var answered := Answered(cfg.defs, a, |a.objects|);
    var gi := if s.gi.req == 2 then s.gi.(reqSent := now) else s.gi;
    var status := if s.status == GiStarted then GiInProgress else s.status;
    UpdateIsBlind(
      Record(s.(gi := gi, pending := WithoutAll(s.pending, answered)), Response(now, answered)),
      Record(t.(gi := gi, pending := WithoutAll(s.pending, answered)), Response(now, answered)), status);
    UpdateIsBlind(s, t, status);
    UpdateIsBlind(TakeResponse(s, answered, now), TakeResponse(t, answered, now), status);
  }

  lemma GiReplyIsBlind(s: State, t: State, a: Asdu)
    requires Blind(s) == Blind(t)
    ensures Blind(GiReply(s, a)) == Blind(GiReply(t, a))
  {
    hide UpdateStatus, Invalidate, Fail;
    var con := GotActCon(a.negative);
    var running, quiet := s.gi.(req := 2), s.gi.(req := 0);
    FailIsBlind(Record(s, con).(gi := running), Record(t, con).(gi := running));
    UpdateIsBlind(Record(s, con).(gi := running), Record(t, con).(gi := running), GiInProgress);
    UpdateIsBlind(Record(s, GotActTerm).(gi := quiet), Record(t, GotActTerm).(gi := quiet), GiFinished);
    UpdateIsBlind(UpdateStatus(Record(s, GotActTerm).(gi := quiet), GiFinished),
                  UpdateStatus(Record(t, GotActTerm).(gi := quiet), GiFinished), GiFinished);
    FailIsBlind(Record(s, GotOther), Record(t, GotOther));
  }

  lemma ReceiveIsBlind(cfg: Config, s: State, t: State, a: Asdu, now: int, isActive: bool)
    requires Blind(s) == Blind(t)
    ensures Blind(Receive(cfg, s, a, now, isActive)) == Blind(Receive(cfg, t, a, now, isActive))
  {
    HandleAsduIsBlind(cfg, s, t, a, now, isActive);
    hide HandleAsdu, GiReply;
    GiReplyIsBlind(HandleAsdu(cfg, s, a, now, isActive), HandleAsdu(cfg, t, a, now, isActive), a);
  }

  /** Two states that differ at most in their past step to states that differ at most in theirs. */
  lemma StepIsBlind(cfg: Config, s: State, t: State, e: Event)
    requires Blind(s) == Blind(t)
    ensures Blind(Step(cfg, s, e)) == Blind(Step(cfg, t, e))
  {
    hide Round, Receive;
    UpdateIsBlind(s, t, GiIdle);
    match e
    case ThreadRound(now, env) => RoundIsBlind(cfg, s, t, now, env);
    case Received(now, a, isActive) => ReceiveIsBlind(cfg, s, t, a, now, isActive);
    case _ =>
  }
}
