/** The GI status that the client reports: which event sets which status, for all events, and
    that every change is announced. */
module StatusProofs {
  import opened Protocol
  import opened Exchange
  import opened Reception
  import opened Session
  import CycleStarts
  import Link
  import Publication
  import QualityProofs

  /** The statuses announced so far. */
  function Announced(h: History): seq<GiStatus> {
    match h
    case Nothing => []
    case Then(past, e) => Announced(past) + (if e.StatusIs? then [e.status] else [])
  }

  /** The library accepts the next address of an open all-CA cycle. */
  predicate NextIsAsked(cfg: Config, s: State, accepted: bool) {
    && CycleStarts.IsServing(cfg, s) && s.gi.firstSent && s.gi.inProgress && s.gi.req == 0
    && cfg.giAllCa && s.gi.it < |cfg.cas| && accepted
  }

  predicate IsConfirmed(s: State, a: Asdu) {
    a.typeId == C_IC_NA_1 && !IsHandled(a, |a.objects|) && a.cot == 7 && s.gi.req == 1
  }

  /** The status after an event, by what happened. */
  function StatusAfter(cfg: Config, s: State, e: Event): GiStatus {
    match e
    case ThreadRound(now, env) =>
      if QualityProofs.CycleFails(cfg, s, now, env.giSent) then GiFailed
      else if NextIsAsked(cfg, s, env.giSent) then GiStarted
      else if CycleStarts.StartsCycle(cfg, s, now) && !CycleStarts.HasNothingToAsk(cfg) then GiStarted
      else s.status
    case Received(_, a, _) =>
      if QualityProofs.ReplyEnds(s, a) then (if a.cot == 10 then GiFinished else GiFailed)
      else if IsConfirmed(s, a) then GiInProgress
      else if a.cot == 20 && s.status == GiStarted then GiInProgress
      else s.status
    case Elsewhere(_, status, _) => status
    case _ => s.status
  }

  /** From `s` to `t` the status became `target`, with one announcement if it changed. */
  predicate Becomes(s: State, t: State, target: GiStatus) {
    && t.status == target
    && Announced(t.history) == Announced(s.history) + (if s.status == target then [] else [target])
  }

  lemma UpdateBecomes(s: State, status: GiStatus)
    ensures Becomes(s, UpdateStatus(s, status), status) && Becomes(s, Invalidate(s), s.status)
  {
  }

  lemma FailBecomes(s: State)
    ensures Becomes(s, Fail(s), GiFailed)
  {
    UpdateBecomes(s, GiFailed);
    UpdateBecomes(UpdateStatus(s, GiFailed), GiFailed);
  }

  lemma StartCycleBecomes(cfg: Config, s: State, why: Why, now: int, sent: bool)
    ensures Becomes(s, StartCycle(cfg, s, why, now, sent),
                    if CycleStarts.HasNothingToAsk(cfg) then s.status else GiStarted)
  {
    hide UpdateStatus;
    var s1 := CycleBegun(cfg, s, why, now);
    assert Announced(s1.history) == Announced(s.history);
    UpdateBecomes(Rewound(cfg, s1), GiStarted);
    UpdateBecomes(s1, GiStarted);
  }

  lemma RestartBecomes(cfg: Config, s: State, now: int, sent: bool)
    ensures var starts := CycleStarts.IsDue(cfg, s, now) || s.gi.endOfInit
                          || (s.gi.requested && s.status in {GiFailed, GiFinished});
            Becomes(s, ServeRequest(cfg, RestartDue(cfg, s, now, sent), now, sent),
                    if starts && !CycleStarts.HasNothingToAsk(cfg) then GiStarted else s.status)
  {
    hide StartCycle;
    StartCycleBecomes(cfg, s, Periodic, now, sent);
    StartCycleBecomes(cfg, s, EndOfInit, now, sent);
    var s1 := RestartDue(cfg, s, now, sent);
    StartCycleBecomes(cfg, LowerFlag(s1), OnRequest, now, sent);
    StartKeepsRequest(cfg, s, Periodic, now, sent);
    StartKeepsRequest(cfg, s, EndOfInit, now, sent);
  }

  lemma StartKeepsRequest(cfg: Config, s: State, why: Why, now: int, sent: bool)
    ensures StartCycle(cfg, s, why, now, sent).gi.requested == s.gi.requested
  {
  }

  lemma ProgressBecomes(cfg: Config, s: State, now: int, sent: bool)
    ensures Becomes(s, Progress(cfg, s, now, sent),
                    if QualityProofs.RequestFails(cfg, s.gi, now, sent) then GiFailed
                    else if s.gi.req == 0 && cfg.giAllCa && s.gi.it < |cfg.cas| then GiStarted
                    else s.status)
  {
    hide UpdateStatus, Fail;
    if s.gi.req != 0 {
      FailBecomes(RequestExpired(cfg, s, now));
    } else if cfg.giAllCa && s.gi.it < |cfg.cas| {
      var ca := cfg.cas[s.gi.it];
      UpdateBecomes(Record(s.(gi := s.gi.(req := 1, reqSent := now)), Asked(ca, now)), GiStarted);
      FailBecomes(Record(s, NotAsked(ca)));
    }
  }

  lemma ClockBecomes(cfg: Config, s: State, now: int, sent: bool)
    ensures var t := SyncTick(cfg, s, now, sent);
            && Becomes(s, t, s.status) && t.gi == s.gi && t.link == s.link && t.sync.firstDone == s.sync.firstDone
  {
  }

  lemma GiTickBecomes(cfg: Config, s: State, now: int, sent: bool)
    requires CycleStarts.IsServing(cfg, s)
    ensures Becomes(s, GiTick(cfg, s, now, sent),
                    if QualityProofs.CycleFails(cfg, s, now, sent) then GiFailed
                    else if NextIsAsked(cfg, s, sent) then GiStarted
                    else if CycleStarts.StartsCycle(cfg, s, now) && !CycleStarts.HasNothingToAsk(cfg) then GiStarted
                    else s.status)
  {
    hide StartCycle, Progress, ServeRequest, RestartDue, Becomes;
    StartCycleBecomes(cfg, s, First, now, sent);
    ProgressBecomes(cfg, s, now, sent);
    RestartBecomes(cfg, s, now, sent);
    StaysPut(s);
  }

  lemma StaysPut(s: State)
    ensures Becomes(s, s, s.status)
  {
  }

  lemma RoundBecomes(cfg: Config, s: State, now: int, env: RoundInput)
    ensures Becomes(s, Round(cfg, s, now, env), StatusAfter(cfg, s, ThreadRound(now, env)))
  {
    hide GiTick, SyncTick, Link.Switch, Link.ServeDisconnect;
    ClockBecomes(cfg, s, now, env.clockSent);
    var s1 := SyncTick(cfg, s, now, env.clockSent);
    if CycleStarts.IsServing(cfg, s1) { GiTickBecomes(cfg, s1, now, env.giSent); }
    hide CycleStarts.IsDue, QualityProofs.RequestFails;
  }

  lemma DataBecomes(cfg: Config, s: State, a: Asdu, now: int, isActive: bool)
    ensures var t := HandleAsdu(cfg, s, a, now, isActive);
            && Becomes(s, t, if a.cot == 20 && s.status == GiStarted then GiInProgress else s.status)
            && t.gi.req == s.gi.req
  {
    hide Answered, Triggers, WithoutAll, UpdateStatus;
    var answered := Answered(cfg.defs, a, |a.objects|);
    var s0 := Record(s.(gi := if s.gi.req == 2 then s.gi.(reqSent := now) else s.gi,
                        pending := WithoutAll(s.pending, answered)),
                     Response(now, answered));
    var status := if s.status == GiStarted then GiInProgress else s.status;
    assert Announced(s0.history) == Announced(s.history);
    UpdateBecomes(s0, status);
    QualityProofs.UpdateSets(s0, status);
    RaiseBecomes(s);
    RaiseBecomes(UpdateStatus(s0, status));
    hide RaiseFlag;
  }

  lemma RaiseBecomes(s: State)
    ensures Becomes(s, RaiseFlag(s), s.status) && RaiseFlag(s).gi.req == s.gi.req
  {
  }

  lemma GiReplyBecomes(s: State, a: Asdu)
    ensures Becomes(s, GiReply(s, a),
                    if QualityProofs.CauseEnds(s.gi.req, s.status, a)
                    then (if a.cot == 10 then GiFinished else GiFailed)
                    else if a.cot == 7 && s.gi.req == 1 then GiInProgress
                    else s.status)
  {
    hide UpdateStatus, Invalidate, Fail;
    var s1 := Record(s, GotActCon(a.negative)).(gi := s.gi.(req := 2));
    FailBecomes(s1);
    UpdateBecomes(s1, GiInProgress);
    var s2 := Record(s, GotActTerm).(gi := s.gi.(req := 0));
    UpdateBecomes(s2, GiFinished);
    UpdateBecomes(UpdateStatus(s2, GiFinished), GiFinished);
    FailBecomes(Record(s, GotOther));
  }

  lemma ClockReplyBecomes(cfg: Config, s: State, a: Asdu, now: int)
    ensures Becomes(s, ClockReply(cfg, s, a, now), s.status)
  {
  }

  /** A response that is itself a C_IC_NA_1, while the status is STARTED: IN PROGRESS is
      announced before FAILED. */
  predicate FailsAsResponse(s: State, e: Event) {
    e.Received? && e.asdu.cot == 20 && s.status == GiStarted && QualityProofs.ReplyEnds(s, e.asdu)
  }

  lemma ReceiveBecomes(cfg: Config, s: State, a: Asdu, now: int, isActive: bool)
    ensures var t := Receive(cfg, s, a, now, isActive);
            && t.status == StatusAfter(cfg, s, Received(now, a, isActive))
            && Announced(t.history) == Announced(s.history) +
                 if FailsAsResponse(s, Received(now, a, isActive)) then [GiInProgress, GiFailed]
                 else if t.status == s.status then [] else [t.status]
  {
    hide HandleAsdu, GiReply, ClockReply, IsHandled, Announced;
    DataBecomes(cfg, s, a, now, isActive);
    var s1 := HandleAsdu(cfg, s, a, now, isActive);
    GiReplyBecomes(s1, a);
    ClockReplyBecomes(cfg, s1, a, now);
  }

  /** Every step sets the status that the event calls for, and announces it exactly if it
      changes. */
  lemma StatusIsAnnounced(cfg: Config, s: State, e: Event)
    requires !e.Elsewhere?
    ensures var t := Step(cfg, s, e);
            && t.status == StatusAfter(cfg, s, e)
            && Announced(t.history) == Announced(s.history) +
                 if FailsAsResponse(s, e) then [GiInProgress, GiFailed]
                 else if t.status == s.status then [] else [t.status]
  {
    hide Round, Receive, StatusAfter;
    match e
    case ThreadRound(now, env) => RoundBecomes(cfg, s, now, env);
    case Received(now, a, isActive) => ReceiveBecomes(cfg, s, a, now, isActive);
    case _ => OtherStatus(cfg, s, e);
  }

  lemma OtherStatus(cfg: Config, s: State, e: Event)
    requires !e.ThreadRound? && !e.Received? && !e.Elsewhere?
    ensures StatusAfter(cfg, s, e) == s.status && Becomes(s, Step(cfg, s, e), s.status)
  {
  }

  // ---- what reaches the ingest callback ----

  /** The statuses that the calls report. */
  function Reported(calls: seq<Publication.Ingested>): seq<GiStatus> {
    if calls == [] then []
    else (if calls[0].GiEvent? then [calls[0].gi] else []) + Reported(calls[1..])
  }

  lemma {:induction false} ReportedConcat(a: seq<Publication.Ingested>, b: seq<Publication.Ingested>)
    ensures Reported(a + b) == Reported(a) + Reported(b)
  {
    if a == [] {
      assert a + b == b;
    } else {
      assert (a + b)[1..] == a[1..] + b;
      ReportedConcat(a[1..], b);
    }
  }

  lemma {:induction false} UpdatesReportNothing(points: seq<Definition>, n: nat, qd: Publication.QualityDescriptor)
    requires n <= |points|
    ensures Reported(Publication.QualityUpdates(points, n, qd)) == []
  {
    if n > 0 {
      var last := [Publication.Quality(points[n - 1].tag, points[n - 1], qd)];
      UpdatesReportNothing(points, n - 1, qd);
      ReportedConcat(Publication.QualityUpdates(points, n - 1, qd), last);
      assert last[1..] == [];
    }
  }

  lemma OutputReports(signal: string, e: Entry)
    ensures Reported(Publication.Output(signal, e)) == if e.StatusIs? && signal != "" then [e.status] else []
  {
    match e
    case Invalidated(points) => UpdatesReportNothing(points, |points|, Publication.Invalid);
    case StatusIs(status) => assert [Publication.GiEvent(signal, status)][1..] == [];
    case _ =>
  }

  /** With a signal configured, the south events are the announcements, all of them and in
      order; without one there are none. */
  lemma {:induction false} AnnouncementsAreReported(signal: string, h: History)
    ensures Reported(Publication.Emitted(signal, h)) == if signal != "" then Announced(h) else []
  {
    if h.Then? {
      AnnouncementsAreReported(signal, h.past);
      OutputReports(signal, h.last);
      ReportedConcat(Publication.Emitted(signal, h.past), Publication.Output(signal, h.last));
      hide Publication.Output, Reported;
    }
  }
}
