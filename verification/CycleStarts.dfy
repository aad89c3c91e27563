/** When interrogation cycles begin and how they go on: both directions, for every round. */
module CycleStarts {
  import opened Protocol
  import opened Session
  import Exchange
  import FlagProofs
  import Link
  import Reception

  /** A round of an active session that may interrogate. */
  predicate IsServing(cfg: Config, s: State) {
    s.link.conState == Link.Active && cfg.giEnabled && (cfg.timeSyncPeriod == 0 || s.sync.firstDone)
  }

  predicate IsDue(cfg: Config, s: State, now: int) {
    cfg.giCycle > 0 && now > s.gi.nextStart
  }

  /** The session's first cycle; or, with none in progress, a period that is over, an end of
      initialization, or a request after a cycle that failed or finished. */
  predicate StartsCycle(cfg: Config, s: State, now: int) {
    && IsServing(cfg, s)
    && (!s.gi.firstSent
        || (!s.gi.inProgress
            && (IsDue(cfg, s, now) || s.gi.endOfInit
                || (s.gi.requested && s.status in {GiFailed, GiFinished}))))
  }

  /** An M_EI_NA_1 that the data path leaves to the session. */
  predicate AnnouncesEndOfInit(e: Event) {
    e.Received? && e.asdu.typeId == M_EI_NA_1 && !Reception.IsHandled(e.asdu, |e.asdu.objects|)
  }

  predicate HasNothingToAsk(cfg: Config) {
    cfg.giAllCa && cfg.cas == []
  }

  /** What the round that began a cycle leaves: in broadcast mode the request is out if the
      library accepts it, in all-CA mode the list is open from its first address. */
  predicate IsUnderWay(cfg: Config, t: State, now: int, accepted: bool) {
    && t.gi.firstSent && !t.gi.endOfInit
    && (!HasNothingToAsk(cfg) ==> t.status == GiStarted)
    && (if cfg.giAllCa then (cfg.cas != [] ==> t.gi.inProgress && t.gi.it == 0)
        else accepted ==> t.gi.inProgress && t.gi.req == 1 && t.gi.reqSent == now)
  }

  lemma StartCycleStarts(cfg: Config, s: State, why: Why, now: int, sent: bool)
    ensures var t := StartCycle(cfg, s, why, now, sent);
            && FlagProofs.Review(t.history) ==
               FlagProofs.CycleStarted(cfg, FlagProofs.Review(s.history), why, sent)
            && IsUnderWay(cfg, t, now, sent)
            && (HasNothingToAsk(cfg) ==> t.status == s.status && t.gi.inProgress == s.gi.inProgress)
            && t.gi.requested == s.gi.requested
  {
    FlagProofs.StartCycleServes(cfg, s, why, now, sent);
    hide FlagProofs.Review;
  }

  /** The cycles begun and interrogations sent between two histories. */
  function NewCycles(before: History, after: History): int {
    FlagProofs.Review(after).begun - FlagProofs.Review(before).begun
  }

  function NewRequests(before: History, after: History): int {
    FlagProofs.Review(after).asked - FlagProofs.Review(before).asked
  }

  /** What a round with no cycle in progress does. */
  lemma RestartStarts(cfg: Config, s: State, now: int, sent: bool)
    requires !s.gi.inProgress && s.gi.firstSent
    ensures var t := ServeRequest(cfg, RestartDue(cfg, s, now, sent), now, sent);
            var starts := IsDue(cfg, s, now) || s.gi.endOfInit
                          || (s.gi.requested && s.status in {GiFailed, GiFinished});
            && (if starts then 1 <= NewCycles(s.history, t.history) <= (if HasNothingToAsk(cfg) then 2 else 1)
                else t == s)
            && (starts ==> IsUnderWay(cfg, t, now, sent))
            && NewRequests(s.history, t.history) == (if starts && !cfg.giAllCa && sent then 1 else 0)
  {
    hide StartCycle, FlagProofs.Review, IsUnderWay;
    StartCycleStarts(cfg, s, Periodic, now, sent);
    StartCycleStarts(cfg, s, EndOfInit, now, sent);
    var s1 := RestartDue(cfg, s, now, sent);
    StartCycleStarts(cfg, LowerFlag(s1), OnRequest, now, sent);
    UnderWayStarts(cfg, s1, now, sent);
  }

  lemma DueStarts(cfg: Config, s: State, now: int, sent: bool)
    ensures var t := RestartDue(cfg, s, now, sent);
            if IsDue(cfg, s, now) || s.gi.endOfInit
            then NewCycles(s.history, t.history) == 1 && IsUnderWay(cfg, t, now, sent)
                 && NewRequests(s.history, t.history) == (if !cfg.giAllCa && sent then 1 else 0)
            else t == s
  {
    hide StartCycle, FlagProofs.Review;
    StartCycleStarts(cfg, s, Periodic, now, sent);
    StartCycleStarts(cfg, s, EndOfInit, now, sent);
  }

  lemma UnderWayStarts(cfg: Config, t: State, now: int, sent: bool)
    ensures IsUnderWay(cfg, t, now, sent) && !HasNothingToAsk(cfg) ==> t.status == GiStarted
  {
  }

  lemma ProgressStartsNothing(cfg: Config, s: State, now: int, sent: bool)
    ensures var t := Progress(cfg, s, now, sent);
            NewCycles(s.history, t.history) == 0 && t.gi.endOfInit == s.gi.endOfInit
  {
    hide UpdateStatus, Fail;
    UpdateStartsNothing(s, GiStarted);
    if s.gi.req != 0 {
      FailStartsNothing(RequestExpired(cfg, s, now));
    } else if cfg.giAllCa && s.gi.it < |cfg.cas| {
      var ca := cfg.cas[s.gi.it];
      UpdateStartsNothing(Record(s.(gi := s.gi.(req := 1, reqSent := now)), Asked(ca, now)), GiStarted);
      FailStartsNothing(Record(s, NotAsked(ca)));
    }
  }

  lemma UpdateStartsNothing(s: State, status: GiStatus)
    ensures var t := UpdateStatus(s, status);
            t.gi == s.gi && FlagProofs.Review(t.history) == FlagProofs.Review(s.history)
  {
  }

  lemma FailStartsNothing(s: State)
    ensures Fail(s).gi == s.gi && FlagProofs.Review(Fail(s).history) == FlagProofs.Review(s.history)
  {
    UpdateStartsNothing(s, GiFailed);
  }

  lemma SyncTickStartsNothing(cfg: Config, s: State, now: int, sent: bool)
    ensures var t := SyncTick(cfg, s, now, sent);
            && t.gi == s.gi && t.link == s.link && t.status == s.status && t.sync.firstDone == s.sync.firstDone
            && FlagProofs.Review(t.history) == FlagProofs.Review(s.history)
  {
  }

  lemma GiTickStarts(cfg: Config, s: State, now: int, sent: bool)
    ensures var t := GiTick(cfg, s, now, sent);
            var starts := !s.gi.firstSent
                          || (!s.gi.inProgress
                              && (IsDue(cfg, s, now) || s.gi.endOfInit
                                  || (s.gi.requested && s.status in {GiFailed, GiFinished})));
            && (if starts then 1 <= NewCycles(s.history, t.history) <= (if HasNothingToAsk(cfg) then 2 else 1)
                else NewCycles(s.history, t.history) == 0 && t.gi.endOfInit == s.gi.endOfInit)
            && (starts ==> IsUnderWay(cfg, t, now, sent)
                           && NewRequests(s.history, t.history) == (if !cfg.giAllCa && sent then 1 else 0))
  {
    hide StartCycle, Progress, ServeRequest, RestartDue, FlagProofs.Review, IsUnderWay;
    StartCycleStarts(cfg, s, First, now, sent);
    ProgressStartsNothing(cfg, s, now, sent);
    if s.gi.firstSent && !s.gi.inProgress { RestartStarts(cfg, s, now, sent); }
  }

  lemma RoundStarts(cfg: Config, s: State, now: int, env: RoundInput)
    ensures var t := Round(cfg, s, now, env);
            && (if StartsCycle(cfg, s, now)
                then 1 <= NewCycles(s.history, t.history) <= (if HasNothingToAsk(cfg) then 2 else 1)
                else NewCycles(s.history, t.history) == 0 && t.gi.endOfInit == s.gi.endOfInit)
            && (StartsCycle(cfg, s, now) ==>
                  && IsUnderWay(cfg, t, now, env.giSent)
                  && NewRequests(s.history, t.history) == (if !cfg.giAllCa && env.giSent then 1 else 0))
  {
    hide GiTick, SyncTick, FlagProofs.Review, Link.Switch, Link.ServeDisconnect;
    var s1 := SyncTick(cfg, s, now, env.clockSent);
    SyncTickStartsNothing(cfg, s, now, env.clockSent);
    GiTickStarts(cfg, s1, now, env.giSent);
  }

  lemma ReceiveStartsNothing(cfg: Config, s: State, a: Asdu, now: int, isActive: bool)
    ensures var t := Receive(cfg, s, a, now, isActive);
            && NewCycles(s.history, t.history) == 0
            && t.gi.endOfInit == (s.gi.endOfInit || AnnouncesEndOfInit(Received(now, a, isActive)))
  {
    hide HandleAsdu, GiReply, ClockReply, FlagProofs.Review, Reception.IsHandled;
    var s1 := HandleAsdu(cfg, s, a, now, isActive);
    DataStartsNothing(cfg, s, a, now, isActive);
    RepliesStartNothing(cfg, s1, a, now);
  }

  lemma DataStartsNothing(cfg: Config, s: State, a: Asdu, now: int, isActive: bool)
    ensures var t := HandleAsdu(cfg, s, a, now, isActive);
            FlagProofs.Review(t.history).begun == FlagProofs.Review(s.history).begun && t.gi.endOfInit == s.gi.endOfInit
  {
    hide TakeResponse, Reception.Answered, Reception.Triggers;
    var answered := Reception.Answered(cfg.defs, a, |a.objects|);
    ResponseStartsNothing(s, answered, now);
    hide UpdateStatus;
  }

  lemma ResponseStartsNothing(s: State, answered: seq<Exchange.Definition>, now: int)
    ensures var t := TakeResponse(s, answered, now);
            FlagProofs.Review(t.history) == FlagProofs.Review(s.history) && t.gi.endOfInit == s.gi.endOfInit
  {
    FlagProofs.TakeResponseIsNeutral(s, answered, now);
  }

  lemma RepliesStartNothing(cfg: Config, s: State, a: Asdu, now: int)
    ensures FlagProofs.Review(GiReply(s, a).history) == FlagProofs.Review(s.history)
    ensures GiReply(s, a).gi.endOfInit == s.gi.endOfInit
    ensures FlagProofs.Review(ClockReply(cfg, s, a, now).history) == FlagProofs.Review(s.history)
    ensures ClockReply(cfg, s, a, now).gi == s.gi
  {
    FlagProofs.GiReplyIsNeutral(s, a);
    FlagProofs.ClockReplyIsNeutral(cfg, s, a, now);
    hide FlagProofs.Review;
  }

  /** A step begins a cycle if and only if it is a round of a serving session in which one is
      called for: one cycle, or two at most if there is nothing to ask. The round clears the end
      of initialization, reports STARTED, and in broadcast mode sends one interrogation if the
      library accepts it; in all-CA mode it opens the list and sends nothing yet. An end of
      initialization is kept from its arrival to such a round. */
  lemma CyclesBeginExactly(cfg: Config, s: State, e: Event)
    ensures var t := Step(cfg, s, e);
            var starts := e.ThreadRound? && StartsCycle(cfg, s, e.now);
            && (if starts then 1 <= NewCycles(s.history, t.history) <= (if HasNothingToAsk(cfg) then 2 else 1)
                else NewCycles(s.history, t.history) == 0)
            && (starts ==> IsUnderWay(cfg, t, e.now, e.env.giSent)
                           && NewRequests(s.history, t.history) == if !cfg.giAllCa && e.env.giSent then 1 else 0)
            && t.gi.endOfInit == (!starts && (s.gi.endOfInit || AnnouncesEndOfInit(e)))
  {
    hide Round, Receive, StartsCycle, IsUnderWay;
    match e
    case ThreadRound(now, env) =>
      RoundStarts(cfg, s, now, env);
      UnderWayClears(cfg, Round(cfg, s, now, env), now, env.giSent);
    case Received(now, a, isActive) => ReceiveStartsNothing(cfg, s, a, now, isActive);
    case _ =>
  }

  lemma UnderWayClears(cfg: Config, t: State, now: int, sent: bool)
    ensures IsUnderWay(cfg, t, now, sent) ==> !t.gi.endOfInit
    ensures forall clock :: IsUnderWay(cfg, t.(clock := clock), now, sent) == IsUnderWay(cfg, t, now, sent)
  {
  }

  /** A station that restarted is interrogated: after its end of initialization the next round
      with no cycle in progress begins one, whatever gi_cycle is. */
  lemma EndOfInitializationIsServed(cfg: Config, s: State, e: Event, now: int, env: RoundInput)
    requires AnnouncesEndOfInit(e) && IsServing(cfg, s) && s.gi.firstSent && !s.gi.inProgress
    ensures var t := Step(cfg, s, e);
            var u := Step(cfg, t, ThreadRound(now, env));
            && NewCycles(t.history, u.history) >= 1 && !u.gi.endOfInit
            && (!cfg.giAllCa && env.giSent ==> NewRequests(t.history, u.history) == 1)
  {
    hide HandleAsdu, NewCycles, NewRequests, Reception.IsHandled;
    var t := Step(cfg, s, e);
    DataKeepsCycle(cfg, s, e.asdu, e.now, e.isActive);
    assert StartsCycle(cfg, t, now);
    hide Step, StartsCycle;
    CyclesBeginExactly(cfg, t, ThreadRound(now, env));
  }

  lemma DataKeepsCycle(cfg: Config, s: State, a: Asdu, now: int, isActive: bool)
    ensures var t := HandleAsdu(cfg, s, a, now, isActive);
            && t.link == s.link && t.sync == s.sync
            && t.gi.firstSent == s.gi.firstSent && t.gi.inProgress == s.gi.inProgress
  {
    hide Reception.Answered, Reception.Triggers;
  }
}
