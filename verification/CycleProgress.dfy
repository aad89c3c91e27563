/** How a cycle goes on once it began, what its periods are counted from, and where commands
    are addressed. */
module CycleProgress {
  import opened Protocol
  import opened Reception
  import opened Session
  import CycleProofs
  import CycleStarts
  import Link

  // ---- a cycle in progress ----

  /** With no request open, a round of the cycle attempts the next address of the list, in
      all-CA mode, or ends the cycle. An accepted attempt opens the request and reports
      STARTED; a refused one fails the interrogation and costs the connection; either way the
      address counts as attempted. */
  lemma OpenCycleMovesOn(cfg: Config, s: State, now: int, env: RoundInput)
    requires CycleStarts.IsServing(cfg, s) && s.link.handle.Open? && s.gi.firstSent && s.gi.inProgress && s.gi.req == 0
    ensures var t := Round(cfg, s, now, env);
            var b, c := CycleProofs.Review(cfg, s.history), CycleProofs.Review(cfg, t.history);
            if cfg.giAllCa && s.gi.it < |cfg.cas| then
              && c.attempts == b.attempts + [cfg.cas[s.gi.it]] && t.gi.it == s.gi.it + 1 && t.gi.inProgress
              && (if env.giSent then t.gi.req == 1 && t.gi.reqSent == now && t.status == GiStarted
                  else t.gi.req == 0 && t.status == GiFailed && !t.link.connected && !t.link.handle.Open?)
            else
              && c.attempts == b.attempts && !t.gi.inProgress && t.gi.req == 0 && t.status == s.status
              && t.gi.nextStart == (if cfg.giAllCa then After(now, cfg.giCycle) else s.gi.nextStart)
  {
    hide SyncTick, StartCycle, ServeRequest, RestartDue, Progress, Link.ServeDisconnect, CycleProofs.Review;
    var s1 := SyncTick(cfg, s, now, env.clockSent);
    ClockTouchesNoCycle(cfg, s, now, env.clockSent);
    ProgressMovesOn(cfg, s1, now, env.giSent);
    DroppingOpensNothing(Progress(cfg, s1, now, env.giSent).link, env.link.dropFails);
  }

  /** What the round makes of an attempt that the library accepts, or refuses. */
  predicate IsAttempted(s: State, t: State, now: int, sent: bool) {
    && t.gi.it == s.gi.it + 1 && t.gi.inProgress
    && (if sent then t.gi.req == 1 && t.gi.reqSent == now && t.status == GiStarted
        else t.gi.req == 0 && t.status == GiFailed && !t.link.connected && !t.link.handle.Open?)
  }

  lemma AttemptMovesOn(cfg: Config, s: State, now: int, sent: bool)
    requires s.link.handle.Open? && s.gi.inProgress && s.gi.req == 0 && s.gi.it < |cfg.cas|
    ensures var t := AskNext(cfg, s, now, sent);
            && IsAttempted(s, t, now, sent)
            && CycleProofs.Review(cfg, t.history).attempts ==
               CycleProofs.Review(cfg, s.history).attempts + [cfg.cas[s.gi.it]]
  {
    hide UpdateStatus, Fail;
    var ca := cfg.cas[s.gi.it];
    if sent {
      var asked := Record(s.(gi := s.gi.(req := 1, reqSent := now)), Asked(ca, now));
      StatusMoves(asked, GiStarted);
      CycleProofs.UpdateIsNeutral(cfg, asked, GiStarted);
    } else {
      StatusMoves(Record(s, NotAsked(ca)), GiFailed);
      CycleProofs.FailIsNeutral(cfg, Record(s, NotAsked(ca)));
    }
  }

  /** Reporting a status touches neither the interrogation nor the link. */
  lemma StatusMoves(s: State, status: GiStatus)
    ensures var t := UpdateStatus(s, status); t.status == status && t.gi == s.gi && t.link == s.link
    ensures var t := Fail(s); t.status == GiFailed && t.gi == s.gi && t.link == s.link
  {
  }

  lemma ProgressMovesOn(cfg: Config, s: State, now: int, sent: bool)
    requires s.link.handle.Open? && s.gi.inProgress && s.gi.req == 0
    ensures var t := Progress(cfg, s, now, sent);
            var b, c := CycleProofs.Review(cfg, s.history), CycleProofs.Review(cfg, t.history);
            if cfg.giAllCa && s.gi.it < |cfg.cas|
            then c.attempts == b.attempts + [cfg.cas[s.gi.it]] && IsAttempted(s, t, now, sent)
            else
              && c.attempts == b.attempts && !t.gi.inProgress && t.gi.req == 0 && t.status == s.status
              && t.gi.nextStart == (if cfg.giAllCa then After(now, cfg.giCycle) else s.gi.nextStart)
  {
    hide AskNext, After, IsAttempted;
    if cfg.giAllCa && s.gi.it < |cfg.cas| { AttemptMovesOn(cfg, s, now, sent); }
  }

  lemma DroppingOpensNothing(l: Link.Link, dropFails: bool)
    ensures var t := Link.ServeDisconnect(l, dropFails);
            !l.connected && !l.handle.Open? ==> !t.connected && !t.handle.Open?
  {
  }

  lemma ClockTouchesNoCycle(cfg: Config, s: State, now: int, sent: bool)
    ensures var t := SyncTick(cfg, s, now, sent);
            && t.gi == s.gi && t.link == s.link && t.status == s.status && t.sync.firstDone == s.sync.firstDone
            && CycleProofs.Review(cfg, t.history).attempts == CycleProofs.Review(cfg, s.history).attempts
            && CountedFrom(cfg, t.history) == CountedFrom(cfg, s.history)
  {
  }

  /** With a request open and its deadline not over, a round leaves the interrogation alone;
      without gi_time there is no deadline. */
  lemma OpenRequestWaits(cfg: Config, s: State, now: int, env: RoundInput)
    requires s.gi.firstSent && s.gi.inProgress && s.gi.req != 0
    requires cfg.giTime == 0 || now <= After(s.gi.reqSent, cfg.giTime)
    ensures var t := Round(cfg, s, now, env); t.gi == s.gi && t.status == s.status && t.pending == s.pending
  {
    hide SyncTick, StartCycle, ServeRequest, RestartDue, Link.Switch, Link.ServeDisconnect;
    ClockTouchesNoCycle(cfg, s, now, env.clockSent);
    ClockTouchesNoList(cfg, s, now, env.clockSent);
  }

  lemma ClockTouchesNoList(cfg: Config, s: State, now: int, sent: bool)
    ensures SyncTick(cfg, s, now, sent).pending == s.pending
  {
  }

  // ---- what the period is counted from ----

  /** The last broadcast sent, all-CA cycle completed or request timed out. */
  function CountedFrom(cfg: Config, h: History): Option<int> {
    match h
    case Nothing => None
    case Then(past, e) =>
      match e
      case Asked(_, at) => if cfg.giAllCa then CountedFrom(cfg, past) else Some(at)
      case Completed(at) => Some(at)
      case TimedOut(at) => Some(at)
      case _ => CountedFrom(cfg, past)
  }

  predicate IsCounted(cfg: Config, s: State) {
    match CountedFrom(cfg, s.history)
    case None => s.gi.nextStart == 0
    case Some(at) => 0 <= at <= s.clock < 0x8000_0000_0000_0000 && s.gi.nextStart == After(at, cfg.giCycle)
  }

  /** The same, for a state whose clock is being moved. */
  predicate IsCountedAt(cfg: Config, s: State, now: int) {
    IsCounted(cfg, s.(clock := now))
  }

  /** Nothing about the period changes. */
  predicate SamePeriod(cfg: Config, s: State, t: State) {
    CountedFrom(cfg, t.history) == CountedFrom(cfg, s.history) && t.gi.nextStart == s.gi.nextStart
  }

  lemma UpdateCountsNothing(cfg: Config, s: State, status: GiStatus)
    ensures SamePeriod(cfg, s, UpdateStatus(s, status)) && SamePeriod(cfg, s, Invalidate(s))
  {
  }

  lemma FailCountsNothing(cfg: Config, s: State)
    ensures SamePeriod(cfg, s, Fail(s))
  {
    UpdateCountsNothing(cfg, s, GiFailed);
    UpdateCountsNothing(cfg, UpdateStatus(s, GiFailed), GiFailed);
  }

  lemma StartCycleCounts(cfg: Config, s: State, why: Why, now: Time, sent: bool)
    requires IsCountedAt(cfg, s, now)
    ensures IsCountedAt(cfg, StartCycle(cfg, s, why, now, sent), now)
  {
    hide UpdateStatus, After;
    var s1 := CycleBegun(cfg, s, why, now);
    UpdateCountsNothing(cfg, Rewound(cfg, s1), GiStarted);
    UpdateCountsNothing(cfg, s1, GiStarted);
  }

  lemma ProgressCounts(cfg: Config, s: State, now: Time, sent: bool)
    requires IsCountedAt(cfg, s, now)
    ensures IsCountedAt(cfg, Progress(cfg, s, now, sent), now)
  {
    hide UpdateStatus, Fail, After, IsOverdue;
    if s.gi.req != 0 {
      FailCountsNothing(cfg, RequestExpired(cfg, s, now));
    } else if cfg.giAllCa && s.gi.it < |cfg.cas| {
      var ca := cfg.cas[s.gi.it];
      UpdateCountsNothing(cfg, Record(s.(gi := s.gi.(req := 1, reqSent := now)), Asked(ca, now)), GiStarted);
      FailCountsNothing(cfg, Record(s, NotAsked(ca)));
    }
  }

  lemma GiTickCounts(cfg: Config, s: State, now: Time, sent: bool)
    requires IsCountedAt(cfg, s, now)
    ensures IsCountedAt(cfg, GiTick(cfg, s, now, sent), now)
  {
    hide StartCycle, Progress, After;
    StartCycleCounts(cfg, s, First, now, sent);
    ProgressCounts(cfg, s, now, sent);
    StartCycleCounts(cfg, s, Periodic, now, sent);
    StartCycleCounts(cfg, s, EndOfInit, now, sent);
    StartCycleCounts(cfg, LowerFlag(RestartDue(cfg, s, now, sent)), OnRequest, now, sent);
  }

  lemma RoundCounts(cfg: Config, s: State, now: Time, env: RoundInput)
    requires IsCountedAt(cfg, s, now)
    ensures IsCountedAt(cfg, Round(cfg, s, now, env), now)
  {
    hide GiTick, SyncTick, After, Link.Switch, Link.ServeDisconnect;
    ClockTouchesNoCycle(cfg, s, now, env.clockSent);
    GiTickCounts(cfg, SyncTick(cfg, s, now, env.clockSent), now, env.giSent);
  }

  lemma ReceiveCounts(cfg: Config, s: State, a: Asdu, now: int, isActive: bool)
    ensures SamePeriod(cfg, s, Receive(cfg, s, a, now, isActive))
  {
    hide HandleAsdu, GiReply, ClockReply, IsHandled;
    DataCountsNothing(cfg, s, a, now, isActive);
    RepliesCountNothing(cfg, HandleAsdu(cfg, s, a, now, isActive), a, now);
  }

  lemma DataCountsNothing(cfg: Config, s: State, a: Asdu, now: int, isActive: bool)
    ensures SamePeriod(cfg, s, HandleAsdu(cfg, s, a, now, isActive))
  {
    hide Answered, Triggers, WithoutAll, UpdateStatus;
    var answered := Answered(cfg.defs, a, |a.objects|);
    var s0 := Record(s.(gi := if s.gi.req == 2 then s.gi.(reqSent := now) else s.gi,
                        pending := WithoutAll(s.pending, answered)),
                     Response(now, answered));
    UpdateCountsNothing(cfg, s0, if s.status == GiStarted then GiInProgress else s.status);
  }

  lemma RepliesCountNothing(cfg: Config, s: State, a: Asdu, now: int)
    ensures SamePeriod(cfg, s, GiReply(s, a)) && SamePeriod(cfg, s, ClockReply(cfg, s, a, now))
  {
    ClockReplyCountsNothing(cfg, s, a, now);
    hide UpdateStatus, Invalidate, Fail;
    var s1, s2 := Record(s, GotActCon(a.negative)), Record(s, GotActTerm).(gi := s.gi.(req := 0));
    FailCountsNothing(cfg, s1.(gi := s1.gi.(req := 2)));
    UpdateCountsNothing(cfg, s1.(gi := s1.gi.(req := 2)), GiInProgress);
    UpdateCountsNothing(cfg, s2, GiFinished);
    UpdateCountsNothing(cfg, UpdateStatus(s2, GiFinished), GiFinished);
    hide ClockReply;
    FailCountsNothing(cfg, Record(s, GotOther));
  }

  lemma ClockReplyCountsNothing(cfg: Config, s: State, a: Asdu, now: int)
    ensures SamePeriod(cfg, s, ClockReply(cfg, s, a, now))
  {
    var s1 := ClockAnswered(cfg, s, a, now);
    assert SamePeriod(cfg, s, s1);
    hide ClockAnswered;
  }

  lemma StepCounts(cfg: Config, s: State, e: Event)
    requires IsCounted(cfg, s) && s.clock >= 0 && Enabled(s, e)
    ensures IsCounted(cfg, Step(cfg, s, e))
  {
    hide Round, Receive, After;
    match e
    case ThreadRound(now, env) => RoundCounts(cfg, s, now, env);
    case Received(now, a, isActive) => ReceiveCounts(cfg, s, a, now, isActive);
    case _ =>
  }

  lemma {:induction false} RunCounts(cfg: Config, s: State, es: seq<Event>)
    requires IsCounted(cfg, s) && s.clock >= 0 && Feasible(cfg, s, es)
    ensures IsCounted(cfg, Run(cfg, s, es))
    decreases es
  {
    if es != [] {
      StepCounts(cfg, s, es[0]);
      RunCounts(cfg, Step(cfg, s, es[0]), es[1..]);
    }
  }

  /** In every run, with 0 < gi_cycle <= 2147483: a session that may interrogate and has no
      cycle in progress begins one in the first round later than gi_cycle * 1000 ms after the
      last broadcast sent, all-CA cycle completed or request timed out; and until then only
      for an end of initialization or a request. */
  lemma PeriodsEndOnTime(cfg: Config, connect: bool, t0: int, es: seq<Event>, now: int, env: RoundInput)
    requires t0 >= 0 && Feasible(cfg, Initial(connect, t0), es) && 0 < cfg.giCycle <= MAX_EXACT_SECONDS
    requires var s := Run(cfg, Initial(connect, t0), es);
             && Enabled(s, ThreadRound(now, env)) && CycleStarts.IsServing(cfg, s)
             && s.gi.firstSent && !s.gi.inProgress
    ensures var s := Run(cfg, Initial(connect, t0), es);
            var t := Step(cfg, s, ThreadRound(now, env));
            var over := match CountedFrom(cfg, s.history)
                        case None => now > 0
                        case Some(at) => now > at + 1000 * cfg.giCycle;
            CycleStarts.NewCycles(s.history, t.history) >= 1 <==>
              over || s.gi.endOfInit || (s.gi.requested && s.status in {GiFailed, GiFinished})
  {
    RunCounts(cfg, Initial(connect, t0), es);
    var s := Run(cfg, Initial(connect, t0), es);
    CycleStarts.CyclesBeginExactly(cfg, s, ThreadRound(now, env));
    hide Step, Run, Feasible, CycleStarts.NewCycles, CycleStarts.NewRequests;
  }

  // ---- addresses ----

  /** Clock commands go to the configured address, else to the default one, else to all;
      interrogations to all, or in all-CA mode to an address of the list. */
  predicate IsAddressed(cfg: Config, e: Entry) {
    var everyone := if cfg.caSize == 1 then 255 else 65535;
    match e
    case ClockSent(ca, _, _) =>
      ca == if cfg.timeSyncCa != -1 then cfg.timeSyncCa else if cfg.defaultCa != -1 then cfg.defaultCa else everyone
    case Asked(ca, _) => if cfg.giAllCa then ca in cfg.cas else ca == everyone
    case NotAsked(ca) => if cfg.giAllCa then ca in cfg.cas else ca == everyone
    case _ => true
  }

  predicate AllAddressed(cfg: Config, h: History) {
    h.Then? ==> IsAddressed(cfg, h.last) && AllAddressed(cfg, h.past)
  }

  lemma UpdateAddresses(cfg: Config, s: State, status: GiStatus)
    requires AllAddressed(cfg, s.history)
    ensures AllAddressed(cfg, UpdateStatus(s, status).history) && AllAddressed(cfg, Invalidate(s).history)
  {
  }

  lemma FailAddresses(cfg: Config, s: State)
    requires AllAddressed(cfg, s.history)
    ensures AllAddressed(cfg, Fail(s).history)
  {
    UpdateAddresses(cfg, s, GiFailed);
    UpdateAddresses(cfg, UpdateStatus(s, GiFailed), GiFailed);
  }

  lemma StartCycleAddresses(cfg: Config, s: State, why: Why, now: int, sent: bool)
    requires AllAddressed(cfg, s.history)
    ensures AllAddressed(cfg, StartCycle(cfg, s, why, now, sent).history)
  {
    hide UpdateStatus;
    var s1 := CycleBegun(cfg, s, why, now);
    UpdateAddresses(cfg, Rewound(cfg, s1), GiStarted);
    UpdateAddresses(cfg, s1, GiStarted);
  }

  lemma ProgressAddresses(cfg: Config, s: State, now: int, sent: bool)
    requires AllAddressed(cfg, s.history)
    ensures AllAddressed(cfg, Progress(cfg, s, now, sent).history)
  {
    hide UpdateStatus, Fail;
    if s.gi.req != 0 {
      FailAddresses(cfg, RequestExpired(cfg, s, now));
    } else if cfg.giAllCa && s.gi.it < |cfg.cas| {
      var ca := cfg.cas[s.gi.it];
      UpdateAddresses(cfg, Record(s.(gi := s.gi.(req := 1, reqSent := now)), Asked(ca, now)), GiStarted);
      FailAddresses(cfg, Record(s, NotAsked(ca)));
    }
  }

  lemma SyncTickAddresses(cfg: Config, s: State, now: int, sent: bool)
    requires AllAddressed(cfg, s.history)
    ensures AllAddressed(cfg, SyncTick(cfg, s, now, sent).history)
  {
  }

  lemma RoundAddresses(cfg: Config, s: State, now: int, env: RoundInput)
    requires AllAddressed(cfg, s.history)
    ensures AllAddressed(cfg, Round(cfg, s, now, env).history)
  {
    hide StartCycle, Progress, SyncTick, AllAddressed, Link.Switch, Link.ServeDisconnect;
    SyncTickAddresses(cfg, s, now, env.clockSent);
    var s1 := SyncTick(cfg, s, now, env.clockSent);
    StartCycleAddresses(cfg, s1, First, now, env.giSent);
    ProgressAddresses(cfg, s1, now, env.giSent);
    StartCycleAddresses(cfg, s1, Periodic, now, env.giSent);
    StartCycleAddresses(cfg, s1, EndOfInit, now, env.giSent);
    StartCycleAddresses(cfg, LowerFlag(RestartDue(cfg, s1, now, env.giSent)), OnRequest, now, env.giSent);
  }

  lemma ReceiveAddresses(cfg: Config, s: State, a: Asdu, now: int, isActive: bool)
    requires AllAddressed(cfg, s.history)
    ensures AllAddressed(cfg, Receive(cfg, s, a, now, isActive).history)
  {
    hide HandleAsdu, GiReply, ClockReply, IsHandled, AllAddressed;
    DataAddresses(cfg, s, a, now, isActive);
    RepliesAddress(cfg, HandleAsdu(cfg, s, a, now, isActive), a, now);
  }

  lemma DataAddresses(cfg: Config, s: State, a: Asdu, now: int, isActive: bool)
    requires AllAddressed(cfg, s.history)
    ensures AllAddressed(cfg, HandleAsdu(cfg, s, a, now, isActive).history)
  {
    hide Answered, Triggers, WithoutAll, UpdateStatus;
    var answered := Answered(cfg.defs, a, |a.objects|);
    var s0 := Record(s.(gi := if s.gi.req == 2 then s.gi.(reqSent := now) else s.gi,
                        pending := WithoutAll(s.pending, answered)),
                     Response(now, answered));
    UpdateAddresses(cfg, s0, if s.status == GiStarted then GiInProgress else s.status);
  }

  lemma RepliesAddress(cfg: Config, s: State, a: Asdu, now: int)
    requires AllAddressed(cfg, s.history)
    ensures AllAddressed(cfg, GiReply(s, a).history) && AllAddressed(cfg, ClockReply(cfg, s, a, now).history)
  {
    hide UpdateStatus, Invalidate, Fail;
    var s1, s2 := Record(s, GotActCon(a.negative)), Record(s, GotActTerm).(gi := s.gi.(req := 0));
    FailAddresses(cfg, s1.(gi := s1.gi.(req := 2)));
    UpdateAddresses(cfg, s1.(gi := s1.gi.(req := 2)), GiInProgress);
    UpdateAddresses(cfg, s2, GiFinished);
    UpdateAddresses(cfg, UpdateStatus(s2, GiFinished), GiFinished);
    FailAddresses(cfg, Record(s, GotOther));
  }

  lemma StepAddresses(cfg: Config, s: State, e: Event)
    requires AllAddressed(cfg, s.history)
    ensures AllAddressed(cfg, Step(cfg, s, e).history)
  {
    hide Round, Receive;
    match e
    case ThreadRound(now, env) => RoundAddresses(cfg, s, now, env);
    case Received(now, a, isActive) => ReceiveAddresses(cfg, s, a, now, isActive);
    case _ =>
  }

  lemma {:induction false} RunAddresses(cfg: Config, s: State, es: seq<Event>)
    requires AllAddressed(cfg, s.history)
    ensures AllAddressed(cfg, Run(cfg, s, es).history)
    decreases es
  {
    if es != [] {
      StepAddresses(cfg, s, es[0]);
      RunAddresses(cfg, Step(cfg, s, es[0]), es[1..]);
    }
  }

  /** In every run every clock synchronization and interrogation command is addressed as the
      configuration says. */
  lemma CommandsAreAddressed(cfg: Config, connect: bool, t0: int, es: seq<Event>)
    ensures AllAddressed(cfg, Run(cfg, Initial(connect, t0), es).history)
  {
    RunAddresses(cfg, Initial(connect, t0), es);
  }
}
