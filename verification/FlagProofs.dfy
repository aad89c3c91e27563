/** Requests for an interrogation, from trigger points or from the north side: how they
    coalesce into at most one further cycle, what that cycle asks, and when a request is
    never served. */
module FlagProofs {
  import opened Protocol
  import opened Exchange
  import opened Reception
  import opened Scenarios
  import opened Session

  /** How often the request flag rose, how many cycles were started for it and how many in
      all, and how many interrogations were sent. */
  datatype Book = Book(raised: nat, served: nat, begun: nat, asked: nat)

  function Review(h: History): Book {
    match h
    case Nothing => Book(0, 0, 0, 0)
    case Then(past, e) =>
      var b := Review(past);
      if e.Raised? then b.(raised := b.raised + 1)
      else if e.Began? then b.(begun := b.begun + 1, served := b.served + (if e.why == OnRequest then 1 else 0))
      else if e.Asked? then b.(asked := b.asked + 1)
      else b
  }

  predicate Inv(s: State) {
    Review(s.history).raised == Review(s.history).served + (if s.gi.requested then 1 else 0)
  }

  /** Nothing about requests changes. */
  predicate SameFlag(s: State, t: State) {
    t.gi.requested == s.gi.requested && Review(t.history) == Review(s.history)
  }

  lemma UpdateIsNeutral(s: State, status: GiStatus)
    ensures SameFlag(s, UpdateStatus(s, status)) && SameFlag(s, Invalidate(s))
  {
  }

  lemma FailIsNeutral(s: State)
    ensures SameFlag(s, Fail(s))
  {
    UpdateIsNeutral(s, GiFailed);
    UpdateIsNeutral(UpdateStatus(s, GiFailed), GiFailed);
  }

  /** Whether a cycle that starts asks at once, or goes on to ask. */
  predicate TakesEffect(cfg: Config, sent: bool) {
    if cfg.giAllCa then cfg.cas != [] else sent
  }

  /** The books after a cycle was started. */
  function CycleStarted(cfg: Config, b: Book, why: Why, sent: bool): Book {
    Book(b.raised, b.served + (if why == OnRequest then 1 else 0), b.begun + 1,
         b.asked + (if !cfg.giAllCa && sent then 1 else 0))
  }

  lemma StartCycleServes(cfg: Config, s: State, why: Why, now: int, sent: bool)
    ensures var t := StartCycle(cfg, s, why, now, sent);
            && t.gi.requested == s.gi.requested
            && Review(t.history) == CycleStarted(cfg, Review(s.history), why, sent)
            && t.gi.inProgress == (s.gi.inProgress || TakesEffect(cfg, sent))
            && t.status == if cfg.giAllCa && cfg.cas == [] then s.status else GiStarted
  {
    hide UpdateStatus;
    var s1 := CycleBegun(cfg, s, why, now);
    UpdateTo(s1, GiStarted);
    UpdateTo(Rewound(cfg, s1), GiStarted);
    if cfg.giAllCa {
      UpdateIsNeutral(Rewound(cfg, s1), GiStarted);
    } else {
      UpdateIsNeutral(s1, GiStarted);
    }
  }

  lemma UpdateTo(s: State, status: GiStatus)
    ensures UpdateStatus(s, status).status == status && UpdateStatus(s, status).gi == s.gi
  {
  }

  lemma ProgressIsNeutral(cfg: Config, s: State, now: int, sent: bool)
    ensures var t := Progress(cfg, s, now, sent);
            && t.gi.requested == s.gi.requested
            && Review(t.history).raised == Review(s.history).raised
            && Review(t.history).served == Review(s.history).served
  {
    hide UpdateStatus, Fail, Invalidate;
    if s.gi.req != 0 {
      FailIsNeutral(RequestExpired(cfg, s, now));
    } else if cfg.giAllCa && s.gi.it < |cfg.cas| {
      var ca := cfg.cas[s.gi.it];
      UpdateIsNeutral(Record(s.(gi := s.gi.(req := 1, reqSent := now)), Asked(ca, now)), GiStarted);
      FailIsNeutral(Record(s, NotAsked(ca)));
    }
  }

  /** The round from `s` to `t` served the request: it started a cycle for it, with the
      status FAILED or FINISHED; the flag is down whether or not the cycle takes effect. */
  predicate IsServed(cfg: Config, s: State, t: State, sent: bool) {
    && s.status in {GiFailed, GiFinished}
    && Review(t.history).served == Review(s.history).served + 1
    && Review(t.history).asked == Review(s.history).asked + (if !cfg.giAllCa && sent then 1 else 0)
    && t.gi.inProgress == TakesEffect(cfg, sent)
  }

  /** A round lowers the flag only by starting a cycle for it, and only when the status that
      the start condition saw was FAILED or FINISHED. */
  lemma RoundServes(cfg: Config, s: State, now: int, env: RoundInput)
    requires Inv(s)
    ensures Inv(Round(cfg, s, now, env))
    ensures var t := Round(cfg, s, now, env);
            && Review(t.history).raised == Review(s.history).raised
            && (s.gi.requested && !t.gi.requested ==> IsServed(cfg, s, t, env.giSent))
  {
    hide StartCycle, Progress, ServeRequest, RestartDue, SyncTick;
    var s1 := SyncTick(cfg, s, now, env.clockSent);
    SyncTickIsNeutral(cfg, s, now, env.clockSent);
    StartCycleServes(cfg, s1, First, now, env.giSent);
    ProgressIsNeutral(cfg, s1, now, env.giSent);
    if !s1.gi.inProgress { RestartServes(cfg, s1, now, env.giSent); }
  }

  lemma SyncTickIsNeutral(cfg: Config, s: State, now: int, sent: bool)
    ensures SameFlag(s, SyncTick(cfg, s, now, sent)) && SyncTick(cfg, s, now, sent).status == s.status
  {
  }

  lemma RestartServes(cfg: Config, s: State, now: int, sent: bool)
    requires Inv(s) && !s.gi.inProgress
    ensures var t := ServeRequest(cfg, RestartDue(cfg, s, now, sent), now, sent);
            && Inv(t)
            && Review(t.history).raised == Review(s.history).raised
            && (s.gi.requested && !t.gi.requested ==> IsServed(cfg, s, t, sent))
  {
    hide StartCycle;
    StartCycleServes(cfg, s, Periodic, now, sent);
    StartCycleServes(cfg, s, EndOfInit, now, sent);
    var s1 := RestartDue(cfg, s, now, sent);
    StartCycleServes(cfg, LowerFlag(s1), OnRequest, now, sent);
  }

  lemma ReceiveCounts(cfg: Config, s: State, a: Asdu, now: int, isActive: bool)
    requires Inv(s)
    ensures Inv(Receive(cfg, s, a, now, isActive))
    ensures s.gi.requested ==> SameFlag(s, Receive(cfg, s, a, now, isActive))
  {
    hide TakeResponse, GiReply, ClockReply, Answered, Triggers;
    var answered := Answered(cfg.defs, a, |a.objects|);
    TakeResponseIsNeutral(s, answered, now);
    var s1 := HandleAsdu(cfg, s, a, now, isActive);
    assert Inv(s1) && (s.gi.requested ==> SameFlag(s, s1));
    hide HandleAsdu;
    GiReplyIsNeutral(s1, a);
    ClockReplyIsNeutral(cfg, s1, a, now);
  }

  lemma TakeResponseIsNeutral(s: State, answered: seq<Definition>, now: int)
    ensures SameFlag(s, TakeResponse(s, answered, now))
  {
    hide UpdateStatus;
    var s0 := Record(s.(gi := if s.gi.req == 2 then s.gi.(reqSent := now) else s.gi,
                        pending := WithoutAll(s.pending, answered)),
                     Response(now, answered));
    UpdateIsNeutral(s0, if s.status == GiStarted then GiInProgress else s.status);
  }

  lemma ClockReplyIsNeutral(cfg: Config, s: State, a: Asdu, now: int)
    ensures SameFlag(s, ClockReply(cfg, s, a, now))
  {
  }

  lemma GiReplyIsNeutral(s: State, a: Asdu)
    ensures SameFlag(s, GiReply(s, a))
  {
    hide UpdateStatus, Invalidate, Fail;
    var s1 := Record(s, GotActCon(a.negative));
    FailIsNeutral(s1.(gi := s1.gi.(req := 2)));
    UpdateIsNeutral(s1.(gi := s1.gi.(req := 2)), GiInProgress);
    var s2 := Record(s, GotActTerm).(gi := s.gi.(req := 0));
    UpdateIsNeutral(s2, GiFinished);
    UpdateIsNeutral(UpdateStatus(s2, GiFinished), GiFinished);
    FailIsNeutral(Record(s, GotOther));
  }

  lemma StepKeepsInv(cfg: Config, s: State, e: Event)
    requires Inv(s)
    ensures Inv(Step(cfg, s, e))
    ensures s.gi.requested ==> Review(Step(cfg, s, e).history).raised == Review(s.history).raised
    ensures s.gi.requested && !Step(cfg, s, e).gi.requested ==>
              e.ThreadRound? && IsServed(cfg, s, Step(cfg, s, e), e.env.giSent)
  {
    hide Round, Receive;
    match e
    case ThreadRound(now, env) => RoundServes(cfg, s, now, env);
    case Received(now, a, isActive) => ReceiveCounts(cfg, s, a, now, isActive);
    case _ =>
  }

  lemma {:induction false} RunKeepsInv(cfg: Config, s: State, es: seq<Event>)
    requires Inv(s)
    ensures Inv(Run(cfg, s, es))
    decreases es
  {
    if es != [] {
      StepKeepsInv(cfg, s, es[0]);
      RunKeepsInv(cfg, Step(cfg, s, es[0]), es[1..]);
    }
  }

  /** In every run: times the flag rose = on-request cycles started + (1 if it is up). A
      raised flag absorbs any further request, and comes down only in a round that starts a
      cycle for it after FAILED or FINISHED. That round asks at once if and only if the
      library accepts the broadcast, or, in all-CA mode, leaves a cycle in progress if and
      only if there is an address to ask: a refused broadcast is not tried again. */
  lemma RequestsCoalesce(cfg: Config, connect: bool, t0: int, es: seq<Event>, e: Event)
    ensures var s := Run(cfg, Initial(connect, t0), es);
            var b := Review(s.history);
            var t := Step(cfg, s, e);
            var c := Review(t.history);
            && b.raised == b.served + (if s.gi.requested then 1 else 0)
            && (s.gi.requested ==> c.raised == b.raised)
            && (s.gi.requested && !t.gi.requested ==>
                  && e.ThreadRound? && s.status in {GiFailed, GiFinished} && c.served == b.served + 1
                  && (if cfg.giAllCa then c.asked == b.asked && (t.gi.inProgress <==> cfg.cas != [])
                      else c.asked == b.asked + (if e.env.giSent then 1 else 0) && (t.gi.inProgress <==> e.env.giSent)))
  {
    RunKeepsInv(cfg, Initial(connect, t0), es);
    StepKeepsInv(cfg, Run(cfg, Initial(connect, t0), es), e);
    hide Run, Step;
  }

  // ---- starvation ----

  /** No periodic cycles, none in progress, no request open that could end, and a status from
      which a raised flag is not served. */
  predicate IsStranded(cfg: Config, s: State) {
    && cfg.giCycle == 0
    && s.gi.firstSent && !s.gi.inProgress && s.gi.req == 0 && !s.gi.endOfInit
    && s.status !in {GiFailed, GiFinished}
  }

  /** What gets a session out of it: a new session, an end of initialization, a C_IC_NA_1 with
      a failing cause while the status is live, or another connection's FAILED or FINISHED. */
  predicate IsRescue(s: State, e: Event) {
    match e
    case StartDtConReceived(_) => true
    case Received(_, a, _) =>
      && !IsHandled(a, |a.objects|)
      && (a.typeId == M_EI_NA_1
          || (a.typeId == C_IC_NA_1 && Live(s.status)
              && a.cot !in {COT_ACTIVATION_CON, COT_ACTIVATION_TERMINATION}))
    case Elsewhere(_, status, _) => status in {GiFailed, GiFinished}
    case _ => false
  }

  predicate IsUnaided(cfg: Config, s: State, es: seq<Event>)
    decreases es
  {
    es == [] || (!IsRescue(s, es[0]) && IsUnaided(cfg, Step(cfg, s, es[0]), es[1..]))
  }

  /** Requests may rise, but no cycle starts and nothing is asked. */
  predicate IsIdle(s: State, t: State) {
    && Review(t.history) == Review(s.history).(raised := Review(t.history).raised)
    && (s.gi.requested ==> t.gi.requested)
  }

  lemma StrandedRound(cfg: Config, s: State, now: int, env: RoundInput)
    requires IsStranded(cfg, s)
    ensures var t := Round(cfg, s, now, env);
            t.gi == s.gi && t.status == s.status && Review(t.history) == Review(s.history)
  {
    hide StartCycle, Progress, SyncTick;
    SyncTickIsNeutral(cfg, s, now, env.clockSent);
    SyncTickKeepsGi(cfg, s, now, env.clockSent);
  }

  lemma SyncTickKeepsGi(cfg: Config, s: State, now: int, sent: bool)
    ensures SyncTick(cfg, s, now, sent).gi == s.gi
  {
  }

  lemma StrandedData(cfg: Config, s: State, a: Asdu, now: int, isActive: bool)
    requires IsStranded(cfg, s)
    ensures var t := HandleAsdu(cfg, s, a, now, isActive);
            IsStranded(cfg, t) && Live(t.status) == Live(s.status) && IsIdle(s, t)
  {
    hide Answered, Triggers, WithoutAll, Review;
    var answered := Answered(cfg.defs, a, |a.objects|);
    TakeResponseIsNeutral(s, answered, now);
    RaiseIsIdle(s);
    RaiseIsIdle(TakeResponse(s, answered, now));
  }

  lemma RaiseIsIdle(s: State)
    ensures IsIdle(s, RaiseFlag(s))
  {
  }

  lemma StrandedReply(cfg: Config, s: State, a: Asdu, now: int)
    requires IsStranded(cfg, s)
    ensures var t := ControlReply(cfg, s, a, now);
            && SameFlag(s, t)
            && (IsStranded(cfg, t) <==>
                  !(a.typeId == M_EI_NA_1
                    || (a.typeId == C_IC_NA_1 && Live(s.status)
                        && a.cot !in {COT_ACTIVATION_CON, COT_ACTIVATION_TERMINATION})))
  {
    hide Review;
    GiReplyIsNeutral(s, a);
    ClockReplyIsNeutral(cfg, s, a, now);
  }

  lemma StrandedReceive(cfg: Config, s: State, a: Asdu, now: int, isActive: bool)
    requires IsStranded(cfg, s)
    ensures var t := Receive(cfg, s, a, now, isActive);
            IsIdle(s, t) && (IsStranded(cfg, t) <==> !IsRescue(s, Received(now, a, isActive)))
  {
    hide HandleAsdu, ControlReply, IsHandled, Review, Live;
    StrandedData(cfg, s, a, now, isActive);
    StrandedReply(cfg, HandleAsdu(cfg, s, a, now, isActive), a, now);
  }

  /** One step leaves a stranded session stranded if and only if it is not a rescue; a
      rescue itself serves nothing either. */
  lemma StrandedStepExactly(cfg: Config, s: State, e: Event)
    requires IsStranded(cfg, s)
    ensures var t := Step(cfg, s, e);
            IsIdle(s, t) && (IsStranded(cfg, t) <==> !IsRescue(s, e))
  {
    match e
    case ThreadRound(now, env) =>
      StrandedRound(cfg, s, now, env);
      hide Round;
    case Received(now, a, isActive) =>
      StrandedReceive(cfg, s, a, now, isActive);
      hide Receive, IsRescue;
    case _ =>
  }

  /** A stranded session serves no request, in any run, until one of the rescuing events: no
      cycle starts, no interrogation is sent, and a raised flag stays up. */
  lemma {:induction false} StrandedRequestsStarve(cfg: Config, s: State, es: seq<Event>)
    requires IsStranded(cfg, s) && IsUnaided(cfg, s, es)
    ensures IsStranded(cfg, Run(cfg, s, es)) && IsIdle(s, Run(cfg, s, es))
    decreases es
  {
    if es != [] {
      hide Step, IsStranded, IsRescue;
      StrandedStepExactly(cfg, s, es[0]);
      StrandedRequestsStarve(cfg, Step(cfg, s, es[0]), es[1..]);
    }
  }

  // ---- how a request is lost ----

  predicate IsBroadcastOnce(cfg: Config) {
    cfg.giEnabled && !cfg.giAllCa && cfg.giCycle == 0
  }

  /** A first interrogation that finishes. */
  function Finishing(): seq<Event> {
    Opening(0) + [ThreadRound(0, ACCEPTING)] + [Received(0, CONFIRMATION, true)] + [Received(0, TERMINATION, true)]
    + [ThreadRound(0, ACCEPTING)]
  }

  lemma FinishingFinishes(cfg: Config) returns (s: State)
    requires IsBroadcastOnce(cfg)
    ensures Reaches(cfg, Initial(true, 0), Finishing(), s)
    ensures InSession(s) && IsClockDone(s) && s.clock == 0 && s.status == GiFinished
    ensures s.gi.firstSent && !s.gi.inProgress && s.gi.req == 0 && !s.gi.endOfInit && !s.gi.requested
    ensures Review(s.history) == Book(0, 0, 1, 1)
  {
    hide Reaches, Round, Receive, Opening;
    var s0, e := Initial(true, 0), ThreadRound(0, ACCEPTING);
    var con, term := Received(0, CONFIRMATION, true), Received(0, TERMINATION, true);
    var q := OpeningOpens(cfg, 0);
    FirstBroadcast(cfg, q);
    var s1 := Step(cfg, q, e);
    Confirming(cfg, s1);
    var s2 := Step(cfg, s1, con);
    Terminating(cfg, s2);
    var s3 := Step(cfg, s2, term);
    ClosingRound(cfg, s3);
    s := Step(cfg, s3, e);
    ReachByAnother(cfg, s0, Opening(0), q, e);
    ReachByAnother(cfg, s0, Opening(0) + [e], s1, con);
    ReachByAnother(cfg, s0, Opening(0) + [e] + [con], s2, term);
    ReachByAnother(cfg, s0, Opening(0) + [e] + [con] + [term], s3, e);
  }

  /** A request, and a round in which the library refuses its broadcast. */
  function LosingARequest(): seq<Event> {
    Finishing() + [GiRequested(0)] + [ThreadRound(0, REFUSING)]
  }

  /** This happens: from the start of the client, a first interrogation finishes, a request
      rises, and its broadcast is refused. The request counts as served, nothing was asked for
      it, and the session is stranded: the next request starves. */
  lemma RefusedBroadcastLosesTheRequest(cfg: Config)
    requires IsBroadcastOnce(cfg)
    ensures Feasible(cfg, Initial(true, 0), LosingARequest() + [GiRequested(0)])
    ensures var s := Run(cfg, Initial(true, 0), LosingARequest());
            var t := Run(cfg, Initial(true, 0), LosingARequest() + [GiRequested(0)]);
            && Review(s.history) == Book(1, 1, 2, 1) && !s.gi.requested
            && IsStranded(cfg, s) && IsStranded(cfg, t) && t.gi.requested
  {
    hide Reaches, Round, Finishing, Run, Feasible;
    var s0, request, round := Initial(true, 0), GiRequested(0), ThreadRound(0, REFUSING);
    var q := FinishingFinishes(cfg);
    var s1 := Step(cfg, q, request);
    RefusedRound(cfg, s1);
    var s := Step(cfg, s1, round);
    StrandedStepExactly(cfg, s, request);
    ReachByAnother(cfg, s0, Finishing(), q, request);
    ReachByAnother(cfg, s0, Finishing() + [request], s1, round);
    ReachByAnother(cfg, s0, LosingARequest(), s, request);
    ReachesMeans(cfg, s0, LosingARequest(), s);
    ReachesMeans(cfg, s0, LosingARequest() + [request], Step(cfg, s, request));
  }

  lemma FirstBroadcast(cfg: Config, s: State)
    requires IsBroadcastOnce(cfg) && InSession(s) && IsClockDone(s) && s.gi == Initial(true, 0).gi
    requires s.status == GiIdle
    ensures var t := Round(cfg, s, 0, ACCEPTING);
            && t.link == s.link && t.sync == s.sync && t.status == GiStarted
            && t.gi.firstSent && t.gi.req == 1 && !t.gi.endOfInit && !t.gi.requested
            && Review(t.history) == CycleStarted(cfg, Review(s.history), First, true)
  {
    hide Round;
    RoundOfClockDone(cfg, s, 0, ACCEPTING);
    StartCycleServes(cfg, s, First, 0, true);
    hide Review;
  }

  lemma RefusedStart(cfg: Config, s: State)
    requires IsBroadcastOnce(cfg) && !s.gi.inProgress
    ensures var t := StartCycle(cfg, s, OnRequest, 0, false);
            t.status == GiStarted && t.gi == s.gi.(firstSent := true, endOfInit := false)
  {
  }

  lemma Confirming(cfg: Config, s: State)
    requires s.gi.req == 1 && s.status == GiStarted
    ensures var t := Receive(cfg, s, CONFIRMATION, 0, true);
            && t.link == s.link && t.sync == s.sync && t.status == GiInProgress && t.gi == s.gi.(req := 2)
            && Review(t.history) == Review(s.history)
  {
    hide Receive;
    ControlPasses(cfg, s, CONFIRMATION, 0, true);
    GiReplyIsNeutral(s, CONFIRMATION);
    hide Review;
  }

  lemma Terminating(cfg: Config, s: State)
    requires s.gi.req == 2 && s.status == GiInProgress
    ensures var t := Receive(cfg, s, TERMINATION, 0, true);
            && t.link == s.link && t.sync == s.sync && t.status == GiFinished && t.gi == s.gi.(req := 0)
            && Review(t.history) == Review(s.history)
  {
    hide Receive;
    ControlPasses(cfg, s, TERMINATION, 0, true);
    GiReplyIsNeutral(s, TERMINATION);
    hide Review;
  }

  lemma ClosingRound(cfg: Config, s: State)
    requires IsBroadcastOnce(cfg) && InSession(s) && IsClockDone(s)
    requires s.gi.firstSent && s.gi.req == 0 && !s.gi.endOfInit && !s.gi.requested
    ensures Round(cfg, s, 0, ACCEPTING) == s.(gi := s.gi.(inProgress := false))
  {
    hide Round;
    RoundOfClockDone(cfg, s, 0, ACCEPTING);
  }

  lemma RefusedRound(cfg: Config, s: State)
    requires IsBroadcastOnce(cfg) && InSession(s) && IsClockDone(s) && s.status == GiFinished
    requires s.gi.firstSent && !s.gi.inProgress && s.gi.req == 0 && !s.gi.endOfInit && s.gi.requested
    ensures var t := Round(cfg, s, 0, REFUSING);
            && IsStranded(cfg, t) && !t.gi.requested
            && Review(t.history) == CycleStarted(cfg, Review(s.history), OnRequest, false)
  {
    hide Round, StartCycle;
    RoundOfClockDone(cfg, s, 0, REFUSING);
    RefusedStart(cfg, LowerFlag(s));
    StartCycleServes(cfg, LowerFlag(s), OnRequest, 0, false);
  }

  // ---- what raises the flag ----

  /** A request from the north side, or an ASDU on the active connection that carries a
      delivered point at a trigger address that went off, and is not itself a response. */
  ghost predicate AsksForCycle(cfg: Config, e: Event) {
    match e
    case GiRequested(_) => true
    case Received(_, a, isActive) =>
      isActive && a.cot != 20 && exists i :: 0 <= i < |a.objects| && GoesOff(cfg, a, a.objects[i])
    case _ => false
  }

  predicate GoesOff(cfg: Config, a: Asdu, o: InfoObject) {
    && IsDelivered(cfg.defs, a, o) && (a.ca, o.ioa) in cfg.triggers
    && ((a.typeId in {1, 2, 30} && o.value == 0) || (a.typeId in {3, 4, 31} && o.value == 1))
  }

  /** The flag is up after such an event, whatever it was before, and a rise is counted exactly
      if it was down; no other event raises it. */
  lemma FlagRisesExactly(cfg: Config, s: State, e: Event)
    requires Inv(s)
    ensures var t := Step(cfg, s, e);
            && Review(t.history).raised == Review(s.history).raised
                 + (if AsksForCycle(cfg, e) && !s.gi.requested then 1 else 0)
            && (AsksForCycle(cfg, e) ==> t.gi.requested)
            && (t.gi.requested ==> s.gi.requested || AsksForCycle(cfg, e))
  {
    hide Round, Receive, Review;
    match e
    case ThreadRound(now, env) =>
      RoundServes(cfg, s, now, env);
      RoundRaisesNothing(cfg, s, now, env);
    case Received(now, a, isActive) => ReceptionRaises(cfg, s, a, now, isActive);
    case GiRequested(_) => RaiseCounts(s);
    case _ => OthersRaiseNothing(cfg, s, e);
  }

  lemma RaiseCounts(s: State)
    ensures RaiseFlag(s).gi.requested
    ensures Review(RaiseFlag(s).history).raised == Review(s.history).raised + (if s.gi.requested then 0 else 1)
  {
  }

  lemma OthersRaiseNothing(cfg: Config, s: State, e: Event)
    requires !e.ThreadRound? && !e.Received? && !e.GiRequested?
    ensures SameFlag(s, Step(cfg, s, e))
  {
  }

  lemma RoundRaisesNothing(cfg: Config, s: State, now: int, env: RoundInput)
    ensures Round(cfg, s, now, env).gi.requested ==> s.gi.requested
  {
    hide StartCycle, Progress, SyncTick;
    var s1 := SyncTick(cfg, s, now, env.clockSent);
    SyncTickIsNeutral(cfg, s, now, env.clockSent);
    StartCycleServes(cfg, s1, First, now, env.giSent);
    ProgressIsNeutral(cfg, s1, now, env.giSent);
    StartCycleServes(cfg, s1, Periodic, now, env.giSent);
    StartCycleServes(cfg, s1, EndOfInit, now, env.giSent);
    StartCycleServes(cfg, LowerFlag(RestartDue(cfg, s1, now, env.giSent)), OnRequest, now, env.giSent);
    hide Review;
  }

  lemma ReceptionRaises(cfg: Config, s: State, a: Asdu, now: int, isActive: bool)
    ensures var t := Receive(cfg, s, a, now, isActive);
            var asks := AsksForCycle(cfg, Received(now, a, isActive));
            && Review(t.history).raised == Review(s.history).raised + (if asks && !s.gi.requested then 1 else 0)
            && t.gi.requested == (s.gi.requested || asks)
  {
    hide TakeResponse, GiReply, ClockReply, Answered, Triggers, IsDelivered, RaiseFlag, Review;
    TriggersMean(cfg.defs, cfg.triggers, a, |a.objects|);
    var answered := Answered(cfg.defs, a, |a.objects|);
    TakeResponseIsNeutral(s, answered, now);
    RaiseCounts(s);
    RaiseCounts(TakeResponse(s, answered, now));
    var s1 := HandleAsdu(cfg, s, a, now, isActive);
    hide HandleAsdu;
    GiReplyIsNeutral(s1, a);
    ClockReplyIsNeutral(cfg, s1, a, now);
  }
}
