/** Clock synchronization: conservation across reconnections, pacing, the gate it puts
    before the interrogation, and what happens when a command stays unanswered. */
module SyncProofs {
  import opened Protocol
  import opened Reception
  import opened Scenarios
  import opened Session
  import Link

  /** What the history says: commands sent, confirmations accepted and the time of the last
      one; whether the session still waits for its first C_CS_NA_1; whether no cycle started
      or asked while it did; whether every periodic command followed an accepted
      confirmation, and came a full period after the last one. */
  datatype Book = Book(
    sent: nat, confirmed: nat, lastConfirmed: Option<int>,
    gateClosed: bool, gateKept: bool, allFollow: bool, allPaced: bool)

  predicate IsPaced(cfg: Config, b: Book, at: int, periodic: bool) {
    periodic ==> b.lastConfirmed.Some? && at >= b.lastConfirmed.value + 1000 * cfg.timeSyncPeriod
  }

  function Advance(cfg: Config, b: Book, e: Entry): Book {
    match e
    case StartDt => b.(gateClosed := true)
    case ClockSent(_, at, periodic) =>
      b.(sent := b.sent + 1, allFollow := b.allFollow && (periodic ==> b.lastConfirmed.Some?),
         allPaced := b.allPaced && IsPaced(cfg, b, at, periodic))
    case ClockConfirmed(at) => b.(confirmed := b.confirmed + 1, lastConfirmed := Some(at))
    case ClockSeen => b.(gateClosed := false)
    case Began(_, _) => b.(gateKept := b.gateKept && !b.gateClosed)
    case Asked(_, _) => b.(gateKept := b.gateKept && !b.gateClosed)
    case NotAsked(_) => b.(gateKept := b.gateKept && !b.gateClosed)
    case _ => b
  }

  function Review(cfg: Config, h: History): Book {
    match h
    case Nothing => Book(0, 0, None, true, true, true, true)
    case Then(past, e) => Advance(cfg, Review(cfg, past), e)
  }

  predicate Inv(cfg: Config, s: State, now: int) {
    var b := Review(cfg, s.history);
    && b.sent == b.confirmed + (if s.sync.commandSent then 1 else 0)
    && s.sync.firstDone == !b.gateClosed
    && (SyncEnabled(cfg) ==> b.gateKept)
    && b.allFollow
    && (cfg.timeSyncPeriod <= MAX_EXACT_SECONDS ==> b.allPaced)
    && (b.lastConfirmed.Some? ==> 0 <= b.lastConfirmed.value <= now)
    && (s.sync.synchronized && !s.sync.commandSent ==>
          && b.lastConfirmed.Some?
          && (cfg.timeSyncPeriod <= MAX_EXACT_SECONDS ==>
                s.sync.next >= b.lastConfirmed.value + 1000 * cfg.timeSyncPeriod))
  }

  /** Interrogation work behind an open gate, and everything else that is not about clocks. */
  predicate SameClock(cfg: Config, s: State, t: State) {
    && t.sync == s.sync
    && Review(cfg, t.history) == Review(cfg, s.history).(gateKept := Review(cfg, t.history).gateKept)
    && (!Review(cfg, s.history).gateClosed ==> Review(cfg, t.history).gateKept == Review(cfg, s.history).gateKept)
  }

  lemma UpdateIsNeutral(cfg: Config, s: State, status: GiStatus)
    ensures Review(cfg, UpdateStatus(s, status).history) == Review(cfg, s.history)
    ensures UpdateStatus(s, status).sync == s.sync
  {
  }

  lemma FailIsNeutral(cfg: Config, s: State)
    ensures Review(cfg, Fail(s).history) == Review(cfg, s.history) && Fail(s).sync == s.sync
  {
    UpdateIsNeutral(cfg, s, GiFailed);
  }

  lemma StartCycleIsNeutral(cfg: Config, s: State, why: Why, now: int, sent: bool)
    ensures SameClock(cfg, s, StartCycle(cfg, s, why, now, sent))
  {
    var s1 := CycleBegun(cfg, s, why, now);
    hide UpdateStatus;
    if cfg.giAllCa {
      UpdateIsNeutral(cfg, Rewound(cfg, s1), GiStarted);
    } else {
      UpdateIsNeutral(cfg, s1, GiStarted);
    }
  }

  lemma ProgressIsNeutral(cfg: Config, s: State, now: int, sent: bool)
    ensures SameClock(cfg, s, Progress(cfg, s, now, sent))
  {
    hide UpdateStatus, Fail;
    if s.gi.req != 0 {
      FailIsNeutral(cfg, RequestExpired(cfg, s, now));
    } else if cfg.giAllCa && s.gi.it < |cfg.cas| {
      var ca := cfg.cas[s.gi.it];
      UpdateIsNeutral(cfg, Record(s.(gi := s.gi.(req := 1, reqSent := now)), Asked(ca, now)), GiStarted);
      FailIsNeutral(cfg, Record(s, NotAsked(ca)));
    }
  }

  lemma RestartIsNeutral(cfg: Config, s: State, now: int, sent: bool)
    ensures SameClock(cfg, s, ServeRequest(cfg, RestartDue(cfg, s, now, sent), now, sent))
  {
    hide StartCycle;
    StartCycleIsNeutral(cfg, s, Periodic, now, sent);
    StartCycleIsNeutral(cfg, s, EndOfInit, now, sent);
    var s1 := RestartDue(cfg, s, now, sent);
    StartCycleIsNeutral(cfg, LowerFlag(s1), OnRequest, now, sent);
  }

  lemma GiTickIsNeutral(cfg: Config, s: State, now: int, sent: bool)
    ensures SameClock(cfg, s, GiTick(cfg, s, now, sent))
  {
    hide StartCycle, Progress, ServeRequest, RestartDue, SameClock;
    StartCycleIsNeutral(cfg, s, First, now, sent);
    ProgressIsNeutral(cfg, s, now, sent);
    RestartIsNeutral(cfg, s, now, sent);
  }

  lemma SyncTickKeeps(cfg: Config, s: State, now: int, sent: bool)
    requires Inv(cfg, s, now) && 0 <= now < 0x8000_0000_0000_0000
    ensures Inv(cfg, SyncTick(cfg, s, now, sent), now)
  {
  }

  lemma RoundKeeps(cfg: Config, s: State, now: int, env: RoundInput)
    requires Inv(cfg, s, now) && 0 <= now < 0x8000_0000_0000_0000
    ensures Inv(cfg, Round(cfg, s, now, env), now)
  {
    hide SyncTick, GiTick;
    SyncTickKeeps(cfg, s, now, env.clockSent);
    GiTickIsNeutral(cfg, SyncTick(cfg, s, now, env.clockSent), now, env.giSent);
  }

  lemma HandleAsduIsNeutral(cfg: Config, s: State, a: Asdu, now: int, isActive: bool)
    ensures Review(cfg, HandleAsdu(cfg, s, a, now, isActive).history) == Review(cfg, s.history)
    ensures HandleAsdu(cfg, s, a, now, isActive).sync == s.sync
  {
    var answered := Answered(cfg.defs, a, |a.objects|);
    var s0 := Record(s.(gi := if s.gi.req == 2 then s.gi.(reqSent := now) else s.gi,
                        pending := WithoutAll(s.pending, answered)),
                     Response(now, answered));
    UpdateIsNeutral(cfg, s0, if s.status == GiStarted then GiInProgress else s.status);
  }

  lemma GiReplyIsNeutral(cfg: Config, s: State, a: Asdu)
    ensures Review(cfg, GiReply(s, a).history) == Review(cfg, s.history) && GiReply(s, a).sync == s.sync
  {
    hide UpdateStatus, Fail, Invalidate;
    var s1 := Record(s, GotActCon(a.negative));
    FailIsNeutral(cfg, s1.(gi := s1.gi.(req := 2)));
    UpdateIsNeutral(cfg, s1.(gi := s1.gi.(req := 2)), GiInProgress);
    var s2 := Record(s, GotActTerm).(gi := s.gi.(req := 0));
    UpdateIsNeutral(cfg, s2, GiFinished);
    InvalidateIsNeutral(cfg, UpdateStatus(s2, GiFinished));
    FailIsNeutral(cfg, Record(s, GotOther));
  }

  lemma InvalidateIsNeutral(cfg: Config, s: State)
    ensures Review(cfg, Invalidate(s).history) == Review(cfg, s.history) && Invalidate(s).sync == s.sync
  {
  }

  lemma ClockReplyKeeps(cfg: Config, s: State, a: Asdu, now: int)
    requires Inv(cfg, s, now) && 0 <= now < 0x8000_0000_0000_0000
    ensures Inv(cfg, ClockReply(cfg, s, a, now), now)
  {
  }

  lemma ReceiveKeeps(cfg: Config, s: State, a: Asdu, now: int, isActive: bool)
    requires Inv(cfg, s, now) && 0 <= now < 0x8000_0000_0000_0000
    ensures Inv(cfg, Receive(cfg, s, a, now, isActive), now)
  {
    hide HandleAsdu, ClockReply, GiReply;
    var s1 := HandleAsdu(cfg, s, a, now, isActive);
    HandleAsduIsNeutral(cfg, s, a, now, isActive);
    ClockReplyKeeps(cfg, s1, a, now);
    GiReplyIsNeutral(cfg, s1, a);
  }

  lemma StepKeepsInv(cfg: Config, s: State, e: Event)
    requires Inv(cfg, s, s.clock) && s.clock >= 0 && Enabled(s, e)
    ensures Inv(cfg, Step(cfg, s, e), e.now)
  {
    hide Round, Receive;
    assert Inv(cfg, s, e.now);
    match e
    case ThreadRound(now, env) => RoundKeeps(cfg, s, now, env);
    case Received(now, a, isActive) => ReceiveKeeps(cfg, s, a, now, isActive);
    case _ =>
  }

  lemma {:induction false} RunKeepsInv(cfg: Config, s: State, es: seq<Event>)
    requires Inv(cfg, s, s.clock) && s.clock >= 0 && Feasible(cfg, s, es)
    ensures Inv(cfg, Run(cfg, s, es), Run(cfg, s, es).clock) && Run(cfg, s, es).clock >= 0
    decreases es
  {
    if es != [] {
      StepKeepsInv(cfg, s, es[0]);
      RunKeepsInv(cfg, Step(cfg, s, es[0]), es[1..]);
    }
  }

  /** Over every run, reconnections included: clock synchronization commands sent = positive
      confirmations accepted + (1 if one is open); every periodic command follows an accepted
      confirmation; and with synchronization enabled no cycle starts or asks between a
      STARTDT_CON and the next C_CS_NA_1. */
  lemma ClockSyncIsConserved(cfg: Config, connect: bool, t0: int, es: seq<Event>)
    requires t0 >= 0 && Feasible(cfg, Initial(connect, t0), es)
    ensures var s := Run(cfg, Initial(connect, t0), es);
            var b := Review(cfg, s.history);
            && b.sent == b.confirmed + (if s.sync.commandSent then 1 else 0)
            && b.allFollow
            && (SyncEnabled(cfg) ==> b.gateKept)
  {
    RunKeepsInv(cfg, Initial(connect, t0), es);
  }

  // ---- pacing ----

  /** In every run each periodic command comes a full period or more after the last accepted
      confirmation. */
  ghost predicate AlwaysPaced(cfg: Config) {
    forall connect, t0, es | t0 >= 0 && Feasible(cfg, Initial(connect, t0), es) ::
      Review(cfg, Run(cfg, Initial(connect, t0), es).history).allPaced
  }

  /** No periodic command is early, in any run, if and only if the 32-bit product of the
      period does not overflow. */
  lemma SyncIsPacedExactly(cfg: Config)
    ensures AlwaysPaced(cfg) <==> cfg.timeSyncPeriod <= MAX_EXACT_SECONDS
  {
    if cfg.timeSyncPeriod <= MAX_EXACT_SECONDS {
      forall connect, t0, es | t0 >= 0 && Feasible(cfg, Initial(connect, t0), es)
        ensures Review(cfg, Run(cfg, Initial(connect, t0), es).history).allPaced
      {
        RunKeepsInv(cfg, Initial(connect, t0), es);
      }
    } else {
      hide Run, Feasible, Review;
      var es, s := EarlySync(cfg);
      ReachesMeans(cfg, Initial(true, LATE), es, s);
    }
  }

  /** Late enough that a negative product does not wrap the sum. */
  const LATE: Time := 0x1_0000_0000

  /** A command confirmed at LATE, and the next one sent before the period is over. */
  lemma EarlySync(cfg: Config) returns (es: seq<Event>, s: State)
    requires cfg.timeSyncPeriod > MAX_EXACT_SECONDS
    ensures Reaches(cfg, Initial(true, LATE), es, s) && !Review(cfg, s.history).allPaced
  {
    var s0, next := Initial(true, LATE), After(LATE, cfg.timeSyncPeriod);
    assert 0 <= next < LATE + 1000 * cfg.timeSyncPeriod;
    var due := if next < LATE then LATE else next;
    var e1, e2, e3 := ThreadRound(LATE, ACCEPTING), Received(LATE, CLOCK_REPLY, true), ThreadRound(due, ACCEPTING);
    StartingStarts(cfg, LATE);
    var q := Started(cfg, LATE);
    hide Reaches, Started, Round, Receive;
    FirstCommand(cfg, q, LATE);
    var s1 := Step(cfg, q, e1);
    FirstConfirmation(cfg, s1, LATE);
    var s2 := Step(cfg, s1, e2);
    NextCommand(cfg, s2, due);
    s := Step(cfg, s2, e3);
    ReachByAnother(cfg, s0, Starting(LATE), q, e1);
    ReachByAnother(cfg, s0, Starting(LATE) + [e1], s1, e2);
    ReachByAnother(cfg, s0, Starting(LATE) + [e1] + [e2], s2, e3);
    es := Starting(LATE) + [e1] + [e2] + [e3];
  }

  lemma FirstCommand(cfg: Config, s: State, now: int)
    requires SyncEnabled(cfg) && InSession(s) && s.sync == Sync(false, false, false, now)
    ensures var t := Round(cfg, s, now, ACCEPTING);
            InSession(t) && t.sync == s.sync.(commandSent := true)
  {
    hide Round, GiTick;
    SessionRound(cfg, s, now, ACCEPTING);
  }

  lemma FirstConfirmation(cfg: Config, s: State, now: int)
    requires InSession(s) && s.sync.commandSent
    ensures var t := Receive(cfg, s, CLOCK_REPLY, now, true);
            && InSession(t) && t.sync == Sync(true, false, true, After(now, cfg.timeSyncPeriod))
            && Review(cfg, t.history).lastConfirmed == Some(now)
  {
    hide HandleAsdu, Receive;
    ControlPasses(cfg, s, CLOCK_REPLY, now, true);
  }

  lemma NextCommand(cfg: Config, s: State, now: int)
    requires SyncEnabled(cfg) && InSession(s) && s.sync.synchronized && !s.sync.commandSent && now >= s.sync.next
    requires Review(cfg, s.history).lastConfirmed.Some?
    requires now < Review(cfg, s.history).lastConfirmed.value + 1000 * cfg.timeSyncPeriod
    ensures !Review(cfg, Round(cfg, s, now, ACCEPTING).history).allPaced
  {
    hide Round, GiTick;
    SessionRound(cfg, s, now, ACCEPTING);
    var s1 := SyncTick(cfg, s, now, true);
    assert !Review(cfg, s1.history).allPaced;
    GiTickIsNeutral(cfg, s1, now, true);
  }

  // ---- a command left open by a lost session ----

  /** A C_CS_NA_1 that reaches the clock synchronization. */
  predicate IsClockReply(e: Event) {
    e.Received? && e.asdu.typeId == C_CS_NA_1 && !IsHandled(e.asdu, |e.asdu.objects|)
  }

  /** A command is open and the current session has seen no answer. */
  predicate IsStarved(cfg: Config, s: State) {
    SyncEnabled(cfg) && s.sync.commandSent && !s.sync.firstDone
  }

  lemma StarvedStep(cfg: Config, s: State, e: Event)
    requires IsStarved(cfg, s) && !IsClockReply(e)
    ensures IsStarved(cfg, Step(cfg, s, e))
    ensures Review(cfg, Step(cfg, s, e).history).sent == Review(cfg, s.history).sent
    ensures RequestsIn(Step(cfg, s, e).history) == RequestsIn(s.history)
  {
    match e
    case ThreadRound(now, env) => StarvedRound(cfg, s, now, env);
    case Received(now, a, isActive) =>
      hide HandleAsdu, GiReply, ClockReply;
      HandleAsduIsNeutral(cfg, s, a, now, isActive);
      GiReplyIsNeutral(cfg, HandleAsdu(cfg, s, a, now, isActive), a);
      RepliesAskNothing(cfg, s, a, now, isActive);
    case _ =>
      hide Round, Receive;
  }

  lemma StarvedRound(cfg: Config, s: State, now: int, env: RoundInput)
    requires IsStarved(cfg, s)
    ensures Round(cfg, s, now, env).sync == s.sync && Round(cfg, s, now, env).history == s.history
  {
    hide GiTick;
  }

  /** Cycle interrogations attempted, accepted by the library or not. */
  function RequestsIn(h: History): nat {
    match h
    case Nothing => 0
    case Then(past, e) => RequestsIn(past) + if e.Asked? || e.NotAsked? then 1 else 0
  }

  lemma RepliesAskNothing(cfg: Config, s: State, a: Asdu, now: int, isActive: bool)
    ensures RequestsIn(HandleAsdu(cfg, s, a, now, isActive).history) == RequestsIn(s.history)
    ensures RequestsIn(GiReply(HandleAsdu(cfg, s, a, now, isActive), a).history) == RequestsIn(s.history)
  {
    var answered := Answered(cfg.defs, a, |a.objects|);
    var s0 := Record(s.(gi := if s.gi.req == 2 then s.gi.(reqSent := now) else s.gi,
                        pending := WithoutAll(s.pending, answered)),
                     Response(now, answered));
    UpdateAsksNothing(s0, if s.status == GiStarted then GiInProgress else s.status);
    var t := HandleAsdu(cfg, s, a, now, isActive);
    assert RequestsIn(t.history) == RequestsIn(s.history);
    hide HandleAsdu, UpdateStatus, Invalidate, Fail;
    GiReplyAsksNothing(t, a);
  }

  lemma UpdateAsksNothing(s: State, status: GiStatus)
    ensures RequestsIn(UpdateStatus(s, status).history) == RequestsIn(s.history)
    ensures RequestsIn(Invalidate(s).history) == RequestsIn(s.history)
  {
  }

  lemma FailAsksNothing(s: State)
    ensures RequestsIn(Fail(s).history) == RequestsIn(s.history)
  {
    UpdateAsksNothing(s, GiFailed);
  }

  lemma GiReplyAsksNothing(s: State, a: Asdu)
    ensures RequestsIn(GiReply(s, a).history) == RequestsIn(s.history)
  {
    hide UpdateStatus, Invalidate, Fail;
    var s1 := Record(s, GotActCon(a.negative));
    FailAsksNothing(s1.(gi := s1.gi.(req := 2)));
    UpdateAsksNothing(s1.(gi := s1.gi.(req := 2)), GiInProgress);
    var s2 := Record(s, GotActTerm).(gi := s.gi.(req := 0));
    UpdateAsksNothing(s2, GiFinished);
    UpdateAsksNothing(UpdateStatus(s2, GiFinished), GiFinished);
    FailAsksNothing(Record(s, GotOther));
  }

  /** Because STARTDT_CON does not forget an open command, a command left unanswered when
      the link was lost blocks both clock synchronization and interrogation in all later
      sessions: until some C_CS_NA_1 arrives, no run sends another command of either kind,
      over any number of reconnections. */
  lemma {:induction false} UnansweredSyncBlocksForever(cfg: Config, s: State, es: seq<Event>)
    requires IsStarved(cfg, s) && forall k | 0 <= k < |es| :: !IsClockReply(es[k])
    ensures IsStarved(cfg, Run(cfg, s, es))
    ensures Review(cfg, Run(cfg, s, es).history).sent == Review(cfg, s.history).sent
    ensures RequestsIn(Run(cfg, s, es).history) == RequestsIn(s.history)
    decreases es
  {
    if es != [] {
      StarvedStep(cfg, s, es[0]);
      UnansweredSyncBlocksForever(cfg, Step(cfg, s, es[0]), es[1..]);
    }
  }

  predicate IsSilent(es: seq<Event>) {
    forall k | 0 <= k < |es| :: !IsClockReply(es[k])
  }

  /** No run in which no C_CS_NA_1 arrives sends a clock synchronization command. */
  ghost predicate NeverSynchronizes(cfg: Config, s: State) {
    forall es | Feasible(cfg, s, es) && IsSilent(es) ::
      Review(cfg, Run(cfg, s, es).history).sent == Review(cfg, s.history).sent
  }

  lemma FirstRoundSynchronizes(cfg: Config, s: State, now: int)
    requires SyncEnabled(cfg) && s.link.conState == Link.Active
    requires !s.sync.commandSent && !s.sync.synchronized && !s.sync.firstDone
    ensures Review(cfg, Round(cfg, s, now, ACCEPTING).history).sent == Review(cfg, s.history).sent + 1
  {
    var s1 := SyncTick(cfg, s, now, true);
    assert Review(cfg, s1.history).sent == Review(cfg, s.history).sent + 1;
    hide SyncTick, GiTick;
    GiTickIsNeutral(cfg, s1, now, true);
  }

  /** A session whose STARTDT_CON arrives while `m_timeSyncCommandSent` is set is blocked, and
      no other: until some C_CS_NA_1 arrives, no run sends a clock synchronization command if
      and only if one was left open. */
  lemma SessionIsBlockedExactly(cfg: Config, s: State, now: int)
    requires SyncEnabled(cfg) && Enabled(s, StartDtConReceived(now))
    ensures NeverSynchronizes(cfg, Step(cfg, s, StartDtConReceived(now))) <==> s.sync.commandSent
  {
    var t := Step(cfg, s, StartDtConReceived(now));
    if s.sync.commandSent {
      forall es | Feasible(cfg, t, es) && IsSilent(es)
        ensures Review(cfg, Run(cfg, t, es).history).sent == Review(cfg, t.history).sent
      {
        UnansweredSyncBlocksForever(cfg, t, es);
      }
    } else {
      var e := ThreadRound(now, ACCEPTING);
      var u := Step(cfg, t, e);
      hide Round;
      FirstRoundSynchronizes(cfg, t, now);
      assert [e][1..] == [];
      assert Feasible(cfg, u, []) && Run(cfg, u, []) == u;
      assert Feasible(cfg, t, [e]) && Run(cfg, t, [e]) == u && IsSilent([e]);
      assert Review(cfg, Run(cfg, t, [e]).history).sent != Review(cfg, t.history).sent;
    }
  }

  /** A blocked session asks for no interrogation either, over any number of reconnections. */
  lemma LostAnswerBlocksLaterSessions(cfg: Config, s: State, now: int, es: seq<Event>)
    requires SyncEnabled(cfg) && s.sync.commandSent && IsSilent(es)
    ensures var r := Run(cfg, Step(cfg, s, StartDtConReceived(now)), es);
            Review(cfg, r.history).sent == Review(cfg, s.history).sent && RequestsIn(r.history) == RequestsIn(s.history)
  {
    UnansweredSyncBlocksForever(cfg, Step(cfg, s, StartDtConReceived(now)), es);
  }

  /** The first session up to its first round, which sends the command; then the link is lost
      before the answer, and the next session begins. */
  function LosingTheAnswer(): seq<Event> {
    Starting(0) + [ThreadRound(0, ACCEPTING)] + Reconnecting(0)
  }

  /** This happens, with every setting that enables clock synchronization: from the start of
      the client a run reaches a STARTDT_CON with a command left open, and the session that
      it starts never synchronizes. */
  lemma SomeSessionIsBlocked(cfg: Config)
    requires SyncEnabled(cfg)
    ensures var s := Run(cfg, Initial(true, 0), LosingTheAnswer());
            && Feasible(cfg, Initial(true, 0), LosingTheAnswer())
            && s.sync.commandSent && Enabled(s, StartDtConReceived(10000))
            && NeverSynchronizes(cfg, Step(cfg, s, StartDtConReceived(10000)))
  {
    hide Round, Run, Feasible, NeverSynchronizes;
    StartingStarts(cfg, 0);
    var q := Started(cfg, 0);
    FirstCommand(cfg, q, 0);
    var s1 := Step(cfg, q, ThreadRound(0, ACCEPTING));
    ReconnectChangesOnlyTheLink(cfg, s1, 0);
    var s := Run(cfg, s1, Reconnecting(0));
    assert Reaches(cfg, s1, Reconnecting(0), s);
    SessionIsBlockedExactly(cfg, s, 10000);
    hide Step, Reaches, Reconnecting, Started, Enabled;
    ReachByFirstRound(cfg, q, s1);
    ReachOn(cfg, Initial(true, 0), Starting(0) + [ThreadRound(0, ACCEPTING)], s1, Reconnecting(0), s);
    ReachesMeans(cfg, Initial(true, 0), LosingTheAnswer(), s);
  }

  lemma ReachByFirstRound(cfg: Config, q: State, s: State)
    requires Reaches(cfg, Initial(true, 0), Starting(0), q) && q.clock == 0
    requires s == Step(cfg, q, ThreadRound(0, ACCEPTING))
    ensures Reaches(cfg, Initial(true, 0), Starting(0) + [ThreadRound(0, ACCEPTING)], s)
  {
    hide Reaches;
    ReachByAnother(cfg, Initial(true, 0), Starting(0), q, ThreadRound(0, ACCEPTING));
  }

  // ---- both directions ----

  /** A round sends a clock synchronization command if and only if it is a round of an active
      session with synchronization enabled and no command open; the session has not been
      answered yet, or its clock is synchronized and the period is over; and the library
      accepts the command. A periodic attempt, accepted or not, puts off the next one. */
  lemma ClockCommandsLeaveExactly(cfg: Config, s: State, now: int, env: RoundInput)
    ensures var t := Round(cfg, s, now, env);
            var first := !s.sync.synchronized && !s.sync.firstDone;
            var over := s.sync.synchronized && now >= s.sync.next;
            var tries := s.link.conState == Link.Active && cfg.timeSyncPeriod > 0 && !s.sync.commandSent
                         && (first || over);
            && Review(cfg, t.history).sent == Review(cfg, s.history).sent + (if tries && env.clockSent then 1 else 0)
            && t.sync == s.sync.(commandSent := s.sync.commandSent || (tries && env.clockSent),
                                 next := if tries && over then After(now, cfg.timeSyncPeriod) else s.sync.next)
  {
    hide SyncTick, GiTick, Review, Link.Switch, Link.ServeDisconnect;
    SyncTickSends(cfg, s, now, env.clockSent);
    GiTickIsNeutral(cfg, SyncTick(cfg, s, now, env.clockSent), now, env.giSent);
  }

  lemma SyncTickSends(cfg: Config, s: State, now: int, sent: bool)
    ensures var t := SyncTick(cfg, s, now, sent);
            var over := s.sync.synchronized && now >= s.sync.next;
            var tries := cfg.timeSyncPeriod > 0 && !s.sync.commandSent
                         && ((!s.sync.synchronized && !s.sync.firstDone) || over);
            && t.link == s.link
            && Review(cfg, t.history).sent == Review(cfg, s.history).sent + (if tries && sent then 1 else 0)
            && t.sync == s.sync.(commandSent := s.sync.commandSent || (tries && sent),
                                 next := if tries && over then After(now, cfg.timeSyncPeriod) else s.sync.next)
  {
  }

  /** Any C_CS_NA_1 opens the gate of the session. Only a positive confirmation closes the open
      command and starts the period; "unknown type" leaves the command open; an answer nobody
      waits for changes nothing else. */
  lemma ClockRepliesMean(cfg: Config, s: State, a: Asdu, now: int, isActive: bool)
    requires a.typeId == C_CS_NA_1 && !IsHandled(a, |a.objects|)
    ensures var t := Receive(cfg, s, a, now, isActive).sync;
            && t.firstDone
            && (s.sync.commandSent && a.cot == 7 && !a.negative ==>
                  t.synchronized && !t.commandSent && t.next == After(now, cfg.timeSyncPeriod))
            && (s.sync.commandSent && a.cot == 44 ==> t.synchronized && t.commandSent && t.next == s.sync.next)
            && (!s.sync.commandSent || !((a.cot == 7 && !a.negative) || a.cot == 44) ==>
                  t == s.sync.(firstDone := true))
  {
    hide HandleAsdu, Review;
    HandleAsduIsNeutral(cfg, s, a, now, isActive);
  }
}
