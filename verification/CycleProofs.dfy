/** Interrogation cycles: which common addresses a cycle asks, when it counts as done, and
    how soon a periodic restart may come. */
module CycleProofs {
  import opened Protocol
  import opened Exchange
  import opened Reception
  import opened Scenarios
  import opened Session
  import RequestProofs

  /** What the history says about cycles: the common addresses attempted in the current
      one and the number of attempts in all; whether every cycle marked done had attempted the
      whole list; the time of the last broadcast sent or all-CA cycle completed; whether
      every periodic restart came later than the period after it. */
  datatype Book = Book(attempts: seq<int>, total: nat, allFull: bool, pace: Option<int>, allPaced: bool)

  predicate IsPaced(cfg: Config, b: Book, why: Why, at: int) {
    why == Periodic && b.pace.Some? ==> at > b.pace.value + 1000 * cfg.giCycle
  }

  function Advance(cfg: Config, b: Book, e: Entry): Book {
    match e
    case Began(why, at) => b.(attempts := [], allPaced := b.allPaced && IsPaced(cfg, b, why, at))
    case Asked(ca, at) =>
      b.(attempts := b.attempts + [ca], total := b.total + 1, pace := if cfg.giAllCa then b.pace else Some(at))
    case NotAsked(ca) => b.(attempts := b.attempts + [ca], total := b.total + 1)
    case Completed(at) => b.(allFull := b.allFull && b.attempts == cfg.cas, pace := Some(at))
    case _ => b
  }

  function Review(cfg: Config, h: History): Book {
    match h
    case Nothing => Book([], 0, true, None, true)
    case Then(past, e) => Advance(cfg, Review(cfg, past), e)
  }

  /** Some cycle can be broadcast, or completed. */
  predicate CanComplete(cfg: Config) {
    cfg.giEnabled && (cfg.giAllCa ==> cfg.cas != [])
  }

  /** The period does not overflow, or no cycle is there to be paced. */
  predicate IsExactlyPaced(cfg: Config) {
    CanComplete(cfg) ==> cfg.giCycle <= MAX_EXACT_SECONDS
  }

  predicate Inv(cfg: Config, s: State, now: int) {
    var b := Review(cfg, s.history);
    && b.allFull && (IsExactlyPaced(cfg) ==> b.allPaced)
    && (b.pace.Some? ==> CanComplete(cfg))
    && (cfg.giAllCa && cfg.cas == [] ==> !s.gi.inProgress)
    && (cfg.giAllCa && s.gi.inProgress ==> s.gi.it <= |cfg.cas| && b.attempts == cfg.cas[..s.gi.it])
    && (b.pace.Some? ==> 0 <= b.pace.value <= now)
    && (b.pace.Some? && cfg.giCycle <= MAX_EXACT_SECONDS ==> s.gi.nextStart >= b.pace.value + 1000 * cfg.giCycle)
  }

  lemma UpdateIsNeutral(cfg: Config, s: State, status: GiStatus)
    ensures Review(cfg, UpdateStatus(s, status).history) == Review(cfg, s.history)
  {
  }

  lemma UpdateKeepsGi(s: State, status: GiStatus)
    ensures UpdateStatus(s, status).gi == s.gi
  {
  }

  lemma FailIsNeutral(cfg: Config, s: State)
    ensures Review(cfg, Fail(s).history) == Review(cfg, s.history)
  {
    UpdateIsNeutral(cfg, s, GiFailed);
  }

  lemma SyncTickKeeps(cfg: Config, s: State, now: int, sent: bool)
    requires Inv(cfg, s, now)
    ensures Inv(cfg, SyncTick(cfg, s, now, sent), now)
  {
  }

  /** A cycle may start at any time, but a periodic one only when it is due. */
  lemma StartCycleKeeps(cfg: Config, s: State, why: Why, now: int, sent: bool)
    requires Inv(cfg, s, now) && cfg.giEnabled && 0 <= now < 0x8000_0000_0000_0000
    requires why == Periodic ==> now > s.gi.nextStart
    ensures Inv(cfg, StartCycle(cfg, s, why, now, sent), now)
  {
    var s1 := CycleBegun(cfg, s, why, now);
    hide UpdateStatus;
    assert Inv(cfg, s1.(gi := s1.gi.(it := 0)), now);
    UpdateKeepsGi(s1, GiStarted);
    UpdateKeepsGi(Rewound(cfg, s1), GiStarted);
    if cfg.giAllCa {
      UpdateIsNeutral(cfg, Rewound(cfg, s1), GiStarted);
    } else {
      UpdateIsNeutral(cfg, s1, GiStarted);
    }
  }

  lemma AskNextKeeps(cfg: Config, s: State, now: int, sent: bool)
    requires Inv(cfg, s, now) && cfg.giEnabled && cfg.giAllCa && s.gi.inProgress && s.gi.it < |cfg.cas|
    ensures Inv(cfg, AskNext(cfg, s, now, sent), now)
  {
    var ca := cfg.cas[s.gi.it];
    assert cfg.cas[..s.gi.it + 1] == cfg.cas[..s.gi.it] + [ca];
    if sent {
      UpdateIsNeutral(cfg, Record(s.(gi := s.gi.(req := 1, reqSent := now)), Asked(ca, now)), GiStarted);
    } else {
      FailIsNeutral(cfg, Record(s, NotAsked(ca)));
    }
  }

  lemma ProgressKeeps(cfg: Config, s: State, now: int, sent: bool)
    requires Inv(cfg, s, now) && cfg.giEnabled && 0 <= now < 0x8000_0000_0000_0000 && s.gi.inProgress
    ensures Inv(cfg, Progress(cfg, s, now, sent), now)
  {
    hide AskNext;
    if s.gi.req != 0 {
      FailIsNeutral(cfg, RequestExpired(cfg, s, now));
    } else if cfg.giAllCa && s.gi.it < |cfg.cas| {
      AskNextKeeps(cfg, s, now, sent);
    } else if cfg.giAllCa {
      assert cfg.cas[..|cfg.cas|] == cfg.cas;
    }
  }

  lemma RestartKeeps(cfg: Config, s: State, now: int, sent: bool)
    requires Inv(cfg, s, now) && cfg.giEnabled && 0 <= now < 0x8000_0000_0000_0000
    ensures Inv(cfg, ServeRequest(cfg, RestartDue(cfg, s, now, sent), now, sent), now)
  {
    hide StartCycle;
    if now > s.gi.nextStart { StartCycleKeeps(cfg, s, Periodic, now, sent); }
    StartCycleKeeps(cfg, s, EndOfInit, now, sent);
    var s1 := RestartDue(cfg, s, now, sent);
    StartCycleKeeps(cfg, LowerFlag(s1), OnRequest, now, sent);
  }

  lemma GiTickKeeps(cfg: Config, s: State, now: int, sent: bool)
    requires Inv(cfg, s, now) && cfg.giEnabled && 0 <= now < 0x8000_0000_0000_0000
    ensures Inv(cfg, GiTick(cfg, s, now, sent), now)
  {
    hide StartCycle, Progress, ServeRequest, RestartDue;
    StartCycleKeeps(cfg, s, First, now, sent);
    if s.gi.inProgress { ProgressKeeps(cfg, s, now, sent); }
    RestartKeeps(cfg, s, now, sent);
  }

  lemma RoundKeeps(cfg: Config, s: State, now: int, env: RoundInput)
    requires Inv(cfg, s, now) && 0 <= now < 0x8000_0000_0000_0000
    ensures Inv(cfg, Round(cfg, s, now, env), now)
  {
    hide SyncTick, GiTick;
    SyncTickKeeps(cfg, s, now, env.clockSent);
    if cfg.giEnabled { GiTickKeeps(cfg, SyncTick(cfg, s, now, env.clockSent), now, env.giSent); }
  }

  /** The fields of the session that cycles are about. */
  predicate SameCycle(s: State, t: State) {
    t.gi.inProgress == s.gi.inProgress && t.gi.it == s.gi.it && t.gi.nextStart == s.gi.nextStart
  }

  lemma HandleAsduIsNeutral(cfg: Config, s: State, a: Asdu, now: int, isActive: bool)
    ensures var t := HandleAsdu(cfg, s, a, now, isActive);
            Review(cfg, t.history) == Review(cfg, s.history) && SameCycle(s, t)
  {
    hide Answered, Triggers, WithoutAll, UpdateStatus;
    var answered := Answered(cfg.defs, a, |a.objects|);
    var s0 := Record(s.(gi := if s.gi.req == 2 then s.gi.(reqSent := now) else s.gi,
                        pending := WithoutAll(s.pending, answered)),
                     Response(now, answered));
    UpdateIsNeutral(cfg, s0, if s.status == GiStarted then GiInProgress else s.status);
    UpdateKeepsGi(s0, if s.status == GiStarted then GiInProgress else s.status);
  }

  lemma ActConIsNeutral(cfg: Config, s: State, negative: bool)
    ensures Review(cfg, ActCon(s, negative).history) == Review(cfg, s.history) && SameCycle(s, ActCon(s, negative))
  {
    var s1 := Record(s, GotActCon(negative));
    FailIsNeutral(cfg, s1.(gi := s1.gi.(req := 2)));
    UpdateIsNeutral(cfg, s1.(gi := s1.gi.(req := 2)), GiInProgress);
  }

  lemma ActTermIsNeutral(cfg: Config, s: State)
    ensures Review(cfg, ActTerm(s).history) == Review(cfg, s.history) && SameCycle(s, ActTerm(s))
  {
    UpdateIsNeutral(cfg, Record(s, GotActTerm).(gi := s.gi.(req := 0)), GiFinished);
  }

  lemma OtherCauseIsNeutral(cfg: Config, s: State)
    ensures Review(cfg, OtherCause(s).history) == Review(cfg, s.history) && SameCycle(s, OtherCause(s))
  {
    FailIsNeutral(cfg, Record(s, GotOther));
  }

  lemma ClockReplyIsNeutral(cfg: Config, s: State, a: Asdu, now: int)
    ensures var t := ClockReply(cfg, s, a, now); Review(cfg, t.history) == Review(cfg, s.history) && SameCycle(s, t)
  {
  }

  /** Nothing received moves the cycle along. */
  lemma ReceptionKeepsCycle(cfg: Config, s: State, a: Asdu, now: int, isActive: bool)
    ensures var t := Receive(cfg, s, a, now, isActive);
            Review(cfg, t.history) == Review(cfg, s.history) && SameCycle(s, t)
  {
    hide HandleAsdu, ClockReply, ActCon, ActTerm, OtherCause;
    HandleAsduIsNeutral(cfg, s, a, now, isActive);
    var s1 := HandleAsdu(cfg, s, a, now, isActive);
    ClockReplyIsNeutral(cfg, s1, a, now);
    ActConIsNeutral(cfg, s1, a.negative);
    ActTermIsNeutral(cfg, s1);
    OtherCauseIsNeutral(cfg, s1);
  }

  lemma ReceiveKeeps(cfg: Config, s: State, a: Asdu, now: int, isActive: bool)
    requires Inv(cfg, s, now)
    ensures Inv(cfg, Receive(cfg, s, a, now, isActive), now)
  {
    hide Receive;
    ReceptionKeepsCycle(cfg, s, a, now, isActive);
  }

  lemma StepKeepsInv(cfg: Config, s: State, e: Event)
    requires Inv(cfg, s, s.clock) && s.clock >= 0 && Enabled(s, e)
    ensures Inv(cfg, Step(cfg, s, e), e.now)
  {
    hide Round, Receive;
    assert Inv(cfg, s, e.now);
    match e
    case ThreadRound(now, env) => RoundKeeps(cfg, s, now, env);
    case Received(now, a, isActive) => ReceiveKeeps(cfg, s, a, now, isActive);
    case _ =>
  }

  lemma {:induction false} RunKeepsInv(cfg: Config, s: State, es: seq<Event>)
    requires Inv(cfg, s, s.clock) && s.clock >= 0 && Feasible(cfg, s, es)
    ensures Inv(cfg, Run(cfg, s, es), Run(cfg, s, es).clock)
    decreases es
  {
    if es != [] {
      StepKeepsInv(cfg, s, es[0]);
      RunKeepsInv(cfg, Step(cfg, s, es[0]), es[1..]);
    }
  }

  // ---- the iterator stays in range, step by step ----

  predicate IteratorInRange(cfg: Config, gi: Gi) {
    cfg.giAllCa && gi.inProgress ==> gi.it <= |cfg.cas|
  }

  lemma RoundKeepsIterator(cfg: Config, s: State, now: Time, env: RoundInput)
    requires IteratorInRange(cfg, s.gi)
    ensures IteratorInRange(cfg, Round(cfg, s, now, env).gi)
  {
    hide SyncTick, Progress, ServeRequest, RestartDue, StartCycle;
    var s1 := SyncTick(cfg, s, now, env.clockSent);
    assert s1.gi == s.gi by { ClockLeavesInterrogation(cfg, s, now, env.clockSent); }
    StartKeepsIterator(cfg, s1, First, now, env.giSent);
    ProgressKeepsIterator(cfg, s1, now, env.giSent);
    RestartKeepsIterator(cfg, s1, now, env.giSent);
  }

  lemma ClockLeavesInterrogation(cfg: Config, s: State, now: Time, sent: bool)
    ensures SyncTick(cfg, s, now, sent).gi == s.gi
  {
  }

  lemma StartKeepsIterator(cfg: Config, s: State, why: Why, now: Time, sent: bool)
    requires IteratorInRange(cfg, s.gi)
    ensures IteratorInRange(cfg, StartCycle(cfg, s, why, now, sent).gi)
  {
  }

  lemma ProgressKeepsIterator(cfg: Config, s: State, now: Time, sent: bool)
    requires IteratorInRange(cfg, s.gi)
    ensures IteratorInRange(cfg, Progress(cfg, s, now, sent).gi)
  {
  }

  lemma RestartKeepsIterator(cfg: Config, s: State, now: Time, sent: bool)
    requires IteratorInRange(cfg, s.gi)
    ensures IteratorInRange(cfg, ServeRequest(cfg, RestartDue(cfg, s, now, sent), now, sent).gi)
  {
    hide StartCycle;
    StartKeepsIterator(cfg, s, Periodic, now, sent);
    StartKeepsIterator(cfg, s, EndOfInit, now, sent);
    var s1 := RestartDue(cfg, s, now, sent);
    StartKeepsIterator(cfg, LowerFlag(s1), OnRequest, now, sent);
  }

  lemma ReceptionKeepsIterator(cfg: Config, s: State, a: Asdu, now: Time, isActive: bool)
    requires IteratorInRange(cfg, s.gi)
    ensures IteratorInRange(cfg, Receive(cfg, s, a, now, isActive).gi)
  {
    ReceptionKeepsCycle(cfg, s, a, now, isActive);
  }

  /** In every all-CA run the addresses attempted in the current cycle are the prefix of the
      configured list before the iterator, and a cycle is marked done only after every
      address of the list was attempted, once and in list order. */
  lemma AllAddressesAreCovered(cfg: Config, connect: bool, t0: int, es: seq<Event>)
    requires cfg.giAllCa && t0 >= 0 && Feasible(cfg, Initial(connect, t0), es)
    ensures var s := Run(cfg, Initial(connect, t0), es);
            var b := Review(cfg, s.history);
            && (s.gi.inProgress ==> s.gi.it <= |cfg.cas| && b.attempts == cfg.cas[..s.gi.it])
            && (s.gi.inProgress && StrictlyAscending(cfg.cas) ==> StrictlyAscending(b.attempts))
            && b.allFull
  {
    RunKeepsInv(cfg, Initial(connect, t0), es);
  }

  /** Every attempt of an all-CA cycle starts with no request open: in every run, a round
      that finds a request open attempts nothing, though it may begin a new session's first
      cycle. */
  lemma AttemptsNeedAClosedRequest(cfg: Config, connect: bool, t0: int, es: seq<Event>, now: int, env: RoundInput)
    requires cfg.giAllCa && t0 >= 0 && Feasible(cfg, Initial(connect, t0), es)
    requires Run(cfg, Initial(connect, t0), es).gi.req != 0
    requires Enabled(Run(cfg, Initial(connect, t0), es), ThreadRound(now, env))
    ensures var s := Run(cfg, Initial(connect, t0), es);
            var b, c := Review(cfg, s.history), Review(cfg, Step(cfg, s, ThreadRound(now, env)).history);
            c.total == b.total && (c.attempts == b.attempts || c.attempts == [])
  {
    RequestProofs.RunKeepsInv(cfg, Initial(connect, t0), es);
    OpenRequestRound(cfg, Run(cfg, Initial(connect, t0), es), now, env);
  }

  lemma OpenRequestRound(cfg: Config, s: State, now: int, env: RoundInput)
    requires cfg.giAllCa && s.gi.req != 0 && s.gi.inProgress
    ensures var b, c := Review(cfg, s.history), Review(cfg, Round(cfg, s, now, env).history);
            c.total == b.total && (c.attempts == b.attempts || c.attempts == [])
  {
    hide ServeRequest, RestartDue, AskNext, SyncTick;
    var s1 := SyncTick(cfg, s, now, env.clockSent);
    SyncTickIsNeutral(cfg, s, now, env.clockSent);
    if !s1.gi.firstSent {
      var s2 := CycleBegun(cfg, s1, First, now);
      assert Review(cfg, s2.history).attempts == [] && Review(cfg, s2.history).total == Review(cfg, s.history).total;
      UpdateIsNeutral(cfg, Rewound(cfg, s2), GiStarted);
    } else {
      FailIsNeutral(cfg, RequestExpired(cfg, s1, now));
    }
  }

  lemma SyncTickIsNeutral(cfg: Config, s: State, now: int, sent: bool)
    ensures var t := SyncTick(cfg, s, now, sent);
            Review(cfg, t.history) == Review(cfg, s.history) && t.gi == s.gi
  {
  }

  // ---- pacing ----

  /** In every run each periodic restart is strictly later than gi_cycle * 1000 ms after the
      last broadcast sent or all-CA cycle completed. */
  ghost predicate AlwaysPaced(cfg: Config) {
    forall connect, t0, es | t0 >= 0 && Feasible(cfg, Initial(connect, t0), es) ::
      Review(cfg, Run(cfg, Initial(connect, t0), es).history).allPaced
  }

  /** No restart is early, in any run, if and only if the 32-bit product of the period does
      not overflow - or interrogation is off, or there is no address to interrogate. */
  lemma RestartsArePacedExactly(cfg: Config)
    ensures AlwaysPaced(cfg) <==>
              cfg.giCycle <= MAX_EXACT_SECONDS || !cfg.giEnabled || (cfg.giAllCa && cfg.cas == [])
  {
    if IsExactlyPaced(cfg) {
      forall connect, t0, es | t0 >= 0 && Feasible(cfg, Initial(connect, t0), es)
        ensures Review(cfg, Run(cfg, Initial(connect, t0), es).history).allPaced
      {
        RunKeepsInv(cfg, Initial(connect, t0), es);
      }
    } else {
      hide Run, Feasible, Review;
      var es, s := EarlyRestart(cfg);
      ReachesMeans(cfg, Initial(true, LATE), es, s);
    }
  }

  /** Late enough that a negative product does not wrap the sum. */
  const LATE: Time := 0x1_0000_0000

  /** A session between two cycles, the last one of which was paced at LATE. */
  predicate IsBetweenCycles(cfg: Config, s: State) {
    && InSession(s) && IsClockDone(s) && s.clock == LATE
    && s.gi.firstSent && !s.gi.inProgress && s.gi.nextStart == After(LATE, cfg.giCycle)
    && Review(cfg, s.history).pace == Some(LATE)
  }

  lemma EarlyRestart(cfg: Config) returns (es: seq<Event>, s: State)
    requires CanComplete(cfg) && cfg.giCycle > MAX_EXACT_SECONDS
    ensures Reaches(cfg, Initial(true, LATE), es, s) && !Review(cfg, s.history).allPaced
  {
    hide Reaches, Review;
    var cycle, q := FirstCycle(cfg);
    var next := After(LATE, cfg.giCycle);
    assert 0 <= next < LATE + 1000 * cfg.giCycle;
    var e := ThreadRound(if next < LATE then LATE + 1 else next + 1, ACCEPTING);
    RestartIsEarly(cfg, q, e.now);
    es, s := cycle + [e], Step(cfg, q, e);
    ReachByAnother(cfg, Initial(true, LATE), cycle, q, e);
  }

  lemma RestartIsEarly(cfg: Config, s: State, now: int)
    requires cfg.giEnabled && cfg.giCycle > 0 && IsBetweenCycles(cfg, s)
    requires After(LATE, cfg.giCycle) < now <= LATE + 1000 * cfg.giCycle
    ensures !Review(cfg, Round(cfg, s, now, ACCEPTING).history).allPaced
  {
    hide Round, StartCycle;
    RoundOfClockDone(cfg, s, now, ACCEPTING);
    StartCycleBooks(cfg, s, Periodic, now, true);
    StartCycleBooks(cfg, LowerFlag(RestartDue(cfg, s, now, true)), OnRequest, now, true);
  }

  /** A start puts itself into the books, and nothing there that was early becomes punctual. */
  lemma StartCycleBooks(cfg: Config, s: State, why: Why, now: int, sent: bool)
    ensures Review(cfg, StartCycle(cfg, s, why, now, sent).history).allPaced ==
            (Review(cfg, s.history).allPaced && IsPaced(cfg, Review(cfg, s.history), why, now))
  {
    hide UpdateStatus;
    var s1 := CycleBegun(cfg, s, why, now);
    UpdateIsNeutral(cfg, Rewound(cfg, s1), GiStarted);
    UpdateIsNeutral(cfg, s1, GiStarted);
  }

  // ---- a first cycle, all of it at LATE ----

  /** A session in the middle of its first cycle. */
  predicate IsInCycle(cfg: Config, s: State, req: RequestState) {
    && InSession(s) && IsClockDone(s) && s.clock == LATE
    && s.gi.firstSent && s.gi.inProgress && s.gi.req == req
  }

  predicate IsBroadcastPaced(cfg: Config, s: State) {
    s.gi.nextStart == After(LATE, cfg.giCycle) && Review(cfg, s.history).pace == Some(LATE)
  }

  lemma FirstCycle(cfg: Config) returns (es: seq<Event>, s: State)
    requires CanComplete(cfg)
    ensures Reaches(cfg, Initial(true, LATE), es, s) && IsBetweenCycles(cfg, s)
  {
    hide Reaches, Review, Opening;
    var s0, e := Initial(true, LATE), ThreadRound(LATE, ACCEPTING);
    var q := OpeningOpens(cfg, LATE);
    var r := Step(cfg, q, e);
    ReachByAnother(cfg, s0, Opening(LATE), q, e);
    FirstStart(cfg, q);
    if cfg.giAllCa {
      var walk;
      walk, s := Walk(cfg, r);
      ReachOn(cfg, s0, Opening(LATE) + [e], r, walk, s);
      es := Opening(LATE) + [e] + walk;
    } else {
      var replies, t := Answering(cfg, r);
      s := Step(cfg, t, e);
      LastRound(cfg, t);
      ReachOn(cfg, s0, Opening(LATE) + [e], r, replies, t);
      ReachByAnother(cfg, s0, Opening(LATE) + [e] + replies, t, e);
      es := Opening(LATE) + [e] + replies + [e];
    }
  }

  lemma FirstStart(cfg: Config, s: State)
    requires CanComplete(cfg) && InSession(s) && IsClockDone(s) && s.gi == Initial(true, LATE).gi
    ensures var t := Step(cfg, s, ThreadRound(LATE, ACCEPTING));
            && IsInCycle(cfg, t, if cfg.giAllCa then 0 else 1)
            && (if cfg.giAllCa then t.gi.it == 0 else IsBroadcastPaced(cfg, t))
  {
    hide Round;
    RoundOfClockDone(cfg, s, LATE, ACCEPTING);
  }

  /** The outstation confirms and terminates the open request. */
  lemma Answering(cfg: Config, s: State) returns (es: seq<Event>, t: State)
    requires IsInCycle(cfg, s, 1)
    ensures Reaches(cfg, s, es, t) && IsInCycle(cfg, t, 0) && t.gi == s.gi.(req := 0)
    ensures Review(cfg, t.history) == Review(cfg, s.history)
  {
    hide Reaches, Receive;
    var e1, e2 := Received(LATE, CONFIRMATION, true), Received(LATE, TERMINATION, true);
    var s1 := Step(cfg, s, e1);
    t := Step(cfg, s1, e2);
    ConfirmationIsNeutral(cfg, s);
    TerminationIsNeutral(cfg, s1);
    ReachByOne(cfg, s, e1);
    ReachByAnother(cfg, s, [e1], s1, e2);
    es := [e1] + [e2];
  }

  lemma ConfirmationIsNeutral(cfg: Config, s: State)
    requires s.gi.req == 1
    ensures var t := Receive(cfg, s, CONFIRMATION, LATE, true);
            && t.gi == s.gi.(req := 2) && t.link == s.link && t.sync == s.sync
            && Review(cfg, t.history) == Review(cfg, s.history)
  {
    hide Receive;
    ControlPasses(cfg, s, CONFIRMATION, LATE, true);
    ActConIsNeutral(cfg, s, false);
  }

  lemma TerminationIsNeutral(cfg: Config, s: State)
    requires s.gi.req == 2
    ensures var t := Receive(cfg, s, TERMINATION, LATE, true);
            && t.gi == s.gi.(req := 0) && t.link == s.link && t.sync == s.sync
            && Review(cfg, t.history) == Review(cfg, s.history)
  {
    hide Receive;
    ControlPasses(cfg, s, TERMINATION, LATE, true);
    ActTermIsNeutral(cfg, s);
  }

  /** The round that finds the cycle's last request closed. */
  lemma LastRound(cfg: Config, s: State)
    requires cfg.giEnabled && IsInCycle(cfg, s, 0)
    requires if cfg.giAllCa then s.gi.it >= |cfg.cas| else IsBroadcastPaced(cfg, s)
    ensures IsBetweenCycles(cfg, Step(cfg, s, ThreadRound(LATE, ACCEPTING)))
  {
    hide Round, StartCycle, AskNext;
    RoundOfClockDone(cfg, s, LATE, ACCEPTING);
  }

  /** Ask the remaining addresses one by one, then mark the cycle done. */
  lemma {:induction false} Walk(cfg: Config, s: State) returns (es: seq<Event>, t: State)
    requires CanComplete(cfg) && cfg.giAllCa && IsInCycle(cfg, s, 0) && s.gi.it <= |cfg.cas|
    ensures Reaches(cfg, s, es, t) && IsBetweenCycles(cfg, t)
    decreases |cfg.cas| - s.gi.it
  {
    hide Reaches, Review, IsBetweenCycles;
    var e := ThreadRound(LATE, ACCEPTING);
    var s1 := Step(cfg, s, e);
    ReachByOne(cfg, s, e);
    if s.gi.it == |cfg.cas| {
      LastRound(cfg, s);
      es, t := [e], s1;
    } else {
      NextAddress(cfg, s);
      var replies, s2 := Answering(cfg, s1);
      var rest;
      rest, t := Walk(cfg, s2);
      ReachOn(cfg, s1, replies, s2, rest, t);
      ReachOn(cfg, s, [e], s1, replies + rest, t);
      es := [e] + (replies + rest);
    }
  }

  lemma NextAddress(cfg: Config, s: State)
    requires CanComplete(cfg) && cfg.giAllCa && IsInCycle(cfg, s, 0) && s.gi.it < |cfg.cas|
    ensures var t := Step(cfg, s, ThreadRound(LATE, ACCEPTING)); IsInCycle(cfg, t, 1) && t.gi.it == s.gi.it + 1
  {
    hide Round, StartCycle;
    RoundOfClockDone(cfg, s, LATE, ACCEPTING);
  }
}
