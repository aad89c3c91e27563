/** Points that an interrogation leaves unanswered are published as invalid: when it ends or
    fails, always, and at no other time. */
module QualityProofs {
  import opened Protocol
  import opened Exchange
  import opened Publication
  import opened Reception
  import opened Session
  import Intake
  import Link
  import PendingProofs

  /** The lists of points published as invalid so far. */
  function Invalidations(h: History): seq<seq<Definition>> {
    match h
    case Nothing => []
    case Then(past, e) => Invalidations(past) + (if e.Invalidated? then [e.points] else [])
  }

  predicate IsUnderWay(status: GiStatus) {
    status in {GiStarted, GiInProgress}
  }

  /** The request is open past its deadline, or the next address is refused by the library. */
  predicate RequestFails(cfg: Config, gi: Gi, now: int, accepted: bool) {
    if gi.req != 0 then cfg.giTime != 0 && now > After(gi.reqSent, cfg.giTime)
    else cfg.giAllCa && gi.it < |cfg.cas| && !accepted
  }

  predicate CycleFails(cfg: Config, s: State, now: int, accepted: bool) {
    && s.link.conState == Link.Active && cfg.giEnabled && (cfg.timeSyncPeriod == 0 || s.sync.firstDone)
    && s.gi.firstSent && s.gi.inProgress && RequestFails(cfg, s.gi, now, accepted)
  }

  /** A negative ACT_CON for the waiting request, an ACT_TERM for the confirmed one, or a
      failing cause. */
  predicate CauseEnds(req: RequestState, status: GiStatus, a: Asdu) {
    if a.cot == 7 then req == 1 && a.negative
    else if a.cot == 10 then req == 2 && IsUnderWay(status)
    else IsUnderWay(status)
  }

  predicate ReplyEnds(s: State, a: Asdu) {
    a.typeId == C_IC_NA_1 && !IsHandled(a, |a.objects|) && CauseEnds(s.gi.req, s.status, a)
  }

  /** The events that end an interrogation, well or badly. */
  predicate EndsInterrogation(cfg: Config, s: State, e: Event) {
    match e
    case ThreadRound(now, env) => CycleFails(cfg, s, now, env.giSent)
    case Received(_, a, _) => ReplyEnds(s, a)
    case _ => false
  }

  /** What such an event publishes, of the points that are unanswered then. */
  function Due(ends: bool, pending: seq<Definition>): seq<seq<Definition>> {
    if ends && pending != [] then [pending] else []
  }

  lemma UpdatePublishesNothing(s: State, status: GiStatus)
    ensures Invalidations(UpdateStatus(s, status).history) == Invalidations(s.history)
    ensures UpdateStatus(s, status).pending == s.pending
  {
  }

  lemma InvalidatePublishes(s: State)
    ensures Invalidations(Invalidate(s).history) == Invalidations(s.history) + Due(true, s.pending)
    ensures Invalidate(s).pending == s.pending
  {
  }

  lemma FailPublishes(s: State)
    ensures Invalidations(Fail(s).history) == Invalidations(s.history) + Due(true, s.pending)
    ensures Fail(s).pending == s.pending
  {
    UpdatePublishesNothing(s, GiFailed);
    InvalidatePublishes(UpdateStatus(s, GiFailed));
  }

  lemma StartCyclePublishesNothing(cfg: Config, s: State, why: Why, now: int, sent: bool)
    ensures Invalidations(StartCycle(cfg, s, why, now, sent).history) == Invalidations(s.history)
  {
    hide UpdateStatus;
    var s1 := CycleBegun(cfg, s, why, now);
    UpdatePublishesNothing(Rewound(cfg, s1), GiStarted);
    UpdatePublishesNothing(s1, GiStarted);
  }

  lemma RestartPublishesNothing(cfg: Config, s: State, now: int, sent: bool)
    ensures Invalidations(ServeRequest(cfg, RestartDue(cfg, s, now, sent), now, sent).history)
            == Invalidations(s.history)
  {
    hide StartCycle;
    StartCyclePublishesNothing(cfg, s, Periodic, now, sent);
    StartCyclePublishesNothing(cfg, s, EndOfInit, now, sent);
    StartCyclePublishesNothing(cfg, LowerFlag(RestartDue(cfg, s, now, sent)), OnRequest, now, sent);
  }

  lemma ProgressPublishes(cfg: Config, s: State, now: int, sent: bool)
    ensures var t := Progress(cfg, s, now, sent);
            && t.pending == s.pending
            && Invalidations(t.history) ==
               Invalidations(s.history) + Due(RequestFails(cfg, s.gi, now, sent), s.pending)
  {
    hide UpdateStatus, Fail;
    if s.gi.req != 0 {
      FailPublishes(RequestExpired(cfg, s, now));
    } else if cfg.giAllCa && s.gi.it < |cfg.cas| {
      var ca := cfg.cas[s.gi.it];
      UpdatePublishesNothing(Record(s.(gi := s.gi.(req := 1, reqSent := now)), Asked(ca, now)), GiStarted);
      FailPublishes(Record(s, NotAsked(ca)));
    }
  }

  lemma SyncTickPublishesNothing(cfg: Config, s: State, now: int, sent: bool)
    ensures var t := SyncTick(cfg, s, now, sent);
            && Invalidations(t.history) == Invalidations(s.history) && t.pending == s.pending && t.gi == s.gi
            && t.sync.firstDone == s.sync.firstDone
  {
  }

  lemma RoundPublishes(cfg: Config, s: State, now: int, env: RoundInput)
    ensures var t := Round(cfg, s, now, env);
            Invalidations(t.history) ==
              Invalidations(s.history) + Due(CycleFails(cfg, s, now, env.giSent), t.pending)
  {
    hide SyncTick, StartCycle, Progress, ServeRequest, RestartDue, Link.Switch, Link.ServeDisconnect;
    var s1 := SyncTick(cfg, s, now, env.clockSent);
    SyncTickPublishesNothing(cfg, s, now, env.clockSent);
    StartCyclePublishesNothing(cfg, s1, First, now, env.giSent);
    ProgressPublishes(cfg, s1, now, env.giSent);
    RestartPublishesNothing(cfg, s1, now, env.giSent);
  }

  lemma HandleAsduPublishesNothing(cfg: Config, s: State, a: Asdu, now: int, isActive: bool)
    ensures var t := HandleAsdu(cfg, s, a, now, isActive);
            && Invalidations(t.history) == Invalidations(s.history)
            && t.gi.req == s.gi.req && IsUnderWay(t.status) == IsUnderWay(s.status)
  {
    hide Answered, Triggers, WithoutAll, UpdateStatus;
    var answered := Answered(cfg.defs, a, |a.objects|);
    var s0 := Record(s.(gi := if s.gi.req == 2 then s.gi.(reqSent := now) else s.gi,
                        pending := WithoutAll(s.pending, answered)),
                     Response(now, answered));
    var status := if s.status == GiStarted then GiInProgress else s.status;
    UpdatePublishesNothing(s0, status);
    UpdateSets(s0, status);
    assert Invalidations(s0.history) == Invalidations(s.history);
    RaisePublishesNothing(s);
    RaisePublishesNothing(UpdateStatus(s0, status));
    hide RaiseFlag;
  }

  lemma UpdateSets(s: State, status: GiStatus)
    ensures UpdateStatus(s, status).gi == s.gi && UpdateStatus(s, status).status == status
  {
  }

  lemma RaisePublishesNothing(s: State)
    ensures Invalidations(RaiseFlag(s).history) == Invalidations(s.history)
    ensures RaiseFlag(s).gi.req == s.gi.req && RaiseFlag(s).status == s.status
  {
  }

  lemma GiReplyPublishes(s: State, a: Asdu)
    ensures var t := GiReply(s, a);
            Invalidations(t.history) == Invalidations(s.history) + Due(CauseEnds(s.gi.req, s.status, a), t.pending)
  {
    hide UpdateStatus, Invalidate, Fail;
    var s1 := Record(s, GotActCon(a.negative)).(gi := s.gi.(req := 2));
    FailPublishes(s1);
    UpdatePublishesNothing(s1, GiInProgress);
    var s2 := Record(s, GotActTerm).(gi := s.gi.(req := 0));
    UpdatePublishesNothing(s2, GiFinished);
    InvalidatePublishes(UpdateStatus(s2, GiFinished));
    FailPublishes(Record(s, GotOther));
  }

  lemma ClockPublishesNothing(cfg: Config, s: State, a: Asdu, now: int)
    ensures Invalidations(ClockReply(cfg, s, a, now).history) == Invalidations(s.history)
  {
  }

  lemma ReceivePublishes(cfg: Config, s: State, a: Asdu, now: int, isActive: bool)
    ensures var t := Receive(cfg, s, a, now, isActive);
            Invalidations(t.history) == Invalidations(s.history) + Due(ReplyEnds(s, a), t.pending)
  {
    hide HandleAsdu, ClockReply, GiReply, IsHandled, Invalidations;
    HandleAsduPublishesNothing(cfg, s, a, now, isActive);
    var s1 := HandleAsdu(cfg, s, a, now, isActive);
    ClockPublishesNothing(cfg, s1, a, now);
    if a.typeId == C_IC_NA_1 && !IsHandled(a, |a.objects|) { GiReplyPublishes(s1, a); }
  }

  /** Every step publishes the unanswered points exactly if it ends the interrogation - a
      negative ACT_CON, ACT_TERM, a failing cause, a deadline, a refused address - and there
      are some; no other step publishes any. */
  lemma EndsPublishUnanswered(cfg: Config, s: State, e: Event)
    ensures var t := Step(cfg, s, e);
            Invalidations(t.history) ==
              Invalidations(s.history) + (if EndsInterrogation(cfg, s, e) && t.pending != [] then [t.pending] else [])
  {
    hide Round, Receive, CycleFails, ReplyEnds;
    match e
    case ThreadRound(now, env) => RoundPublishes(cfg, s, now, env);
    case Received(now, a, isActive) => ReceivePublishes(cfg, s, a, now, isActive);
    case _ =>
  }

  /** In every run the points published by the event that ends an interrogation are those of
      the station group that no response has answered since the cycle began. */
  lemma UnansweredArePublished(cfg: Config, connect: bool, t0: int, es: seq<Event>, e: Event)
    requires forall k | 0 <= k < |es| :: !es[k].Elsewhere?
    requires !e.Elsewhere?
    ensures var s := Run(cfg, Initial(connect, t0), es);
            var t := Step(cfg, s, e);
            var unanswered := PendingProofs.Unanswered(cfg, PendingProofs.Review(cfg, t.history));
            Invalidations(t.history) ==
              Invalidations(s.history) + (if EndsInterrogation(cfg, s, e) && unanswered != [] then [unanswered] else [])
  {
    var s := Run(cfg, Initial(connect, t0), es);
    PendingProofs.RunKeepsInv(cfg, Initial(connect, t0), es);
    PendingProofs.StepKeepsInv(cfg, s, e);
    EndsPublishUnanswered(cfg, s, e);
    hide Run, Step;
  }

  // ---- what reaches the ingest callback ----

  function AllUpdates(lists: seq<seq<Definition>>): seq<Ingested> {
    if lists == [] then []
    else AllUpdates(lists[..|lists| - 1]) + InvalidUpdates(lists[|lists| - 1])
  }

  /** One update per point, in order, under the tag of the point and with the given quality. */
  lemma {:induction false} QualityUpdatesMean(points: seq<Definition>, n: nat, qd: QualityDescriptor)
    requires n <= |points|
    ensures var us := QualityUpdates(points, n, qd);
            |us| == n && forall i | 0 <= i < n :: us[i] == Quality(points[i].tag, points[i], qd)
  {
    if n > 0 { QualityUpdatesMean(points, n - 1, qd); }
  }

  lemma {:induction false} UpdatesAreQualityCalls(points: seq<Definition>, n: nat, qd: QualityDescriptor)
    requires n <= |points|
    ensures QualityCalls(QualityUpdates(points, n, qd)) == QualityUpdates(points, n, qd)
  {
    if n > 0 {
      var last := [Quality(points[n - 1].tag, points[n - 1], qd)];
      UpdatesAreQualityCalls(points, n - 1, qd);
      QualityCallsConcat(QualityUpdates(points, n - 1, qd), last);
      assert last[1..] == [];
    }
  }

  lemma {:induction false} QualityCallsConcat(a: seq<Ingested>, b: seq<Ingested>)
    ensures QualityCalls(a + b) == QualityCalls(a) + QualityCalls(b)
  {
    if a == [] {
      assert a + b == b;
    } else {
      assert (a + b)[1..] == a[1..] + b;
      QualityCallsConcat(a[1..], b);
    }
  }

  lemma OutputQuality(signal: string, e: Entry)
    ensures QualityCalls(Output(signal, e)) ==
            if e.Invalidated? then InvalidUpdates(e.points) else []
  {
    match e
    case Invalidated(points) => UpdatesAreQualityCalls(points, |points|, Invalid);
    case StatusIs(status) => assert [GiEvent(signal, status)][1..] == [];
    case _ =>
  }

  lemma {:induction false} EmittedQuality(signal: string, h: History)
    ensures QualityCalls(Emitted(signal, h)) == AllUpdates(Invalidations(h))
  {
    if h.Then? {
      EmittedQuality(signal, h.past);
      OutputQuality(signal, h.last);
      QualityCallsConcat(Emitted(signal, h.past), Output(signal, h.last));
      hide Output, QualityCalls;
      var lists := Invalidations(h.past);
      if h.last.Invalidated? {
        assert (lists + [h.last.points])[..|lists|] == lists;
      } else {
        assert lists + [] == lists;
      }
    }
  }

  /** The quality updates that a growth of the history by the given list stands for. */
  lemma GainedQuality(signal: string, before: History, after: History, ends: bool, pending: seq<Definition>,
                      i0: seq<Ingested>, i1: seq<Ingested>)
    requires Adds(signal, before, after, i0, i1)
    requires Invalidations(after) == Invalidations(before) + Due(ends, pending)
    ensures QualityCalls(i1) ==
            QualityCalls(i0) + (if ends then InvalidUpdates(pending) else [])
  {
    hide QualityCalls, AllUpdates, Invalidations, Due, Emitted;
    var e0, gained := Emitted(signal, before), Gained(signal, before, after);
    var updates := if ends then InvalidUpdates(pending) else [];
    assert Emitted(signal, after) == e0 + gained;
    EmittedQuality(signal, before);
    EmittedQuality(signal, after);
    QualityCallsConcat(e0, gained);
    QualityCallsConcat(i0, gained);
    UpdatesOfOneMore(Invalidations(before), ends, pending);
    SameSuffix(QualityCalls(e0), QualityCalls(gained), updates);
  }

  lemma UpdatesOfOneMore(lists: seq<seq<Definition>>, ends: bool, pending: seq<Definition>)
    ensures AllUpdates(lists + Due(ends, pending)) ==
            AllUpdates(lists) + (if ends then InvalidUpdates(pending) else [])
  {
    if ends && pending != [] {
      assert (lists + [pending])[..|lists|] == lists;
    } else {
      assert lists + [] == lists;
    }
  }

  lemma SameSuffix(a: seq<Ingested>, b: seq<Ingested>, c: seq<Ingested>)
    requires a + b == a + c
    ensures b == c
  {
    assert (a + b)[|a|..] == b && (a + c)[|a|..] == c;
  }

  lemma {:induction false} ValuesAreNoQuality(points: seq<Datapoint>, n: nat)
    requires n <= |points|
    ensures QualityCalls(Intake.Published(points, n)) == []
  {
    if n > 0 {
      var last := [Value(points[n - 1].tag, points[n - 1])];
      ValuesAreNoQuality(points, n - 1);
      QualityCallsConcat(Intake.Published(points, n - 1), last);
      assert last[1..] == [];
    }
  }

  /** A round of the connection thread ingests quality updates exactly if it ends the
      interrogation: one, with invalid quality, per point that is unanswered then. */
  lemma RoundIngestsUnanswered(signal: string, cfg: Config, s: State, now: int, env: RoundInput,
                               i0: seq<Ingested>, i1: seq<Ingested>)
    requires Adds(signal, s.history, Round(cfg, s, now, env).history, i0, i1)
    ensures var points := Round(cfg, s, now, env).pending;
            QualityCalls(i1) ==
            QualityCalls(i0) +
            (if CycleFails(cfg, s, now, env.giSent) then InvalidUpdates(points) else [])
  {
    hide Round, CycleFails, Adds;
    var t := Round(cfg, s, now, env);
    RoundPublishes(cfg, s, now, env);
    GainedQuality(signal, s.history, t.history, CycleFails(cfg, s, now, env.giSent), t.pending, i0, i1);
  }

  /** And so does the reception of an ASDU. */
  lemma ReceptionIngestsUnanswered(signal: string, cfg: Config, s: State, a: Asdu, now: int, isActive: bool,
                                   i0: seq<Ingested>, i1: seq<Ingested>)
    requires Intake.AddsReception(signal, cfg, s, a, now, isActive, i0, i1)
    ensures var points := Receive(cfg, s, a, now, isActive).pending;
            QualityCalls(i1) ==
            QualityCalls(i0) + (if ReplyEnds(s, a) then InvalidUpdates(points) else [])
  {
    hide HandleAsdu, Receive, ReplyEnds, Adds, Deliveries, Invalidations, QualityCalls, Intake.ProgressEvents,
         Intake.Published, Due;
    var s1, t := HandleAsdu(cfg, s, a, now, isActive), Receive(cfg, s, a, now, isActive);
    var events, values := Intake.ProgressEvents(signal, s.status, a), Intake.PublishedFor(cfg.defs, a);
    HandleAsduPublishesNothing(cfg, s, a, now, isActive);
    ReceivePublishes(cfg, s, a, now, isActive);
    GainedQuality(signal, s1.history, t.history, ReplyEnds(s, a), t.pending, i0 + events + values, i1);
    EventsAreNoQuality(signal, s.status, a);
    ValuesAreNoQuality(Deliveries(cfg.defs, a, |a.objects|), |Deliveries(cfg.defs, a, |a.objects|)|);
    QualityCallsConcat(i0 + events, values);
    QualityCallsConcat(i0, events);
  }

  lemma EventsAreNoQuality(signal: string, status: GiStatus, a: Asdu)
    ensures QualityCalls(Intake.ProgressEvents(signal, status, a)) == []
  {
    assert [GiEvent(signal, GiInProgress)][1..] == [];
  }
}
