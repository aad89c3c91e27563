/** What the element loop of handleASDU adds up to: the loop works object by object, while
    `Reception` says what the whole ASDU means; the lemmas connect the two, and with the
    session's view of an ASDU. */
module Intake {
  import opened Protocol
  import opened Exchange
  import opened Reception
  import opened Session
  import opened Publication
  import Commands

  lemma AnswerSeesOnlyTheView(d: Definitions, e: Definitions, a: Asdu, o: InfoObject)
    requires SameView(d, e)
    ensures Answer(d, a, o) == Answer(e, a, o)
    ensures o.Object? ==> Check(d, a.typeId, a.ca, o.ioa) == Check(e, a.typeId, a.ca, o.ioa)
  {
  }

  lemma LabelledAndSame(defs: Definitions)
    ensures Labelled([], []) && SameView(defs, defs)
  {
  }

  // ---- what the element loop adds up to ----

  /** The state the loop works on; `flag` is that of the active connection, if there is one. */
  datatype Tally = Tally(
    handled: bool, points: seq<Datapoint>, pending: seq<Definition>, table: Commands.Table,
    flag: Option<(bool, History)>)

  /** The request flag, and the history that notes its rises. */
  function Raise(trigger: bool, flag: Option<(bool, History)>): Option<(bool, History)> {
    if trigger && flag.Some? && !flag.value.0 then Some((true, Then(flag.value.1, Raised))) else flag
  }

  function Element(defs: Definitions, triggers: set<(int, int)>, a: Asdu, o: InfoObject, con: nat, now: int,
                   t: Tally): Tally {
    Tally(t.handled && (o.Undecodable? || IsForwarded(a.typeId)),
          t.points + Deliver(defs, a, o),
          WithoutAll(t.pending, Answer(defs, a, o)),
          ReplyFor(defs, a, o, t.table, con, now),
          Raise(IsTrigger(defs, triggers, a, o), t.flag))
  }

  lemma ElementMeans(defs: Definitions, triggers: set<(int, int)>, a: Asdu, o: InfoObject, con: nat, now: int, t: Tally)
    ensures Element(defs, triggers, a, o, con, now, t) ==
            if o.Undecodable? then t
            else
              var tag, supported := Check(defs, a.typeId, a.ca, o.ioa), IsForwarded(a.typeId);
              var point := if tag.Some? && supported then Some(PointOf(a, o, tag.value)) else None;
              Tally(t.handled && supported,
                    t.points + (if point.Some? then [point.value] else []),
                    WithoutAll(t.pending, Answer(defs, a, o)),
                    ReplyFor(defs, a, o, t.table, con, now),
                    Raise(point.Some? && TriggersGi(triggers, a, point.value), t.flag))
  {
  }

  function Elements(defs: Definitions, triggers: set<(int, int)>, a: Asdu, n: nat, con: nat, now: int, t: Tally): Tally
    requires n <= |a.objects|
  {
    if n == 0 then t
    else Element(defs, triggers, a, a.objects[n - 1], con, now, Elements(defs, triggers, a, n - 1, con, now, t))
  }

  lemma NothingAnswered(pending: seq<Definition>)
    ensures WithoutAll(pending, []) == pending
  {
  }

  /** What handleASDU makes of all elements, as `Reception` says. */
  function Outcome(defs: Definitions, triggers: set<(int, int)>, a: Asdu, con: nat, now: int, t: Tally): Tally {
    Tally(IsHandled(a, |a.objects|),
          Deliveries(defs, a, |a.objects|),
          WithoutAll(t.pending, Answered(defs, a, |a.objects|)),
          Replies(defs, a, |a.objects|, t.table, con, now),
          Raise(Triggers(defs, triggers, a, |a.objects|), t.flag))
  }

  lemma {:induction false} ElementsSoFar(
      defs: Definitions, triggers: set<(int, int)>, a: Asdu, n: nat, con: nat, now: int, t: Tally)
    requires n <= |a.objects| && t.handled && t.points == []
    ensures Elements(defs, triggers, a, n, con, now, t)
            == Tally(IsHandled(a, n), Deliveries(defs, a, n), WithoutAll(t.pending, Answered(defs, a, n)),
                     Replies(defs, a, n, t.table, con, now), Raise(Triggers(defs, triggers, a, n), t.flag))
  {
    hide Deliver, Answer, WithoutAll, ReplyFor, IsTrigger, IsForwarded;
    if n == 0 {
      assert WithoutAll(t.pending, []) == t.pending by { NothingAnswered(t.pending); }
    } else {
      ElementsSoFar(defs, triggers, a, n - 1, con, now, t);
      AnswersAccumulate(t.pending, defs, a, n - 1);
    }
  }

  /** Element by element or all at once: the loop delivers, answers, replies and triggers as
      `Reception` says. */
  lemma ElementsAddUp(defs: Definitions, triggers: set<(int, int)>, a: Asdu, con: nat, now: int, t: Tally)
    requires t.handled && t.points == []
    ensures Elements(defs, triggers, a, |a.objects|, con, now, t) == Outcome(defs, triggers, a, con, now, t)
  {
    ElementsSoFar(defs, triggers, a, |a.objects|, con, now, t);
  }

  lemma ElementSeesOnlyTheView(d: Definitions, e: Definitions, triggers: set<(int, int)>, a: Asdu, o: InfoObject,
                               con: nat, now: int, t: Tally)
    requires SameView(e, d)
    ensures Element(d, triggers, a, o, con, now, t) == Element(e, triggers, a, o, con, now, t)
  {
  }

  lemma AnswersAccumulate(list: seq<Definition>, defs: Definitions, a: Asdu, i: nat)
    requires i < |a.objects|
    ensures WithoutAll(list, Answered(defs, a, i + 1)) ==
            WithoutAll(WithoutAll(list, Answered(defs, a, i)), Answer(defs, a, a.objects[i]))
  {
    var before, more := Answered(defs, a, i), Answer(defs, a, a.objects[i]);
    if more == [] {
      assert before + more == before;
    } else {
      assert (before + more)[..|before|] == before;
      assert more[..0] == [];
    }
  }

  /** Every data point goes out under its own tag. */
  ghost predicate Labelled(labels: seq<string>, points: seq<Datapoint>) {
    |labels| == |points| && forall k | 0 <= k < |points| :: labels[k] == points[k].tag
  }

  function AfterResponse(defs: Definitions, s: State, a: Asdu, now: int): State {
    if IsInterrogationResponse(a)
    then Record(s.(gi := if s.gi.req == 2 then s.gi.(reqSent := now) else s.gi),
                Response(now, Answered(defs, a, |a.objects|)))
    else s
  }

  /** The first interrogation response moves STARTED to IN PROGRESS. */
  function AfterProgress(s: State, a: Asdu): State {
    if IsInterrogationResponse(a) && s.status == GiStarted then UpdateStatus(s, GiInProgress) else s
  }

  /** The south event of that move. */
  function ProgressEvents(signal: string, status: GiStatus, a: Asdu): seq<Ingested> {
    if IsInterrogationResponse(a) && status == GiStarted then SouthEvent(signal, GiEvent(signal, GiInProgress)) else []
  }

  /** Apart from its data points, an ASDU publishes at most that event before the connection
      gets to see it. */
  lemma HandlingEmits(signal: string, cfg: Config, s: State, a: Asdu, now: int, isActive: bool)
    ensures var t := HandleAsdu(cfg, s, a, now, isActive);
            && Emitted(signal, s.history) <= Emitted(signal, t.history)
            && Gained(signal, s.history, t.history) == ProgressEvents(signal, s.status, a)
  {
    hide Answered, Triggers, WithoutAll;
    var answered := Answered(cfg.defs, a, |a.objects|);
    var s0 := Record(s.(gi := if s.gi.req == 2 then s.gi.(reqSent := now) else s.gi,
                        pending := WithoutAll(s.pending, answered)),
                     Response(now, answered));
    assert Emitted(signal, s0.history) == Emitted(signal, s.history);
    if IsInterrogationResponse(a) {
      assert TakeResponse(s, answered, now) ==
             UpdateStatus(s0, if s.status == GiStarted then GiInProgress else s.status);
      assert Emitted(signal, TakeResponse(s, answered, now).history) ==
             Emitted(signal, s.history) + ProgressEvents(signal, s.status, a);
      FlagIsSilent(signal, TakeResponse(s, answered, now));
    } else {
      FlagIsSilent(signal, s);
    }
    hide TakeResponse, UpdateStatus, RaiseFlag;
  }

  lemma FlagIsSilent(signal: string, s: State)
    ensures Emitted(signal, RaiseFlag(s).history) == Emitted(signal, s.history)
  {
  }

  /** What a received ASDU publishes: the event of the interrogation's progress, then its data
      points, then what its effect on the interrogation stands for. */
  predicate AddsReception(signal: string, cfg: Config, s: State, a: Asdu, now: int, isActive: bool,
                          i0: seq<Ingested>, i1: seq<Ingested>) {
    Adds(signal, HandleAsdu(cfg, s, a, now, isActive).history, Receive(cfg, s, a, now, isActive).history,
         i0 + ProgressEvents(signal, s.status, a) + PublishedFor(cfg.defs, a), i1)
  }

  /** Answered points leave the pending list, and a trigger raises the flag of the active connection. */
  function AfterElements(defs: Definitions, triggers: set<(int, int)>, s: State, a: Asdu, isActive: bool): State {
    var s1 := s.(pending := WithoutAll(s.pending, Answered(defs, a, |a.objects|)));
    if isActive && Triggers(defs, triggers, a, |a.objects|) then RaiseFlag(s1) else s1
  }

  lemma {:induction false} OnlyResponsesAnswer(defs: Definitions, a: Asdu, n: nat)
    requires n <= |a.objects| && !IsInterrogationResponse(a)
    ensures Answered(defs, a, n) == []
  {
    if n > 0 { OnlyResponsesAnswer(defs, a, n - 1); }
  }

  lemma {:induction false} RepliesSeeOnlyTheView(
      d: Definitions, e: Definitions, a: Asdu, n: nat, t: Commands.Table, con: nat, now: int)
    requires SameView(d, e) && n <= |a.objects|
    ensures Replies(d, a, n, t, con, now) == Replies(e, a, n, t, con, now)
  {
    if n > 0 { RepliesSeeOnlyTheView(d, e, a, n - 1, t, con, now); }
  }

  /** The three stages of the handler make up the session's HandleAsdu, and null entries in
      the definition map change none of it. */
  lemma PassingMeans(defs: Definitions, cfg: Config, s: State, a: Asdu, now: int, isActive: bool,
                     t: Commands.Table, con: nat)
    requires SameView(defs, cfg.defs)
    ensures AfterElements(defs, cfg.triggers, AfterProgress(AfterResponse(defs, s, a, now), a), a, isActive)
            == HandleAsdu(cfg, s, a, now, isActive)
    ensures PublishedFor(defs, a) == PublishedFor(cfg.defs, a)
    ensures Replies(defs, a, |a.objects|, t, con, now) == Replies(cfg.defs, a, |a.objects|, t, con, now)
  {
    hide Replies, Answered, Deliveries, Published, AfterElements, AfterProgress, AfterResponse, HandleAsdu;
    MeaningSeesOnlyTheView(defs, cfg.defs, a, |a.objects|);
    RepliesSeeOnlyTheView(defs, cfg.defs, a, |a.objects|, t, con, now);
    StagesMakeUp(defs, cfg, s, a, now, isActive);
  }

  lemma StagesMakeUp(defs: Definitions, cfg: Config, s: State, a: Asdu, now: int, isActive: bool)
    requires SameView(defs, cfg.defs)
    ensures AfterElements(defs, cfg.triggers, AfterProgress(AfterResponse(defs, s, a, now), a), a, isActive)
            == HandleAsdu(cfg, s, a, now, isActive)
  {
    MeaningSeesOnlyTheView(defs, cfg.defs, a, |a.objects|);
    TriggersSeeOnlyTheView(defs, cfg.defs, cfg.triggers, a, |a.objects|);
    hide Answered, Deliveries, WithoutAll, Triggers, RaiseFlag, SameView;
    if !IsInterrogationResponse(a) {
      OnlyResponsesAnswer(defs, a, |a.objects|);
      NothingAnswered(s.pending);
    }
  }

  function Published(points: seq<Datapoint>, n: nat): seq<Ingested>
    requires n <= |points|
  {
    if n == 0 then [] else Published(points, n - 1) + [Value(points[n - 1].tag, points[n - 1])]
  }

  /** What an ASDU publishes: one value per delivered data point, in order. */
  function PublishedFor(defs: Definitions, a: Asdu): seq<Ingested> {
    Published(Deliveries(defs, a, |a.objects|), |Deliveries(defs, a, |a.objects|)|)
  }

  function PointOf(a: Asdu, o: InfoObject, tag: string): Datapoint
    requires o.Object?
  {
    Datapoint(a.typeId, a.ca, a.cot, a.negative, o.ioa, tag, o.value)
  }

  /** One value per data point, in order, under its own tag. */
  lemma {:induction false} PublishedMeans(points: seq<Datapoint>, n: nat)
    requires n <= |points|
    ensures |Published(points, n)| == n
    ensures forall i | 0 <= i < n :: Published(points, n)[i] == Value(points[i].tag, points[i])
  {
    if n > 0 { PublishedMeans(points, n - 1); }
  }
}
