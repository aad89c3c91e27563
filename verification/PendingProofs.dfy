/** Points not yet answered: the pending list is exact in every run, and so is every
    publication of invalid quality. */
module PendingProofs {
  import opened Protocol
  import opened Exchange
  import opened TypeMatching
  import opened Reception
  import opened Session

  /** Which points were answered since the current cycle began, whether any cycle began,
      and whether every publication so far listed exactly the unanswered points. */
  datatype Book = Book(begun: bool, seen: set<Definition>, allExact: bool)

  /** The configured station group, in (CA, IOA) order, minus the points answered. */
  function Unanswered(cfg: Config, b: Book): seq<Definition> {
    if b.begun then Minus(cfg.station, b.seen) else []
  }

  function Advance(cfg: Config, b: Book, e: Entry): Book {
    match e
    case Began(_, _) => b.(begun := true, seen := {})
    case Response(_, answered) => b.(seen := b.seen + set d | d in answered)
    case Invalidated(points) => b.(allExact := b.allExact && points == Unanswered(cfg, b))
    case _ => b
  }

  function Review(cfg: Config, h: History): Book {
    match h
    case Nothing => Book(false, {}, true)
    case Then(past, e) => Advance(cfg, Review(cfg, past), e)
  }

  predicate Inv(cfg: Config, s: State) {
    var b := Review(cfg, s.history);
    s.pending == Unanswered(cfg, b) && b.allExact
  }

  lemma UpdateKeeps(cfg: Config, s: State, status: GiStatus)
    requires Inv(cfg, s)
    ensures Inv(cfg, UpdateStatus(s, status)) && UpdateStatus(s, status).pending == s.pending
  {
  }

  lemma InvalidateKeeps(cfg: Config, s: State)
    requires Inv(cfg, s)
    ensures Inv(cfg, Invalidate(s))
  {
  }

  lemma FailKeeps(cfg: Config, s: State)
    requires Inv(cfg, s)
    ensures Inv(cfg, Fail(s))
  {
    UpdateKeeps(cfg, s, GiFailed);
    InvalidateKeeps(cfg, UpdateStatus(s, GiFailed));
  }

  lemma StartCycleKeeps(cfg: Config, s: State, why: Why, now: int, sent: bool)
    requires Inv(cfg, s)
    ensures Inv(cfg, StartCycle(cfg, s, why, now, sent))
  {
    var s1 := CycleBegun(cfg, s, why, now);
    MinusNothing(cfg.station);
    assert Inv(cfg, s1);
    if cfg.giAllCa {
      UpdateKeeps(cfg, Rewound(cfg, s1), GiStarted);
    } else {
      UpdateKeeps(cfg, s1, GiStarted);
    }
  }

  lemma ProgressKeeps(cfg: Config, s: State, now: int, sent: bool)
    requires Inv(cfg, s)
    ensures Inv(cfg, Progress(cfg, s, now, sent))
  {
    hide UpdateStatus, Invalidate, Fail;
    if s.gi.req != 0 {
      FailKeeps(cfg, RequestExpired(cfg, s, now));
    } else if cfg.giAllCa && s.gi.it < |cfg.cas| {
      var ca := cfg.cas[s.gi.it];
      UpdateKeeps(cfg, Record(s.(gi := s.gi.(req := 1, reqSent := now)), Asked(ca, now)), GiStarted);
      FailKeeps(cfg, Record(s, NotAsked(ca)));
    }
  }

  lemma RestartKeeps(cfg: Config, s: State, now: int, sent: bool)
    requires Inv(cfg, s)
    ensures Inv(cfg, ServeRequest(cfg, RestartDue(cfg, s, now, sent), now, sent))
  {
    hide StartCycle;
    StartCycleKeeps(cfg, s, Periodic, now, sent);
    StartCycleKeeps(cfg, s, EndOfInit, now, sent);
    var s1 := RestartDue(cfg, s, now, sent);
    StartCycleKeeps(cfg, LowerFlag(s1), OnRequest, now, sent);
  }

  lemma SyncTickKeeps(cfg: Config, s: State, now: int, sent: bool)
    requires Inv(cfg, s)
    ensures Inv(cfg, SyncTick(cfg, s, now, sent))
  {
  }

  lemma RoundKeeps(cfg: Config, s: State, now: int, env: RoundInput)
    requires Inv(cfg, s)
    ensures Inv(cfg, Round(cfg, s, now, env))
  {
    hide SyncTick, StartCycle, Progress, ServeRequest, RestartDue;
    var s1 := SyncTick(cfg, s, now, env.clockSent);
    SyncTickKeeps(cfg, s, now, env.clockSent);
    StartCycleKeeps(cfg, s1, First, now, env.giSent);
    ProgressKeeps(cfg, s1, now, env.giSent);
    RestartKeeps(cfg, s1, now, env.giSent);
  }

  lemma {:induction false} AnsweringNothing(ds: seq<Definition>)
    ensures WithoutAll([], ds) == []
    decreases ds
  {
    if ds != [] { AnsweringNothing(ds[..|ds| - 1]); }
  }

  lemma TakeResponseKeeps(cfg: Config, s: State, answered: seq<Definition>, now: int)
    requires Inv(cfg, s)
    ensures Inv(cfg, TakeResponse(s, answered, now))
  {
    hide Minus, WithoutAll, UpdateStatus;
    var s0 := Record(s.(gi := if s.gi.req == 2 then s.gi.(reqSent := now) else s.gi,
                        pending := WithoutAll(s.pending, answered)),
                     Response(now, answered));
    WithoutAllIsMinus(cfg.station, Review(cfg, s.history).seen, answered);
    AnsweringNothing(answered);
    assert Inv(cfg, s0);
    UpdateKeeps(cfg, s0, if s.status == GiStarted then GiInProgress else s.status);
  }

  lemma GiReplyKeeps(cfg: Config, s: State, a: Asdu)
    requires Inv(cfg, s)
    ensures Inv(cfg, GiReply(s, a))
  {
    hide UpdateStatus, Invalidate, Fail;
    var s1 := Record(s, GotActCon(a.negative));
    FailKeeps(cfg, s1.(gi := s1.gi.(req := 2)));
    UpdateKeeps(cfg, s1.(gi := s1.gi.(req := 2)), GiInProgress);
    var s2 := Record(s, GotActTerm).(gi := s.gi.(req := 0));
    UpdateKeeps(cfg, s2, GiFinished);
    InvalidateKeeps(cfg, UpdateStatus(s2, GiFinished));
    FailKeeps(cfg, Record(s, GotOther));
  }

  lemma RaiseKeeps(cfg: Config, s: State)
    requires Inv(cfg, s)
    ensures Inv(cfg, RaiseFlag(s))
  {
  }

  lemma ClockReplyKeeps(cfg: Config, s: State, a: Asdu, now: int)
    requires Inv(cfg, s)
    ensures Inv(cfg, ClockReply(cfg, s, a, now))
  {
  }

  lemma ReceiveKeeps(cfg: Config, s: State, a: Asdu, now: int, isActive: bool)
    requires Inv(cfg, s)
    ensures Inv(cfg, Receive(cfg, s, a, now, isActive))
  {
    hide TakeResponse, GiReply, Answered, Triggers, RaiseFlag, ClockReply;
    var answered := Answered(cfg.defs, a, |a.objects|);
    TakeResponseKeeps(cfg, s, answered, now);
    RaiseKeeps(cfg, s);
    RaiseKeeps(cfg, TakeResponse(s, answered, now));
    var s1 := HandleAsdu(cfg, s, a, now, isActive);
    assert Inv(cfg, s1);
    ClockReplyKeeps(cfg, s1, a, now);
    GiReplyKeeps(cfg, s1, a);
  }

  lemma StepKeepsInv(cfg: Config, s: State, e: Event)
    requires Inv(cfg, s) && !e.Elsewhere?
    ensures Inv(cfg, Step(cfg, s, e))
  {
    hide Round, Receive;
    match e
    case ThreadRound(now, env) => RoundKeeps(cfg, s, now, env);
    case Received(now, a, isActive) => ReceiveKeeps(cfg, s, a, now, isActive);
    case _ =>
  }

  lemma {:induction false} RunKeepsInv(cfg: Config, s: State, es: seq<Event>)
    requires Inv(cfg, s) && forall k | 0 <= k < |es| :: !es[k].Elsewhere?
    ensures Inv(cfg, Run(cfg, s, es))
    decreases es
  {
    if es != [] {
      StepKeepsInv(cfg, s, es[0]);
      RunKeepsInv(cfg, Step(cfg, s, es[0]), es[1..]);
    }
  }

  /** In every run the pending list is the configured station group in (CA, IOA) order minus
      the points answered since the cycle began, and every publication of invalid quality
      listed exactly the points unanswered at that moment. */
  lemma PendingListIsExact(cfg: Config, connect: bool, t0: int, es: seq<Event>)
    requires forall k | 0 <= k < |es| :: !es[k].Elsewhere?
    ensures var s := Run(cfg, Initial(connect, t0), es);
            var b := Review(cfg, s.history);
            && s.pending == Unanswered(cfg, b)
            && b.allExact
  {
    RunKeepsInv(cfg, Initial(connect, t0), es);
  }

  /** What counts as answered: an ASDU with cause 20 adds exactly the station-group points
      configured with a matching type at the addresses of its objects; any other ASDU adds
      nothing. */
  lemma ResponsesAreSeen(cfg: Config, s: State, a: Asdu, now: int, isActive: bool, d: Definition)
    requires WellKeyed(cfg.defs)
    ensures d in Review(cfg, Receive(cfg, s, a, now, isActive).history).seen <==>
              || d in Review(cfg, s.history).seen
              || (&& a.cot == 20 && d.ca == a.ca && d.giGroups % 2 == 1
                  && Lookup(cfg.defs, d.ca, d.ioa) == Some(d) && IsMessageTypeMatching(d.typeId, a.typeId)
                  && exists i :: 0 <= i < |a.objects| && a.objects[i].Object? && a.objects[i].ioa == d.ioa)
  {
    hide IsMessageTypeMatching, HandleAsdu, ControlReply, Answered, WellKeyed;
    AnsweredMeans(cfg.defs, a, |a.objects|, d);
    HandlingIsSeen(cfg, s, a, now, isActive);
    ControlIsUnseen(cfg, HandleAsdu(cfg, s, a, now, isActive), a, now);
  }

  lemma HandlingIsSeen(cfg: Config, s: State, a: Asdu, now: int, isActive: bool)
    ensures var answered := Answered(cfg.defs, a, |a.objects|);
            Review(cfg, HandleAsdu(cfg, s, a, now, isActive).history).seen ==
              if IsInterrogationResponse(a) then Review(cfg, s.history).seen + (set d | d in answered)
              else Review(cfg, s.history).seen
  {
    var answered := Answered(cfg.defs, a, |a.objects|);
    var s0 := Record(s.(gi := if s.gi.req == 2 then s.gi.(reqSent := now) else s.gi,
                        pending := WithoutAll(s.pending, answered)),
                     Response(now, answered));
    var status := if s.status == GiStarted then GiInProgress else s.status;
    assert Review(cfg, s0.history).seen == Review(cfg, s.history).seen + set d | d in answered;
    StatusIsUnseen(cfg, s0, status);
    assert TakeResponse(s, answered, now) == UpdateStatus(s0, status);
    hide Answered, Triggers, WithoutAll, UpdateStatus, TakeResponse;
    FlagIsUnseen(cfg, s);
    FlagIsUnseen(cfg, TakeResponse(s, answered, now));
  }

  lemma FlagIsUnseen(cfg: Config, s: State)
    ensures Review(cfg, RaiseFlag(s).history).seen == Review(cfg, s.history).seen
  {
  }

  lemma ControlIsUnseen(cfg: Config, s: State, a: Asdu, now: int)
    ensures Review(cfg, ControlReply(cfg, s, a, now).history).seen == Review(cfg, s.history).seen
  {
    hide UpdateStatus, Invalidate, Fail;
    var s1, s2 := Record(s, GotActCon(a.negative)), Record(s, GotActTerm).(gi := s.gi.(req := 0));
    StatusIsUnseen(cfg, s1.(gi := s1.gi.(req := 2)), GiInProgress);
    StatusIsUnseen(cfg, s2, GiFinished);
    StatusIsUnseen(cfg, UpdateStatus(s2, GiFinished), GiFinished);
    StatusIsUnseen(cfg, Record(s, GotOther), GiFailed);
  }

  lemma StatusIsUnseen(cfg: Config, s: State, status: GiStatus)
    ensures Review(cfg, UpdateStatus(s, status).history).seen == Review(cfg, s.history).seen
    ensures Review(cfg, Invalidate(s).history).seen == Review(cfg, s.history).seen
    ensures Review(cfg, Fail(s).history).seen == Review(cfg, s.history).seen
  {
  }

  /** For a configuration that was imported, the list is in address order, each point once. */
  lemma PendingListIsOrdered(cfg: Config, connect: bool, t0: int, es: seq<Event>)
    requires WellKeyed(cfg.defs) && cfg.station == StationGroup(cfg.defs)
    requires forall k | 0 <= k < |es| :: !es[k].Elsewhere?
    ensures var s := Run(cfg, Initial(connect, t0), es);
            var b := Review(cfg, s.history);
            && InAddressOrder(s.pending)
            && forall d :: d in s.pending <==>
                 b.begun && d !in b.seen && Lookup(cfg.defs, d.ca, d.ioa) == Some(d) && d.giGroups % 2 == 1
  {
    RunKeepsInv(cfg, Initial(connect, t0), es);
    EnumerateIsExact(cfg.defs, d => InStationGroup(d));
    MinusKeepsOrder(cfg.station, Review(cfg, Run(cfg, Initial(connect, t0), es).history).seen);
  }

  lemma {:induction false} MinusKeepsOrder(list: seq<Definition>, seen: set<Definition>)
    requires InAddressOrder(list)
    ensures InAddressOrder(Minus(list, seen))
  {
    if list != [] {
      MinusKeepsOrder(list[1..], seen);
      var rest := Minus(list[1..], seen);
      assert forall d | d in rest :: Before(list[0], d) by {
        forall d | d in rest ensures Before(list[0], d) {
          assert d in list[1..];
          var i :| 0 <= i < |list[1..]| && list[1..][i] == d;
          assert list[i + 1] == d;
        }
      }
      if list[0] !in seen { ConcatIsOrdered([list[0]], rest); }
    }
  }
}
