/** The active session of one connection: clock synchronization (section 6.7 of
    IEC 60870-5-5), general interrogation (section 6.6), and the client's view of it.
    Every operation of the source is a function from state to state that also extends a
    history of what happened. */
module Session {
  import opened Protocol
  import opened Exchange
  import opened Reception
  import Link

  datatype GiStatus = GiIdle | GiStarted | GiInProgress | GiFailed | GiFinished

  /** Why startNewInterrogationCycle was called. */
  datatype Why = First | Periodic | EndOfInit | OnRequest

  datatype Entry =
    | LinkOpened                                        // OPENED processed
    | StartDt                                           // STARTDT_CON processed
    | ClockSent(ca: int, at: int, periodic: bool)       // clock synchronization command sent
    | ClockConfirmed(at: int)                           // its positive confirmation accepted
    | ClockSeen                                         // any C_CS_NA_1 received
    | Began(why: Why, at: int)                          // an interrogation cycle started
    | Asked(ca: int, at: int)                           // cycle interrogation sent
    | NotAsked(ca: int)                                 // cycle interrogation refused by the library
    | Completed(at: int)                                // all-CA cycle marked done
    | GotActCon(negative: bool)                         // C_IC_NA_1 received, by cause
    | GotActTerm
    | GotOther
    | TimedOut(at: int)                                 // a request closed by its deadline
    | Response(at: int, answered: seq<Definition>)      // ASDU with cause 20 received
    | StatusIs(status: GiStatus)                        // gi_status event
    | Invalidated(points: seq<Definition>)              // invalid quality published
    | Raised                                            // the request flag rose

  datatype History = Nothing | Then(past: History, last: Entry)

  /** Settings, and the exchange configuration as it was imported. */
  datatype Config = Config(
    timeSyncPeriod: Seconds, timeSyncCa: int, defaultCa: int, caSize: int,
    giEnabled: bool, giAllCa: bool, giCycle: Seconds, giTime: Seconds,
    cas: seq<int>, defs: Definitions, station: seq<Definition>, triggers: set<(int, int)>)

  datatype Sync = Sync(synchronized: bool, commandSent: bool, firstDone: bool, next: int)

  type RequestState = n: int | 0 <= n <= 2

  /** 0 - no request open, 1 - waiting for ACT_CON, 2 - waiting for ACT_TERM. */
  datatype Gi = Gi(
    firstSent: bool, inProgress: bool, req: RequestState, reqSent: int, nextStart: int,
    endOfInit: bool, it: nat, requested: bool)

  datatype State = State(
    link: Link.Link, sync: Sync, gi: Gi, status: GiStatus, pending: seq<Definition>,
    clock: int, history: History)

  function Initial(connect: bool, t0: int): State {
    State(Link.Initial(connect), Sync(false, false, false, 0),
          Gi(false, false, 0, 0, 0, false, 0, false), GiIdle, [], t0, Nothing)
  }

  function Record(s: State, e: Entry): State {
    s.(history := Then(s.history, e))
  }

  function BroadcastCa(cfg: Config): int {
    if cfg.caSize == 1 then 0xff else 0xffff
  }

  function ClockCa(cfg: Config): int {
    if cfg.timeSyncCa != -1 then cfg.timeSyncCa
    else if cfg.defaultCa != -1 then cfg.defaultCa
    else BroadcastCa(cfg)
  }

  predicate SyncEnabled(cfg: Config) {
    cfg.timeSyncPeriod > 0
  }

  /** A cycle interrogation may leave only once the session's first clock synchronization
      was answered. */
  predicate GateOpen(cfg: Config, s: State) {
    !SyncEnabled(cfg) || s.sync.firstDone
  }

  predicate Live(status: GiStatus) {
    status == GiStarted || status == GiInProgress
  }

  // ---- client operations used by the session ----

  function UpdateStatus(s: State, status: GiStatus): State {
    if s.status == status then s else Record(s.(status := status), StatusIs(status))
  }

  /** updateQualityForDataObjectsNotReceivedInGIResponse with invalid quality. */
  function Invalidate(s: State): State {
    if s.pending == [] then s else Record(s, Invalidated(s.pending))
  }

  function Fail(s: State): State {
    Invalidate(UpdateStatus(s, GiFailed))
  }

  function RaiseFlag(s: State): State {
    if s.gi.requested then s else Record(s.(gi := s.gi.(requested := true)), Raised)
  }

  function LowerFlag(s: State): State {
    s.(gi := s.gi.(requested := false))
  }

  function Close(s: State): State {
    s.(link := Link.CloseHandle(s.link))
  }

  // ---- the periodic work of an active session ----

  /** `sent` is whether the library accepts the command. */
  function SyncTick(cfg: Config, s: State, now: int, sent: bool): State {
    var first := !s.sync.synchronized && !s.sync.firstDone && !s.sync.commandSent;
    var due := s.sync.synchronized && !s.sync.commandSent && now >= s.sync.next;
    var next := if due then After(now, cfg.timeSyncPeriod) else s.sync.next;
    if !SyncEnabled(cfg) || !(first || due) then s
    else if sent then
      Record(s.(sync := s.sync.(next := next, commandSent := true)), ClockSent(ClockCa(cfg), now, due))
    else s.(sync := s.sync.(next := next))
  }

  function StartBroadcast(cfg: Config, s: State, now: int, sent: bool): State {
    var s1 := UpdateStatus(s, GiStarted);
    if sent then
      Record(s1.(gi := s1.gi.(firstSent := true, inProgress := true, req := 1, reqSent := now,
                              nextStart := After(now, cfg.giCycle))),
             Asked(BroadcastCa(cfg), now))
    else Record(s1.(gi := s1.gi.(firstSent := true)), NotAsked(BroadcastCa(cfg)))
  }

  /** The iterator back at the first address; a cycle is in progress if there is one. */
  function Rewound(cfg: Config, s: State): State {
    s.(gi := s.gi.(it := 0, firstSent := true, inProgress := s.gi.inProgress || cfg.cas != []))
  }

  function StartAllCa(cfg: Config, s: State): State {
    if cfg.cas == [] then Rewound(cfg, s) else UpdateStatus(Rewound(cfg, s), GiStarted)
  }

  /** Every cycle starts from the configured station group. */
  function CycleBegun(cfg: Config, s: State, why: Why, now: int): State {
    Record(s.(gi := s.gi.(endOfInit := false), pending := cfg.station), Began(why, now))
  }

  function StartCycle(cfg: Config, s: State, why: Why, now: int, sent: bool): State {
    var s1 := CycleBegun(cfg, s, why, now);
    if cfg.giAllCa then StartAllCa(cfg, s1) else StartBroadcast(cfg, s1, now, sent)
  }

  predicate IsOverdue(cfg: Config, s: State, now: int) {
    s.gi.req != 0 && cfg.giTime != 0 && now > After(s.gi.reqSent, cfg.giTime)
  }

  function RequestExpired(cfg: Config, s: State, now: int): State {
    Record(s.(gi := s.gi.(req := 0, nextStart := After(now, cfg.giCycle))), TimedOut(now))
  }

  function TimeOut(cfg: Config, s: State, now: int): State {
    Close(Fail(RequestExpired(cfg, s, now)))
  }

  /** The next common address of an all-CA cycle; a refused send closes the link, and the
      iterator moves on either way. */
  function AskNext(cfg: Config, s: State, now: int, sent: bool): State
    requires s.gi.it < |cfg.cas|
  {
    var ca := cfg.cas[s.gi.it];
    var s1 := if sent then UpdateStatus(Record(s.(gi := s.gi.(req := 1, reqSent := now)), Asked(ca, now)), GiStarted)
              else Close(Fail(Record(s, NotAsked(ca))));
    s1.(gi := s1.gi.(it := s1.gi.it + 1))
  }

  function Progress(cfg: Config, s: State, now: int, sent: bool): State {
    if s.gi.req != 0 then (if IsOverdue(cfg, s, now) then TimeOut(cfg, s, now) else s)
    else if !cfg.giAllCa then s.(gi := s.gi.(inProgress := false))
    else if s.gi.it < |cfg.cas| then AskNext(cfg, s, now, sent)
    else Record(s.(gi := s.gi.(inProgress := false, nextStart := After(now, cfg.giCycle))), Completed(now))
  }

  /** A cycle that is due, or asked for by an end of initialization. */
  function RestartDue(cfg: Config, s: State, now: int, sent: bool): State {
    if cfg.giCycle > 0 && now > s.gi.nextStart then StartCycle(cfg, s, Periodic, now, sent)
    else if s.gi.endOfInit then StartCycle(cfg, s, EndOfInit, now, sent)
    else s
  }

  function ServeRequest(cfg: Config, s: State, now: int, sent: bool): State {
    if s.gi.requested && (s.status == GiFailed || s.status == GiFinished)
    then StartCycle(cfg, LowerFlag(s), OnRequest, now, sent)
    else s
  }

  function GiTick(cfg: Config, s: State, now: int, sent: bool): State {
    if !s.gi.firstSent then StartCycle(cfg, s, First, now, sent)
    else if s.gi.inProgress then Progress(cfg, s, now, sent)
    else ServeRequest(cfg, RestartDue(cfg, s, now, sent), now, sent)
  }

  /** executePeriodicTasks. */
  function Periodics(cfg: Config, s: State, now: int, clockSent: bool, giSent: bool): State {
    var s1 := SyncTick(cfg, s, now, clockSent);
    if GateOpen(cfg, s1) && cfg.giEnabled then GiTick(cfg, s1, now, giSent) else s1
  }

  /** What the library decides in one round of the connection thread. */
  datatype RoundInput = RoundInput(link: Link.RoundInput, clockSent: bool, giSent: bool)

  /** One round of _conThread. */
  function Round(cfg: Config, s: State, now: int, env: RoundInput): State {
    var s1 := if s.link.conState == Link.Active then Periodics(cfg, s, now, env.clockSent, env.giSent)
              else s.(link := Link.Switch(s.link, now, env.link.dialFails, env.link.created));
    s1.(link := Link.ServeDisconnect(s1.link, env.link.dropFails))
  }

  // ---- received ASDUs ----

  /** An interrogation response: it keeps a running request alive, moves STARTED to IN
      PROGRESS and takes the answered points off the pending list. */
  function TakeResponse(s: State, answered: seq<Definition>, now: int): State {
    UpdateStatus(
      Record(s.(gi := if s.gi.req == 2 then s.gi.(reqSent := now) else s.gi,
                pending := WithoutAll(s.pending, answered)),
             Response(now, answered)),
      if s.status == GiStarted then GiInProgress else s.status)
  }

  /** handleASDU, as far as it concerns the interrogation; `isActive` is whether this
      connection is the client's active one, whose flag trigger points raise. */
  function HandleAsdu(cfg: Config, s: State, a: Asdu, now: int, isActive: bool): State {
    var s1 := if IsInterrogationResponse(a) then TakeResponse(s, Answered(cfg.defs, a, |a.objects|), now) else s;
    if isActive && Triggers(cfg.defs, cfg.triggers, a, |a.objects|) then RaiseFlag(s1) else s1
  }

  /** An answer to the open clock synchronization command, if there is one. */
  function ClockAnswered(cfg: Config, s: State, a: Asdu, now: int): State {
    if !s.sync.commandSent then s
    else if a.cot == COT_ACTIVATION_CON && !a.negative then
      Record(s.(sync := s.sync.(synchronized := true, next := After(now, cfg.timeSyncPeriod), commandSent := false)),
             ClockConfirmed(now))
    else if a.cot == COT_UNKNOWN_TYPE_ID then s.(sync := s.sync.(synchronized := true))
    else s
  }

  function ClockReply(cfg: Config, s: State, a: Asdu, now: int): State {
    var s1 := ClockAnswered(cfg, s, a, now);
    Record(s1.(sync := s1.sync.(firstDone := true)), ClockSeen)
  }

  function ActCon(s: State, negative: bool): State {
    var s1 := Record(s, GotActCon(negative));
    if s.gi.req != 1 then s1
    else
      var s2 := s1.(gi := s1.gi.(req := 2));
      if negative then Fail(s2) else UpdateStatus(s2, GiInProgress)
  }

  function ActTerm(s: State): State {
    var s1 := Record(s, GotActTerm);
    if s.gi.req != 2 then s1
    else
      var s2 := s1.(gi := s1.gi.(req := 0));
      if Live(s.status) then Invalidate(UpdateStatus(s2, GiFinished)) else s2
  }

  function OtherCause(s: State): State {
    var s1 := Record(s, GotOther);
    if Live(s.status) then
      var s2 := Fail(s1);
      s2.(link := Link.Disconnect(s2.link))
    else s1
  }

  function GiReply(s: State, a: Asdu): State {
    if a.cot == COT_ACTIVATION_CON then ActCon(s, a.negative)
    else if a.cot == COT_ACTIVATION_TERMINATION then ActTerm(s)
    else OtherCause(s)
  }

  /** The types that handleASDU leaves to the connection. */
  function ControlReply(cfg: Config, s: State, a: Asdu, now: int): State {
    if a.typeId == M_EI_NA_1 then s.(gi := s.gi.(endOfInit := true))
    else if a.typeId == C_CS_NA_1 then ClockReply(cfg, s, a, now)
    else if a.typeId == C_IC_NA_1 then GiReply(s, a)
    else s
  }

  /** m_asduReceivedHandler. */
  function Receive(cfg: Config, s: State, a: Asdu, now: int, isActive: bool): State {
    var s1 := HandleAsdu(cfg, s, a, now, isActive);
    if IsHandled(a, |a.objects|) then s1 else ControlReply(cfg, s1, a, now)
  }

  function SessionOpened(s: State): State {
    Record(s.(link := Link.Opened(s.link)), LinkOpened)
  }

  /** The STARTDT_CON branch of the connection handler: the request state and the open
      clock synchronization command are not reset. */
  function SessionStarted(s: State, now: int): State {
    Record(s.(sync := s.sync.(next := now, synchronized := false, firstDone := false),
              gi := s.gi.(firstSent := false),
              link := Link.StartDtConfirmed(s.link)),
           StartDt)
  }

  // ---- runs ----

  datatype Event =
    | ThreadRound(now: int, env: RoundInput)
    | ConnectionOpened(now: int)
    | ConnectionClosed(now: int)
    | StartDtConReceived(now: int)
    | Received(now: int, asdu: Asdu, isActive: bool)
    | Activated(now: int)
    | ConnectRequested(now: int)
    | DisconnectRequested(now: int)
    | GiRequested(now: int)
    | Elsewhere(now: int, status: GiStatus, pending: seq<Definition>)

  /** Library events belong to the current handle; ASDUs arrive on an open one. `Elsewhere`
      stands for a step of another connection of the same client: they share the GI status
      and the pending list, but change them only while this connection is not active. */
  predicate Enabled(s: State, e: Event) {
    && s.clock <= e.now < 0x8000_0000_0000_0000
    && match e
       case ConnectionOpened(_) => s.link.handle.Dialing?
       case ConnectionClosed(_) => s.link.handle.Dialing? || s.link.handle.Open?
       case StartDtConReceived(_) => s.link.handle == Link.Open(true)
       case Received(_, _, _) => s.link.handle.Open?
       case Elsewhere(_, status, pending) =>
         s.link.conState != Link.Active || (status == s.status && pending == s.pending)
       case _ => true
  }

  function Effect(cfg: Config, s: State, e: Event): State {
    match e
    case ThreadRound(now, env) => Round(cfg, s, now, env)
    case ConnectionOpened(_) => SessionOpened(s)
    case ConnectionClosed(_) => s.(link := Link.PeerClosed(s.link))
    case StartDtConReceived(now) => SessionStarted(s, now)
    case Received(now, a, isActive) => Receive(cfg, s, a, now, isActive)
    case Activated(_) => s.(link := Link.Activate(s.link))
    case ConnectRequested(_) => s.(link := Link.Connect(s.link))
    case DisconnectRequested(_) => s.(link := Link.Disconnect(s.link))
    case GiRequested(_) => RaiseFlag(s)
    case Elsewhere(_, status, pending) => s.(status := status, pending := pending)
  }

  function Step(cfg: Config, s: State, e: Event): State {
    Effect(cfg, s, e).(clock := e.now)
  }

  function Run(cfg: Config, s: State, es: seq<Event>): State
    decreases es
  {
    if es == [] then s else Run(cfg, Step(cfg, s, es[0]), es[1..])
  }

  predicate Feasible(cfg: Config, s: State, es: seq<Event>)
    decreases es
  {
    es == [] || (Enabled(s, es[0]) && Feasible(cfg, Step(cfg, s, es[0]), es[1..]))
  }
}
