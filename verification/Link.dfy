/** One connection of the client, without what happens inside an active session: its
    states, its flags and the library handle it owns (STARTDT of section 5.3 of
    IEC 60870-5-104). */
module Link {

  const RECONNECT_DELAY := 10000

  datatype ConState = Idle | Connecting | Inactive | Active | Closed | WaitForReconnect | FatalError

  /** `m_connection` and what the library knows about it. A closed handle stays allocated
      until the connection thread destroys it. */
  datatype Handle = NoHandle | Dialing | Open(startDtSent: bool) | Dead

  /** `created` and `destroyed` count library handles; the other fields are the source's. */
  datatype Link = Link(
    conState: ConState, connected: bool, connecting: bool,
    connect: bool, disconnect: bool, startDtSent: bool,
    handle: Handle, delayExpiration: int,
    created: nat, destroyed: nat)

  function Initial(connect: bool): Link {
    Link(Idle, false, false, connect, false, false, NoHandle, 0, 0, 0)
  }

  // ---- callbacks and flags ----

  /** The CLOSED branch of the connection handler. */
  function Lost(l: Link): Link {
    l.(conState := Closed, connected := false, connecting := false)
  }

  function Opened(l: Link): Link {
    l.(conState := Inactive, connected := true, connecting := false, handle := Open(false))
  }

  function PeerClosed(l: Link): Link {
    Lost(l).(handle := Dead)
  }

  function StartDtConfirmed(l: Link): Link {
    l.(conState := Active)
  }

  function Activate(l: Link): Link {
    if l.conState == Inactive then
      l.(conState := Active, startDtSent := true,
         handle := if l.handle.NoHandle? then NoHandle else Open(true))
    else l
  }

  function Connect(l: Link): Link {
    l.(disconnect := false, connect := true)
  }

  function Disconnect(l: Link): Link {
    l.(disconnect := true, connect := false)
  }

  predicate IsDisconnected(l: Link) {
    !l.connecting && !l.connected
  }

  // ---- the connection thread ----

  /** closeConnection: the library reports CLOSED before it returns, if the link was open. */
  function CloseHandle(l: Link): Link {
    if l.handle.Open? then PeerClosed(l) else l
  }

  /** Destroying a handle: an open one reports CLOSED; a dialing one may report it. */
  function Destroy(l: Link, dialFails: bool): Link {
    if l.handle.NoHandle? then l
    else
      var gone := l.(handle := NoHandle, destroyed := l.destroyed + 1);
      if l.handle.Open? || (l.handle.Dialing? && dialFails) then Lost(gone) else gone
  }

  /** State IDLE with a connect request: drop the old handle, create and dial a new one.
      `created` is whether the library could create it. */
  function Dial(l: Link, now: int, dialFails: bool, created: bool): Link {
    var l0 := Destroy(l.(startDtSent := false), dialFails);
    if created then
      l0.(conState := Connecting, connecting := true, delayExpiration := now + RECONNECT_DELAY,
          handle := Dialing, created := l0.created + 1)
    else l0.(conState := FatalError)
  }

  /** The state switch of one thread round, except the work of an active session. */
  function Switch(l: Link, now: int, dialFails: bool, created: bool): Link {
    match l.conState
    case Idle => if l.connect then Dial(l, now, dialFails, created) else l
    case Connecting => if now > l.delayExpiration then l.(conState := Idle) else l
    case Closed => l.(delayExpiration := now + RECONNECT_DELAY, conState := WaitForReconnect)
    case WaitForReconnect => if now >= l.delayExpiration then l.(conState := Idle) else l
    case _ => l
  }

  function ServeDisconnect(l: Link, dialFails: bool): Link {
    if l.disconnect
    then Destroy(l.(connected := false, connecting := false, disconnect := false), dialFails)
    else l
  }

  /** Only library events and the supervisor move a link into INACTIVE or ACTIVE. */
  lemma RoundEntersNoSession(l: Link, now: int, dialFails: bool, created: bool)
    ensures Switch(l, now, dialFails, created).conState in {Inactive, Active} ==>
              Switch(l, now, dialFails, created) == l
  {
  }

  lemma DisconnectEntersNoSession(l: Link, dialFails: bool)
    ensures ServeDisconnect(l, dialFails).conState in {l.conState, Closed}
  {
  }

  /** One round; `close` is whether the active session closed the handle in it. */
  function Round(l: Link, now: int, env: RoundInput, close: bool): Link {
    ServeDisconnect(
      if l.conState == Active then (if close then CloseHandle(l) else l)
      else Switch(l, now, env.dialFails, env.created),
      env.dropFails)
  }

  /** What the library decides during a round: whether destroying a dialing handle reports
      CLOSED (for either of two handles), and whether a new handle can be created. */
  datatype RoundInput = RoundInput(dialFails: bool, dropFails: bool, created: bool)

  function Terminate(l: Link, dialFails: bool): Link {
    Destroy(l, dialFails)
  }

  // ---- runs ----

  datatype Event =
    | ThreadRound(now: int, env: RoundInput, close: bool)
    | ConnectionOpened
    | ConnectionClosed
    | StartDtConReceived
    | Activated
    | ConnectRequested
    | DisconnectRequested

  /** Library events belong to the current handle; STARTDT is confirmed only after it was sent. */
  predicate Enabled(l: Link, e: Event) {
    match e
    case ConnectionOpened => l.handle.Dialing?
    case ConnectionClosed => l.handle.Dialing? || l.handle.Open?
    case StartDtConReceived => l.handle == Open(true)
    case _ => true
  }

  function Step(l: Link, e: Event): Link {
    match e
    case ThreadRound(now, env, close) => Round(l, now, env, close)
    case ConnectionOpened => Opened(l)
    case ConnectionClosed => PeerClosed(l)
    case StartDtConReceived => StartDtConfirmed(l)
    case Activated => Activate(l)
    case ConnectRequested => Connect(l)
    case DisconnectRequested => Disconnect(l)
  }

  function Run(l: Link, es: seq<Event>): Link
    decreases es
  {
    if es == [] then l else Run(Step(l, es[0]), es[1..])
  }

  predicate Feasible(l: Link, es: seq<Event>)
    decreases es
  {
    es == [] || (Enabled(l, es[0]) && Feasible(Step(l, es[0]), es[1..]))
  }

  /** Exactly one live handle while `m_connection` is set; the flags agree with the state
      and with the handle. */
  predicate Inv(l: Link) {
    && l.created == l.destroyed + (if l.handle.NoHandle? then 0 else 1)
    && (l.connected <==> l.handle.Open?)
    && (l.handle.Dialing? ==> l.conState == Connecting || l.conState == Idle)
    && (l.conState == Inactive <==> l.handle == Open(false))
    && (l.conState == Active <==> l.handle == Open(true))
    && !(l.connected && l.connecting)
  }

  lemma SwitchKeepsInv(l: Link, now: int, dialFails: bool, created: bool)
    requires Inv(l) && l.conState != Active
    ensures Inv(Switch(l, now, dialFails, created))
  {
  }

  lemma CloseKeepsInv(l: Link)
    requires Inv(l)
    ensures Inv(CloseHandle(l))
  {
  }

  lemma ServeDisconnectKeepsInv(l: Link, dialFails: bool)
    requires Inv(l)
    ensures Inv(ServeDisconnect(l, dialFails))
  {
  }

  lemma StepKeepsInv(l: Link, e: Event)
    requires Inv(l) && Enabled(l, e)
    ensures Inv(Step(l, e))
  {
    if e.ThreadRound? {
      if l.conState == Active {
        CloseKeepsInv(l);
        ServeDisconnectKeepsInv(if e.close then CloseHandle(l) else l, e.env.dropFails);
      } else {
        SwitchKeepsInv(l, e.now, e.env.dialFails, e.env.created);
        ServeDisconnectKeepsInv(Switch(l, e.now, e.env.dialFails, e.env.created), e.env.dropFails);
      }
    }
  }

  lemma {:induction false} RunKeepsInv(l: Link, es: seq<Event>)
    requires Inv(l) && Feasible(l, es)
    ensures Inv(Run(l, es))
    decreases es
  {
    if es != [] {
      StepKeepsInv(l, es[0]);
      RunKeepsInv(Step(l, es[0]), es[1..]);
    }
  }

  /** Handle conservation in every run: handles created = handles destroyed + (1 if one is
      owned), hence at most one is alive; connected means INACTIVE or ACTIVE with an open
      handle; connected and connecting exclude each other; an active session always has a
      handle to send on; and when the thread ends every handle has been destroyed. */
  lemma HandlesAreConserved(connect: bool, es: seq<Event>, dialFails: bool)
    requires Feasible(Initial(connect), es)
    ensures var l := Run(Initial(connect), es);
            && l.created == l.destroyed + (if l.handle.NoHandle? then 0 else 1)
            && 0 <= l.created - l.destroyed <= 1
            && (l.connected <==> l.conState == Inactive || l.conState == Active)
            && (l.conState == Active ==> !l.handle.NoHandle?)
            && !(l.connected && l.connecting)
            && Terminate(l, dialFails).created == Terminate(l, dialFails).destroyed
            && !Terminate(l, dialFails).connected
  {
    RunKeepsInv(Initial(connect), es);
  }

  // ---- disconnecting and redialing ----

  /** A disconnect request is served by the next round, whatever the state: no handle is left,
      every handle was destroyed, and the request is done. */
  lemma DisconnectEndsTheConnection(l: Link, now: int, env: RoundInput, close: bool)
    requires Inv(l) && l.disconnect
    ensures var t := Round(l, now, env, close);
            && t.handle == NoHandle && t.created == t.destroyed
            && !t.connected && !t.connecting && !t.disconnect
  {
    hide Switch, CloseHandle, ServeDisconnect, Inv;
    StateKeepsRequest(l, now, env, close);
    if l.conState == Active {
      CloseKeepsInv(l);
      DroppingDrops(if close then CloseHandle(l) else l, env.dropFails);
    } else {
      SwitchKeepsInv(l, now, env.dialFails, env.created);
      DroppingDrops(Switch(l, now, env.dialFails, env.created), env.dropFails);
    }
  }

  lemma StateKeepsRequest(l: Link, now: int, env: RoundInput, close: bool)
    ensures Switch(l, now, env.dialFails, env.created).disconnect == l.disconnect
    ensures CloseHandle(l).disconnect == l.disconnect
  {
  }

  lemma DroppingDrops(l: Link, dropFails: bool)
    requires Inv(l) && l.disconnect
    ensures var t := ServeDisconnect(l, dropFails);
            && t.handle == NoHandle && t.created == t.destroyed
            && !t.connected && !t.connecting && !t.disconnect
  {
  }

  /** Without a request nothing is dropped. */
  lemma NothingIsDroppedUnasked(l: Link, now: int, env: RoundInput, close: bool)
    requires !l.disconnect
    ensures Round(l, now, env, close) ==
            if l.conState != Active then Switch(l, now, env.dialFails, env.created)
            else if close then CloseHandle(l) else l
  {
  }

  /** A link that was lost and is wanted is dialed again by the first round but one that comes
      ten seconds or more after the round that noticed the loss, and until then nothing is. */
  lemma LostLinkIsRedialed(l: Link, noticed: int, again: int, later: int, env: RoundInput)
    requires Inv(l) && l.conState == Closed && l.connect && !l.disconnect && env.created
    ensures var waiting := Round(l, noticed, env, false);
            var t := Round(waiting, again, env, false);
            var u := Round(t, later, env, false);
            && waiting.handle == l.handle && waiting.created == l.created
            && (if again < noticed + 10000 then t == waiting
                else t.handle == l.handle && u.handle == Dialing && u.connecting && u.created == l.created + 1
                     && u.destroyed == u.created - 1)
  {
  }

  /** A dial that stays unanswered is repeated, on a new handle, by the first round but one
      that comes more than ten seconds after it, and not before. */
  lemma SilentDialIsRepeated(l: Link, dialed: int, again: int, later: int, env: RoundInput)
    requires Inv(l) && l.conState == Idle && l.connect && !l.disconnect && env.created
    ensures var dialing := Round(l, dialed, env, false);
            var t := Round(dialing, again, env, false);
            var u := Round(t, later, env, false);
            && dialing.handle == Dialing && dialing.connecting && dialing.created == l.created + 1
            && (if again <= dialed + 10000 then t == dialing
                else t.handle == Dialing && u.handle == Dialing && u.connecting
                     && u.created == dialing.created + 1 && u.destroyed == dialing.destroyed + 1)
  {
  }

  /** What a served disconnect request leaves: CLOSED if the handle was open, or was being
      dialed and reports CLOSED when it is destroyed; a dial that does not report it stays
      CONNECTING, without a handle, until its time is over. */
  lemma DisconnectedLinkIsClosed(l: Link, now: int, env: RoundInput)
    requires Inv(l) && l.disconnect
    ensures var t := Round(l, now, env, false);
            && (l.handle.Open? ==> t.conState == Closed)
            && (l.handle.Dialing? && l.conState == Connecting && now <= l.delayExpiration ==>
                  t.conState == if env.dropFails then Closed else Connecting)
  {
  }

  /** A round creates a handle if and only if the link is idle, a connection is wanted and the
      library can create it. */
  lemma HandlesAreCreatedExactly(l: Link, now: int, env: RoundInput, close: bool)
    ensures Round(l, now, env, close).created ==
            l.created + if l.conState == Idle && l.connect && env.created then 1 else 0
  {
  }

  predicate IsFatal(l: Link) {
    l.conState == FatalError && l.handle == NoHandle
  }

  lemma {:induction false} FatalIsFinal(l: Link, es: seq<Event>)
    requires IsFatal(l) && Feasible(l, es)
    ensures IsFatal(Run(l, es)) && Run(l, es).created == l.created
    decreases es
  {
    if es != [] { FatalIsFinal(Step(l, es[0]), es[1..]); }
  }

  /** If the library cannot create a handle the connection is given up for good: no run dials,
      opens or activates it any more. */
  lemma FailedCreationIsFinal(l: Link, now: int, env: RoundInput, es: seq<Event>)
    requires l.conState == Idle && l.connect && !env.created
    requires Feasible(Round(l, now, env, false), es)
    ensures var t := Run(Round(l, now, env, false), es);
            t.conState == FatalError && t.handle == NoHandle && t.created == l.created
  {
    FatalIsFinal(Round(l, now, env, false), es);
    hide Run, Feasible;
  }
}
