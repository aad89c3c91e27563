/** Lock discipline of the running client. Each thread kind runs short programs of lock
    operations; the model takes the programs from the source, lets any number of
    threads interleave them, and shows that waiting is never circular. */
module Locks {

  /** `m_activeConnectionMtx`, `m_outstandingCommandsMtx`, and one `m_conLock` per connection. */
  datatype Lock = ActiveConnection | OutstandingCommands | ConLock(con: nat)

  /** `Await(c)` stands for destroying or closing the library handle of connection `c`,
      which returns only when the library's callback thread for `c` is idle. */
  datatype Action = Acquire(l: Lock) | Release(l: Lock) | Await(con: nat)

  datatype ThreadId = Monitor | Caller(n: nat) | Worker(con: nat) | Callback(con: nat)

  datatype Thread = Thread(held: set<Lock>, rest: seq<Action>)

  type System = map<ThreadId, Thread>

  // ---- the programs of the source ----

  function Critical(l: Lock): seq<Action> {
    [Acquire(l), Release(l)]
  }

  function Repeat(p: seq<Action>, n: nat): seq<Action> {
    if n == 0 then [] else p + Repeat(p, n - 1)
  }

  function When(b: bool, p: seq<Action>): seq<Action> {
    if b then p else []
  }

  /** One round of _monitoringThread; activating a link takes its lock. */
  function MonitorRound(activates: bool, con: nat): seq<Action> {
    [Acquire(ActiveConnection)] + When(activates, Critical(ConLock(con))) + [Release(ActiveConnection)]
    + Critical(OutstandingCommands)
  }

  /** send*Command: queue the command, then send it; a failed send takes it out again. */
  function SendCommand(linked: bool, con: nat, failed: bool): seq<Action> {
    Critical(ActiveConnection)
    + [Acquire(ActiveConnection)] + When(linked, Critical(ConLock(con)))
    + When(failed, Critical(OutstandingCommands)) + [Release(ActiveConnection)]
  }

  function SendInterrogation(linked: bool, con: nat): seq<Action> {
    [Acquire(ActiveConnection)] + When(linked, Critical(ConLock(con))) + [Release(ActiveConnection)]
  }

  /** One round of _conThread in state IDLE: drop the old handle, create a new one. */
  function ConnectRound(con: nat, hadHandle: bool): seq<Action> {
    Critical(ConLock(con)) + When(hadHandle, [Await(con)]) + Critical(ConLock(con))
  }

  /** One round in state CONNECTED_ACTIVE: clock synchronization, interrogations, close. */
  function ActiveRound(con: nat, sync: bool, sends: nat, close: bool): seq<Action> {
    When(sync, Critical(ConLock(con))) + Repeat(Critical(ConLock(con)), sends) + When(close, [Await(con)])
  }

  /** The end of a round after a disconnect request; also the end of the thread. */
  function DropHandle(con: nat, hadHandle: bool): seq<Action> {
    Critical(ConLock(con)) + When(hadHandle, [Await(con)])
  }

  /** A received ASDU: per object the lookup and the removal of a command, then clock sync. */
  function AsduCallback(con: nat, tableAccesses: nat, clockSync: bool): seq<Action> {
    Repeat(Critical(OutstandingCommands), tableAccesses) + When(clockSync, Critical(ConLock(con)))
  }

  ghost predicate IsProgram(t: ThreadId, p: seq<Action>) {
    match t
    case Monitor => exists activates, con :: p == MonitorRound(activates, con)
    case Caller(_) =>
      || (exists linked, con, failed :: p == SendCommand(linked, con, failed))
      || (exists linked, con :: p == SendInterrogation(linked, con))
    case Worker(con) =>
      || (exists hadHandle :: p == ConnectRound(con, hadHandle))
      || (exists sync, sends, close :: p == ActiveRound(con, sync, sends, close))
      || (exists hadHandle :: p == DropHandle(con, hadHandle))
    case Callback(con) =>
      || p == Critical(ConLock(con))
      || (exists tableAccesses, clockSync :: p == AsduCallback(con, tableAccesses, clockSync))
  }

  // ---- the discipline ----

  /** The order: the active-connection mutex first and alone; a leaf lock at most under it;
      no lock twice; nothing held across a wait for the callback thread or at the end. */
  predicate Disciplined(held: set<Lock>, rest: seq<Action>)
    decreases rest
  {
    if rest == [] then held == {}
    else match rest[0]
      case Acquire(l) =>
        && (if l == ActiveConnection then held == {} else held <= {ActiveConnection})
        && Disciplined(held + {l}, rest[1..])
      case Release(l) => l in held && Disciplined(held - {l}, rest[1..])
      case Await(_) => held == {} && Disciplined(held, rest[1..])
  }

  /** Only leaf locks, and no wait for a callback. */
  predicate LeafOnly(p: seq<Action>) {
    forall i | 0 <= i < |p| :: !p[i].Await? && p[i] != Acquire(ActiveConnection)
  }

  /** Programs that take and return their locks compose. */
  lemma {:induction false} DisciplineComposes(held: set<Lock>, p: seq<Action>, q: seq<Action>)
    requires Disciplined(held, p) && Disciplined({}, q)
    ensures Disciplined(held, p + q)
    decreases p
  {
    if p == [] {
      assert p + q == q;
    } else {
      assert (p + q)[1..] == p[1..] + q;
      match p[0]
      case Acquire(l) => DisciplineComposes(held + {l}, p[1..], q);
      case Release(l) => DisciplineComposes(held - {l}, p[1..], q);
      case Await(_) => DisciplineComposes(held, p[1..], q);
    }
  }

  /** Leaf sections may run inside the outer one. */
  lemma {:induction false} LeafSectionsNest(p: seq<Action>, held: set<Lock>, q: seq<Action>)
    requires Disciplined(held, p) && LeafOnly(p) && ActiveConnection !in held
    requires Disciplined({ActiveConnection}, q)
    ensures Disciplined(held + {ActiveConnection}, p + q)
    decreases p
  {
    if p == [] {
      assert p + q == q;
      assert held + {ActiveConnection} == {ActiveConnection};
    } else {
      assert (p + q)[1..] == p[1..] + q;
      match p[0]
      case Acquire(l) =>
        LeafSectionsNest(p[1..], held + {l}, q);
        assert held == {} by { assert held <= {ActiveConnection}; }
        assert held + {ActiveConnection} + {l} == held + {l} + {ActiveConnection};
      case Release(l) =>
        LeafSectionsNest(p[1..], held - {l}, q);
        assert held + {ActiveConnection} - {l} == held - {l} + {ActiveConnection};
      case Await(_) =>
    }
  }

  lemma CriticalIsDisciplined(l: Lock)
    ensures Disciplined({}, Critical(l))
  {
    assert Critical(l)[1..] == [Release(l)];
    assert {} + {l} - {l} == {};
    assert Disciplined({} + {l}, [Release(l)]) by { assert [Release(l)][1..] == []; }
  }

  lemma {:induction false} RepeatIsDisciplined(l: Lock, n: nat)
    ensures Disciplined({}, Repeat(Critical(l), n))
    ensures l != ActiveConnection ==> LeafOnly(Repeat(Critical(l), n))
  {
    if n > 0 {
      CriticalIsDisciplined(l);
      RepeatIsDisciplined(l, n - 1);
      DisciplineComposes({}, Critical(l), Repeat(Critical(l), n - 1));
    }
  }

  lemma AwaitIsDisciplined(con: nat)
    ensures Disciplined({}, [Await(con)])
  {
    assert [Await(con)][1..] == [];
  }

  /** A section of the active-connection mutex around leaf sections. */
  lemma OuterSection(inner: seq<Action>)
    requires Disciplined({}, inner) && LeafOnly(inner)
    ensures Disciplined({}, [Acquire(ActiveConnection)] + inner + [Release(ActiveConnection)])
  {
    var q := [Release(ActiveConnection)];
    assert q[1..] == [] && {ActiveConnection} - {ActiveConnection} == {};
    LeafSectionsNest(inner, {}, q);
    assert {} + {ActiveConnection} == {ActiveConnection};
    var p := [Acquire(ActiveConnection)] + inner + q;
    assert p[1..] == inner + q;
  }

  lemma ProgramsAreDisciplined(t: ThreadId, p: seq<Action>)
    requires IsProgram(t, p)
    ensures Disciplined({}, p)
    ensures t.Callback? ==> LeafOnly(p)
  {
    CriticalIsDisciplined(ActiveConnection);
    CriticalIsDisciplined(OutstandingCommands);
    match t
    case Monitor =>
      var activates, con :| p == MonitorRound(activates, con);
      CriticalIsDisciplined(ConLock(con));
      OuterSection(When(activates, Critical(ConLock(con))));
      DisciplineComposes({}, [Acquire(ActiveConnection)] + When(activates, Critical(ConLock(con)))
                             + [Release(ActiveConnection)], Critical(OutstandingCommands));
    case Caller(_) => CallersAreDisciplined(t, p);
    case Worker(con) => WorkersAreDisciplined(t, p);
    case Callback(con) =>
      CriticalIsDisciplined(ConLock(con));
      if p != Critical(ConLock(con)) {
        var tableAccesses, clockSync :| p == AsduCallback(con, tableAccesses, clockSync);
        RepeatIsDisciplined(OutstandingCommands, tableAccesses);
        DisciplineComposes({}, Repeat(Critical(OutstandingCommands), tableAccesses),
                           When(clockSync, Critical(ConLock(con))));
      }
  }

  lemma CallersAreDisciplined(t: ThreadId, p: seq<Action>)
    requires t.Caller? && IsProgram(t, p)
    ensures Disciplined({}, p)
  {
    if exists linked, con :: p == SendInterrogation(linked, con) {
      var linked, con :| p == SendInterrogation(linked, con);
      CriticalIsDisciplined(ConLock(con));
      OuterSection(When(linked, Critical(ConLock(con))));
    } else {
      var linked, con, failed :| p == SendCommand(linked, con, failed);
      SendCommandIsDisciplined(When(linked, Critical(ConLock(con))), When(failed, Critical(OutstandingCommands)), con);
    }
  }

  lemma SendCommandIsDisciplined(send: seq<Action>, withdraw: seq<Action>, con: nat)
    requires send == [] || send == Critical(ConLock(con))
    requires withdraw == [] || withdraw == Critical(OutstandingCommands)
    ensures Disciplined({}, Critical(ActiveConnection)
              + [Acquire(ActiveConnection)] + send + withdraw + [Release(ActiveConnection)])
  {
    CriticalIsDisciplined(ConLock(con));
    CriticalIsDisciplined(ActiveConnection);
    CriticalIsDisciplined(OutstandingCommands);
    DisciplineComposes({}, send, withdraw);
    OuterSection(send + withdraw);
    var section := [Acquire(ActiveConnection)] + (send + withdraw) + [Release(ActiveConnection)];
    DisciplineComposes({}, Critical(ActiveConnection), section);
    assert Critical(ActiveConnection) + [Acquire(ActiveConnection)] + send + withdraw + [Release(ActiveConnection)]
        == Critical(ActiveConnection) + section;
  }

  lemma WorkersAreDisciplined(t: ThreadId, p: seq<Action>)
    requires t.Worker? && IsProgram(t, p)
    ensures Disciplined({}, p)
  {
    var con := t.con;
    var section := Critical(ConLock(con));
    CriticalIsDisciplined(ConLock(con));
    AwaitIsDisciplined(con);
    if exists hadHandle :: p == ConnectRound(con, hadHandle) {
      var hadHandle :| p == ConnectRound(con, hadHandle);
      DisciplineComposes({}, section, When(hadHandle, [Await(con)]));
      DisciplineComposes({}, section + When(hadHandle, [Await(con)]), section);
    } else if exists hadHandle :: p == DropHandle(con, hadHandle) {
      var hadHandle :| p == DropHandle(con, hadHandle);
      DisciplineComposes({}, section, When(hadHandle, [Await(con)]));
    } else {
      var sync, sends, close :| p == ActiveRound(con, sync, sends, close);
      RepeatIsDisciplined(ConLock(con), sends);
      DisciplineComposes({}, When(sync, section), Repeat(section, sends));
      DisciplineComposes({}, When(sync, section) + Repeat(section, sends), When(close, [Await(con)]));
    }
  }

  // ---- interleavings ----

  predicate Idle(s: System, t: ThreadId) {
    t !in s || s[t].rest == []
  }

  /** `t` can take its next action. */
  ghost predicate CanStep(s: System, t: ThreadId) {
    && !Idle(s, t)
    && match s[t].rest[0]
       case Acquire(l) => forall u | u in s :: l !in s[u].held
       case Release(_) => true
       case Await(con) => Idle(s, Callback(con))
  }

  function Advance(s: System, t: ThreadId): System
    requires !Idle(s, t)
  {
    var th := s[t];
    var held := match th.rest[0]
      case Acquire(l) => th.held + {l}
      case Release(l) => th.held - {l}
      case Await(_) => th.held;
    s[t := Thread(held, th.rest[1..])]
  }

  datatype Event = Begin(t: ThreadId, program: seq<Action>) | Proceed(t: ThreadId)

  ghost predicate Enabled(s: System, e: Event) {
    match e
    case Begin(t, p) => Idle(s, t) && IsProgram(t, p)
    case Proceed(t) => CanStep(s, t)
  }

  function Next(s: System, e: Event): System
    requires e.Proceed? ==> !Idle(s, e.t)
  {
    match e
    case Begin(t, p) => s[t := Thread({}, p)]
    case Proceed(t) => Advance(s, t)
  }

  ghost predicate Inv(s: System) {
    && (forall t | t in s :: Disciplined(s[t].held, s[t].rest))
    && (forall t | t in s && t.Callback? :: LeafOnly(s[t].rest))
    && (forall t, u | t in s && u in s && t != u :: s[t].held !! s[u].held)
  }

  lemma StepKeepsInv(s: System, e: Event)
    requires Inv(s) && Enabled(s, e)
    ensures Inv(Next(s, e))
  {
    if e.Begin? { ProgramsAreDisciplined(e.t, e.program); }
  }

  /** `t` waits for a lock that `u` holds, or for the callback `u` to finish. */
  ghost predicate WaitsFor(s: System, t: ThreadId, u: ThreadId) {
    && !Idle(s, t) && u in s
    && match s[t].rest[0]
       case Acquire(l) => l in s[u].held
       case Release(_) => false
       case Await(con) => u == Callback(con) && !Idle(s, u)
  }

  /** How deep a thread can be in a chain of waits. */
  function Rank(s: System, t: ThreadId): nat {
    if Idle(s, t) then 0
    else match s[t].rest[0]
      case Acquire(l) => if l == ActiveConnection then 2 else 1
      case Release(_) => 0
      case Await(_) => 2
  }

  lemma WaitingDescends(s: System, t: ThreadId, u: ThreadId)
    requires Inv(s) && WaitsFor(s, t, u)
    ensures Rank(s, u) < Rank(s, t)
    ensures !Idle(s, u)
  {
    assert Disciplined(s[t].held, s[t].rest) && Disciplined(s[u].held, s[u].rest);
  }

  ghost predicate Chain(s: System, ts: seq<ThreadId>) {
    forall i | 0 <= i < |ts| - 1 :: WaitsFor(s, ts[i], ts[i + 1])
  }

  lemma {:induction false} ChainDescends(s: System, ts: seq<ThreadId>)
    requires Inv(s) && ts != [] && Chain(s, ts)
    ensures Rank(s, ts[|ts| - 1]) + |ts| - 1 <= Rank(s, ts[0])
  {
    if |ts| > 1 {
      ChainDescends(s, ts[..|ts| - 1]);
      WaitingDescends(s, ts[|ts| - 2], ts[|ts| - 1]);
    }
  }

  ghost predicate Feasible(s: System, es: seq<Event>)
    decreases es
  {
    es == [] || (Enabled(s, es[0]) && Feasible(Next(s, es[0]), es[1..]))
  }

  ghost function Run(s: System, es: seq<Event>): System
    requires Feasible(s, es)
    decreases es
  {
    if es == [] then s else Run(Next(s, es[0]), es[1..])
  }

  lemma {:induction false} RunKeepsInv(s: System, es: seq<Event>)
    requires Inv(s) && Feasible(s, es)
    ensures Inv(Run(s, es))
    decreases es
  {
    if es != [] {
      StepKeepsInv(s, es[0]);
      RunKeepsInv(Next(s, es[0]), es[1..]);
    }
  }

  /** In every interleaving no set of threads waits in a circle, and no chain of waits
      is longer than three threads. */
  lemma NoCircularWait(es: seq<Event>, ts: seq<ThreadId>)
    requires Feasible(map[], es) && ts != [] && Chain(Run(map[], es), ts)
    ensures !WaitsFor(Run(map[], es), ts[|ts| - 1], ts[0])
    ensures |ts| <= 3
  {
    var s := Run(map[], es);
    RunKeepsInv(map[], es);
    ChainDescends(s, ts);
    if WaitsFor(s, ts[|ts| - 1], ts[0]) {
      WaitingDescends(s, ts[|ts| - 1], ts[0]);
    }
  }

  lemma {:induction false} SomeoneBelowCanStep(s: System, t: ThreadId) returns (u: ThreadId)
    requires Inv(s) && !Idle(s, t)
    ensures CanStep(s, u)
    decreases Rank(s, t)
  {
    if CanStep(s, t) {
      u := t;
    } else {
      assert exists v :: WaitsFor(s, t, v) by {
        match s[t].rest[0]
        case Acquire(l) =>
          var v :| v in s && l in s[v].held;
          assert WaitsFor(s, t, v);
        case Release(_) =>
        case Await(con) => assert WaitsFor(s, t, Callback(con));
      }
      var v :| WaitsFor(s, t, v);
      WaitingDescends(s, t, v);
      u := SomeoneBelowCanStep(s, v);
    }
  }

  /** Deadlock freedom: whenever a thread is inside a program, some thread can proceed. */
  lemma NoDeadlock(es: seq<Event>, t: ThreadId)
    requires Feasible(map[], es) && !Idle(Run(map[], es), t)
    ensures exists u :: CanStep(Run(map[], es), u)
  {
    RunKeepsInv(map[], es);
    var u := SomeoneBelowCanStep(Run(map[], es), t);
  }
}
