/** The outstanding commands as the client keeps them: a vector of shared entries that
    replies modify in place and that is appended to and erased from. */
module CommandTable {
  import opened Protocol
  import opened Commands

  class OutstandingCommand {
    const typeId: int
    const ca: int
    const ioa: int
    const con: Option<nat>
    var actConReceived: bool
    var timeout: Time
    ghost const id: nat
    ghost const born: int
    ghost var confirmations: nat

    constructor (typeId: int, ca: int, ioa: int, con: Option<nat>, now: Time, ghost id: nat)
      ensures this.typeId == typeId && this.ca == ca && this.ioa == ioa && this.con == con
      ensures timeout == now && !actConReceived
      ensures Value() == Command(id, typeId, ca, ioa, con, false, now, now, 0)
    {
      this.typeId, this.ca, this.ioa, this.con := typeId, ca, ioa, con;
      actConReceived, timeout := false, now;
      this.id, born, confirmations := id, now, 0;
    }

    ghost function Value(): Command
      reads this
    {
      Command(id, typeId, ca, ioa, con, actConReceived, timeout, born, confirmations)
    }
  }

  /** The values behind a list of entries. */
  ghost function Values(cs: seq<OutstandingCommand>): (r: seq<Command>)
    reads cs
    ensures |r| == |cs| && forall i | 0 <= i < |cs| :: r[i] == cs[i].Value()
  {
    if cs == [] then [] else [cs[0].Value()] + Values(cs[1..])
  }

  twostate lemma {:induction false} ValuesFrame(cs: seq<OutstandingCommand>)
    requires forall i | 0 <= i < |cs| :: old(cs[i].Value()) == cs[i].Value()
    ensures old(Values(cs)) == Values(cs)
  {
  }

  lemma {:induction false} ValuesConcat(a: seq<OutstandingCommand>, b: seq<OutstandingCommand>)
    ensures Values(a + b) == Values(a) + Values(b)
  {
  }

  /** `erase(remove(list, x))`: all entries other than the object `x`, in order. */
  function Erase(cs: seq<OutstandingCommand>, x: OutstandingCommand): seq<OutstandingCommand> {
    if cs == [] then []
    else if cs[0] == x then Erase(cs[1..], x)
    else [cs[0]] + Erase(cs[1..], x)
  }

  class Outstanding {
    var commands: seq<OutstandingCommand>
    ghost var accepted: nat
    ghost var departed: seq<Departure>

    constructor ()
      ensures Valid() && Contents() == EMPTY
    {
      commands, accepted, departed := [], 0, [];
    }

    ghost function Entries(): set<OutstandingCommand>
      reads this`commands
    {
      set c | c in commands
    }

    ghost function Contents(): Table
      reads this, commands
    {
      Table(Values(commands), accepted, departed)
    }

    /** Entries sit in order of acceptance; what else the table keeps is proved of `Contents()`. */
    ghost predicate Valid()
      reads this
    {
      && (forall i, j | 0 <= i < j < |commands| :: commands[i].id < commands[j].id)
      && (forall c | c in commands :: c.id < accepted)
    }

    method Append(command: OutstandingCommand)
      requires Valid() && command.id == accepted
      modifies this
      ensures Valid() && commands == old(commands) + [command]
      ensures Contents() == Table(old(Contents()).commands + [command.Value()], old(accepted) + 1, old(departed))
    {
      ValuesConcat(commands, [command]);
      commands := commands + [command];
      accepted := accepted + 1;
    }

    method AddOutstandingCommandAndCheckLimit(
        limit: int, ca: int, ioa: int, withTime: bool, timedType: int, untimedType: int, con: Option<nat>, now: Time)
      returns (command: OutstandingCommand?)
      requires Valid()
      modifies this
      ensures Valid()
      ensures Contents() ==
              Accept(old(Contents()), limit, if withTime then timedType else untimedType, ca, ioa, con, now)
      ensures command == null <==> limit > 0 && |old(commands)| >= limit
      ensures command != null ==>
                && command.typeId == (if withTime then timedType else untimedType)
                && command.ca == ca && command.ioa == ioa && command.con == con
                && command.timeout == now && !command.actConReceived
      ensures command != null ==> fresh(command) && commands == old(commands) + [command] && command.id == old(accepted)
      ensures command == null ==> commands == old(commands)
    {
      var typeId := if withTime then timedType else untimedType;
      if limit > 0 {
        if |commands| < limit {
          command := new OutstandingCommand(typeId, ca, ioa, con, now, accepted);
        } else {
          return null;
        }
      } else {
        command := new OutstandingCommand(typeId, ca, ioa, con, now, accepted);
      }
      Append(command);
    }

    method CheckForOutstandingCommand(typeId: int, ca: int, ioa: int, con: nat)
      returns (command: OutstandingCommand?, ghost at: nat)
      ensures command == null ==> forall c | c in commands :: !AwaitsReply(c, typeId, ca, ioa, con)
      ensures command != null ==>
                && at < |commands| && commands[at] == command && AwaitsReply(command, typeId, ca, ioa, con)
                && forall j | 0 <= j < at :: !AwaitsReply(commands[j], typeId, ca, ioa, con)
      ensures command == null ==> FindFirst(Contents().commands, typeId, ca, ioa, con) == None
      ensures command != null ==>
                at < |commands| && commands[at] == command &&
                FindFirst(Contents().commands, typeId, ca, ioa, con) == Some(at)
    {
      ghost var values := Values(commands);
      var i := 0;
      while i < |commands|
        invariant 0 <= i <= |commands|
        invariant NoneBefore(values, i, typeId, ca, ioa, con)
        invariant forall j | 0 <= j < i :: !AwaitsReply(commands[j], typeId, ca, ioa, con)
      {
        var c := commands[i];
        assert values[i] == c.Value();
        if c.typeId == typeId && c.ca == ca && c.ioa == ioa && c.con == Some(con) {
          FirstIsFound(values, i, typeId, ca, ioa, con);
          return c, i;
        }
        i := i + 1;
      }
      FirstIsFound(values, i, typeId, ca, ioa, con);
      command, at := null, 0;
    }

    lemma IdsIdentify(command: OutstandingCommand)
      requires Valid() && command in commands
      ensures forall c | c in commands :: c.id == command.id ==> c == command
    {
    }

    /** Take back the command queued last, which could not be sent. */
    method Withdraw(command: OutstandingCommand, ghost queue: seq<OutstandingCommand>, ghost now: Time)
      requires Valid() && commands == queue + [command]
      modifies this
      ensures Valid() && commands == queue
      ensures Contents() == Depart(old(Contents()), command.id, SendFailed, now)
    {
      IdsIdentify(command);
      assert forall i | 0 <= i < |queue| :: commands[i] == queue[i] && commands[i].id < commands[|queue|].id;
      ErasingTheLast(queue, command);
      RemoveOutstandingCommand(command, SendFailed, now);
    }

    method RemoveOutstandingCommand(command: OutstandingCommand, ghost reason: Reason, ghost now: Time)
      requires Valid()
      requires forall c | c in commands :: c.id == command.id ==> c == command
      modifies this
      ensures Valid()
      ensures Contents() == Depart(old(Contents()), command.id, reason, now)
      ensures commands == Erase(old(commands), command) && command !in commands
    {
      EraseKeepsOrder(commands, command);
      EraseIsWithout(commands, command);
      departed := Depart(Contents(), command.id, reason, now).departed;
      commands := Erase(commands, command);
    }

    /** A confirmation restarts the timer of the entry in place. */
    method Confirm(command: OutstandingCommand, ghost i: nat, now: Time)
      requires Valid() && i < |commands| && commands[i] == command
      modifies command
      ensures Valid() && command.actConReceived && command.timeout == now
      ensures var t := old(Contents());
              Contents() == t.(commands := t.commands[i := Confirmed(t.commands[i], now)])
    {
      ghost var was := Contents();
      assert forall j | 0 <= j < |commands| :: commands[j] == command ==> j == i;
      command.actConReceived := true;
      command.timeout := now;
      command.confirmations := command.confirmations + 1;
      assert Values(commands) == was.commands[i := Confirmed(was.commands[i], now)];
    }

    /** The command part of handle_C_SC/DC/RC_NA_1: confirmed in place, removed on termination. */
    method HandleProcessCommand(command: OutstandingCommand?, ghost at: nat, cot: int, now: Time)
      requires Valid() && (command != null ==> at < |commands| && commands[at] == command)
      modifies this, Entries()
      ensures Valid() && Entries() <= old(Entries())
      ensures command == null ==> Contents() == old(Contents())
      ensures command != null ==> Contents() == ProcessReply(old(Contents()), at, cot, now)
      ensures command != null && cot == 7 ==>
                commands == old(commands) && command.actConReceived && command.timeout == now
      ensures command != null && cot == 10 ==> command !in commands
    {
      if command != null {
        if cot == COT_ACTIVATION_CON {
          Confirm(command, at, now);
        } else if cot == COT_ACTIVATION_TERMINATION {
          EraseKeepsOrder(commands, command);
          RemoveOutstandingCommand(command, Terminated, now);
        }
      }
    }

    /** The command part of handle_C_SE_N*_1: a set-point leaves on its confirmation. */
    method HandleSetpoint(command: OutstandingCommand?, ghost at: nat, cot: int, ghost now: Time)
      requires Valid() && (command != null ==> at < |commands| && commands[at] == command)
      modifies this
      ensures Valid() && Entries() <= old(Entries())
      ensures command == null ==> Contents() == old(Contents())
      ensures command != null ==> Contents() == SetpointReply(old(Contents()), at, cot, now)
      ensures command != null && cot == 7 ==> command !in commands
    {
      if command != null {
        if cot == COT_ACTIVATION_CON {
          EraseKeepsOrder(commands, command);
          RemoveOutstandingCommand(command, SetpointConfirmed, now);
        }
      }
    }

    /** The first loop of the sweep. */
    method CollectTimedOut(cmdExecTimeout: nat, currentTime: Time) returns (timedOut: seq<OutstandingCommand>)
      ensures timedOut == Late(commands, cmdExecTimeout, currentTime)
    {
      timedOut := [];
      var i := 0;
      while i < |commands|
        invariant 0 <= i <= |commands|
        invariant timedOut == Late(commands[..i], cmdExecTimeout, currentTime)
      {
        LateStep(commands, i, cmdExecTimeout, currentTime);
        var c := commands[i];
        if c.actConReceived {
          if c.timeout + cmdExecTimeout < currentTime { timedOut := timedOut + [c]; }
        } else {
          if c.timeout + cmdExecTimeout < currentTime { timedOut := timedOut + [c]; }
        }
        i := i + 1;
      }
      assert commands[..i] == commands;
    }

    /** The second loop of the sweep: one erase per collected entry. */
    method EraseEach(timedOut: seq<OutstandingCommand>)
      requires Valid()
      modifies this`commands
      ensures Valid() && commands == old(EraseAll(commands, timedOut))
    {
      var i := 0;
      while i < |timedOut|
        invariant 0 <= i <= |timedOut|
        invariant commands == EraseAll(old(commands), timedOut[..i]) && Valid()
      {
        EraseAllStep(old(commands), timedOut, i);
        EraseKeepsOrder(commands, timedOut[i]);
        commands := Erase(commands, timedOut[i]);
        i := i + 1;
      }
      assert timedOut[..i] == timedOut;
    }

    method CheckOutstandingCommandTimeouts(cmdExecTimeout: nat, currentTime: Time)
      requires Valid()
      modifies this
      ensures Valid()
      ensures Contents() == Sweep(old(Contents()), cmdExecTimeout, currentTime)
    {
      var timedOut := CollectTimedOut(cmdExecTimeout, currentTime);
      EraseTimedOut(timedOut, cmdExecTimeout, currentTime);
      departed := departed + Leaving(old(Values(commands)), cmdExecTimeout, currentTime);
    }

    method EraseTimedOut(timedOut: seq<OutstandingCommand>, ghost timeout: nat, ghost now: Time)
      requires Valid() && timedOut == Late(commands, timeout, now)
      modifies this`commands
      ensures Valid()
      ensures Values(commands) == Unexpired(old(Values(commands)), timeout, now)
    {
      ErasingTheLate(commands, timeout, now);
      EraseEach(timedOut);
      ValuesFrame(commands);
    }

    method Clear(ghost now: Time)
      requires Valid()
      modifies this
      ensures Valid() && commands == [] && Contents() == Commands.Clear(old(Contents()), now)
    {
      if |commands| != 0 {
        departed := departed + AllShutDown(Values(commands), now);
        commands := [];
      }
    }
  }

  /** An entry of this type and address on this link. */
  predicate AwaitsReply(c: OutstandingCommand, typeId: int, ca: int, ioa: int, con: nat) {
    c.typeId == typeId && c.ca == ca && c.ioa == ioa && c.con.Some? && c.con.value == con
  }

  // ---- from object identity to history ids ----

  ghost predicate NoneBefore(cs: seq<Command>, i: nat, typeId: int, ca: int, ioa: int, con: nat) {
    i <= |cs| && forall j | 0 <= j < i :: !Matches(cs[j], typeId, ca, ioa, con)
  }

  lemma FirstIsFound(cs: seq<Command>, i: nat, typeId: int, ca: int, ioa: int, con: nat)
    requires NoneBefore(cs, i, typeId, ca, ioa, con)
    ensures i == |cs| ==> FindFirst(cs, typeId, ca, ioa, con) == None
    ensures i < |cs| && Matches(cs[i], typeId, ca, ioa, con) ==> FindFirst(cs, typeId, ca, ioa, con) == Some(i)
  {
  }

  lemma {:induction false} EraseIsWithout(cs: seq<OutstandingCommand>, x: OutstandingCommand)
    requires forall c | c in cs :: c.id == x.id ==> c == x
    ensures Values(Erase(cs, x)) == Without(Values(cs), x.id)
  {
    if cs != [] {
      assert cs[0] in cs;
      assert forall c | c in cs[1..] :: c in cs;
      EraseIsWithout(cs[1..], x);
      assert Values(cs)[1..] == Values(cs[1..]);
    }
  }

  lemma {:induction false} ErasingTheLast(queue: seq<OutstandingCommand>, x: OutstandingCommand)
    requires x !in queue
    ensures Erase(queue + [x], x) == queue
  {
    if queue != [] {
      assert (queue + [x])[1..] == queue[1..] + [x];
      ErasingTheLast(queue[1..], x);
    }
  }

  lemma {:induction false} EraseKeepsOrder(cs: seq<OutstandingCommand>, x: OutstandingCommand)
    requires forall i, j | 0 <= i < j < |cs| :: cs[i].id < cs[j].id
    ensures forall c | c in Erase(cs, x) :: c in cs && c != x
    ensures forall i, j | 0 <= i < j < |Erase(cs, x)| :: Erase(cs, x)[i].id < Erase(cs, x)[j].id
  {
    if cs != [] {
      EraseKeepsOrder(cs[1..], x);
      assert forall c | c in cs[1..] :: c in cs && cs[0].id < c.id;
    }
  }

  /** The entries the first loop collects. */
  ghost function Late(cs: seq<OutstandingCommand>, timeout: nat, now: int): seq<OutstandingCommand>
    reads cs
  {
    if cs == [] then []
    else (if Expired(cs[0].Value(), timeout, now) then [cs[0]] else []) + Late(cs[1..], timeout, now)
  }

  lemma {:induction false} LateConcat(a: seq<OutstandingCommand>, b: seq<OutstandingCommand>, timeout: nat, now: int)
    ensures Late(a + b, timeout, now) == Late(a, timeout, now) + Late(b, timeout, now)
  {
    if a == [] {
      assert a + b == b;
    } else {
      assert (a + b)[1..] == a[1..] + b;
      LateConcat(a[1..], b, timeout, now);
    }
  }

  lemma LateStep(cs: seq<OutstandingCommand>, i: nat, timeout: nat, now: int)
    requires i < |cs|
    ensures Late(cs[..i + 1], timeout, now) ==
            Late(cs[..i], timeout, now) + if Expired(cs[i].Value(), timeout, now) then [cs[i]] else []
  {
    assert cs[..i + 1] == cs[..i] + [cs[i]];
    LateConcat(cs[..i], [cs[i]], timeout, now);
  }

  lemma {:induction false} LateIsExpired(cs: seq<OutstandingCommand>, timeout: nat, now: int)
    ensures forall c :: c in Late(cs, timeout, now) <==> c in cs && Expired(c.Value(), timeout, now)
  {
    if cs != [] {
      LateIsExpired(cs[1..], timeout, now);
      assert forall c :: c in cs <==> c == cs[0] || c in cs[1..];
    }
  }

  function EraseAll(cs: seq<OutstandingCommand>, xs: seq<OutstandingCommand>): seq<OutstandingCommand>
    decreases xs
  {
    if xs == [] then cs else Erase(EraseAll(cs, xs[..|xs| - 1]), xs[|xs| - 1])
  }

  lemma EraseAllStep(cs: seq<OutstandingCommand>, xs: seq<OutstandingCommand>, i: nat)
    requires i < |xs|
    ensures EraseAll(cs, xs[..i + 1]) == Erase(EraseAll(cs, xs[..i]), xs[i])
  {
    assert xs[..i + 1][..i] == xs[..i];
  }

  function Filter(cs: seq<OutstandingCommand>, xs: seq<OutstandingCommand>): seq<OutstandingCommand> {
    if cs == [] then []
    else (if cs[0] in xs then [] else [cs[0]]) + Filter(cs[1..], xs)
  }

  lemma {:induction false} EraseFiltered(
      cs: seq<OutstandingCommand>, xs: seq<OutstandingCommand>, x: OutstandingCommand)
    ensures Erase(Filter(cs, xs), x) == Filter(cs, xs + [x])
  {
    if cs != [] {
      EraseFiltered(cs[1..], xs, x);
      if cs[0] in xs {
        assert Filter(cs, xs) == Filter(cs[1..], xs);
      } else {
        assert Filter(cs, xs)[1..] == Filter(cs[1..], xs);
      }
    }
  }

  lemma {:induction false} EraseAllIsFilter(cs: seq<OutstandingCommand>, xs: seq<OutstandingCommand>)
    ensures EraseAll(cs, xs) == Filter(cs, xs)
    decreases xs
  {
    if xs == [] {
      FilterByNothing(cs);
    } else {
      EraseAllIsFilter(cs, xs[..|xs| - 1]);
      EraseFiltered(cs, xs[..|xs| - 1], xs[|xs| - 1]);
      assert xs == xs[..|xs| - 1] + [xs[|xs| - 1]];
    }
  }

  lemma {:induction false} FilterByNothing(cs: seq<OutstandingCommand>)
    ensures Filter(cs, []) == cs
  {
    if cs != [] { FilterByNothing(cs[1..]); }
  }

  lemma {:induction false} SweepByObjects(
      cs: seq<OutstandingCommand>, late: seq<OutstandingCommand>, timeout: nat, now: int)
    requires forall c | c in cs :: c in late <==> Expired(c.Value(), timeout, now)
    ensures Values(Filter(cs, late)) == Unexpired(Values(cs), timeout, now)
  {
    if cs != [] {
      assert cs[0] in cs;
      assert forall c | c in cs[1..] :: c in cs;
      SweepByObjects(cs[1..], late, timeout, now);
      assert Values(cs)[1..] == Values(cs[1..]);
    }
  }

  lemma ErasingTheLate(cs: seq<OutstandingCommand>, timeout: nat, now: int)
    ensures Values(EraseAll(cs, Late(cs, timeout, now))) == Unexpired(Values(cs), timeout, now)
  {
    EraseAllIsFilter(cs, Late(cs, timeout, now));
    LateIsExpired(cs, timeout, now);
    SweepByObjects(cs, Late(cs, timeout, now), timeout, now);
  }
}
