/** Outstanding commands (section 6.8 of IEC 60870-5-5): the table as a value, one
    function per operation of the client, and what every run keeps. */
module Commands {
  import opened Protocol

  /** `id`, `born` and `confirmations` are history: the order of acceptance, the time of
      acceptance and how many confirmations restarted the timer. `con` is the link the
      command was queued for; it is `None` when no link was active. */
  datatype Command = Command(
    id: nat, typeId: int, ca: int, ioa: int, con: Option<nat>,
    actConReceived: bool, stamp: int, born: int, confirmations: nat)

  datatype Reason = SendFailed | Terminated | SetpointConfirmed | TimedOut | Shutdown

  /** A command as it was when it left, why, and when. */
  datatype Departure = Departure(command: Command, reason: Reason, at: int)

  /** Commands in table order, the number accepted so far, and everything that left. */
  datatype Table = Table(commands: seq<Command>, accepted: nat, departed: seq<Departure>)

  const EMPTY := Table([], 0, [])

  predicate IsSetpoint(typeId: int) {
    C_SE_NA_1 <= typeId <= C_SE_NC_1 || C_SE_TA_1 <= typeId <= C_SE_TC_1
  }

  predicate Matches(c: Command, typeId: int, ca: int, ioa: int, con: nat) {
    c.typeId == typeId && c.ca == ca && c.ioa == ioa && c.con == Some(con)
  }

  predicate Expired(c: Command, timeout: nat, now: int) {
    c.stamp + timeout < now
  }

  function Full(t: Table, limit: int): bool {
    limit > 0 && |t.commands| >= limit
  }

  function Accept(t: Table, limit: int, typeId: int, ca: int, ioa: int, con: Option<nat>, now: int): Table {
    if Full(t, limit) then t
    else t.(commands := t.commands + [Command(t.accepted, typeId, ca, ioa, con, false, now, now, 0)],
            accepted := t.accepted + 1)
  }

  /** checkForOutstandingCommand: the first, hence oldest, matching entry. */
  function FindFirst(cs: seq<Command>, typeId: int, ca: int, ioa: int, con: nat): (r: Option<nat>)
    ensures r.Some? ==> r.value < |cs| && Matches(cs[r.value], typeId, ca, ioa, con)
    ensures forall j | 0 <= j < (if r.Some? then r.value else |cs|) :: !Matches(cs[j], typeId, ca, ioa, con)
  {
    if cs == [] then None
    else if Matches(cs[0], typeId, ca, ioa, con) then Some(0)
    else match FindFirst(cs[1..], typeId, ca, ioa, con)
      case Some(i) => Some(i + 1)
      case None => None
  }

  /** Erase by identity, as `erase(remove(...))` on shared pointers. */
  function Without(cs: seq<Command>, id: nat): seq<Command> {
    if cs == [] then []
    else if cs[0].id == id then Without(cs[1..], id)
    else [cs[0]] + Without(cs[1..], id)
  }

  function Withdrawn(cs: seq<Command>, id: nat, reason: Reason, now: int): seq<Departure> {
    if cs == [] then []
    else (if cs[0].id == id then [Departure(cs[0], reason, now)] else []) + Withdrawn(cs[1..], id, reason, now)
  }

  function Depart(t: Table, id: nat, reason: Reason, now: int): Table {
    t.(commands := Without(t.commands, id), departed := t.departed + Withdrawn(t.commands, id, reason, now))
  }

  /** A whole send: nothing without a configured address or with a full table; otherwise the
      command is queued, and withdrawn at once if it could not be sent. */
  function Submit(t: Table, limit: int, configured: bool, typeId: int, ca: int, ioa: int, con: Option<nat>,
                  sent: bool, now: int): Table {
    if !configured || Full(t, limit) then t
    else
      var queued := Accept(t, limit, typeId, ca, ioa, con, now);
      if sent then queued else Depart(queued, t.accepted, SendFailed, now)
  }

  function Confirmed(c: Command, now: int): Command {
    c.(actConReceived := true, stamp := now, confirmations := c.confirmations + 1)
  }

  /** A reply to the process command at position `i`. */
  function ProcessReply(t: Table, i: nat, cot: int, now: int): Table
    requires i < |t.commands|
  {
    if cot == COT_ACTIVATION_CON then t.(commands := t.commands[i := Confirmed(t.commands[i], now)])
    else if cot == COT_ACTIVATION_TERMINATION then Depart(t, t.commands[i].id, Terminated, now)
    else t
  }

  /** A reply to the set-point at position `i`. */
  function SetpointReply(t: Table, i: nat, cot: int, now: int): Table
    requires i < |t.commands|
  {
    if cot == COT_ACTIVATION_CON then Depart(t, t.commands[i].id, SetpointConfirmed, now) else t
  }

  /** A reply on link `con`: process commands are confirmed, then terminated; set-points
      leave on their confirmation. */
  function Reply(t: Table, typeId: int, ca: int, ioa: int, con: nat, cot: int, now: int): Table {
    match FindFirst(t.commands, typeId, ca, ioa, con)
    case None => t
    case Some(i) => if IsSetpoint(typeId) then SetpointReply(t, i, cot, now) else ProcessReply(t, i, cot, now)
  }

  /** The stable filter that the time-out sweep amounts to. */
  function Unexpired(cs: seq<Command>, timeout: nat, now: int): seq<Command> {
    if cs == [] then []
    else (if Expired(cs[0], timeout, now) then [] else [cs[0]]) + Unexpired(cs[1..], timeout, now)
  }

  function Leaving(cs: seq<Command>, timeout: nat, now: int): seq<Departure> {
    if cs == [] then []
    else (if Expired(cs[0], timeout, now) then [Departure(cs[0], TimedOut, now)] else [])
         + Leaving(cs[1..], timeout, now)
  }

  function Sweep(t: Table, timeout: nat, now: int): Table {
    t.(commands := Unexpired(t.commands, timeout, now),
       departed := t.departed + Leaving(t.commands, timeout, now))
  }

  function AllShutDown(cs: seq<Command>, now: int): seq<Departure> {
    if cs == [] then [] else [Departure(cs[0], Shutdown, now)] + AllShutDown(cs[1..], now)
  }

  function Clear(t: Table, now: int): Table {
    t.(commands := [], departed := t.departed + AllShutDown(t.commands, now))
  }

  // ---- conservation ----

  /** How often an identity occurs in the table, and among the departures. */
  function Held(cs: seq<Command>, id: nat): nat {
    if cs == [] then 0 else (if cs[0].id == id then 1 else 0) + Held(cs[1..], id)
  }

  function Left(ds: seq<Departure>, id: nat): nat {
    if ds == [] then 0 else (if ds[0].command.id == id then 1 else 0) + Left(ds[1..], id)
  }

  /** Each accepted command is in the table once and has not left, or has left once. */
  ghost predicate Conserved(t: Table) {
    && (forall id: nat :: Held(t.commands, id) + Left(t.departed, id) == (if id < t.accepted then 1 else 0))
    && (forall i, j | 0 <= i < j < |t.commands| :: t.commands[i].id < t.commands[j].id)
  }

  lemma {:induction false} HeldConcat(a: seq<Command>, b: seq<Command>, id: nat)
    ensures Held(a + b, id) == Held(a, id) + Held(b, id)
  {
    if a == [] {
      assert a + b == b;
    } else {
      assert (a + b)[1..] == a[1..] + b;
      HeldConcat(a[1..], b, id);
    }
  }

  lemma {:induction false} LeftConcat(a: seq<Departure>, b: seq<Departure>, id: nat)
    ensures Left(a + b, id) == Left(a, id) + Left(b, id)
  {
    if a == [] {
      assert a + b == b;
    } else {
      assert (a + b)[1..] == a[1..] + b;
      LeftConcat(a[1..], b, id);
    }
  }

  lemma {:induction false} HeldIsMembership(cs: seq<Command>, i: nat)
    requires i < |cs|
    ensures Held(cs, cs[i].id) > 0
  {
    if i > 0 { HeldIsMembership(cs[1..], i - 1); }
  }

  lemma {:induction false} HeldUpdate(cs: seq<Command>, i: nat, c: Command, id: nat)
    requires i < |cs| && c.id == cs[i].id
    ensures Held(cs[i := c], id) == Held(cs, id)
  {
    if i == 0 {
      assert cs[i := c][1..] == cs[1..];
    } else {
      assert cs[i := c][1..] == cs[1..][i - 1 := c];
      HeldUpdate(cs[1..], i - 1, c, id);
    }
  }

  /** Erasure drops one identity and keeps the order and content of all other entries. */
  lemma {:induction false} WithoutKeepsTheRest(cs: seq<Command>, id: nat)
    requires forall i, j | 0 <= i < j < |cs| :: cs[i].id < cs[j].id
    ensures Held(Without(cs, id), id) == 0
    ensures forall k: nat | k != id :: Held(Without(cs, id), k) == Held(cs, k)
    ensures forall c :: c in Without(cs, id) <==> c in cs && c.id != id
    ensures forall i, j | 0 <= i < j < |Without(cs, id)| :: Without(cs, id)[i].id < Without(cs, id)[j].id
  {
    if cs != [] {
      WithoutKeepsTheRest(cs[1..], id);
      var rest := Without(cs[1..], id);
      assert forall c | c in rest :: cs[0].id < c.id by {
        forall c | c in rest ensures cs[0].id < c.id {
          var k :| 0 <= k < |cs[1..]| && cs[1..][k] == c;
          assert cs[k + 1] == c;
        }
      }
      assert forall c :: c in cs <==> c == cs[0] || c in cs[1..];
      if cs[0].id != id {
        assert ([cs[0]] + rest)[1..] == rest;
      }
    }
  }

  lemma {:induction false} SweepSplits(cs: seq<Command>, timeout: nat, now: int, id: nat)
    ensures Held(Unexpired(cs, timeout, now), id) + Left(Leaving(cs, timeout, now), id) == Held(cs, id)
  {
    if cs != [] {
      SweepSplits(cs[1..], timeout, now, id);
      if Expired(cs[0], timeout, now) {
        assert Unexpired(cs, timeout, now) == Unexpired(cs[1..], timeout, now);
        assert Leaving(cs, timeout, now)[1..] == Leaving(cs[1..], timeout, now);
      } else {
        assert Unexpired(cs, timeout, now)[1..] == Unexpired(cs[1..], timeout, now);
        assert Leaving(cs, timeout, now) == Leaving(cs[1..], timeout, now);
      }
    }
  }

  /** The sweep keeps exactly the commands whose time-out has not passed, in table order. */
  lemma {:induction false} SweepIsStable(cs: seq<Command>, timeout: nat, now: int)
    requires forall i, j | 0 <= i < j < |cs| :: cs[i].id < cs[j].id
    ensures forall c :: c in Unexpired(cs, timeout, now) <==> c in cs && !Expired(c, timeout, now)
    ensures forall i, j | 0 <= i < j < |Unexpired(cs, timeout, now)| ::
              Unexpired(cs, timeout, now)[i].id < Unexpired(cs, timeout, now)[j].id
  {
    if cs != [] {
      var kept := Unexpired(cs[1..], timeout, now);
      SweepIsStable(cs[1..], timeout, now);
      assert forall c | c in kept :: cs[0].id < c.id by {
        forall c | c in kept ensures cs[0].id < c.id {
          var k :| 0 <= k < |cs[1..]| && cs[1..][k] == c;
          assert cs[k + 1] == c;
        }
      }
      assert forall c :: c in cs <==> c == cs[0] || c in cs[1..];
      assert Unexpired(cs, timeout, now) == (if Expired(cs[0], timeout, now) then kept else [cs[0]] + kept);
    }
  }

  lemma {:induction false} ClearSplits(cs: seq<Command>, now: int, id: nat)
    ensures Left(AllShutDown(cs, now), id) == Held(cs, id)
  {
    if cs != [] {
      ClearSplits(cs[1..], now, id);
      assert AllShutDown(cs, now)[1..] == AllShutDown(cs[1..], now);
    }
  }

  lemma {:induction false} WithdrawalSplits(cs: seq<Command>, id: nat, reason: Reason, now: int, k: nat)
    ensures Left(Withdrawn(cs, id, reason, now), k) == if k == id then Held(cs, id) else 0
  {
    if cs != [] {
      WithdrawalSplits(cs[1..], id, reason, now, k);
      if cs[0].id == id {
        assert Withdrawn(cs, id, reason, now)[1..] == Withdrawn(cs[1..], id, reason, now);
      } else {
        assert Withdrawn(cs, id, reason, now) == Withdrawn(cs[1..], id, reason, now);
      }
    }
  }

  lemma AcceptConserves(t: Table, limit: int, typeId: int, ca: int, ioa: int, con: Option<nat>, now: int)
    requires Conserved(t)
    ensures Conserved(Accept(t, limit, typeId, ca, ioa, con, now))
  {
    if !Full(t, limit) {
      var c := Command(t.accepted, typeId, ca, ioa, con, false, now, now, 0);
      forall id: nat ensures Held(t.commands + [c], id) == Held(t.commands, id) + (if id == c.id then 1 else 0) {
        HeldConcat(t.commands, [c], id);
        assert [c][1..] == [];
      }
      forall i | 0 <= i < |t.commands| ensures t.commands[i].id < t.accepted {
        HeldIsMembership(t.commands, i);
      }
    }
  }

  lemma DepartConserves(t: Table, id: nat, reason: Reason, now: int)
    requires Conserved(t)
    ensures Conserved(Depart(t, id, reason, now))
    ensures forall c :: c in Depart(t, id, reason, now).commands <==> c in t.commands && c.id != id
  {
    WithoutKeepsTheRest(t.commands, id);
    forall k: nat ensures Left(t.departed + Withdrawn(t.commands, id, reason, now), k) ==
                          Left(t.departed, k) + (if k == id then Held(t.commands, id) else 0) {
      LeftConcat(t.departed, Withdrawn(t.commands, id, reason, now), k);
      WithdrawalSplits(t.commands, id, reason, now, k);
    }
  }

  /** A send that fails leaves the table as it was; one that succeeds adds one entry. */
  lemma SubmitConserves(t: Table, limit: int, configured: bool, typeId: int, ca: int, ioa: int, con: Option<nat>,
                        sent: bool, now: int)
    requires Conserved(t)
    ensures var r := Submit(t, limit, configured, typeId, ca, ioa, con, sent, now);
            && Conserved(r)
            && (!sent || !configured || Full(t, limit) ==> r.commands == t.commands)
            && (sent && configured && !Full(t, limit) ==>
                  r.commands[..|r.commands| - 1] == t.commands && r.accepted == t.accepted + 1)
  {
    if configured && !Full(t, limit) {
      AcceptConserves(t, limit, typeId, ca, ioa, con, now);
      var queued := Accept(t, limit, typeId, ca, ioa, con, now);
      if !sent {
        assert queued.commands[|t.commands|].id == t.accepted;
        DepartExcises(queued, |t.commands|, SendFailed, now);
      }
    }
  }

  // ---- what a queued command holds, and which replies reach it ----

  /** A send is accepted exactly when the address is configured and a positive limit leaves
      room; then the new last entry is the command that was sent, for the link it was sent
      on, with its time-out clock started, and nothing confirmed yet. */
  lemma SentCommandIsQueued(t: Table, limit: int, configured: bool, typeId: int, ca: int, ioa: int,
                            con: Option<nat>, now: int)
    ensures var r := Submit(t, limit, configured, typeId, ca, ioa, con, true, now);
            if configured && (limit <= 0 || |t.commands| < limit) then
              && |r.commands| == |t.commands| + 1 && r.commands[..|t.commands|] == t.commands
              && var c := r.commands[|t.commands|];
                 && c.typeId == typeId && c.ca == ca && c.ioa == ioa && c.con == con
                 && c.stamp == now && c.born == now && !c.actConReceived && c.confirmations == 0
                 && c.id == t.accepted && r.accepted == t.accepted + 1 && r.departed == t.departed
            else r == t
  {
  }

  predicate IsFor(c: Command, typeId: int, ca: int, ioa: int, link: nat) {
    c.typeId == typeId && c.ca == ca && c.ioa == ioa && c.con.Some? && c.con.value == link
  }

  /** The types whose confirmation ends them: C_SE_NA_1 to C_SE_NC_1, with and without time tag. */
  predicate EndsOnConfirmation(typeId: int) {
    typeId in {48, 49, 50, 61, 62, 63}
  }

  /** A reply reaches the oldest entry of its type and address on its link, and no other
      entry. A confirmation restarts the time-out clock of a process command and removes a
      set-point; a termination removes a process command; other causes do nothing. */
  lemma ReplyReachesItsCommand(t: Table, i: nat, typeId: int, ca: int, ioa: int, link: nat, cot: int, now: int)
    requires Conserved(t) && i < |t.commands| && IsFor(t.commands[i], typeId, ca, ioa, link)
    requires forall j | 0 <= j < i :: !IsFor(t.commands[j], typeId, ca, ioa, link)
    ensures var cs, c := Reply(t, typeId, ca, ioa, link, cot, now).commands, t.commands[i];
            cs == if cot == (if EndsOnConfirmation(typeId) then 7 else 10) then t.commands[..i] + t.commands[i + 1..]
                  else if cot == 7 then t.commands[i := c.(actConReceived := true, stamp := now,
                                                           confirmations := c.confirmations + 1)]
                  else t.commands
  {
    ReplyTouchesOnlyTheOldest(t, typeId, ca, ioa, link, cot, now);
    FoundAt(t.commands, i, typeId, ca, ioa, link);
  }

  lemma FoundAt(cs: seq<Command>, i: nat, typeId: int, ca: int, ioa: int, link: nat)
    requires i < |cs| && IsFor(cs[i], typeId, ca, ioa, link)
    requires forall j | 0 <= j < i :: !IsFor(cs[j], typeId, ca, ioa, link)
    ensures FindFirst(cs, typeId, ca, ioa, link) == Some(i)
  {
    var r := FindFirst(cs, typeId, ca, ioa, link);
    forall j | 0 <= j < |cs| ensures Matches(cs[j], typeId, ca, ioa, link) <==> IsFor(cs[j], typeId, ca, ioa, link) {
    }
    assert r.Some? && r.value == i;
  }

  /** A reply for which there is no entry changes nothing. */
  lemma StrayReplyIsIgnored(t: Table, typeId: int, ca: int, ioa: int, link: nat, cot: int, now: int)
    requires forall c | c in t.commands :: !IsFor(c, typeId, ca, ioa, link)
    ensures Reply(t, typeId, ca, ioa, link, cot, now) == t
  {
    var r := FindFirst(t.commands, typeId, ca, ioa, link);
    if r.Some? {
      assert t.commands[r.value] in t.commands;
      assert IsFor(t.commands[r.value], typeId, ca, ioa, link);
    }
  }

  /** The shutdown empties the table. */
  lemma ClearLeavesNothing(t: Table, now: int)
    ensures Clear(t, now).commands == [] && Clear(t, now).accepted == t.accepted
  {
  }

  lemma SweepConserves(t: Table, timeout: nat, now: int)
    requires Conserved(t)
    ensures Conserved(Sweep(t, timeout, now))
  {
    SweepIsStable(t.commands, timeout, now);
    forall id: nat ensures Left(t.departed + Leaving(t.commands, timeout, now), id) ==
                           Left(t.departed, id) + Left(Leaving(t.commands, timeout, now), id) {
      LeftConcat(t.departed, Leaving(t.commands, timeout, now), id);
    }
    forall id: nat ensures Held(Unexpired(t.commands, timeout, now), id) + Left(Leaving(t.commands, timeout, now), id)
                           == Held(t.commands, id) {
      SweepSplits(t.commands, timeout, now, id);
    }
  }

  lemma ClearConserves(t: Table, now: int)
    requires Conserved(t)
    ensures Conserved(Clear(t, now))
  {
    forall id: nat
      ensures Left(t.departed + AllShutDown(t.commands, now), id) == Left(t.departed, id) + Held(t.commands, id)
    {
      LeftConcat(t.departed, AllShutDown(t.commands, now), id);
      ClearSplits(t.commands, now, id);
    }
  }

  lemma ConfirmConserves(t: Table, i: nat, now: int)
    requires Conserved(t) && i < |t.commands|
    ensures Conserved(t.(commands := t.commands[i := Confirmed(t.commands[i], now)]))
  {
    forall k: nat ensures Held(t.commands[i := Confirmed(t.commands[i], now)], k) == Held(t.commands, k) {
      HeldUpdate(t.commands, i, Confirmed(t.commands[i], now), k);
    }
  }

  lemma DepartExcises(t: Table, i: nat, reason: Reason, now: int)
    requires Conserved(t) && i < |t.commands|
    ensures Conserved(Depart(t, t.commands[i].id, reason, now))
    ensures Depart(t, t.commands[i].id, reason, now).commands == t.commands[..i] + t.commands[i + 1..]
  {
    DepartConserves(t, t.commands[i].id, reason, now);
    WithoutIsExcision(t.commands, i);
  }

  /** A reply leaves every entry but the oldest matching one exactly as it was, in order;
      the matching one is confirmed in place, removed, or untouched. */
  lemma ReplyTouchesOnlyTheOldest(t: Table, typeId: int, ca: int, ioa: int, con: nat, cot: int, now: int)
    requires Conserved(t)
    ensures Conserved(Reply(t, typeId, ca, ioa, con, cot, now))
    ensures var cs := Reply(t, typeId, ca, ioa, con, cot, now).commands;
            match FindFirst(t.commands, typeId, ca, ioa, con)
            case None => cs == t.commands
            case Some(i) =>
              var removed := cot == if IsSetpoint(typeId) then COT_ACTIVATION_CON else COT_ACTIVATION_TERMINATION;
              if removed then cs == t.commands[..i] + t.commands[i + 1..]
              else if cot == COT_ACTIVATION_CON then cs == t.commands[i := Confirmed(t.commands[i], now)]
              else cs == t.commands
  {
    match FindFirst(t.commands, typeId, ca, ioa, con)
    case None =>
    case Some(i) =>
      if IsSetpoint(typeId) {
        DepartExcises(t, i, SetpointConfirmed, now);
      } else if cot == COT_ACTIVATION_CON {
        ConfirmConserves(t, i, now);
      } else {
        DepartExcises(t, i, Terminated, now);
      }
  }

  lemma {:induction false} WithoutIsExcision(cs: seq<Command>, i: nat)
    requires i < |cs| && forall k, j | 0 <= k < j < |cs| :: cs[k].id < cs[j].id
    ensures Without(cs, cs[i].id) == cs[..i] + cs[i + 1..]
  {
    if i == 0 {
      WithoutAbsent(cs[1..], cs[0].id);
    } else {
      WithoutIsExcision(cs[1..], i - 1);
      assert cs[..i] == [cs[0]] + cs[1..][..i - 1];
      assert cs[i + 1..] == cs[1..][i..];
    }
  }

  lemma {:induction false} WithoutAbsent(cs: seq<Command>, id: nat)
    requires forall c | c in cs :: c.id != id
    ensures Without(cs, id) == cs
  {
    if cs != [] { WithoutAbsent(cs[1..], id); }
  }
}
