/** Whole runs of the outstanding-command table: conservation, the parallel limit and
    the longest time a command can stay. */
module CommandRuns {
  import opened Protocol
  import opened Commands

  /** `gap` bounds the time between consecutive time-out sweeps. */
  datatype Rules = Rules(limit: int, timeout: nat, gap: nat)

  datatype System = System(table: Table, clock: int, lastSweep: int)

  datatype Event =
    | Submitted(typeId: int, ca: int, ioa: int, con: Option<nat>, at: int)
    | SendRefused(id: nat, at: int)
    | Answered(typeId: int, ca: int, ioa: int, link: nat, cot: int, at: int)
    | Swept(at: int)
    | Stopped(at: int)

  predicate Enabled(r: Rules, s: System, e: Event) {
    s.clock <= e.at <= s.lastSweep + r.gap
  }

  function Next(r: Rules, s: System, e: Event): Table {
    match e
    case Submitted(typeId, ca, ioa, con, at) => Accept(s.table, r.limit, typeId, ca, ioa, con, at)
    case SendRefused(id, at) => Depart(s.table, id, SendFailed, at)
    case Answered(typeId, ca, ioa, link, cot, at) => Reply(s.table, typeId, ca, ioa, link, cot, at)
    case Swept(at) => Sweep(s.table, r.timeout, at)
    case Stopped(at) => Clear(s.table, at)
  }

  function Step(r: Rules, s: System, e: Event): System {
    System(Next(r, s, e), e.at, if e.Swept? then e.at else s.lastSweep)
  }

  function Run(r: Rules, s: System, es: seq<Event>): System
    decreases es
  {
    if es == [] then s else Run(r, Step(r, s, es[0]), es[1..])
  }

  ghost predicate Feasible(r: Rules, s: System, es: seq<Event>)
    decreases es
  {
    es == [] || (Enabled(r, s, es[0]) && Feasible(r, Step(r, s, es[0]), es[1..]))
  }

  function Start(at: int): System {
    System(EMPTY, at, at)
  }

  function Times(k: nat, w: nat): (p: nat)
    ensures p == k * w
  {
    if k == 0 then 0 else Times(k - 1, w) + w
  }

  /** The time-out clock of an entry has not run out at the last sweep, and each restart
      of it was at most one time-out and one gap after the previous one. */
  predicate Timely(r: Rules, s: System, c: Command) {
    && s.lastSweep <= c.stamp + r.timeout
    && c.born <= c.stamp <= s.clock
    && c.stamp <= c.born + Times(c.confirmations, r.timeout + r.gap)
  }

  /** No command leaves older than its confirmations allow, and one that times out leaves
      between one time-out and one time-out plus a gap after its clock was last restarted. */
  predicate Prompt(r: Rules, d: Departure) {
    && d.at <= d.command.born + Times(d.command.confirmations + 1, r.timeout + r.gap)
    && (d.reason == TimedOut ==> d.command.stamp + r.timeout < d.at <= d.command.stamp + r.timeout + r.gap)
  }

  ghost predicate Inv(r: Rules, s: System) {
    && Conserved(s.table)
    && s.lastSweep <= s.clock <= s.lastSweep + r.gap
    && (forall c | c in s.table.commands :: Timely(r, s, c))
    && (forall d | d in s.table.departed :: Prompt(r, d))
    && (r.limit > 0 ==> |s.table.commands| <= r.limit)
  }

  lemma {:induction false} NoLonger(cs: seq<Command>, timeout: nat, now: int, id: nat)
    ensures |Unexpired(cs, timeout, now)| <= |cs|
    ensures |Without(cs, id)| <= |cs|
  {
    if cs != [] { NoLonger(cs[1..], timeout, now, id); }
  }

  /** Whoever leaves now was in the table, and leaves by time-out only if expired. */
  ghost predicate LeaveFrom(cs: seq<Command>, ds: seq<Departure>, timeout: nat, now: int) {
    forall d | d in ds :: d.command in cs && d.at == now && (d.reason == TimedOut ==> Expired(d.command, timeout, now))
  }

  lemma {:induction false} LeavingLeaves(cs: seq<Command>, timeout: nat, now: int)
    ensures LeaveFrom(cs, Leaving(cs, timeout, now), timeout, now)
    ensures LeaveFrom(cs, AllShutDown(cs, now), timeout, now)
  {
    if cs != [] { LeavingLeaves(cs[1..], timeout, now); }
  }

  lemma {:induction false} WithdrawnLeaves(cs: seq<Command>, id: nat, reason: Reason, timeout: nat, now: int)
    requires reason != TimedOut
    ensures LeaveFrom(cs, Withdrawn(cs, id, reason, now), timeout, now)
  {
    if cs != [] { WithdrawnLeaves(cs[1..], id, reason, timeout, now); }
  }

  /** What a step adds to the departures. */
  lemma Leavers(r: Rules, s: System, e: Event) returns (ds: seq<Departure>)
    ensures Step(r, s, e).table.departed == s.table.departed + ds
    ensures LeaveFrom(s.table.commands, ds, r.timeout, e.at)
  {
    var cs := s.table.commands;
    LeavingLeaves(cs, r.timeout, e.at);
    match e
    case Submitted(_, _, _, _, _) => ds := [];
    case SendRefused(id, at) =>
      ds := Withdrawn(cs, id, SendFailed, at);
      WithdrawnLeaves(cs, id, SendFailed, r.timeout, at);
    case Answered(typeId, ca, ioa, link, cot, at) =>
      match FindFirst(cs, typeId, ca, ioa, link) {
        case None => ds := [];
        case Some(i) =>
          WithdrawnLeaves(cs, cs[i].id, SetpointConfirmed, r.timeout, at);
          WithdrawnLeaves(cs, cs[i].id, Terminated, r.timeout, at);
          ds := if IsSetpoint(typeId) && cot == COT_ACTIVATION_CON then Withdrawn(cs, cs[i].id, SetpointConfirmed, at)
                else if !IsSetpoint(typeId) && cot == COT_ACTIVATION_TERMINATION
                then Withdrawn(cs, cs[i].id, Terminated, at) else [];
      }
    case Swept(at) => ds := Leaving(cs, r.timeout, at);
    case Stopped(at) => ds := AllShutDown(cs, at);
  }

  lemma DeparturesArePrompt(r: Rules, s: System, e: Event)
    requires Inv(r, s) && Enabled(r, s, e)
    ensures forall d | d in Step(r, s, e).table.departed :: Prompt(r, d)
  {
    var ds := Leavers(r, s, e);
    hide Step;
    forall d | d in ds ensures Prompt(r, d) {
      assert Timely(r, s, d.command);
    }
  }

  lemma AnswerKeepsTimely(r: Rules, s: System, e: Event)
    requires Inv(r, s) && Enabled(r, s, e) && e.Answered?
    ensures var t := Step(r, s, e);
            && Conserved(t.table) && |t.table.commands| <= |s.table.commands|
            && (forall c | c in t.table.commands :: Timely(r, t, c))
  {
    ReplyTouchesOnlyTheOldest(s.table, e.typeId, e.ca, e.ioa, e.link, e.cot, e.at);
    var t := Step(r, s, e);
    match FindFirst(s.table.commands, e.typeId, e.ca, e.ioa, e.link)
    case None =>
    case Some(i) =>
      var c := s.table.commands[i];
      assert Timely(r, s, c);
      assert Timely(r, t, Confirmed(c, e.at));
      forall d | d in t.table.commands ensures Timely(r, t, d) {
        assert d in s.table.commands || d == Confirmed(c, e.at);
      }
  }

  lemma StepKeepsInv(r: Rules, s: System, e: Event)
    requires Inv(r, s) && Enabled(r, s, e)
    ensures Inv(r, Step(r, s, e))
  {
    DeparturesArePrompt(r, s, e);
    match e
    case Submitted(typeId, ca, ioa, con, at) => AcceptConserves(s.table, r.limit, typeId, ca, ioa, con, at);
    case SendRefused(id, at) =>
      DepartConserves(s.table, id, SendFailed, at);
      NoLonger(s.table.commands, r.timeout, at, id);
    case Answered(typeId, ca, ioa, link, cot, at) => AnswerKeepsTimely(r, s, e);
    case Swept(at) =>
      SweepConserves(s.table, r.timeout, at);
      SweepIsStable(s.table.commands, r.timeout, at);
      NoLonger(s.table.commands, r.timeout, at, 0);
    case Stopped(at) => ClearConserves(s.table, at);
  }

  lemma {:induction false} RunKeepsInv(r: Rules, s: System, es: seq<Event>)
    requires Inv(r, s) && Feasible(r, s, es)
    ensures Inv(r, Run(r, s, es))
    decreases es
  {
    if es != [] {
      StepKeepsInv(r, s, es[0]);
      RunKeepsInv(r, Step(r, s, es[0]), es[1..]);
    }
  }

  /** In every run: each accepted command is in the table or has left, exactly once in
      all; the table respects a positive limit; a command confirmed k times is at most
      (k + 1) * (time-out + longest gap between sweeps) old, in the table and when it
      leaves; and a time-out takes effect neither early nor more than a gap late. */
  lemma CommandsAreConservedAndBounded(r: Rules, t0: int, es: seq<Event>)
    requires Feasible(r, Start(t0), es)
    ensures var s := Run(r, Start(t0), es);
            && (forall id: nat | id < s.table.accepted :: Held(s.table.commands, id) + Left(s.table.departed, id) == 1)
            && (forall id: nat | id >= s.table.accepted ::
                  Held(s.table.commands, id) == Left(s.table.departed, id) == 0)
            && (r.limit > 0 ==> |s.table.commands| <= r.limit)
            && (forall c | c in s.table.commands ::
                  s.clock <= c.born + (c.confirmations + 1) * (r.timeout + r.gap))
            && (forall d | d in s.table.departed ::
                  && d.at <= d.command.born + (d.command.confirmations + 1) * (r.timeout + r.gap)
                  && (d.reason == TimedOut ==>
                        d.command.stamp + r.timeout < d.at <= d.command.stamp + r.timeout + r.gap))
  {
    RunKeepsInv(r, Start(t0), es);
    var s := Run(r, Start(t0), es);
    forall c | c in s.table.commands
      ensures s.clock <= c.born + (c.confirmations + 1) * (r.timeout + r.gap)
    {
      assert Timely(r, s, c);
      assert Times(c.confirmations + 1, r.timeout + r.gap) == (c.confirmations + 1) * (r.timeout + r.gap);
    }
    forall d | d in s.table.departed
      ensures d.at <= d.command.born + (d.command.confirmations + 1) * (r.timeout + r.gap)
    {
      assert Prompt(r, d);
    }
  }

  // ---- one command, from sending to its last reply ----

  /** A send, and the replies of the outstation to it. */
  function Dialogue(typeId: int, ca: int, ioa: int, link: nat, sent: int, confirmed: int, terminated: int)
    : seq<Event>
  {
    [Submitted(typeId, ca, ioa, Some(link), sent)] + [Answered(typeId, ca, ioa, link, 7, confirmed)]
    + if EndsOnConfirmation(typeId) then [] else [Answered(typeId, ca, ioa, link, 10, terminated)]
  }

  /** In every run: a command sent on a link while none of its type and address is open there
      is found by its replies, and they give back the table as it was: a set-point after its
      ACT_CON, a process command after ACT_CON and ACT_TERM. */
  lemma CommandIsAnswered(r: Rules, t0: int, es: seq<Event>, typeId: int, ca: int, ioa: int, link: nat,
                          sent: int, confirmed: int, terminated: int)
    requires Feasible(r, Start(t0), es)
    requires var s := Run(r, Start(t0), es);
             && s.clock <= sent <= confirmed <= terminated <= s.lastSweep + r.gap
             && (r.limit <= 0 || |s.table.commands| < r.limit)
             && (forall c | c in s.table.commands :: !IsFor(c, typeId, ca, ioa, link))
    ensures var s := Run(r, Start(t0), es);
            var dialogue := Dialogue(typeId, ca, ioa, link, sent, confirmed, terminated);
            && Feasible(r, s, dialogue)
            && Run(r, s, dialogue).table.commands == s.table.commands
            && Left(Run(r, s, dialogue).table.departed, s.table.accepted) == 1
  {
    RunKeepsInv(r, Start(t0), es);
    var s := Run(r, Start(t0), es);
    var e1, e2 := Submitted(typeId, ca, ioa, Some(link), sent), Answered(typeId, ca, ioa, link, 7, confirmed);
    var e3 := Answered(typeId, ca, ioa, link, 10, terminated);
    hide Run, Feasible;
    var s1 := Sending(r, s, e1);
    var s2 := Step(r, s1, e2);
    StepKeepsInv(r, s1, e2);
    LastIsAnswered(r, s1, e2);
    if EndsOnConfirmation(typeId) {
      IsGone(s2.table, s.table);
      RunThree(r, s, e1, e2, []);
    } else {
      StepKeepsInv(r, s2, e3);
      LastIsAnswered(r, s2, e3);
      IsGone(Step(r, s2, e3).table, s.table);
      RunThree(r, s, e1, e2, [e3]);
    }
  }

  /** The last entry is the only one that the event answers. */
  ghost predicate AwaitsLast(s: System, e: Event) {
    && e.Answered? && s.table.commands != []
    && (forall i | 0 <= i < |s.table.commands| ::
          IsFor(s.table.commands[i], e.typeId, e.ca, e.ioa, e.link) <==> i == |s.table.commands| - 1)
  }

  lemma Sending(r: Rules, s: System, e: Event) returns (t: System)
    requires Inv(r, s) && Enabled(r, s, e) && e.Submitted? && e.con.Some?
    requires r.limit <= 0 || |s.table.commands| < r.limit
    requires forall c | c in s.table.commands :: !IsFor(c, e.typeId, e.ca, e.ioa, e.con.value)
    ensures t == Step(r, s, e) && Inv(r, t)
    ensures |t.table.commands| == |s.table.commands| + 1
    ensures t.table.commands[..|s.table.commands|] == s.table.commands && t.table.accepted == s.table.accepted + 1
    ensures AwaitsLast(t, Answered(e.typeId, e.ca, e.ioa, e.con.value, 7, e.at))
  {
    t := Step(r, s, e);
    StepKeepsInv(r, s, e);
    SentCommandIsQueued(s.table, r.limit, true, e.typeId, e.ca, e.ioa, e.con, e.at);
    forall i | 0 <= i < |s.table.commands| ensures t.table.commands[i] in s.table.commands {
      assert t.table.commands[i] == s.table.commands[i];
    }
  }

  lemma LastIsAnswered(r: Rules, s: System, e: Event)
    requires Conserved(s.table) && AwaitsLast(s, e) && e.cot in {7, 10}
    ensures var n, t := |s.table.commands| - 1, Step(r, s, e);
            && t.table.accepted == s.table.accepted
            && (if e.cot == (if EndsOnConfirmation(e.typeId) then 7 else 10)
                then t.table.commands == s.table.commands[..n]
                else e.cot == 7 ==> |t.table.commands| == n + 1 && t.table.commands[..n] == s.table.commands[..n]
                                    && AwaitsLast(t, e))
  {
    var n := |s.table.commands| - 1;
    ReplyReachesItsCommand(s.table, n, e.typeId, e.ca, e.ioa, e.link, e.cot, e.at);
  }

  lemma IsGone(t: Table, before: Table)
    requires Conserved(t) && Conserved(before) && t.commands == before.commands && t.accepted == before.accepted + 1
    ensures Left(t.departed, before.accepted) == 1
  {
    assert Held(before.commands, before.accepted) == 0;
  }

  lemma RunThree(r: Rules, s: System, e1: Event, e2: Event, rest: seq<Event>)
    requires |rest| <= 1
    ensures var s2 := Step(r, Step(r, s, e1), e2);
            && Run(r, s, [e1] + [e2] + rest) == (if rest == [] then s2 else Step(r, s2, rest[0]))
            && (Feasible(r, s, [e1] + [e2] + rest) <==>
                  Enabled(r, s, e1) && Enabled(r, Step(r, s, e1), e2) && (rest == [] || Enabled(r, s2, rest[0])))
  {
    hide Step, Enabled;
    var s1 := Step(r, s, e1);
    var s2 := Step(r, s1, e2);
    assert ([e1] + [e2] + rest)[1..] == [e2] + rest && ([e2] + rest)[1..] == rest;
    assert Run(r, s1, [e2] + rest) == Run(r, s2, rest);
    assert Feasible(r, s1, [e2] + rest) <==> Enabled(r, s1, e2) && Feasible(r, s2, rest);
    if rest != [] {
      assert rest[1..] == [];
      assert Run(r, Step(r, s2, rest[0]), []) == Step(r, s2, rest[0]);
      assert Feasible(r, Step(r, s2, rest[0]), []);
    }
  }

  lemma {:induction false} HistoryIsPermanent(r: Rules, s: System, es: seq<Event>, id: nat)
    ensures Left(Run(r, s, es).table.departed, id) >= Left(s.table.departed, id)
    ensures Run(r, s, es).table.accepted >= s.table.accepted
    decreases es
  {
    if es != [] {
      var t := Step(r, s, es[0]).table;
      HistoryIsPermanent(r, Step(r, s, es[0]), es[1..], id);
      var ds := Leavers(r, s, es[0]);
      LeftConcat(s.table.departed, ds, id);
    }
  }

  /** A command that has left never comes back, whatever happens later. */
  lemma DepartedCommandsStayOut(r: Rules, t0: int, before: seq<Event>, later: seq<Event>, id: nat)
    requires Feasible(r, Start(t0), before) && Feasible(r, Run(r, Start(t0), before), later)
    requires Left(Run(r, Start(t0), before).table.departed, id) == 1
    ensures Held(Run(r, Run(r, Start(t0), before), later).table.commands, id) == 0
  {
    RunKeepsInv(r, Start(t0), before);
    var s := Run(r, Start(t0), before);
    RunKeepsInv(r, s, later);
    HistoryIsPermanent(r, s, later, id);
  }
}
