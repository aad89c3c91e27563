/** The parallel-command limit when size check and append are separate steps of many
    caller threads. Single vector operations are atomic; anything may shrink the table
    at any moment, but only a caller inside addOutstandingCommandAndCheckLimit appends. */
module ParallelLimit {
  import opened Protocol

  /** Where a caller is inside addOutstandingCommandAndCheckLimit. */
  datatype Pc = Outside | Locked | Admitted | Done

  /** `mutex` is whether callers hold the active-connection mutex while inside, as the
      source does. */
  datatype System = System(mutex: bool, limit: nat, table: seq<nat>, owner: Option<nat>, pcs: map<nat, Pc>)

  datatype Step =
    | Lock(thread: nat)
    | CheckSize(thread: nat)
    | Append(thread: nat, id: nat)
    | Unlock(thread: nat)
    | Shrink(gone: set<nat>)

  function At(s: System, thread: nat): Pc {
    if thread in s.pcs then s.pcs[thread] else Outside
  }

  predicate Enabled(s: System, e: Step) {
    match e
    case Lock(t) => (s.mutex ==> s.owner == None) && At(s, t) == Outside
    case CheckSize(t) => At(s, t) == Locked
    case Append(t, _) => At(s, t) == Admitted
    case Unlock(t) => At(s, t) == Locked || At(s, t) == Done
    case Shrink(_) => true
  }

  function Remaining(table: seq<nat>, gone: set<nat>): (r: seq<nat>)
    ensures |r| <= |table|
  {
    if table == [] then []
    else (if table[0] in gone then [] else [table[0]]) + Remaining(table[1..], gone)
  }

  function Next(s: System, e: Step): System {
    match e
    case Lock(t) => s.(owner := Some(t), pcs := s.pcs[t := Locked])
    case CheckSize(t) =>
      s.(pcs := s.pcs[t := if s.limit == 0 || |s.table| < s.limit then Admitted else Done])
    case Append(t, id) => s.(table := s.table + [id], pcs := s.pcs[t := Done])
    case Unlock(t) => s.(owner := None, pcs := s.pcs[t := Outside])
    case Shrink(gone) => s.(table := Remaining(s.table, gone))
  }

  function Run(s: System, es: seq<Step>): System
    decreases es
  {
    if es == [] then s else Run(Next(s, es[0]), es[1..])
  }

  ghost predicate Feasible(s: System, es: seq<Step>)
    decreases es
  {
    es == [] || (Enabled(s, es[0]) && Feasible(Next(s, es[0]), es[1..]))
  }

  function Initial(mutex: bool, limit: nat): System {
    System(mutex, limit, [], None, map[])
  }

  // ---- with the mutex ----

  /** Only the mutex owner is inside; an admitted owner still has room. */
  ghost predicate Inv(s: System) {
    && s.mutex
    && (forall t: nat :: At(s, t) != Outside ==> s.owner == Some(t))
    && (s.limit > 0 ==> |s.table| <= s.limit)
    && (s.limit > 0 && s.owner.Some? && At(s, s.owner.value) == Admitted ==> |s.table| < s.limit)
  }

  lemma StepKeepsInv(s: System, e: Step)
    requires Inv(s) && Enabled(s, e)
    ensures Inv(Next(s, e))
  {
  }

  lemma {:induction false} LimitHoldsUnderInterleaving(limit: nat, s: System, es: seq<Step>)
    requires s.limit == limit && Inv(s) && Feasible(s, es)
    ensures Run(s, es).limit == limit && Inv(Run(s, es))
    decreases es
  {
    if es != [] {
      StepKeepsInv(s, es[0]);
      LimitHoldsUnderInterleaving(limit, Next(s, es[0]), es[1..]);
    }
  }

  /** Any number of callers, any interleaving with removals: a positive limit is never exceeded. */
  lemma ParallelLimitIsNeverExceeded(limit: nat, es: seq<Step>)
    requires limit > 0 && Feasible(Initial(true, limit), es)
    ensures |Run(Initial(true, limit), es).table| <= limit
  {
    LimitHoldsUnderInterleaving(limit, Initial(true, limit), es);
  }

  // ---- without it ----

  lemma {:induction false} RunConcat(s: System, a: seq<Step>, b: seq<Step>)
    ensures Run(s, a + b) == Run(Run(s, a), b)
    ensures Feasible(s, a + b) == (Feasible(s, a) && Feasible(Run(s, a), b))
    decreases a
  {
    if a == [] {
      assert a + b == b;
    } else {
      assert (a + b)[1..] == a[1..] + b;
      RunConcat(Next(s, a[0]), a[1..], b);
    }
  }

  lemma RunOne(s: System, e: Step)
    ensures Run(s, [e]) == Next(s, e) && Feasible(s, [e]) == Enabled(s, e)
  {
    assert [e][1..] == [];
    assert Run(Next(s, e), []) == Next(s, e);
  }

  /** Callers 0 to n-1 check the size of the empty table one after the other. */
  function Checks(n: nat): seq<Step> {
    if n == 0 then [] else Checks(n - 1) + ([Lock(n - 1)] + [CheckSize(n - 1)])
  }

  /** Then each of them appends. */
  function Appends(n: nat): seq<Step> {
    if n == 0 then [] else Appends(n - 1) + [Append(n - 1, n - 1)]
  }

  lemma {:induction false} AllAreAdmitted(limit: nat, n: nat)
    requires limit > 0
    ensures Feasible(Initial(false, limit), Checks(n))
    ensures var s := Run(Initial(false, limit), Checks(n));
            && !s.mutex && s.limit == limit && s.table == []
            && forall t: nat :: At(s, t) == if t < n then Admitted else Outside
  {
    if n > 0 {
      var s := Run(Initial(false, limit), Checks(n - 1));
      AllAreAdmitted(limit, n - 1);
      var s1 := Next(s, Lock(n - 1));
      var s2 := Next(s1, CheckSize(n - 1));
      assert At(s, n - 1) == Outside && At(s1, n - 1) == Locked && At(s2, n - 1) == Admitted;
      assert forall t: nat | t != n - 1 :: At(s2, t) == At(s, t);
      RunOne(s, Lock(n - 1));
      RunOne(s1, CheckSize(n - 1));
      RunConcat(s, [Lock(n - 1)], [CheckSize(n - 1)]);
      RunConcat(Initial(false, limit), Checks(n - 1), [Lock(n - 1)] + [CheckSize(n - 1)]);
      assert Run(Initial(false, limit), Checks(n)) == s2;
    }
  }

  lemma {:induction false} AllAppend(s: System, n: nat)
    requires s.table == [] && forall t: nat | t < n :: At(s, t) == Admitted
    ensures Feasible(s, Appends(n)) && |Run(s, Appends(n)).table| == n
    ensures forall t: nat | t >= n :: At(Run(s, Appends(n)), t) == At(s, t)
  {
    if n > 0 {
      AllAppend(s, n - 1);
      var u := Run(s, Appends(n - 1));
      assert At(u, n - 1) == Admitted;
      RunOne(u, Append(n - 1, n - 1));
      RunConcat(s, Appends(n - 1), [Append(n - 1, n - 1)]);
    }
  }

  ghost predicate NeverExceeded(mutex: bool, limit: nat) {
    forall es | Feasible(Initial(mutex, limit), es) :: |Run(Initial(mutex, limit), es).table| <= limit
  }

  /** The mutex is what keeps the limit: for every positive limit, no interleaving exceeds it
      if and only if callers hold the mutex across check and append. Without it one caller
      more than the limit suffices. */
  lemma LimitNeedsTheMutex(mutex: bool, limit: nat)
    requires limit > 0
    ensures NeverExceeded(mutex, limit) <==> mutex
  {
    if mutex {
      forall es | Feasible(Initial(true, limit), es) ensures |Run(Initial(true, limit), es).table| <= limit {
        ParallelLimitIsNeverExceeded(limit, es);
      }
    } else {
      AllAreAdmitted(limit, limit + 1);
      AllAppend(Run(Initial(false, limit), Checks(limit + 1)), limit + 1);
      RunConcat(Initial(false, limit), Checks(limit + 1), Appends(limit + 1));
      assert Feasible(Initial(false, limit), Checks(limit + 1) + Appends(limit + 1));
    }
  }
}
