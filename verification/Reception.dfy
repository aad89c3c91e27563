/** What a received ASDU means to the client: which objects become data points, which
    configured points it answers, whether it asks for an interrogation, and what it does
    to the outstanding commands. */
module Reception {
  import opened Protocol
  import opened Exchange
  import opened TypeMatching
  import Commands

  /** The types that the switch of handleASDU forwards; commands come back as replies. */
  predicate IsForwarded(typeId: int) {
    || typeId in {M_ME_NB_1, M_SP_NA_1, M_SP_TB_1, M_DP_NA_1, M_DP_TB_1, M_ST_NA_1, M_ST_TB_1,
                  M_ME_NA_1, M_ME_TD_1, M_ME_TE_1, M_ME_NC_1, M_ME_TF_1}
    || IsForwardedCommand(typeId)
  }

  predicate IsForwardedCommand(typeId: int) {
    C_SC_NA_1 <= typeId <= C_SE_NC_1 || C_SC_TA_1 <= typeId <= C_SE_TC_1
  }

  datatype Datapoint = Datapoint(typeId: int, ca: int, cot: int, negative: bool, ioa: int, tag: string, value: int)

  /** The data points an object yields: one if its address is configured with a matching
      type and the type is forwarded, otherwise none. */
  function Deliver(defs: Definitions, a: Asdu, o: InfoObject): seq<Datapoint> {
    if o.Object? && Check(defs, a.typeId, a.ca, o.ioa).Some? && IsForwarded(a.typeId)
    then [Datapoint(a.typeId, a.ca, a.cot, a.negative, o.ioa, Check(defs, a.typeId, a.ca, o.ioa).value, o.value)]
    else []
  }

  function Deliveries(defs: Definitions, a: Asdu, n: nat): seq<Datapoint>
    requires n <= |a.objects|
  {
    if n == 0 then [] else Deliveries(defs, a, n - 1) + Deliver(defs, a, a.objects[n - 1])
  }

  /** Whether handleASDU reports the ASDU as handled: yes for forwarded types, and also for
      any ASDU without a decodable object. */
  predicate IsHandled(a: Asdu, n: nat)
    requires n <= |a.objects|
  {
    n == 0 || (IsHandled(a, n - 1) && (a.objects[n - 1].Undecodable? || IsForwarded(a.typeId)))
  }

  /** The types that count as handled, by number: single, double and step points and measured
      values with and without time tag, and all commands up to the short set-point. */
  lemma {:induction false} HandledMeans(a: Asdu, n: nat)
    requires n <= |a.objects|
    ensures IsHandled(a, n) <==>
              || a.typeId in {1, 3, 5, 9, 11, 13, 30, 31, 32, 34, 35, 36}
              || 45 <= a.typeId <= 50 || 58 <= a.typeId <= 63
              || forall i | 0 <= i < n :: a.objects[i].Undecodable?
  {
    if n > 0 { HandledMeans(a, n - 1); }
  }

  /** The station-group points an interrogation response answers, in order of arrival.
      The type must match, but need not be one that is forwarded. */
  function Answer(defs: Definitions, a: Asdu, o: InfoObject): seq<Definition> {
    if && IsInterrogationResponse(a) && o.Object? && Check(defs, a.typeId, a.ca, o.ioa).Some?
       && InStationGroup(Lookup(defs, a.ca, o.ioa).value)
    then [Lookup(defs, a.ca, o.ioa).value] else []
  }

  function Answered(defs: Definitions, a: Asdu, n: nat): seq<Definition>
    requires n <= |a.objects|
  {
    if n == 0 then [] else Answered(defs, a, n - 1) + Answer(defs, a, a.objects[n - 1])
  }

  /** Off, the triggering value: 0 for a single point, 1 for a double point. */
  predicate HasTriggerValue(typeId: int, value: int) {
    || (typeId in {M_SP_NA_1, M_SP_TA_1, M_SP_TB_1} && value == 0)
    || (typeId in {M_DP_NA_1, M_DP_TA_1, M_DP_TB_1} && value == 1)
  }

  /** isAsduTriggerGi for the data point of an object. */
  predicate TriggersGi(triggers: set<(int, int)>, a: Asdu, p: Datapoint) {
    (a.ca, p.ioa) in triggers && !IsInterrogationResponse(a) && HasTriggerValue(a.typeId, p.value)
  }

  predicate IsTrigger(defs: Definitions, triggers: set<(int, int)>, a: Asdu, o: InfoObject) {
    Deliver(defs, a, o) != [] && TriggersGi(triggers, a, Deliver(defs, a, o)[0])
  }

  predicate Triggers(defs: Definitions, triggers: set<(int, int)>, a: Asdu, n: nat)
    requires n <= |a.objects|
  {
    n > 0 && (Triggers(defs, triggers, a, n - 1) || IsTrigger(defs, triggers, a, a.objects[n - 1]))
  }

  /** The effect of one object on the outstanding commands. */
  function ReplyFor(defs: Definitions, a: Asdu, o: InfoObject, t: Commands.Table, con: nat, now: int): Commands.Table {
    if o.Object? && Check(defs, a.typeId, a.ca, o.ioa).Some? && IsForwardedCommand(a.typeId)
    then Commands.Reply(t, a.typeId, a.ca, o.ioa, con, a.cot, now)
    else t
  }

  /** The effect of the first `n` objects on the outstanding commands. */
  function Replies(defs: Definitions, a: Asdu, n: nat, t: Commands.Table, con: nat, now: int): Commands.Table
    requires n <= |a.objects|
  {
    if n == 0 then t
    else ReplyFor(defs, a, a.objects[n - 1], Replies(defs, a, n - 1, t, con, now), con, now)
  }

  // ---- what the folds over the objects mean ----

  /** Whether the object is configured with a matching, forwarded type. */
  predicate IsDelivered(defs: Definitions, a: Asdu, o: InfoObject) {
    o.Object? && IsForwarded(a.typeId) && Check(defs, a.typeId, a.ca, o.ioa).Some?
  }

  function DeliveredBefore(defs: Definitions, a: Asdu, n: nat): nat
    requires n <= |a.objects|
  {
    if n == 0 then 0
    else DeliveredBefore(defs, a, n - 1) + if IsDelivered(defs, a, a.objects[n - 1]) then 1 else 0
  }

  /** The data point of a deliverable object: its own address and value, the configured tag. */
  function PointFor(defs: Definitions, a: Asdu, o: InfoObject): Datapoint
    requires IsDelivered(defs, a, o)
  {
    Datapoint(a.typeId, a.ca, a.cot, a.negative, o.ioa, Lookup(defs, a.ca, o.ioa).value.tag, o.value)
  }

  lemma DeliverMeans(defs: Definitions, a: Asdu, o: InfoObject)
    ensures Deliver(defs, a, o) == if IsDelivered(defs, a, o) then [PointFor(defs, a, o)] else []
  {
  }

  /** The data point of an object, field by field. */
  predicate Reports(defs: Definitions, a: Asdu, o: InfoObject, p: Datapoint) {
    && o.Object? && p.typeId == a.typeId && p.cot == a.cot && p.negative == a.negative
    && p.ca == a.ca && p.ioa == o.ioa && p.value == o.value
    && Lookup(defs, a.ca, o.ioa).Some? && p.tag == Lookup(defs, a.ca, o.ioa).value.tag
  }

  /** The data points are the filtered and mapped objects, in order of arrival: as many as
      there are deliverable objects, and the i-th object, if deliverable, comes right after
      those delivered before it. */
  lemma {:induction false} DeliveriesFilterAndMap(defs: Definitions, a: Asdu, n: nat, i: nat)
    requires i < n <= |a.objects|
    ensures |Deliveries(defs, a, n)| == DeliveredBefore(defs, a, n)
    ensures IsDelivered(defs, a, a.objects[i]) ==>
              && DeliveredBefore(defs, a, i) < |Deliveries(defs, a, n)|
              && Deliveries(defs, a, n)[DeliveredBefore(defs, a, i)] == PointFor(defs, a, a.objects[i])
              && Reports(defs, a, a.objects[i], Deliveries(defs, a, n)[DeliveredBefore(defs, a, i)])
  {
    if IsDelivered(defs, a, a.objects[i]) {
      assert Reports(defs, a, a.objects[i], PointFor(defs, a, a.objects[i]));
    }
    hide Deliver, IsDelivered, PointFor;
    DeliverMeans(defs, a, a.objects[n - 1]);
    if n > 1 {
      DeliveriesFilterAndMap(defs, a, n - 1, if i < n - 1 then i else 0);
    }
  }

  /** The points answered are exactly the station-group points configured, with a matching
      type, at the addresses of the objects received. */
  lemma {:induction false} AnsweredMeans(defs: Definitions, a: Asdu, n: nat, d: Definition)
    requires WellKeyed(defs) && n <= |a.objects|
    ensures d in Answered(defs, a, n) <==>
              && a.cot == 20 && d.ca == a.ca && d.giGroups % 2 == 1
              && Lookup(defs, d.ca, d.ioa) == Some(d) && IsMessageTypeMatching(d.typeId, a.typeId)
              && exists i :: 0 <= i < n && a.objects[i].Object? && a.objects[i].ioa == d.ioa
  {
    hide IsMessageTypeMatching;
    if n > 0 {
      AnsweredMeans(defs, a, n - 1, d);
      AnswerMeans(defs, a, a.objects[n - 1], d);
    }
  }

  lemma AnswerMeans(defs: Definitions, a: Asdu, o: InfoObject, d: Definition)
    requires WellKeyed(defs)
    ensures d in Answer(defs, a, o) <==>
              && a.cot == 20 && d.ca == a.ca && d.giGroups % 2 == 1
              && Lookup(defs, d.ca, d.ioa) == Some(d) && IsMessageTypeMatching(d.typeId, a.typeId)
              && o.Object? && o.ioa == d.ioa
  {
    hide IsMessageTypeMatching;
  }

  /** An ASDU asks for an interrogation exactly when one of its objects is a delivered single
      or double point that went off, spontaneously or otherwise unasked, at a trigger address. */
  lemma {:induction false} TriggersMean(defs: Definitions, triggers: set<(int, int)>, a: Asdu, n: nat)
    requires n <= |a.objects|
    ensures Triggers(defs, triggers, a, n) <==>
              exists i :: 0 <= i < n && IsDelivered(defs, a, a.objects[i])
                && (a.ca, a.objects[i].ioa) in triggers && a.cot != 20
                && ((a.typeId in {1, 2, 30} && a.objects[i].value == 0)
                    || (a.typeId in {3, 4, 31} && a.objects[i].value == 1))
  {
    if n > 0 {
      TriggersMean(defs, triggers, a, n - 1);
      var o := a.objects[n - 1];
      assert IsTrigger(defs, triggers, a, o) <==>
        IsDelivered(defs, a, o) && (a.ca, o.ioa) in triggers && a.cot != 20
        && ((a.typeId in {1, 2, 30} && o.value == 0) || (a.typeId in {3, 4, 31} && o.value == 1));
    }
  }

  // ---- the list of points not yet answered ----

  /** The stable filter: points of the list that are not in the set. */
  function Minus(list: seq<Definition>, seen: set<Definition>): (r: seq<Definition>)
    ensures forall d :: d in r <==> d in list && d !in seen
  {
    if list == [] then []
    else (if list[0] in seen then [] else [list[0]]) + Minus(list[1..], seen)
  }

  lemma {:induction false} MinusNothing(list: seq<Definition>)
    ensures Minus(list, {}) == list
  {
    if list != [] { MinusNothing(list[1..]); }
  }

  lemma {:induction false} MinusConcat(a: seq<Definition>, b: seq<Definition>, seen: set<Definition>)
    ensures Minus(a + b, seen) == Minus(a, seen) + Minus(b, seen)
  {
    if a == [] {
      assert a + b == b;
    } else {
      assert (a + b)[1..] == a[1..] + b;
      MinusConcat(a[1..], b, seen);
    }
  }

  lemma MinusStep(list: seq<Definition>, i: nat, seen: set<Definition>)
    requires i < |list|
    ensures Minus(list[..i + 1], seen) == Minus(list[..i], seen) + if list[i] in seen then [] else [list[i]]
  {
    assert list[..i + 1] == list[..i] + [list[i]];
    MinusConcat(list[..i], [list[i]], seen);
  }

  /** Answered points leave one by one, each with all its occurrences. */
  function WithoutAll(list: seq<Definition>, ds: seq<Definition>): seq<Definition>
    decreases ds
  {
    if ds == [] then list else Minus(WithoutAll(list, ds[..|ds| - 1]), {ds[|ds| - 1]})
  }

  lemma {:induction false} MinusTwice(list: seq<Definition>, seen: set<Definition>, d: Definition)
    ensures Minus(Minus(list, seen), {d}) == Minus(list, seen + {d})
  {
    if list != [] {
      MinusTwice(list[1..], seen, d);
      if list[0] in seen {
        assert Minus(list, seen) == Minus(list[1..], seen);
      } else {
        assert Minus(list, seen)[1..] == Minus(list[1..], seen);
      }
    }
  }

  /** Removing answered points one by one, in any order and with repetitions, leaves the
      configured list minus the set of answered points. */
  lemma {:induction false} WithoutAllIsMinus(list: seq<Definition>, seen: set<Definition>, ds: seq<Definition>)
    ensures WithoutAll(Minus(list, seen), ds) == Minus(list, seen + (set d | d in ds))
    decreases ds
  {
    hide Minus;
    if ds == [] {
      assert seen + (set d | d in ds) == seen;
    } else {
      var front, last := ds[..|ds| - 1], ds[|ds| - 1];
      WithoutAllIsMinus(list, seen, front);
      MinusTwice(list, seen + (set d | d in front), last);
      assert ds == front + [last];
      assert seen + (set d | d in front) + {last} == seen + (set d | d in ds);
    }
  }

  // ---- lookups between two uses do not matter ----

  lemma {:induction false} MeaningSeesOnlyTheView(d: Definitions, e: Definitions, a: Asdu, n: nat)
    requires SameView(d, e) && n <= |a.objects|
    ensures Deliveries(d, a, n) == Deliveries(e, a, n)
    ensures Answered(d, a, n) == Answered(e, a, n)
  {
    if n > 0 { MeaningSeesOnlyTheView(d, e, a, n - 1); }
  }

  lemma {:induction false} TriggersSeeOnlyTheView(d: Definitions, e: Definitions, tr: set<(int, int)>, a: Asdu, n: nat)
    requires SameView(d, e) && n <= |a.objects|
    ensures Triggers(d, tr, a, n) == Triggers(e, tr, a, n)
  {
    if n > 0 { TriggersSeeOnlyTheView(d, e, tr, a, n - 1); }
  }

  /** A command that passed the exchange check for its untimed type gets its replies
      delivered, whatever lookups happen in between: an ASDU with the type actually sent
      at that address yields a data point and reaches the command table. */
  lemma AcceptedCommandGetsItsReplies(
      defs: Definitions, between: seq<(int, int)>, untimed: int, withTime: bool, reply: Asdu, i: nat,
      t: Commands.Table, con: nat, now: int)
    requires C_SC_NA_1 <= untimed <= C_SE_NC_1
    requires i < |reply.objects| && reply.objects[i].Object?
    requires reply.typeId == if withTime then untimed + 13 else untimed
    requires Check(defs, untimed, reply.ca, reply.objects[i].ioa).Some?
    ensures var later := TouchAll(defs, between);
            && IsHandled(reply, |reply.objects|)
            && |Deliver(later, reply, reply.objects[i])| == 1
            && Deliver(later, reply, reply.objects[i])[0].tag
                 == Check(defs, untimed, reply.ca, reply.objects[i].ioa).value
            && Replies(later, reply, i + 1, t, con, now) ==
                 Commands.Reply(Replies(later, reply, i, t, con, now),
                                reply.typeId, reply.ca, reply.objects[i].ioa, con, reply.cot, now)
  {
    LookupsAreInvisible(defs, between);
    HandledMeans(reply, |reply.objects|);
  }
}
